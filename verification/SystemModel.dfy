/** The whole system as a value: dispatching arrivals, one tick, and a run of many ticks. */
module SystemModel {
  import opened Wrappers
  import opened Model

  /** `pending` lists the clients that have not arrived yet, next one first. */
  datatype System = System(pending: seq<Client>, standard: seq<Server>, robotic: seq<Server>)

  /** The outcome of the success test of each server (standard ones first) at each tick. */
  type Luck = (nat, nat) -> bool

  /** The success tests of the servers from number `offset` on, at tick `t`. */
  function Slice(luck: Luck, t: nat, offset: nat): nat -> bool {
    (i: nat) => luck(t, offset + i)
  }

  // ---------------------------------------------------------------- dispatching

  /** Server `i` has the least load, and is the first such server. */
  ghost predicate LeastLoaded(ss: seq<Server>, d: Disability, i: nat) {
    i < |ss| && forall j :: 0 <= j < |ss| ==>
      Load(ss[i], d) <= Load(ss[j], d) && (j < i ==> Load(ss[i], d) < Load(ss[j], d))
  }

  function ArgMin(ss: seq<Server>, d: Disability): (i: nat)
    requires ss != []
    ensures LeastLoaded(ss, d, i)
  {
    var last := |ss| - 1;
    if last == 0 then 0 else
      var i := ArgMin(ss[..last], d);
      assert forall j :: 0 <= j < last ==> ss[..last][j] == ss[j];
      if Load(ss[last], d) < Load(ss[i], d) then last else i
  }

  datatype Target = ToStandard(i: nat) | ToRobotic(i: nat)

  /** assign_client */
  function Dispatch(sys: System, d: Disability): Target
    requires sys.standard != [] || sys.robotic != []
  {
    if !d.NoDisability? && sys.robotic != [] then ToRobotic(ArgMin(sys.robotic, d))
    else if sys.standard == [] then ToRobotic(ArgMin(sys.robotic, d))
    else if sys.robotic == [] then ToStandard(ArgMin(sys.standard, d))
    else
      var i, j := ArgMin(sys.standard, d), ArgMin(sys.robotic, d);
      if Load(sys.robotic[j], d) < Load(sys.standard[i], d) then ToRobotic(j) else ToStandard(i)
  }

  // ---------------------------------------------------------------- ticks

  /** get_client: at most the first pending client, and only at its very arrival time. */
  function GetClient(pending: seq<Client>, t: int): (Option<Client>, seq<Client>) {
    if pending != [] && pending[0].arrival == t then (Some(Enter(pending[0], t)), pending[1..])
    else (None, pending)
  }

  /** Servers of one kind. */
  ghost predicate Team(ss: seq<Server>, robotic: bool, table: Times) {
    forall i :: 0 <= i < |ss| ==> ss[i].kind.Robotic? == robotic && HasTimes(ss[i].kind, table)
  }

  /** Every service of every server takes time. */
  ghost predicate AllCanServe(ss: seq<Server>, table: Times) {
    forall i :: 0 <= i < |ss| ==> CanServe(ss[i].kind, table)
  }

  ghost predicate Equipped(sys: System, table: Times) {
    (sys.standard != [] || sys.robotic != []) && Team(sys.standard, false, table) && Team(sys.robotic, true, table)
  }

  ghost predicate Capable(sys: System, table: Times) {
    AllCanServe(sys.standard, table) && AllCanServe(sys.robotic, table)
  }

  /** The client goes to the server at its target, all others get none. */
  function ShareOf(c: Option<Client>, here: bool): Option<Client> {
    if here then c else None
  }

  function ArriveAll(ss: seq<Server>, c: Option<Client>, target: Option<nat>): (r: seq<Server>)
    ensures |r| == |ss| && forall i :: 0 <= i < |ss| ==> r[i] == Arrive(ss[i], ShareOf(c, target == Some(i)))
  {
    seq(|ss|, i requires 0 <= i < |ss| => Arrive(ss[i], ShareOf(c, target == Some(i))))
  }

  lemma ArriveNowhere(ss: seq<Server>, c: Option<Client>)
    ensures ArriveAll(ss, c, None) == ss && ArriveAll(ss, None, None) == ss
  {
  }

  function ClockAll(ss: seq<Server>): (r: seq<Server>)
    ensures |r| == |ss| && forall i :: 0 <= i < |ss| ==> r[i] == Clock(ss[i])
  {
    seq(|ss|, i requires 0 <= i < |ss| => Clock(ss[i]))
  }

  /** update_clients on all servers of one kind; `ok(i)` is the success test of server `i`. */
  ghost function ServeAll(ss: seq<Server>, robotic: bool, t: nat, ok: nat -> bool, table: Times): (r: seq<Server>)
    requires Team(ss, robotic, table)
    ensures |r| == |ss| && forall i :: 0 <= i < |ss| ==>
      r[i] == UpdateStat(Serve(ss[i], t, ok(i), ServiceTimes(ss[i].kind, table)), t)
  {
    seq(|ss|, i requires 0 <= i < |ss| => UpdateStat(Serve(ss[i], t, ok(i), ServiceTimes(ss[i].kind, table)), t))
  }

  ghost function TickOf(s: Server, t: nat, arrival: Option<Client>, ok: bool, table: Times): (r: Server)
    requires HasTimes(s.kind, table)
    ensures r.kind == s.kind
  {
    TickServer(s, t, arrival, ok, ServiceTimes(s.kind, table))
  }

  /** One tick of one kind of servers; `target` is where the arrival goes, if it goes to one of them. */
  ghost function TickTeam(ss: seq<Server>, robotic: bool, t: nat, c: Option<Client>, target: Option<nat>,
                          ok: nat -> bool, table: Times): (r: seq<Server>)
    requires Team(ss, robotic, table)
    ensures |r| == |ss| && Team(r, robotic, table) && (AllCanServe(ss, table) ==> AllCanServe(r, table))
    ensures forall i :: 0 <= i < |ss| ==> r[i] == TickOf(ss[i], t, ShareOf(c, target == Some(i)), ok(i), table)
  {
    ServeAll(ClockAll(ArriveAll(ss, c, target)), robotic, t, ok, table)
  }

  function StandardTarget(sys: System, c: Option<Client>): Option<nat>
    requires sys.standard != [] || sys.robotic != []
  {
    if c.None? then None else
    match Dispatch(sys, c.value.key.disability) case ToStandard(i) => Some(i) case ToRobotic(_) => None
  }

  function RoboticTarget(sys: System, c: Option<Client>): Option<nat>
    requires sys.standard != [] || sys.robotic != []
  {
    if c.None? then None else
    match Dispatch(sys, c.value.key.disability) case ToStandard(_) => None case ToRobotic(i) => Some(i)
  }

  /** The system after the client `c`, if any, has been assigned. */
  function Deliver(sys: System, c: Option<Client>): (r: System)
    requires sys.standard != [] || sys.robotic != []
    ensures |r.standard| == |sys.standard| && |r.robotic| == |sys.robotic|
    ensures forall table :: Equipped(sys, table) ==> Equipped(r, table)
    ensures forall table :: Capable(sys, table) ==> Capable(r, table)
  {
    sys.(standard := ArriveAll(sys.standard, c, StandardTarget(sys, c)),
         robotic := ArriveAll(sys.robotic, c, RoboticTarget(sys, c)))
  }

  /** Only the chosen server changes. */
  lemma DeliverTo(sys: System, c: Client)
    requires sys.standard != [] || sys.robotic != []
    ensures var target := Dispatch(sys, c.key.disability);
      if target.ToStandard? then
        target.i < |sys.standard| &&
        Deliver(sys, Some(c)) == sys.(standard := ArriveAll(sys.standard, Some(c), Some(target.i)))
      else
        target.i < |sys.robotic| &&
        Deliver(sys, Some(c)) == sys.(robotic := ArriveAll(sys.robotic, Some(c), Some(target.i)))
  {
    ArriveNowhere(sys.standard, Some(c));
    ArriveNowhere(sys.robotic, Some(c));
  }

  /** servers_run: all servers tick, then all are served and update their statistics. */
  ghost function RunServers(sys: System, t: nat, luck: Luck, table: Times): (r: System)
    requires Equipped(sys, table)
    ensures |r.standard| == |sys.standard| && |r.robotic| == |sys.robotic| && Equipped(r, table)
    ensures Capable(sys, table) ==> Capable(r, table)
  {
    sys.(standard := ServeAll(ClockAll(sys.standard), false, t, Slice(luck, t, 0), table),
         robotic := ServeAll(ClockAll(sys.robotic), true, t, Slice(luck, t, |sys.standard|), table))
  }

  /** system_tick: dispatch an arrival, then let every server tick, serve and update its statistics. */
  ghost function Tick(sys: System, t: nat, luck: Luck, table: Times): (r: System)
    requires Equipped(sys, table)
    ensures |r.standard| == |sys.standard| && |r.robotic| == |sys.robotic| && Equipped(r, table)
    ensures Capable(sys, table) ==> Capable(r, table)
  {
    var (c, rest) := GetClient(sys.pending, t);
    System(rest,
           TickTeam(sys.standard, false, t, c, StandardTarget(sys, c), Slice(luck, t, 0), table),
           TickTeam(sys.robotic, true, t, c, RoboticTarget(sys, c), Slice(luck, t, |sys.standard|), table))
  }

  /** Who is still to come has no say in the choice of a server. */
  lemma TargetsIgnorePending(sys: System, rest: seq<Client>, c: Option<Client>)
    requires sys.standard != [] || sys.robotic != []
    ensures StandardTarget(sys.(pending := rest), c) == StandardTarget(sys, c)
    ensures RoboticTarget(sys.(pending := rest), c) == RoboticTarget(sys, c)
    ensures c.None? ==> StandardTarget(sys, c) == None && RoboticTarget(sys, c) == None
  {
  }

  /** The order of the source, stage by stage over all servers, is the same as server by server. */
  lemma TickInSteps(sys: System, t: nat, luck: Luck, table: Times)
    requires Equipped(sys, table)
    ensures var (c, rest) := GetClient(sys.pending, t);
      var delivered := Deliver(sys.(pending := rest), c);
      Equipped(delivered, table) && Tick(sys, t, luck, table) == RunServers(delivered, t, luck, table) &&
      (c.None? ==> delivered == sys.(pending := rest))
  {
    hide ServeAll, ClockAll, ArriveAll, StandardTarget, RoboticTarget, Slice, HasTimes;
    ArriveNowhere(sys.standard, None);
    ArriveNowhere(sys.robotic, None);
    TargetsIgnorePending(sys, GetClient(sys.pending, t).1, GetClient(sys.pending, t).0);
  }

  /** The first `T` ticks of a simulation. */
  ghost function Run(sys: System, T: nat, luck: Luck, table: Times): (r: System)
    requires Equipped(sys, table)
    ensures |r.standard| == |sys.standard| && |r.robotic| == |sys.robotic| && Equipped(r, table)
    ensures Capable(sys, table) ==> Capable(r, table)
  {
    if T == 0 then sys else Tick(Run(sys, T - 1, luck, table), T - 1, luck, table)
  }

  lemma RunNext(sys: System, T: nat, luck: Luck, table: Times)
    requires Equipped(sys, table)
    ensures Run(sys, 0, luck, table) == sys
    ensures Run(sys, T + 1, luck, table) == Tick(Run(sys, T, luck, table), T, luck, table)
  {
  }
}
