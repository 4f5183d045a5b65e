/** Whole-run theorems: what holds after any number of ticks, for any arrivals and any luck. */
module SystemLaws {
  import opened Wrappers
  import opened Model
  import opened ServerLaws
  import opened SystemModel

  // ---------------------------------------------------------------- dispatching

  /**
    A disabled client goes to the robotic server with the shortest disabled queue if there is one. Any
    other client goes to a server that no server of either kind undercuts: the first such one, standard
    servers before robotic ones.
   */
  lemma DispatchIsLeast(sys: System, d: Disability)
    requires sys.standard != [] || sys.robotic != []
    ensures var target := Dispatch(sys, d);
      if !d.NoDisability? && sys.robotic != [] then
        target.ToRobotic? && LeastLoaded(sys.robotic, d, target.i)
      else
        match target
        case ToStandard(i) => LeastLoaded(sys.standard, d, i) && (forall j: nat ::
          j < |sys.robotic| ==> Load(sys.standard[i], d) <= Load(sys.robotic[j], d))
        case ToRobotic(i) => LeastLoaded(sys.robotic, d, i) && (forall j: nat ::
          j < |sys.standard| ==> Load(sys.robotic[i], d) < Load(sys.standard[j], d))
  {
  }

  function AllWaiting(s: Server): int {
    |s.normal| + |s.disabled|
  }

  /**
    The same by the lengths of the queues. A disabled client goes to the first robotic server with the
    fewest disabled clients waiting, if there is a robotic server. Anybody else goes to the first server with
    the fewest clients waiting, of whatever kind, standard servers before robotic ones.
   */
  lemma DispatchByQueues(sys: System, d: Disability)
    requires sys.standard != [] || sys.robotic != []
    requires forall i :: 0 <= i < |sys.standard| ==> sys.standard[i].kind.Standard? && sys.standard[i].disabled == []
    requires forall i :: 0 <= i < |sys.robotic| ==> sys.robotic[i].kind.Robotic?
    ensures !d.NoDisability? && sys.robotic != [] ==>
      var target := Dispatch(sys, d);
      target.ToRobotic? && target.i < |sys.robotic| && forall j: nat :: j < |sys.robotic| ==>
        |sys.robotic[target.i].disabled| <= |sys.robotic[j].disabled| &&
        (j < target.i ==> |sys.robotic[target.i].disabled| < |sys.robotic[j].disabled|)
    ensures d.NoDisability? || sys.robotic == [] ==>
      match Dispatch(sys, d)
      case ToStandard(i) =>
        i < |sys.standard| &&
        (forall j: nat :: j < |sys.standard| ==>
          AllWaiting(sys.standard[i]) <= AllWaiting(sys.standard[j]) &&
          (j < i ==> AllWaiting(sys.standard[i]) < AllWaiting(sys.standard[j]))) &&
        (forall j: nat :: j < |sys.robotic| ==> AllWaiting(sys.standard[i]) <= AllWaiting(sys.robotic[j]))
      case ToRobotic(i) =>
        i < |sys.robotic| &&
        (forall j: nat :: j < |sys.robotic| ==>
          AllWaiting(sys.robotic[i]) <= AllWaiting(sys.robotic[j]) &&
          (j < i ==> AllWaiting(sys.robotic[i]) < AllWaiting(sys.robotic[j]))) &&
        (forall j: nat :: j < |sys.standard| ==> AllWaiting(sys.robotic[i]) < AllWaiting(sys.standard[j]))
  {
    DispatchIsLeast(sys, d);
    hide Dispatch;
  }

  /** The least loaded server is unique, so the two loops of assign_client can find no other. */
  lemma LeastLoadedIsUnique(ss: seq<Server>, d: Disability, i: nat, j: nat)
    requires LeastLoaded(ss, d, i) && LeastLoaded(ss, d, j)
    ensures i == j
  {
    assert Load(ss[i], d) <= Load(ss[j], d) && Load(ss[j], d) <= Load(ss[i], d);
  }

  /** One round of such a loop. */
  lemma LeastLoadedStep(ss: seq<Server>, d: Disability, k: nat, i: nat)
    requires k < |ss| && LeastLoaded(ss[..k], d, i)
    ensures LeastLoaded(ss[..k + 1], d, if Load(ss[i], d) > Load(ss[k], d) then k else i)
  {
    assert forall j :: 0 <= j < k ==> ss[..k][j] == ss[j] == ss[..k + 1][j];
    assert ss[..k + 1][k] == ss[k];
  }

  lemma LeastLoadedOfOne(ss: seq<Server>, d: Disability)
    requires ss != []
    ensures LeastLoaded(ss[..1], d, 0)
  {
  }

  // ---------------------------------------------------------------- one tick, server by server

  /** The arrival, if the dispatch chooses this server. */
  function ArrivalAt(sys: System, c: Option<Client>, here: Target): Option<Client>
    requires sys.standard != [] || sys.robotic != []
  {
    if c.Some? && Dispatch(sys, c.value.key.disability) == here then c else None
  }

  /** Every server makes its own tick: with the arrival that is meant for it, and with its own success test. */
  lemma TickByServer(sys: System, t: nat, luck: Luck, table: Times)
    requires Equipped(sys, table)
    ensures var c, r := GetClient(sys.pending, t).0, Tick(sys, t, luck, table);
      (forall i: nat :: i < |sys.standard| ==>
        r.standard[i] == TickOf(sys.standard[i], t, ArrivalAt(sys, c, ToStandard(i)), luck(t, i), table)) &&
      (forall j: nat :: j < |sys.robotic| ==>
        r.robotic[j] == TickOf(sys.robotic[j], t, ArrivalAt(sys, c, ToRobotic(j)), luck(t, |sys.standard| + j), table))
  {
    hide TickOf, Dispatch, HasTimes, TickTeam, ShareOf, ArrivalAt, StandardTarget, RoboticTarget, Slice;
    var c, n := GetClient(sys.pending, t).0, |sys.standard|;
    forall i: nat ensures ShareOf(c, StandardTarget(sys, c) == Some(i)) == ArrivalAt(sys, c, ToStandard(i))
      ensures ShareOf(c, RoboticTarget(sys, c) == Some(i)) == ArrivalAt(sys, c, ToRobotic(i))
    {
      ArrivalIsShare(sys, c, i);
    }
    SliceIsTests(luck, t, 0);
    SliceIsTests(luck, t, n);
  }

  lemma ArrivalIsShare(sys: System, c: Option<Client>, i: nat)
    requires sys.standard != [] || sys.robotic != []
    ensures ShareOf(c, StandardTarget(sys, c) == Some(i)) == ArrivalAt(sys, c, ToStandard(i))
    ensures ShareOf(c, RoboticTarget(sys, c) == Some(i)) == ArrivalAt(sys, c, ToRobotic(i))
  {
    hide Dispatch;
  }

  lemma SliceIsTests(luck: Luck, t: nat, offset: nat)
    ensures forall i: nat :: Slice(luck, t, offset)(i) == luck(t, offset + i)
  {
  }

  /** A service that ends in this tick is over if the success test says so, and starts again if not. */
  lemma LastTick(s: Server, t: nat, arrival: Option<Client>, ok: bool, table: Times)
    requires HasTimes(s.kind, table) && s.current.Some? && s.toServe == 1
    ensures var r := TickOf(s, t, arrival, ok, table);
      r.stat.served == s.stat.served + (if ok then 1 else 0) && r.stat.failures == s.stat.failures + if ok then 0 else 1
  {
  }

  /** So the tests of a tick are separate: server by server, standard ones first. */
  lemma TestsAreSeparate(sys: System, t: nat, luck: Luck, table: Times)
    requires Equipped(sys, table)
    ensures var r := Tick(sys, t, luck, table);
      (forall i: nat :: i < |sys.standard| && sys.standard[i].current.Some? && sys.standard[i].toServe == 1 ==>
        (r.standard[i].stat.served == sys.standard[i].stat.served + 1 <==> luck(t, i)) &&
        (r.standard[i].stat.failures == sys.standard[i].stat.failures + 1 <==> !luck(t, i))) &&
      (forall j: nat :: j < |sys.robotic| && sys.robotic[j].current.Some? && sys.robotic[j].toServe == 1 ==>
        (r.robotic[j].stat.served == sys.robotic[j].stat.served + 1 <==> luck(t, |sys.standard| + j)) &&
        (r.robotic[j].stat.failures == sys.robotic[j].stat.failures + 1 <==> !luck(t, |sys.standard| + j)))
  {
    hide Tick, TickOf, Dispatch, HasTimes;
    TickByServer(sys, t, luck, table);
    var c, r := GetClient(sys.pending, t).0, Tick(sys, t, luck, table);
    forall i: nat | i < |sys.standard| && sys.standard[i].current.Some? && sys.standard[i].toServe == 1
      ensures r.standard[i].stat.served == sys.standard[i].stat.served + (if luck(t, i) then 1 else 0)
      ensures r.standard[i].stat.failures == sys.standard[i].stat.failures + if luck(t, i) then 0 else 1
    {
      LastTick(sys.standard[i], t, ArrivalAt(sys, c, ToStandard(i)), luck(t, i), table);
    }
    forall j: nat | j < |sys.robotic| && sys.robotic[j].current.Some? && sys.robotic[j].toServe == 1
      ensures var ok := luck(t, |sys.standard| + j);
        r.robotic[j].stat.served == sys.robotic[j].stat.served + (if ok then 1 else 0) &&
        r.robotic[j].stat.failures == sys.robotic[j].stat.failures + if ok then 0 else 1
    {
      LastTick(sys.robotic[j], t, ArrivalAt(sys, c, ToRobotic(j)), luck(t, |sys.standard| + j), table);
    }
  }

  // ---------------------------------------------------------------- the assertion of server_tick

  /** Nobody is being served with no time left, as server_tick asserts. */
  ghost predicate Busy(vs: seq<Server>) {
    forall i :: 0 <= i < |vs| ==> vs[i].current.Some? ==> vs[i].toServe > 0
  }

  lemma DeliverKeepsBusy(sys: System, t: nat)
    requires sys.standard != [] || sys.robotic != []
    requires Busy(sys.standard) && Busy(sys.robotic)
    ensures var (c, rest) := GetClient(sys.pending, t);
      var after := Deliver(sys.(pending := rest), c);
      Busy(after.standard) && Busy(after.robotic)
  {
  }

  lemma ServeKeepsBusy(s: Server, t: nat, arrival: Option<Client>, ok: bool, times: Times)
    requires Serviceable(times) && (s.current.Some? ==> s.toServe > 0)
    ensures var r := TickServer(s, t, arrival, ok, times); r.current.Some? ==> r.toServe > 0
  {
  }

  lemma TeamKeepsBusy(ss: seq<Server>, robotic: bool, t: nat, c: Option<Client>, target: Option<nat>,
                      ok: nat -> bool, table: Times)
    requires Team(ss, robotic, table) && AllCanServe(ss, table) && Busy(ss)
    ensures Busy(TickTeam(ss, robotic, t, c, target, ok, table))
  {
    hide TickServer;
    forall i | 0 <= i < |ss|
      ensures var r := TickTeam(ss, robotic, t, c, target, ok, table)[i]; r.current.Some? ==> r.toServe > 0
    {
      ServeKeepsBusy(ss[i], t, ShareOf(c, target == Some(i)), ok(i), ServiceTimes(ss[i].kind, table));
    }
  }

  /** If the assertion of server_tick holds of all servers before a tick, it holds before the next one. */
  lemma TickKeepsBusy(sys: System, t: nat, luck: Luck, table: Times)
    requires Equipped(sys, table) && Capable(sys, table) && Busy(sys.standard) && Busy(sys.robotic)
    ensures var r := Tick(sys, t, luck, table); Busy(r.standard) && Busy(r.robotic)
  {
    hide TickTeam, Busy;
    var c := GetClient(sys.pending, t).0;
    TeamKeepsBusy(sys.standard, false, t, c, StandardTarget(sys, c), Slice(luck, t, 0), table);
    TeamKeepsBusy(sys.robotic, true, t, c, RoboticTarget(sys, c), Slice(luck, t, |sys.standard|), table);
  }

  lemma {:induction false} RunKeepsBusy(sys: System, T: nat, luck: Luck, table: Times)
    requires Equipped(sys, table) && Capable(sys, table) && Busy(sys.standard) && Busy(sys.robotic)
    ensures var r := Run(sys, T, luck, table); Busy(r.standard) && Busy(r.robotic)
  {
    hide Equipped, Capable, Busy, Tick;
    if T > 0 {
      RunKeepsBusy(sys, T - 1, luck, table);
      TickKeepsBusy(Run(sys, T - 1, luck, table), T - 1, luck, table);
    }
  }

  // ---------------------------------------------------------------- laws of all servers

  ghost predicate LawfulTeam(ss: seq<Server>, robotic: bool, T: nat, table: Times)
    requires Team(ss, robotic, table) && AllCanServe(ss, table)
  {
    forall i :: 0 <= i < |ss| ==> Lawful(ss[i], T, ServiceTimes(ss[i].kind, table))
  }

  ghost predicate LawfulSystem(sys: System, T: nat, table: Times)
    requires Equipped(sys, table) && Capable(sys, table)
  {
    LawfulTeam(sys.standard, false, T, table) && LawfulTeam(sys.robotic, true, T, table)
  }

  lemma TeamTickIsLawful(ss: seq<Server>, robotic: bool, t: nat, c: Option<Client>, target: Option<nat>,
                         ok: nat -> bool, table: Times)
    requires Team(ss, robotic, table) && AllCanServe(ss, table) && LawfulTeam(ss, robotic, t, table) && Admissible(c, t)
    ensures LawfulTeam(TickTeam(ss, robotic, t, c, target, ok, table), robotic, t + 1, table)
  {
    hide Lawful, TickServer;
    forall i | 0 <= i < |ss|
      ensures var r := TickTeam(ss, robotic, t, c, target, ok, table)[i];
        Lawful(r, t + 1, ServiceTimes(r.kind, table))
    {
      TickIsLawful(ss[i], t, ShareOf(c, target == Some(i)), ok(i), ServiceTimes(ss[i].kind, table));
    }
  }

  lemma SystemTickIsLawful(sys: System, t: nat, luck: Luck, table: Times)
    requires Equipped(sys, table) && Capable(sys, table) && LawfulSystem(sys, t, table)
    ensures LawfulSystem(Tick(sys, t, luck, table), t + 1, table)
  {
    hide LawfulTeam;
    var c := GetClient(sys.pending, t).0;
    TeamTickIsLawful(sys.standard, false, t, c, StandardTarget(sys, c), Slice(luck, t, 0), table);
    TeamTickIsLawful(sys.robotic, true, t, c, RoboticTarget(sys, c), Slice(luck, t, |sys.standard|), table);
  }

  /** Every server obeys every law after every tick of every run. */
  lemma {:induction false} RunIsLawful(sys: System, T: nat, luck: Luck, table: Times)
    requires Equipped(sys, table) && Capable(sys, table) && LawfulSystem(sys, 0, table)
    ensures LawfulSystem(Run(sys, T, luck, table), T, table)
  {
    hide Equipped, LawfulSystem, Tick;
    if T > 0 {
      RunIsLawful(sys, T - 1, luck, table);
      SystemTickIsLawful(Run(sys, T - 1, luck, table), T - 1, luck, table);
    }
  }

  // ---------------------------------------------------------------- conservation of clients

  function Held(ss: seq<Server>): multiset<Passport> {
    if ss == [] then multiset{} else Held(ss[..|ss| - 1]) + HeldBy(ss[|ss| - 1])
  }

  function Expected(pending: seq<Client>): seq<Passport> {
    seq(|pending|, i requires 0 <= i < |pending| => Waiting(pending[i]))
  }

  /** All clients, wherever they are; a client is known by its id, its kind and its arrival time. */
  function Everyone(sys: System): multiset<Passport> {
    multiset(Expected(sys.pending)) + Held(sys.standard) + Held(sys.robotic)
  }

  function Newcomer(arrival: Option<Client>): multiset<Passport> {
    if arrival.Some? then multiset{Admitted(arrival.value)} else multiset{}
  }

  lemma NamesHead(cs: seq<Client>)
    requires cs != []
    ensures multiset(Names(cs)) == multiset{Admitted(cs[0])} + multiset(Names(cs[1..]))
  {
    assert Names(cs) == [Admitted(cs[0])] + Names(cs[1..]);
  }

  lemma NamesTail(cs: seq<Client>, c: Client)
    ensures multiset(Names(cs + [c])) == multiset(Names(cs)) + multiset{Admitted(c)}
  {
    assert Names(cs + [c]) == Names(cs) + [Admitted(c)];
  }

  lemma NamesOfOne(c: Client)
    ensures Names([c]) == [Admitted(c)]
  {
  }

  lemma NamesOfNone(cs: seq<Client>)
    requires cs == []
    ensures multiset(Names(cs)) == multiset{}
  {
  }

  lemma StartHolds(s: Server, c: Client, t: int, times: Times)
    requires Complete(times) && s.current.None?
    ensures HeldBy(StartNext(s, c, t, times)) == HeldBy(s) + multiset{Admitted(c)}
  {
    hide Names;
    NamesOfNone(Current(s));
    NamesOfOne(Begin(c, t));
  }

  lemma LeaveQueueHolds(s: Server)
    ensures s.disabled != [] ==>
      HeldBy(s.(disabled := s.disabled[1..])) + multiset{Admitted(s.disabled[0])} == HeldBy(s)
    ensures s.normal != [] ==>
      HeldBy(s.(normal := s.normal[1..])) + multiset{Admitted(s.normal[0])} == HeldBy(s)
  {
    hide Names;
    if s.disabled != [] {
      NamesHead(s.disabled);
    }
    if s.normal != [] {
      NamesHead(s.normal);
    }
  }

  lemma IdleHolds(s: Server)
    requires s.current.None?
    ensures HeldBy(s.(toServe := 0, current := None)) == HeldBy(s)
  {
  }

  lemma SetNextHolds(s: Server, t: int, times: Times)
    requires Complete(times) && s.current.None?
    ensures HeldBy(SetNext(s, t, times)) == HeldBy(s)
  {
    hide HeldBy, StartNext;
    LeaveQueueHolds(s);
    IdleHolds(s);
    if s.kind.Robotic? && s.disabled != [] {
      StartHolds(s.(disabled := s.disabled[1..]), s.disabled[0], t, times);
    } else if s.normal != [] {
      StartHolds(s.(normal := s.normal[1..]), s.normal[0], t, times);
    }
  }

  lemma FinalizeHolds(s: Server, t: int)
    requires s.current.Some?
    ensures HeldBy(Finalize(s, t)) == HeldBy(s)
  {
    hide Names;
    var c := s.current.value;
    NamesTail(s.finished, End(c, t));
    NamesOfOne(c);
    NamesOfNone(Current(Finalize(s, t)));
  }

  lemma RetryHolds(s: Server, times: Times)
    requires s.current.Some? && Complete(times)
    ensures HeldBy(Retry(s, times)) == HeldBy(s)
  {
    hide Names;
    var c := s.current.value;
    NamesOfOne(c);
    NamesOfOne(c.(failures := c.failures + 1));
  }

  lemma ServeHolds(s: Server, t: int, ok: bool, times: Times)
    requires Complete(times)
    ensures HeldBy(Serve(s, t, ok, times)) == HeldBy(s)
  {
    hide HeldBy, SetNext, Finalize, Retry;
    if s.current.None? {
      SetNextHolds(s, t, times);
    } else if s.toServe == 0 {
      if ok {
        FinalizeHolds(s, t);
        NoCurrent(s, t);
        SetNextHolds(Finalize(s, t), t, times);
      } else {
        RetryHolds(s, times);
      }
    }
  }

  lemma NoCurrent(s: Server, t: int)
    requires s.current.Some?
    ensures Finalize(s, t).current.None?
  {
  }

  lemma ArriveHolds(s: Server, arrival: Option<Client>)
    ensures HeldBy(Arrive(s, arrival)) == HeldBy(s) + Newcomer(arrival)
  {
    if arrival.Some? {
      NamesTail(s.normal, arrival.value);
      NamesTail(s.disabled, arrival.value);
    }
  }

  /** A tick of a server neither loses nor invents a client. */
  lemma TickHolds(s: Server, t: nat, arrival: Option<Client>, ok: bool, times: Times)
    requires Complete(times)
    ensures HeldBy(TickServer(s, t, arrival, ok, times)) == HeldBy(s) + Newcomer(arrival)
  {
    ArriveHolds(s, arrival);
    hide Serve;
    ServeHolds(Clock(Arrive(s, arrival)), t, ok, times);
  }

  lemma NobodyNew()
    ensures Newcomer(None) == multiset{}
  {
  }

  lemma {:induction false} HeldAfter(ss: seq<Server>, rs: seq<Server>, c: Option<Client>, target: Option<nat>)
    requires |rs| == |ss|
    requires forall i :: 0 <= i < |ss| ==> HeldBy(rs[i]) == HeldBy(ss[i]) + Newcomer(ShareOf(c, target == Some(i)))
    ensures Held(rs) == Held(ss) + if target.Some? && target.value < |ss| then Newcomer(c) else multiset{}
  {
    hide HeldBy, Newcomer;
    if ss != [] {
      NobodyNew();
      HeldAfter(ss[..|ss| - 1], rs[..|ss| - 1], c, target);
    }
  }

  lemma TeamTickHolds(ss: seq<Server>, robotic: bool, t: nat, c: Option<Client>, target: Option<nat>,
                      ok: nat -> bool, table: Times)
    requires Team(ss, robotic, table)
    ensures Held(TickTeam(ss, robotic, t, c, target, ok, table)) ==
      Held(ss) + if target.Some? && target.value < |ss| then Newcomer(c) else multiset{}
  {
    var rs := TickTeam(ss, robotic, t, c, target, ok, table);
    forall i | 0 <= i < |ss| ensures HeldBy(rs[i]) == HeldBy(ss[i]) + Newcomer(ShareOf(c, target == Some(i))) {
      TickHolds(ss[i], t, ShareOf(c, target == Some(i)), ok(i), ServiceTimes(ss[i].kind, table));
    }
    HeldAfter(ss, rs, c, target);
  }

  lemma GetClientHolds(pending: seq<Client>, t: int)
    ensures var (c, rest) := GetClient(pending, t);
      multiset(Expected(pending)) == multiset(Expected(rest)) + Newcomer(c)
  {
    if pending != [] {
      assert Expected(pending) == [Waiting(pending[0])] + Expected(pending[1..]);
    }
  }

  /** An arrival goes to exactly one server. */
  lemma TargetsAreSplit(sys: System, c: Option<Client>)
    requires sys.standard != [] || sys.robotic != []
    ensures var s, r := StandardTarget(sys, c), RoboticTarget(sys, c);
      (s.Some? ==> s.value < |sys.standard|) && (r.Some? ==> r.value < |sys.robotic|) &&
      (c.Some? ==> (s.Some? <==> r.None?)) && (c.None? ==> Newcomer(c) == multiset{})
  {
  }

  lemma TickConserves(sys: System, t: nat, luck: Luck, table: Times)
    requires Equipped(sys, table)
    ensures Everyone(Tick(sys, t, luck, table)) == Everyone(sys)
  {
    hide Held, Expected, TickTeam, Team, Newcomer, HasTimes, StandardTarget, RoboticTarget;
    TargetsAreSplit(sys, GetClient(sys.pending, t).0);
    var (c, rest) := GetClient(sys.pending, t);
    GetClientHolds(sys.pending, t);
    TeamTickHolds(sys.standard, false, t, c, StandardTarget(sys, c), Slice(luck, t, 0), table);
    TeamTickHolds(sys.robotic, true, t, c, RoboticTarget(sys, c), Slice(luck, t, |sys.standard|), table);
  }

  /** No run loses, duplicates or confuses a client. */
  lemma {:induction false} RunConserves(sys: System, T: nat, luck: Luck, table: Times)
    requires Equipped(sys, table)
    ensures Everyone(Run(sys, T, luck, table)) == Everyone(sys)
  {
    hide Equipped, Everyone, Tick;
    if T > 0 {
      RunConserves(sys, T - 1, luck, table);
      TickConserves(Run(sys, T - 1, luck, table), T - 1, luck, table);
    }
  }

  // ---------------------------------------------------------------- no arrival is missed

  /** The clients that arrive at tick `T` or later. */
  function Later(cs: seq<Client>, T: int): seq<Client> {
    if cs == [] then []
    else if cs[0].arrival >= T then [cs[0]] + Later(cs[1..], T)
    else Later(cs[1..], T)
  }

  lemma {:induction false} LaterAll(cs: seq<Client>, T: int)
    requires forall i :: 0 <= i < |cs| ==> cs[i].arrival >= T
    ensures Later(cs, T) == cs
  {
    if cs != [] {
      LaterAll(cs[1..], T);
    }
  }

  lemma {:induction false} LaterNone(cs: seq<Client>, T: int)
    requires forall i :: 0 <= i < |cs| ==> cs[i].arrival < T
    ensures Later(cs, T) == []
  {
    if cs != [] {
      LaterNone(cs[1..], T);
    }
  }

  lemma {:induction false} LaterStep(cs: seq<Client>, t: int)
    requires Chronological(cs)
    ensures GetClient(Later(cs, t), t).1 == Later(cs, t + 1)
  {
    if cs != [] {
      if cs[0].arrival >= t {
        LaterAll(cs[1..], t);
        LaterAll(cs[1..], t + 1);
      } else {
        LaterStep(cs[1..], t);
      }
    }
  }

  lemma TickPending(sys: System, t: nat, luck: Luck, table: Times)
    requires Equipped(sys, table)
    ensures Tick(sys, t, luck, table).pending == GetClient(sys.pending, t).1
  {
    hide Team, TickTeam;
  }

  /** After `T` ticks exactly the clients with arrival times below `T` have been dispatched. */
  lemma {:induction false} NoArrivalMissed(sys: System, T: nat, luck: Luck, table: Times)
    requires Equipped(sys, table) && Chronological(sys.pending)
    ensures Run(sys, T, luck, table).pending == Later(sys.pending, T)
  {
    hide Equipped, Tick;
    if T == 0 {
      LaterAll(sys.pending, 0);
    } else {
      NoArrivalMissed(sys, T - 1, luck, table);
      TickPending(Run(sys, T - 1, luck, table), T - 1, luck, table);
      LaterStep(sys.pending, T - 1);
    }
  }

  // ---------------------------------------------------------------- whole runs

  ghost predicate NewTeam(ss: seq<Server>) {
    forall i :: 0 <= i < |ss| ==> ss[i] == NewServer(ss[i].kind)
  }

  ghost predicate AllNew(sys: System) {
    NewTeam(sys.standard) && NewTeam(sys.robotic)
  }

  lemma NewTeamIsLawful(ss: seq<Server>, robotic: bool, table: Times)
    requires Team(ss, robotic, table) && AllCanServe(ss, table) && NewTeam(ss)
    ensures LawfulTeam(ss, robotic, 0, table) && Held(ss) == multiset{}
  {
    hide Lawful, Serviceable;
    forall i | 0 <= i < |ss| ensures Lawful(ss[i], 0, ServiceTimes(ss[i].kind, table)) {
      NewServerIsLawful(ss[i].kind, ServiceTimes(ss[i].kind, table));
    }
    NewHoldNone(ss);
  }

  lemma NewSystemIsLawful(sys: System, table: Times)
    requires Equipped(sys, table) && Capable(sys, table) && AllNew(sys)
    ensures LawfulSystem(sys, 0, table)
    ensures Held(sys.standard) == multiset{} && Held(sys.robotic) == multiset{}
  {
    hide LawfulTeam, Team, NewTeam, Held;
    NewTeamIsLawful(sys.standard, false, table);
    NewTeamIsLawful(sys.robotic, true, table);
  }

  lemma {:induction false} NewHoldNone(ss: seq<Server>)
    requires NewTeam(ss)
    ensures Held(ss) == multiset{}
  {
    if ss != [] {
      NewHoldNone(ss[..|ss| - 1]);
      assert HeldBy(ss[|ss| - 1]) == multiset{};
    }
  }

  lemma EveryoneNew(sys: System)
    requires AllNew(sys)
    ensures Everyone(sys) == multiset(Expected(sys.pending))
  {
    NewHoldNone(sys.standard);
    NewHoldNone(sys.robotic);
  }

  lemma {:induction false} OnceEach(cs: seq<Client>, p: Passport)
    requires DistinctIds(cs)
    ensures multiset(Expected(cs))[p] == if p in Expected(cs) then 1 else 0
  {
    if cs != [] {
      OnceEach(cs[1..], p);
      assert Expected(cs) == [Waiting(cs[0])] + Expected(cs[1..]);
      assert p in Expected(cs[1..]) ==> p.id != cs[0].id;
    }
  }

  /**
    A simulation from new servers: after any number of ticks every server obeys every law, exactly the
    clients with later arrival times are still pending, and every generated client is in exactly one
    place, where it is known to have entered at its arrival time.
   */
  lemma WholeRun(sys: System, T: nat, luck: Luck, table: Times)
    requires Equipped(sys, table) && Capable(sys, table)
    requires AllNew(sys) && Chronological(sys.pending) && DistinctIds(sys.pending)
    ensures LawfulSystem(Run(sys, T, luck, table), T, table)
    ensures Run(sys, T, luck, table).pending == Later(sys.pending, T)
    ensures forall p :: Everyone(Run(sys, T, luck, table))[p] == if p in Expected(sys.pending) then 1 else 0
  {
    hide Equipped, AllNew, LawfulSystem, Tick, Run, Everyone, Chronological, Later;
    NewSystemIsLawful(sys, table);
    RunIsLawful(sys, T, luck, table);
    NoArrivalMissed(sys, T, luck, table);
    RunConserves(sys, T, luck, table);
    EveryoneNew(sys);
    forall p ensures Everyone(Run(sys, T, luck, table))[p] == if p in Expected(sys.pending) then 1 else 0 {
      OnceEach(sys.pending, p);
    }
  }

  /** Once the horizon has passed, nobody is pending and the servers hold everyone. */
  lemma HorizonReached(sys: System, T: nat, luck: Luck, table: Times)
    requires Equipped(sys, table) && AllNew(sys) && Chronological(sys.pending)
    requires forall i :: 0 <= i < |sys.pending| ==> sys.pending[i].arrival < T
    ensures var r := Run(sys, T, luck, table);
      r.pending == [] && Held(r.standard) + Held(r.robotic) == multiset(Expected(sys.pending))
  {
    hide Equipped, AllNew, LawfulSystem, Tick, Run, Held, Chronological, Later;
    EveryoneNew(sys);
    NoArrivalMissed(sys, T, luck, table);
    LaterNone(sys.pending, T);
    RunConserves(sys, T, luck, table);
    assert Expected([]) == [];
  }

  /** In every run every standard server is a queue. */
  lemma ServersAreQueues(sys: System, T: nat, luck: Luck, table: Times, i: nat)
    requires Equipped(sys, table) && Capable(sys, table) && AllNew(sys) && i < |sys.standard|
    ensures IsQueue(Run(sys, T, luck, table).standard[i], ServiceTimes(Standard, table))
  {
    hide AllNew, Tick, Run, Lawful, IsQueue;
    NewSystemIsLawful(sys, table);
    RunIsLawful(sys, T, luck, table);
    StandardIsQueue(Run(sys, T, luck, table).standard[i], T, ServiceTimes(Standard, table));
  }

  // ---------------------------------------------------------------- recorded times in whole runs

  ghost predicate FinishedBy(ss: seq<Server>, c: Client) {
    exists i :: 0 <= i < |ss| && c in ss[i].finished
  }

  lemma {:induction false} FinishedAreHeld(ss: seq<Server>, c: Client)
    requires FinishedBy(ss, c)
    ensures Admitted(c) in Held(ss)
  {
    var i :| 0 <= i < |ss| && c in ss[i].finished;
    if i == |ss| - 1 {
      var k :| 0 <= k < |ss[i].finished| && ss[i].finished[k] == c;
      assert Names(ss[i].finished)[k] == Admitted(c);
    } else {
      assert ss[..|ss| - 1][i] == ss[i];
      FinishedAreHeld(ss[..|ss| - 1], c);
    }
  }

  /** The recorded times of `c` exceed the real ones by the arrival time of the generated client `g`, which is `c`. */
  ghost predicate TooLong(c: Client, g: Client) {
    Admitted(c) == Waiting(g) &&
    c.wait == c.start - c.entry + g.arrival && c.total == c.finish - c.entry + g.arrival
  }

  /**
    In every run, the recorded times of every finished client are too long by its arrival time: they are the
    real ones only of a client that arrives at tick 0, and the arrivals that are generated come later.
   */
  lemma RecordsInRuns(sys: System, T: nat, luck: Luck, table: Times, c: Client)
    requires Equipped(sys, table) && Capable(sys, table) && AllNew(sys)
    requires var r := Run(sys, T, luck, table); FinishedBy(r.standard, c) || FinishedBy(r.robotic, c)
    ensures exists j :: 0 <= j < |sys.pending| && TooLong(c, sys.pending[j])
    ensures (forall j :: 0 <= j < |sys.pending| ==> sys.pending[j].arrival >= 1) ==>
      c.wait > c.start - c.entry && c.total > c.finish - c.entry
  {
    hide Run, AllNew, Held, FinishedBy, LawfulSystem;
    var r := Run(sys, T, luck, table);
    NewSystemIsLawful(sys, table);
    RunIsLawful(sys, T, luck, table);
    RunConserves(sys, T, luck, table);
    EveryoneNew(sys);
    FinishedAreRecorded(r, T, table, c);
    assert Admitted(c) in Everyone(r) by {
      if FinishedBy(r.standard, c) {
        FinishedAreHeld(r.standard, c);
      } else {
        FinishedAreHeld(r.robotic, c);
      }
    }
    assert Admitted(c) in Expected(sys.pending);
    var j :| 0 <= j < |sys.pending| && Expected(sys.pending)[j] == Admitted(c);
    assert TooLong(c, sys.pending[j]);
  }

  lemma FinishedAreRecorded(sys: System, T: nat, table: Times, c: Client)
    requires Equipped(sys, table) && Capable(sys, table) && LawfulSystem(sys, T, table)
    requires FinishedBy(sys.standard, c) || FinishedBy(sys.robotic, c)
    ensures c.wait == c.start && c.total == c.finish
  {
    hide Tidy, WorkConserving, Averaged, Little, Ledger, Paced, InOrder, Priority;
    var ss := if FinishedBy(sys.standard, c) then sys.standard else sys.robotic;
    var i :| 0 <= i < |ss| && c in ss[i].finished;
    assert c in Started(ss[i]);
  }
}
