/** The program's two configurations, and which boosts of the robotic server are safe in them. */
module Configurations {
  import opened Wrappers
  import opened Model
  import opened InitialTable
  import opened SystemModel
  import opened SystemLaws
  import opened Statistics

  function TwoStandard(pending: seq<Client>): System {
    System(pending, [NewServer(Standard), NewServer(Standard)], [])
  }

  function StandardAndRobotic(pending: seq<Client>, boost: real): System {
    System(pending, [NewServer(Standard)], [NewServer(Robotic(boost))])
  }

  function Configuration(robot: Option<real>, pending: seq<Client>): System {
    if robot.Some? then StandardAndRobotic(pending, robot.value) else TwoStandard(pending)
  }

  ghost predicate Ready(robot: Option<real>, table: Times) {
    CanServe(Standard, table) && (robot.Some? ==> CanServe(Robotic(robot.value), table))
  }

  lemma ConfigurationIsReady(robot: Option<real>, pending: seq<Client>, table: Times)
    requires Ready(robot, table)
    ensures var sys := Configuration(robot, pending); Equipped(sys, table) && Capable(sys, table) && AllNew(sys)
  {
  }

  /** The system at the end of a simulation of `T` ticks, and the statistics that it reports. */
  ghost function EndOf(sys: System, T: int, luck: Luck, table: Times): System
    requires Equipped(sys, table)
  {
    Run(sys, if T > 0 then T else 0, luck, table)
  }

  ghost function EndStats(sys: System, T: int, luck: Luck, table: Times): SimStat
    requires Equipped(sys, table)
  {
    var r := EndOf(sys, T, luck, table);
    StatsOf(r.standard + r.robotic, |sys.pending|)
  }

  /** The reported number of clients counts all that were given, served or not. */
  lemma AllAreReported(robot: Option<real>, pending: seq<Client>, T: int, luck: Luck, table: Times)
    requires Equipped(Configuration(robot, pending), table)
    ensures EndStats(Configuration(robot, pending), T, luck, table).totalClients == |pending|
  {
  }

  // ---------------------------------------------------------------- the boost of the robotic server

  const SHORTEST := ServiceKey(NoDisability, Dest1)

  /** A new client without disability whose tabulated service time is the shortest one. */
  function Arriving(id: nat, arrival: nat): Client {
    Client(id, SHORTEST, arrival, 0, 0, 0, 0, 0, 0)
  }

  /** The assertions about the time to serve hold after every number of ticks of every simulation. */
  ghost predicate NeverFails(boost: real)
    requires boost != 0.0
  {
    forall pending, T: nat, luck :: AssertionsHold(pending, boost, T, luck)
  }

  ghost predicate AssertionsHold(pending: seq<Client>, boost: real, T: nat, luck: Luck)
    requires boost != 0.0
  {
    InitialTimesSuffice(boost);
    var sys := StandardAndRobotic(pending, boost);
    var r := Run(sys, T, luck, INITIAL_TIMES);
    Busy(r.standard) && Busy(r.robotic)
  }

  ghost predicate Idle(s: Server) {
    s.current.None? && s.normal == [] && s.disabled == []
  }

  /** A server that nobody is sent to stays idle. */
  lemma IdleTick(s: Server, t: nat, ok: bool, times: Times)
    requires Complete(times) && Idle(s)
    ensures Idle(TickServer(s, t, None, ok, times))
  {
  }

  /** An idle server takes up an arrival at once. */
  lemma FirstTick(s: Server, t: nat, c: Client, ok: bool, times: Times)
    requires Complete(times) && Idle(s)
    ensures var r := TickServer(s, t, Some(c), ok, times);
      r.current == Some(Begin(c, t)) && r.toServe == times[c.key] && r.normal == [] && r.disabled == []
  {
  }

  /** An arrival waits while the server has work left. */
  lemma WaitingTick(s: Server, t: nat, c: Client, ok: bool, times: Times)
    requires Complete(times) && s.kind.Standard? && s.current.Some? && s.toServe > 1 && s.normal == []
    ensures var r := TickServer(s, t, Some(c), ok, times);
      r.current.Some? && r.toServe == s.toServe - 1 && r.normal == [c]
  {
  }

  /** A system of one standard and one robotic server. */
  ghost predicate Pair(sys: System, boost: real) {
    boost != 0.0 && |sys.standard| == 1 && |sys.robotic| == 1 &&
    sys.standard[0].kind == Standard && sys.robotic[0].kind == Robotic(boost)
  }

  /** In it a tick is a tick of either server; a client without disability prefers the standard one on ties. */
  lemma PairTick(sys: System, boost: real, t: nat, luck: Luck, table: Times)
    requires Pair(sys, boost) && Equipped(sys, table)
    requires sys.pending != [] ==> sys.pending[0].key == SHORTEST
    ensures var (c, rest) := GetClient(sys.pending, t);
      var s, r := sys.standard[0], sys.robotic[0];
      var here := Load(s, NoDisability) <= Load(r, NoDisability);
      Tick(sys, t, luck, table) ==
        System(rest, [TickOf(s, t, ShareOf(c, here), luck(t, 0), table)],
               [TickOf(r, t, ShareOf(c, !here), luck(t, 1), table)])
  {
    hide TickOf, Load, Team;
    var c := GetClient(sys.pending, t).0;
    TeamOfOne(sys.standard, false, t, c, StandardTarget(sys, c), Slice(luck, t, 0), table);
    TeamOfOne(sys.robotic, true, t, c, RoboticTarget(sys, c), Slice(luck, t, 1), table);
  }

  lemma TeamOfOne(ss: seq<Server>, robotic: bool, t: nat, c: Option<Client>, target: Option<nat>, ok: nat -> bool,
                  table: Times)
    requires Team(ss, robotic, table) && |ss| == 1
    ensures HasTimes(ss[0].kind, table)
    ensures TickTeam(ss, robotic, t, c, target, ok, table) ==
      [TickOf(ss[0], t, ShareOf(c, target == Some(0)), ok(0), table)]
  {
    hide TickOf;
  }

  /** The pair after the `n`-th of three clients has arrived, one a tick. */
  ghost predicate Stage(sys: System, boost: real, n: nat) {
    Pair(sys, boost) && Equipped(sys, INITIAL_TIMES) && Idle(sys.robotic[0]) &&
    var s := sys.standard[0];
    match n
    case 0 => Idle(s) && sys.pending == [Arriving(0, 1), Arriving(1, 2), Arriving(2, 3)]
    case 1 => s.current.Some? && s.toServe == 4 && s.normal == [] && sys.pending == [Arriving(1, 2), Arriving(2, 3)]
    case _ => s.current.Some? && s.toServe == 3 && |s.normal| == 1 && sys.pending == [Arriving(2, 3)]
  }

  lemma NobodyYet(sys: System, boost: real, luck: Luck)
    requires Stage(sys, boost, 0)
    ensures Stage(Tick(sys, 0, luck, INITIAL_TIMES), boost, 0)
  {
    hide Tick, TickServer, ServiceTimes, INITIAL_TIMES;
    PairTick(sys, boost, 0, luck, INITIAL_TIMES);
    IdleTick(sys.standard[0], 0, luck(0, 0), ServiceTimes(Standard, INITIAL_TIMES));
    IdleTick(sys.robotic[0], 0, luck(0, 1), ServiceTimes(Robotic(boost), INITIAL_TIMES));
  }

  lemma ShortestTime(kind: ServerType)
    requires kind.Robotic? ==> kind.boost != 0.0
    ensures HasTimes(kind, INITIAL_TIMES) && ServiceTimes(kind, INITIAL_TIMES)[SHORTEST] == Boosted(kind, 4)
  {
    hide INITIAL_TIMES, Boosted;
    InitialTimesAtLeast(SHORTEST);
    InitialTimesSuffice(if kind.Robotic? then kind.boost else 1.0);
  }

  lemma OneArrived(sys: System, boost: real, luck: Luck)
    requires Stage(sys, boost, 0)
    ensures Stage(Tick(sys, 1, luck, INITIAL_TIMES), boost, 1)
  {
    hide Tick, TickServer, ServiceTimes, INITIAL_TIMES;
    PairTick(sys, boost, 1, luck, INITIAL_TIMES);
    ShortestTime(Standard);
    FirstTick(sys.standard[0], 1, Enter(sys.pending[0], 1), luck(1, 0), ServiceTimes(Standard, INITIAL_TIMES));
    IdleTick(sys.robotic[0], 1, luck(1, 1), ServiceTimes(Robotic(boost), INITIAL_TIMES));
  }

  lemma TwoArrived(sys: System, boost: real, luck: Luck)
    requires Stage(sys, boost, 1)
    ensures Stage(Tick(sys, 2, luck, INITIAL_TIMES), boost, 2)
  {
    hide Tick, TickServer, ServiceTimes, INITIAL_TIMES;
    PairTick(sys, boost, 2, luck, INITIAL_TIMES);
    WaitingTick(sys.standard[0], 2, Enter(sys.pending[0], 2), luck(2, 0), ServiceTimes(Standard, INITIAL_TIMES));
    IdleTick(sys.robotic[0], 2, luck(2, 1), ServiceTimes(Robotic(boost), INITIAL_TIMES));
  }

  lemma ThreeArrived(sys: System, boost: real, luck: Luck)
    requires Stage(sys, boost, 2)
    ensures var r := Tick(sys, 3, luck, INITIAL_TIMES).robotic;
      r[0].current.Some? && r[0].toServe == Boosted(Robotic(boost), 4)
  {
    hide Tick, TickServer, ServiceTimes, INITIAL_TIMES, Boosted;
    PairTick(sys, boost, 3, luck, INITIAL_TIMES);
    ShortestTime(Robotic(boost));
    FirstTick(sys.robotic[0], 3, Enter(sys.pending[0], 3), luck(3, 1), ServiceTimes(Robotic(boost), INITIAL_TIMES));
  }

  lemma ThirdStarts(boost: real, luck: Luck)
    requires boost != 0.0
    ensures var sys := StandardAndRobotic([Arriving(0, 1), Arriving(1, 2), Arriving(2, 3)], boost);
      Equipped(sys, INITIAL_TIMES) &&
      var r := Run(sys, 4, luck, INITIAL_TIMES).robotic;
      r[0].current.Some? && r[0].toServe == Boosted(Robotic(boost), 4)
  {
    hide Run, Tick, INITIAL_TIMES, Boosted, HasTimes;
    var sys := StandardAndRobotic([Arriving(0, 1), Arriving(1, 2), Arriving(2, 3)], boost);
    InitialTimesSuffice(boost);
    RunNext(sys, 0, luck, INITIAL_TIMES);
    NobodyYet(sys, boost, luck);
    RunNext(sys, 1, luck, INITIAL_TIMES);
    OneArrived(Run(sys, 1, luck, INITIAL_TIMES), boost, luck);
    RunNext(sys, 2, luck, INITIAL_TIMES);
    TwoArrived(Run(sys, 2, luck, INITIAL_TIMES), boost, luck);
    RunNext(sys, 3, luck, INITIAL_TIMES);
    ThreeArrived(Run(sys, 3, luck, INITIAL_TIMES), boost, luck);
  }

  /**
    Three clients of the quickest kind in a row: the first is being served by the standard server, the
    second waits for it, the third goes to the robotic server, which starts with
    the quotient of the shortest time and its boost.
   */
  lemma ThirdIsBoosted(boost: real, luck: Luck)
    requires boost != 0.0
    ensures var sys := StandardAndRobotic([Arriving(0, 1), Arriving(1, 2), Arriving(2, 3)], boost);
      Equipped(sys, INITIAL_TIMES) &&
      var r := Run(sys, 4, luck, INITIAL_TIMES).robotic;
      r[0].current.Some? && r[0].toServe == Boosted(Robotic(boost), 4) && IsQuotient(r[0].toServe, 4, boost)
  {
    hide Run, Boosted, INITIAL_TIMES, IsQuotient, HasTimes;
    ThirdStarts(boost, luck);
    BoostedIsQuotient(4, boost);
  }

  /**
    The assertions of the source hold in every simulation of this configuration if and only if the boost is
    positive and at most 4, the shortest service time.
   */
  lemma SafeBoosts(boost: real)
    requires boost != 0.0
    ensures NeverFails(boost) <==> 0.0 < boost <= 4.0
  {
    hide Run, Busy, AssertionsHold;
    InitialTimesSuffice(boost);
    if 0.0 < boost <= 4.0 {
      forall pending, T: nat, luck ensures AssertionsHold(pending, boost, T, luck) {
        BoostIsSafe(pending, boost, T, luck);
      }
    } else {
      var pending, luck := [Arriving(0, 1), Arriving(1, 2), Arriving(2, 3)], (t: nat, i: nat) => true;
      BoostFails(boost, luck);
      assert !AssertionsHold(pending, boost, 4, luck);
    }
  }

  lemma BoostIsSafe(pending: seq<Client>, boost: real, T: nat, luck: Luck)
    requires 0.0 < boost <= 4.0
    ensures AssertionsHold(pending, boost, T, luck)
  {
    hide Run;
    InitialTimesSuffice(boost);
    RunKeepsBusy(StandardAndRobotic(pending, boost), T, luck, INITIAL_TIMES);
  }

  lemma BoostFails(boost: real, luck: Luck)
    requires boost != 0.0 && !(0.0 < boost <= 4.0)
    ensures !AssertionsHold([Arriving(0, 1), Arriving(1, 2), Arriving(2, 3)], boost, 4, luck)
  {
    hide Run, Boosted;
    ThirdStarts(boost, luck);
    BoostedIsPositive(4, boost);
  }

  // ---------------------------------------------------------------- a recorded waiting time

  lemma SingleTick(sys: System, t: nat, luck: Luck, table: Times)
    requires Equipped(sys, table) && |sys.standard| == 1 && sys.robotic == []
    ensures var (c, rest) := GetClient(sys.pending, t);
      Tick(sys, t, luck, table) == System(rest, [TickOf(sys.standard[0], t, c, luck(t, 0), table)], [])
  {
    hide TickOf, Team;
    var c := GetClient(sys.pending, t).0;
    TeamOfOne(sys.standard, false, t, c, StandardTarget(sys, c), Slice(luck, t, 0), table);
  }

  /** A client that arrives at tick 1 at an idle server starts at once, and is recorded to have waited one tick. */
  lemma RecordedWaitExample(c: Client, luck: Luck, table: Times)
    requires HasTimes(Standard, table) && c.arrival == 1
    ensures var sys := System([c], [NewServer(Standard)], []);
      Equipped(sys, table) &&
      var s := Run(sys, 2, luck, table).standard[0];
      s.current.Some? && s.current.value.start == s.current.value.entry == 1 && s.current.value.wait == 1
  {
    hide Run, Tick, TickServer;
    var sys := System([c], [NewServer(Standard)], []);
    var times := ServiceTimes(Standard, table);
    RunNext(sys, 0, luck, table);
    SingleTick(sys, 0, luck, table);
    IdleTick(sys.standard[0], 0, luck(0, 0), times);
    var next := Run(sys, 1, luck, table);
    RunNext(sys, 1, luck, table);
    SingleTick(next, 1, luck, table);
    FirstTick(next.standard[0], 1, Enter(c, 1), luck(1, 0), times);
  }
}
