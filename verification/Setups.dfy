/** One test of the program in its two configurations, from generating the clients to releasing them. */
module Setups {
  import opened Wrappers
  import opened HashMap
  import opened Queue
  import opened Clients
  import opened InitialTable
  import opened Configurations
  import opened Server
  import opened Statistics
  import M = Model
  import SystemModel
  import SystemLaws
  import System

  lemma HeldByTwo(vs: seq<M.Server>)
    ensures |vs| == 2 ==> SystemLaws.Held(vs) == M.HeldBy(vs[0]) + M.HeldBy(vs[1])
    ensures |vs| == 1 ==> SystemLaws.Held(vs) == M.HeldBy(vs[0])
    ensures |vs| == 0 ==> SystemLaws.Held(vs) == multiset{}
  {
    hide M.HeldBy;
    if |vs| > 0 {
      assert |vs| == 1 ==> |vs[..|vs| - 1]| == 0;
      assert SystemLaws.Held(vs) == SystemLaws.Held(vs[..|vs| - 1]) + M.HeldBy(vs[|vs| - 1]);
    }
  }

  /** What freeing the servers relies on after a run from new servers. */
  lemma RunIsTidy(sys: SystemModel.System, T: nat, luck: SystemModel.Luck, table: M.Times)
    requires SystemModel.Equipped(sys, table) && SystemModel.Capable(sys, table) && SystemLaws.AllNew(sys)
    ensures var r := SystemModel.Run(sys, T, luck, table);
      forall i :: 0 <= i < |r.standard| ==> r.standard[i].kind.Standard? && r.standard[i].disabled == []
    ensures SystemLaws.Everyone(SystemModel.Run(sys, T, luck, table)) == multiset(SystemLaws.Expected(sys.pending))
  {
    hide SystemModel.Run, SystemLaws.Everyone, SystemLaws.AllNew, SystemModel.Capable;
    SystemLaws.NewSystemIsLawful(sys, table);
    SystemLaws.RunIsLawful(sys, T, luck, table);
    LawfulIsTidy(SystemModel.Run(sys, T, luck, table), T, table);
    SystemLaws.RunConserves(sys, T, luck, table);
    SystemLaws.EveryoneNew(sys);
  }

  lemma LawfulIsTidy(sys: SystemModel.System, T: nat, table: M.Times)
    requires SystemModel.Equipped(sys, table) && SystemModel.Capable(sys, table)
    requires SystemLaws.LawfulSystem(sys, T, table)
    ensures forall i :: 0 <= i < |sys.standard| ==> sys.standard[i].kind.Standard? && sys.standard[i].disabled == []
  {
  }

  lemma NewIsNotBusy(sys: SystemModel.System)
    requires SystemLaws.AllNew(sys)
    ensures SystemLaws.Busy(sys.standard) && SystemLaws.Busy(sys.robotic)
  {
  }

  /** The system consists of these two servers. */
  predicate HasServers(system: System.System, server1: Server, server2: Server) {
    (system.standard == [server1, server2] && system.robotic == []) ||
    (system.standard == [server1] && system.robotic == [server2])
  }

  /** The two calls of server_free at the end of a setup. */
  method FreeBoth(system: System.System, server1: Server, server2: Server) returns (released: seq<M.Client>)
    requires system.Valid() && HasServers(system, server1, server2)
    requires forall i :: 0 <= i < |system.View().standard| ==> system.View().standard[i].disabled == []
    ensures multiset(M.Names(released)) ==
      SystemLaws.Held(system.View().standard) + SystemLaws.Held(system.View().robotic)
  {
    hide Server.Valid, Server.Sound, Server.Ready, HashMap.Valid, Queue.Valid, SystemLaws.Held, M.HeldBy, M.Names,
      System.States;
    HeldByTwo(system.View().standard);
    HeldByTwo(system.View().robotic);
    var freed1 := server1.Free();
    var freed2 := server2.Free();
    released := freed1 + freed2;
    NamesTogether(freed1, freed2);
  }

  /**
    The common end of both setups: simulate, then free the servers. Every client is either released now or
    still pending, exactly once.
   */
  method SimulateAndFree(system: System.System, server1: Server, server2: Server, T: int, luck: SystemModel.Luck)
    returns (stat: SimStat, released: seq<M.Client>)
    requires system.Valid() && SystemLaws.AllNew(system.View()) && HasServers(system, server1, server2)
    modifies system`front, system`back, system.clients, system.clients.items, system.front, system.back
    ensures system.Valid() && system.View() == EndOf(old(system.View()), T, luck, system.table.contents)
    ensures stat == EndStats(old(system.View()), T, luck, system.table.contents)
    ensures multiset(M.Names(released)) + multiset(SystemLaws.Expected(system.clients.contents)) ==
      multiset(SystemLaws.Expected(old(system.clients.contents)))
  {
    hide Server.Valid, Server.Sound, Server.Ready, HashMap.Valid, Queue.Valid, SystemModel.Team, SystemModel.Capable,
      SystemModel.Run, SystemLaws.AllNew, SystemLaws.Held, SystemLaws.Expected, SystemLaws.Busy, M.Names, System.States,
      System.Separate, StatsOf;
    ghost var before, n := system.View(), if T > 0 then T else 0;
    NewIsNotBusy(before);
    RunIsTidy(before, n, luck, system.table.contents);
    stat := system.Simulate(T, luck);
    released := FreeBoth(system, server1, server2);
  }

  /** Servers that share nothing but the table make a team. */
  lemma OneIsSeparate(server: Server, table: Table)
    requires server.Sound() && server.table == table
    ensures var robotic := server.kind.Robotic?;
      System.Separate([server], robotic, table, server.Repr) &&
      System.States([server], robotic, table, server.Repr) == [server.State()]
  {
    hide Server.Valid, Server.Ready, Server.View, HashMap.Valid, SystemModel.Team, SystemModel.AllCanServe;
  }

  lemma TwoAreSeparate(server1: Server, server2: Server, table: Table)
    requires server1.Sound() && server2.Sound() && server1.table == server2.table == table
    requires server1.kind.Robotic? == server2.kind.Robotic? && server1.Repr !! server2.Repr
    ensures var robotic, region := server1.kind.Robotic?, server1.Repr + server2.Repr;
      System.Separate([server1, server2], robotic, table, region) &&
      System.States([server1, server2], robotic, table, region) == [server1.State(), server2.State()]
  {
    hide Server.Valid, Server.Ready, Server.View, HashMap.Valid, SystemModel.Team, SystemModel.AllCanServe;
  }

  lemma NoneAreSeparate(robotic: bool, table: Table)
    ensures System.Separate([], robotic, table, {}) && System.States([], robotic, table, {}) == []
  {
  }

  /** setup0: two standard servers. */
  method Setup0(table: Table, clients: Queue<M.Client>, T: int, luck: SystemModel.Luck)
    returns (stat: SimStat, released: seq<M.Client>)
    requires table.Valid() && Ready(None, table.contents) && clients.Valid()
    modifies clients, clients.items
    ensures Tested(None, old(clients.contents), T, luck, table.contents, stat, released, clients.contents)
    ensures clients.Valid()
  {
    hide Server.Valid, Server.Sound, Server.Ready, HashMap.Valid, Queue.Valid, M.CanServe, SystemLaws.Expected, M.Names,
      SystemModel.Run, StatsOf, System.Separate, System.States;
    var server1 := Server.New(M.Standard, table, true);
    var server2 := Server.New(M.Standard, table, true);
    ghost var front := server1.Repr + server2.Repr;
    TwoAreSeparate(server1, server2, table);
    NoneAreSeparate(true, table);
    var system := new System.System(clients, [server1, server2], [], table, front, {});
    assert system.View() == TwoStandard(clients.contents);
    stat, released := SimulateAndFree(system, server1, server2, T, luck);
  }

  /** setup1: a standard and a robotic server. */
  method Setup1(table: Table, clients: Queue<M.Client>, boost: real, T: int, luck: SystemModel.Luck)
    returns (stat: SimStat, released: seq<M.Client>)
    requires table.Valid() && Ready(Some(boost), table.contents) && clients.Valid()
    modifies clients, clients.items
    ensures Tested(Some(boost), old(clients.contents), T, luck, table.contents, stat, released, clients.contents)
    ensures clients.Valid()
  {
    hide Server.Valid, Server.Sound, Server.Ready, HashMap.Valid, Queue.Valid, M.CanServe, SystemLaws.Expected, M.Names,
      SystemModel.Run, StatsOf, System.Separate, System.States;
    var server1 := Server.New(M.Standard, table, true);
    var server2 := Server.New(M.Robotic(boost), table, true);
    OneIsSeparate(server1, table);
    OneIsSeparate(server2, table);
    var system := new System.System(clients, [server1], [server2], table, server1.Repr, server2.Repr);
    assert system.View() == StandardAndRobotic(clients.contents, boost);
    stat, released := SimulateAndFree(system, server1, server2, T, luck);
  }

  /**
    What a setup does with the clients that it is given: it reports the statistics of the model's run, leaves
    the clients that the run leaves pending, and releases all others, each exactly once.
   */
  ghost predicate Tested(robot: Option<real>, given: seq<M.Client>, T: int, luck: SystemModel.Luck, table: M.Times,
                         stat: SimStat, released: seq<M.Client>, left: seq<M.Client>)
    requires Ready(robot, table)
  {
    ConfigurationIsReady(robot, given, table);
    var sys := Configuration(robot, given);
    stat == EndStats(sys, T, luck, table) && left == EndOf(sys, T, luck, table).pending &&
    multiset(M.Names(released)) + multiset(SystemLaws.Expected(left)) == multiset(SystemLaws.Expected(given))
  }

  /**
    The outcome of one test, given the clients it generated: exactly the draws that arrive before the
    horizon, each of them released exactly once in the end, and the statistics of the model's run.
   */
  ghost predicate Outcome(generated: seq<M.Client>, robot: Option<real>, table: M.Times, draws: nat -> Draw, T: int,
                          luck: SystemModel.Luck, stat: SimStat, released: seq<M.Client>)
    requires Ready(robot, table)
  {
    ConfigurationIsReady(robot, generated, table);
    (forall i :: 0 <= i < |generated| ==> Drawn(generated[i], draws, i) && generated[i].arrival < T) &&
    GapSum(draws, |generated| + 1) >= T &&
    (forall p :: multiset(M.Names(released))[p] == if p in SystemLaws.Expected(generated) then 1 else 0) &&
    stat.totalClients == |generated| && stat == EndStats(Configuration(robot, generated), T, luck, table)
  }

  /** When the horizon is that of the arrivals, nobody is left pending. */
  lemma NobodyIsLeft(robot: Option<real>, given: seq<M.Client>, T: int, luck: SystemModel.Luck, table: M.Times)
    requires Ready(robot, table) && M.Chronological(given) && forall i :: 0 <= i < |given| ==> given[i].arrival < T
    ensures SystemModel.Equipped(Configuration(robot, given), table)
    ensures EndOf(Configuration(robot, given), T, luck, table).pending == []
  {
    hide SystemModel.Run, SystemModel.Equipped, SystemLaws.AllNew, M.Chronological;
    ConfigurationIsReady(robot, given, table);
    SystemLaws.HorizonReached(Configuration(robot, given), if T > 0 then T else 0, luck, table);
  }

  /** run_test: the clients that the setup leaves in the queue are released last. */
  method RunTest(robot: Option<real>, table: Table, draws: nat -> Draw, T: int, luck: SystemModel.Luck)
    returns (stat: SimStat, released: seq<M.Client>)
    requires table.Valid() && Ready(robot, table.contents) && forall i :: draws(i).gap >= 1
    ensures exists generated :: Outcome(generated, robot, table.contents, draws, T, luck, stat, released)
  {
    hide HashMap.Valid, Queue.Valid, M.Chronological, M.DistinctIds, SystemLaws.Expected, M.Names, Ready, Drawn, GapSum,
      EndStats, EndOf, Reversed;
    var clients := ClientsInit(draws, T);
    ghost var generated := clients.contents;
    NobodyIsLeft(robot, generated, T, luck, table.contents);
    AllAreReported(robot, generated, T, luck, table.contents);
    if robot.Some? {
      stat, released := Setup1(table, clients, robot.value, T, luck);
    } else {
      stat, released := Setup0(table, clients, T, luck);
    }
    var left := Queue<M.Client>.Free(clients);
    assert left == [] by { NothingReversed(clients.contents); }
    assert released + left == released;
    released := released + left;
    NobodyIsExpected(clients.contents);
    forall p ensures multiset(M.Names(released))[p] == if p in SystemLaws.Expected(generated) then 1 else 0 {
      SystemLaws.OnceEach(generated, p);
    }
    assert Outcome(generated, robot, table.contents, draws, T, luck, stat, released);
  }

  lemma NothingReversed(cs: seq<M.Client>)
    requires cs == []
    ensures Reversed(cs) == []
  {
  }

  lemma NobodyIsExpected(cs: seq<M.Client>)
    requires cs == []
    ensures multiset(SystemLaws.Expected(cs)) == multiset{}
  {
  }

  /** These are the statistics and the released clients of a test with these draws. */
  ghost predicate Reported(robot: Option<real>, table: M.Times, draws: nat -> Draw, T: int, luck: SystemModel.Luck,
                           stat: SimStat, released: seq<M.Client>)
    requires Ready(robot, table)
  {
    exists generated :: Outcome(generated, robot, table, draws, T, luck, stat, released)
  }

  /** What the program does with one test after the other, on one table and with a boost that is safe. */
  method RunTests(robot: Option<real>, hash: M.ServiceKey -> nat, draws: nat -> nat -> Draw, T: int,
                  luck: nat -> SystemModel.Luck, count: nat)
    returns (stats: seq<SimStat>, released: seq<seq<M.Client>>)
    requires robot.Some? ==> 0.0 < robot.value <= 4.0
    requires forall n, i :: draws(n)(i).gap >= 1
    ensures Ready(robot, INITIAL_TIMES) && |stats| == |released| == count
    ensures forall n :: 0 <= n < count ==>
      Reported(robot, INITIAL_TIMES, draws(n), T, luck(n), stats[n], released[n])
  {
    hide HashMap.Valid, Outcome, M.CanServe;
    InitialTimesSuffice(if robot.Some? then robot.value else 1.0);
    var table := InitTable(hash);
    stats, released := [], [];
    for n := 0 to count
      invariant |stats| == |released| == n && table.Valid() && table.contents == INITIAL_TIMES
      invariant forall k :: 0 <= k < n ==>
        Reported(robot, INITIAL_TIMES, draws(k), T, luck(k), stats[k], released[k])
    {
      var stat, freed := RunTest(robot, table, draws(n), T, luck(n));
      assert Reported(robot, INITIAL_TIMES, draws(n), T, luck(n), stat, freed);
      stats, released := stats + [stat], released + [freed];
    }
  }
}
