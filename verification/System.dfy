/** The simulation: loops over servers and over time, proved to compute the functions of SystemModel. */
module System {
  import opened Wrappers
  import opened Queue
  import opened Server
  import M = Model
  import SystemModel
  import SystemLaws
  import opened Statistics

  /** Servers of one kind that share the service table and nothing else; `region` holds all their objects. */
  ghost predicate Separate(ss: seq<Server>, robotic: bool, table: Table, region: set<object>)
    reads region, table, table.buckets
  {
    table !in region && table.buckets !in region &&
    (forall i :: 0 <= i < |ss| ==> ss[i] in region && ss[i].Repr <= region) &&
    (forall i :: 0 <= i < |ss| ==> ss[i].table == table && ss[i].Sound() && ss[i].kind.Robotic? == robotic) &&
    (forall i, j :: 0 <= i < j < |ss| ==> ss[i].Repr !! ss[j].Repr)
  }

  ghost function States(ss: seq<Server>, robotic: bool, table: Table, region: set<object>): (r: seq<M.Server>)
    requires Separate(ss, robotic, table, region)
    reads region, table, table.buckets
    ensures |r| == |ss| && forall i :: 0 <= i < |ss| ==> r[i] == ss[i].State()
    ensures SystemModel.Team(r, robotic, table.contents) && SystemModel.AllCanServe(r, table.contents)
  {
    seq(|ss|, i requires 0 <= i < |ss| && Separate(ss, robotic, table, region) reads region, table, table.buckets =>
      ss[i].State())
  }

  /** Ticking one server leaves all others alone. */
  method TickOne(ss: seq<Server>, robotic: bool, table: Table, ghost region: set<object>, k: nat)
    requires Separate(ss, robotic, table, region) && k < |ss|
    requires ss[k].State().current.Some? ==> ss[k].State().toServe > 0
    modifies ss[k].Repr
    ensures Separate(ss, robotic, table, region)
    ensures ss[k].State() == M.Clock(old(ss[k].State()))
    ensures forall i :: 0 <= i < |ss| && i != k ==> ss[i].State() == old(ss[i].State())
  {
    hide Server.Valid, Server.Sound, Server.View, Server.Ready, M.Clock;
    ss[k].Tick();
  }

  /** One of the two loops of servers_update_serve_time. */
  method TickAll(ss: seq<Server>, robotic: bool, table: Table, ghost region: set<object>)
    requires Separate(ss, robotic, table, region) && SystemLaws.Busy(States(ss, robotic, table, region))
    modifies region
    ensures Separate(ss, robotic, table, region)
    ensures States(ss, robotic, table, region) == SystemModel.ClockAll(old(States(ss, robotic, table, region)))
  {
    hide Server.Valid, Server.Sound, Server.State, Server.Ready, M.Clock, States, SystemModel.ClockAll;
    ghost var before := States(ss, robotic, table, region);
    for k := 0 to |ss|
      invariant Separate(ss, robotic, table, region)
      invariant forall i :: 0 <= i < |ss| ==> ss[i].State() == if i < k then M.Clock(before[i]) else before[i]
    {
      TickOne(ss, robotic, table, region, k);
    }
    assert States(ss, robotic, table, region) == SystemModel.ClockAll(before);
  }

  /** The loop body of update_clients leaves all other servers alone. */
  method UpdateOne(ss: seq<Server>, robotic: bool, table: Table, ghost region: set<object>, k: nat, t: nat, ok: bool)
    returns (ghost region': set<object>)
    requires Separate(ss, robotic, table, region) && k < |ss|
    modifies ss[k].Repr
    ensures Separate(ss, robotic, table, region') && region <= region' && fresh(region' - region)
    ensures ss[k].State() == M.UpdateStat(M.Serve(old(ss[k].State()), t, ok, ss[k].Times()), t)
    ensures forall i :: 0 <= i < |ss| && i != k ==> ss[i].State() == old(ss[i].State())
  {
    hide Server.Valid, Server.Sound, Server.View, Server.Ready, Server.Times, M.Serve, M.UpdateStat;
    ss[k].Update(t, ok);
    region' := region + ss[k].Repr;
  }

  /** update_clients. `ok(i)` is the outcome of the success test of server `i`, should it be made. */
  method UpdateClients(ss: seq<Server>, robotic: bool, table: Table, ghost region: set<object>, t: nat, ok: nat -> bool)
    returns (ghost region': set<object>)
    requires Separate(ss, robotic, table, region)
    modifies region
    ensures Separate(ss, robotic, table, region') && region <= region' && fresh(region' - region)
    ensures States(ss, robotic, table, region') ==
            SystemModel.ServeAll(old(States(ss, robotic, table, region)), robotic, t, ok, table.contents)
  {
    hide Server.Valid, Server.Sound, Server.State, Server.Ready, Server.Times, M.Serve, M.UpdateStat, States,
      SystemModel.ServeAll;
    ghost var before := States(ss, robotic, table, region);
    region' := region;
    for k := 0 to |ss|
      invariant Separate(ss, robotic, table, region') && region <= region' && fresh(region' - region)
      invariant forall i :: 0 <= i < |ss| ==>
        ss[i].State() == if i < k then M.UpdateStat(M.Serve(before[i], t, ok(i), ss[i].Times()), t) else before[i]
    {
      region' := UpdateOne(ss, robotic, table, region', k, t, ok(k));
    }
    TimesOf(ss, robotic, table, region');
    assert States(ss, robotic, table, region') == SystemModel.ServeAll(before, robotic, t, ok, table.contents);
  }

  lemma TimesOf(ss: seq<Server>, robotic: bool, table: Table, region: set<object>)
    requires Separate(ss, robotic, table, region)
    ensures forall i :: 0 <= i < |ss| ==> ss[i].Ready() && ss[i].Times() == M.ServiceTimes(ss[i].kind, table.contents)
  {
    hide Server.Valid, Server.Sound;
  }

  /** One of the two loops of assign_client: the first server of least load, and that load. */
  method FindLeastLoaded(ss: seq<Server>, robotic: bool, table: Table, ghost region: set<object>, d: M.Disability)
    returns (best: Option<nat>, min: int)
    requires Separate(ss, robotic, table, region)
    ensures best.None? <==> ss == []
    ensures best.Some? ==> best == Some(SystemModel.ArgMin(States(ss, robotic, table, region), d)) &&
                           min == M.Load(States(ss, robotic, table, region)[best.value], d)
  {
    hide Server.Valid, Server.View, Server.Sound, States, SystemModel.LeastLoaded, M.Load;
    best, min := None, 0;
    ghost var vs := States(ss, robotic, table, region);
    for k := 0 to |ss|
      invariant best.None? <==> k == 0
      invariant best.Some? ==> best.value < k && SystemModel.LeastLoaded(vs[..k], d, best.value) &&
                               min == M.Load(vs[best.value], d)
    {
      var load := ss[k].GetLoad(d);
      if best.Some? {
        SystemLaws.LeastLoadedStep(vs, d, k, best.value);
      } else {
        SystemLaws.LeastLoadedOfOne(vs, d);
      }
      if best.None? || min > load {
        best, min := Some(k), load;
      }
    }
    if best.Some? {
      assert vs[..|ss|] == vs;
      SystemLaws.LeastLoadedIsUnique(vs, d, best.value, SystemModel.ArgMin(vs, d));
    }
  }

  /** server_assign_client on one server of a list. */
  method AssignOne(ss: seq<Server>, robotic: bool, table: Table, ghost region: set<object>, k: nat, c: M.Client)
    returns (ghost region': set<object>)
    requires Separate(ss, robotic, table, region) && k < |ss|
    modifies ss[k].Repr
    ensures Separate(ss, robotic, table, region') && region <= region' && fresh(region' - region)
    ensures States(ss, robotic, table, region') ==
            SystemModel.ArriveAll(old(States(ss, robotic, table, region)), Some(c), Some(k))
  {
    hide Server.Valid, Server.Sound, Server.View, Server.Ready, M.Assign, States, SystemModel.ArriveAll;
    ghost var before := States(ss, robotic, table, region);
    ss[k].AssignClient(c);
    region' := region + ss[k].Repr;
    assert States(ss, robotic, table, region') == SystemModel.ArriveAll(before, Some(c), Some(k));
  }

  /** The inner loop of compute_stats: an iterator over the finished clients of one server. */
  method AddFinished(finished: Queue<M.Client>, totals: Totals, ghost seen: seq<M.Client>) returns (r: Totals)
    requires finished.Valid() && totals == TotalsOf(seen)
    ensures r == TotalsOf(seen + Reversed(finished.contents))
  {
    hide TotalsOf, Queue.Valid;
    r := totals;
    var it := QueueIterator<M.Client>.Create(finished, true);
    ghost var visited := 0;
    assert seen + Reversed(finished.contents)[..0] == seen;
    while true
      invariant visited <= |finished.contents| && finished.Valid()
      invariant it == null ==> finished.contents == []
      invariant it != null ==> fresh(it) && it.queue == finished && it.index == visited
      invariant r == TotalsOf(seen + Reversed(finished.contents)[..visited])
      decreases |finished.contents| - visited
    {
      var more := QueueIterator<M.Client>.HasNext(it);
      if !more {
        break;
      }
      var next := QueueIterator<M.Client>.Next(it);
      var client := next.value;
      EnlistIsOneMore(seen + Reversed(finished.contents)[..visited], client);
      assert seen + Reversed(finished.contents)[..visited + 1] ==
        seen + Reversed(finished.contents)[..visited] + [client];
      match client.key.disability {
        case NoDisability => r := r.(nd := Add(r.nd, client));
        case Type1 => r := r.(t1 := Add(r.t1, client));
        case Type2 => r := r.(t2 := Add(r.t2, client));
        case Type3 => r := r.(t3 := Add(r.t3, client));
      }
      r := r.(all := Add(r.all, client));
      visited := visited + 1;
    }
    assert Reversed(finished.contents)[..visited] == Reversed(finished.contents);
  }

  method AddResults(server: Server, totals: Totals, queueLen: int, ghost seen: seq<M.Client>)
    returns (t: Totals, q: int)
    requires server.Valid() && totals == TotalsOf(seen)
    ensures t == TotalsOf(seen + Reversed(server.State().finished)) && q == queueLen + server.State().stat.meanQueueLen
  {
    hide Queue.Valid, Reversed, TotalsOf;
    q := queueLen + server.stat.meanQueueLen;
    t := AddFinished(server.finished, totals, seen);
  }

  class System {
    const clients: Queue<M.Client>
    const standard: seq<Server>
    const robotic: seq<Server>
    const table: Table
    ghost var front: set<object>  // the objects of the standard servers
    ghost var back: set<object>   // the objects of the robotic servers

    /** The servers share nothing with each other, nor with the queue of pending clients. */
    ghost predicate Valid()
      reads this, clients, clients.items, front, back, table, table.buckets
    {
      clients.Valid() && (standard != [] || robotic != []) &&
      Separate(standard, false, table, front) && Separate(robotic, true, table, back) &&
      front !! back && {this, clients, clients.items, table, table.buckets} !! front &&
      {this, clients, clients.items, table, table.buckets} !! back
    }

    ghost function View(): (v: SystemModel.System)
      requires Valid()
      reads this, clients, clients.items, front, back, table, table.buckets
      ensures |v.standard| == |standard| && |v.robotic| == |robotic|
      ensures SystemModel.Equipped(v, table.contents) && SystemModel.Capable(v, table.contents)
    {
      SystemModel.System(clients.contents, States(standard, false, table, front), States(robotic, true, table, back))
    }

    constructor (clients: Queue<M.Client>, standard: seq<Server>, robotic: seq<Server>, table: Table,
                 ghost front: set<object>, ghost back: set<object>)
      requires clients.Valid() && (standard != [] || robotic != [])
      requires Separate(standard, false, table, front) && Separate(robotic, true, table, back) && front !! back
      requires {clients, clients.items} !! front && {clients, clients.items} !! back
      ensures Valid() && this.clients == clients && this.standard == standard && this.robotic == robotic
      ensures this.table == table
      ensures this.front == front && this.back == back
    {
      this.clients := clients;
      this.standard := standard;
      this.robotic := robotic;
      this.table := table;
      this.front := front;
      this.back := back;
    }

    /** get_client */
    method GetClient(t: int) returns (c: Option<M.Client>)
      requires Valid()
      modifies clients, clients.items
      ensures Valid() && View() == old(View()).(pending := SystemModel.GetClient(old(clients.contents), t).1)
      ensures c == SystemModel.GetClient(old(clients.contents), t).0
      ensures clients.items == old(clients.items) || fresh(clients.items)
    {
      hide Server.Valid, Server.Sound, Server.State, Server.Ready, States, Separate, Queue.Valid;
      var next := clients.Top();
      if next.Some? {
        if next.value.arrival == t {
          var _ := clients.Pop(true);
          var client := next.value.(arrival := 0, wait := 0, start := 0, finish := 0, failures := 0, total := 0,
                                    entry := t);
          return Some(client);
        }
      }
      return None;
    }

    /** The choice that assign_client makes. */
    method ChooseServer(d: M.Disability) returns (target: SystemModel.Target)
      requires Valid()
      ensures target == SystemModel.Dispatch(View(), d)
    {
      hide Server.Valid, Server.Sound, Server.State, Server.Ready, States, Separate, Queue.Valid, M.Load;
      var bestStandard, minStandard := FindLeastLoaded(standard, false, table, front, d);
      var bestRobotic, minRobotic := FindLeastLoaded(robotic, true, table, back, d);
      if !d.NoDisability? && bestRobotic.Some? {
        return SystemModel.ToRobotic(bestRobotic.value);
      } else if bestStandard.None? {
        return SystemModel.ToRobotic(bestRobotic.value);
      } else if bestRobotic.None? {
        return SystemModel.ToStandard(bestStandard.value);
      } else if minRobotic < minStandard {
        return SystemModel.ToRobotic(bestRobotic.value);
      } else {
        return SystemModel.ToStandard(bestStandard.value);
      }
    }

    method GiveStandard(k: nat, c: M.Client)
      requires Valid() && k < |standard|
      modifies this`front, front
      ensures Valid()
      ensures View() == old(View()).(standard := SystemModel.ArriveAll(old(View()).standard, Some(c), Some(k)))
      ensures front >= old(front) && fresh(front - old(front))
    {
      hide Server.Valid, Server.Sound, Server.State, Server.Ready, States, Queue.Valid, SystemModel.ArriveAll;
      front := AssignOne(standard, false, table, front, k, c);
    }

    method GiveRobotic(k: nat, c: M.Client)
      requires Valid() && k < |robotic|
      modifies this`back, back
      ensures Valid()
      ensures View() == old(View()).(robotic := SystemModel.ArriveAll(old(View()).robotic, Some(c), Some(k)))
      ensures back >= old(back) && fresh(back - old(back))
    {
      hide Server.Valid, Server.Sound, Server.State, Server.Ready, States, Queue.Valid, SystemModel.ArriveAll;
      back := AssignOne(robotic, true, table, back, k, c);
    }

    method TickStandard()
      requires Valid() && SystemLaws.Busy(View().standard)
      modifies front
      ensures Valid() && View() == old(View()).(standard := SystemModel.ClockAll(old(View()).standard))
    {
      hide Server.Valid, Server.Sound, Server.State, Server.Ready, States, Separate, Queue.Valid, SystemModel.ClockAll;
      TickAll(standard, false, table, front);
    }

    method UpdateStandard(t: nat, ok: nat -> bool)
      requires Valid()
      modifies this`front, front
      ensures Valid()
      ensures View() ==
        old(View()).(standard := SystemModel.ServeAll(old(View()).standard, false, t, ok, table.contents))
      ensures front >= old(front) && fresh(front - old(front))
    {
      hide Server.Valid, Server.Sound, Server.State, Server.Ready, States, Separate, Queue.Valid, SystemModel.ServeAll;
      front := UpdateClients(standard, false, table, front, t, ok);
    }

    method TickRobotic()
      requires Valid() && SystemLaws.Busy(View().robotic)
      modifies back
      ensures Valid() && View() == old(View()).(robotic := SystemModel.ClockAll(old(View()).robotic))
    {
      hide Server.Valid, Server.Sound, Server.State, Server.Ready, States, Separate, Queue.Valid, SystemModel.ClockAll;
      TickAll(robotic, true, table, back);
    }

    method UpdateRobotic(t: nat, ok: nat -> bool)
      requires Valid()
      modifies this`back, back
      ensures Valid()
      ensures View() == old(View()).(robotic := SystemModel.ServeAll(old(View()).robotic, true, t, ok, table.contents))
      ensures back >= old(back) && fresh(back - old(back))
    {
      hide Server.Valid, Server.Sound, Server.State, Server.Ready, States, Separate, Queue.Valid, SystemModel.ServeAll;
      back := UpdateClients(robotic, true, table, back, t, ok);
    }

    /** assign_client */
    method AssignClient(c: M.Client)
      requires Valid()
      modifies this`front, this`back, front, back
      ensures Valid() && View() == SystemModel.Deliver(old(View()), Some(c))
      ensures front >= old(front) && fresh(front - old(front)) && back >= old(back) && fresh(back - old(back))
    {
      hide Server.Valid, Server.Sound, Server.State, Server.Ready, States, Separate, Queue.Valid, SystemModel.ArriveAll,
        SystemModel.Dispatch, SystemModel.Deliver;
      SystemModel.DeliverTo(View(), c);
      var target := ChooseServer(c.key.disability);
      if target.ToStandard? {
        GiveStandard(target.i, c);
      } else {
        GiveRobotic(target.i, c);
      }
    }

    /** servers_run, after servers_update_serve_time */
    method ServersRun(t: nat, luck: SystemModel.Luck)
      requires Valid() && SystemLaws.Busy(View().standard) && SystemLaws.Busy(View().robotic)
      modifies this`front, this`back, front, back
      ensures Valid() && View() == SystemModel.RunServers(old(View()), t, luck, table.contents)
      ensures front >= old(front) && fresh(front - old(front)) && back >= old(back) && fresh(back - old(back))
    {
      hide Server.Valid, Server.Sound, Server.State, Server.Ready, States, Separate, Queue.Valid,
        SystemModel.ClockAll, SystemModel.ServeAll, SystemModel.Slice;
      TickStandard();
      TickRobotic();
      UpdateStandard(t, SystemModel.Slice(luck, t, 0));
      UpdateRobotic(t, SystemModel.Slice(luck, t, |standard|));
    }

    /** system_tick */
    method SystemTick(t: nat, luck: SystemModel.Luck)
      requires Valid() && SystemLaws.Busy(View().standard) && SystemLaws.Busy(View().robotic)
      modifies this`front, this`back, clients, clients.items, front, back
      ensures Valid() && View() == SystemModel.Tick(old(View()), t, luck, table.contents)
      ensures front >= old(front) && fresh(front - old(front)) && back >= old(back) && fresh(back - old(back))
      ensures clients.items == old(clients.items) || fresh(clients.items)
    {
      hide Server.Valid, Server.Sound, Server.State, Server.Ready, States, Separate, Queue.Valid,
        SystemModel.RunServers, SystemModel.Deliver, SystemModel.Tick, SystemModel.GetClient, SystemLaws.Busy;
      ghost var before := View();
      SystemModel.TickInSteps(before, t, luck, table.contents);
      var c := GetClient(t);
      if c.Some? {
        AssignClient(c.value);
      }
      SystemLaws.DeliverKeepsBusy(before, t);
      ServersRun(t, luck);
    }

    /** compute_stats */
    method ComputeStats(totalClients: int) returns (stat: SimStat)
      requires Valid()
      ensures stat == StatsOf(View().standard + View().robotic, totalClients)
    {
      hide Server.Valid, Server.Sound, Server.State, Server.Ready, States, Separate, Queue.Valid, Finished,
        QueueMeans, TotalsOf;
      ghost var vs := View().standard + View().robotic;
      var totals := Totals(ZERO_TALLY, ZERO_TALLY, ZERO_TALLY, ZERO_TALLY, ZERO_TALLY);
      var totalQueueLen := 0;
      var n := |standard| + |robotic|;
      NoServers(vs[..0]);
      for i := 0 to n
        invariant totals == TotalsOf(Finished(vs[..i])) && totalQueueLen == QueueMeans(vs[..i])
      {
        NextServer(vs, i);
        totals, totalQueueLen := AddServer(i, totals, totalQueueLen, Finished(vs[..i]));
      }
      assert vs[..n] == vs;
      stat := Divide(totalClients, totalQueueLen, n, totals);
    }

    method AddServer(i: nat, totals: Totals, queueLen: int, ghost seen: seq<M.Client>) returns (t: Totals, q: int)
      requires Valid() && i < |standard| + |robotic| && totals == TotalsOf(seen)
      ensures var v := (View().standard + View().robotic)[i];
        t == TotalsOf(seen + Reversed(v.finished)) && q == queueLen + v.stat.meanQueueLen
    {
      hide Server.Valid, Server.Sound, Server.Ready, Server.View, Queue.Valid, States, Reversed, TotalsOf;
      if i < |standard| {
        t, q := AddResults(standard[i], totals, queueLen, seen);
      } else {
        t, q := AddResults(robotic[i - |standard|], totals, queueLen, seen);
      }
    }

    /** simulate: `simulationTime` ticks, then the statistics. */
    method Simulate(simulationTime: int, luck: SystemModel.Luck) returns (stat: SimStat)
      requires Valid() && standard != [] && SystemLaws.Busy(View().standard) && SystemLaws.Busy(View().robotic)
      modifies this`front, this`back, clients, clients.items, front, back
      ensures Valid()
      ensures View() ==
        SystemModel.Run(old(View()), if simulationTime > 0 then simulationTime else 0, luck, table.contents)
      ensures stat == StatsOf(View().standard + View().robotic, |old(View()).pending|)
    {
      hide Server.Valid, Server.Sound, Server.State, Server.Ready, States, Separate, Queue.Valid, SystemModel.Tick,
        SystemModel.Equipped, SystemModel.Capable, SystemLaws.Busy;
      ghost var before := View();
      var totalClients := Queue<M.Client>.Size(clients);
      var t: nat := 0;
      while t < simulationTime
        invariant t <= if simulationTime > 0 then simulationTime else 0
        invariant Valid() && View() == SystemModel.Run(before, t, luck, table.contents)
        invariant SystemLaws.Busy(View().standard) && SystemLaws.Busy(View().robotic)
        invariant front >= old(front) && fresh(front - old(front)) && back >= old(back) && fresh(back - old(back))
        invariant clients.items == old(clients.items) || fresh(clients.items)
      {
        SystemLaws.TickKeepsBusy(View(), t, luck, table.contents);
        SystemTick(t, luck);
        t := t + 1;
      }
      stat := ComputeStats(totalClients);
    }
  }
}
