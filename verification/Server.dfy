/** Servers as objects: each operation is proved to compute the corresponding function of Model in place. */
module Server {
  import opened Wrappers
  import opened HashMap
  import opened Queue
  import opened InitialTable
  import M = Model

  type Table = HashMap<M.ServiceKey, int>

  /** The table of the eight service times, for any hash function; allocation succeeds. */
  method InitTable(hash: M.ServiceKey -> nat) returns (table: Table)
    ensures fresh(table) && fresh(table.buckets) && table.Valid() && table.contents == INITIAL_TIMES
  {
    var t := HashMap<M.ServiceKey, int>.New(hash, 8, true);
    table := t;
    var _ := table.Set(M.ServiceKey(M.NoDisability, M.Dest1), 4, true);
    var _ := table.Set(M.ServiceKey(M.NoDisability, M.Dest2), 6, true);
    var _ := table.Set(M.ServiceKey(M.Type1, M.Dest1), 8, true);
    var _ := table.Set(M.ServiceKey(M.Type1, M.Dest2), 10, true);
    var _ := table.Set(M.ServiceKey(M.Type2, M.Dest1), 10, true);
    var _ := table.Set(M.ServiceKey(M.Type2, M.Dest2), 14, true);
    var _ := table.Set(M.ServiceKey(M.Type3, M.Dest1), 18, true);
    var _ := table.Set(M.ServiceKey(M.Type3, M.Dest2), 16, true);
  }

  class Server {
    const kind: M.ServerType
    const table: Table
    var current: Option<M.Client>
    var toServe: int
    var stat: M.Stat
    const finished: Queue<M.Client>
    const normal: Queue<M.Client>    // the only queue of a standard server
    const disabled: Queue<M.Client>  // always empty on a standard server, which has no such queue
    ghost var history: seq<M.Passport>
    ghost var Repr: set<object>

    ghost predicate Valid()
      reads this, Repr
      ensures Valid() ==> this in Repr
    {
      {this, finished, normal, disabled} <= Repr &&
      {finished.items, normal.items, disabled.items} <= Repr &&
      finished != normal && finished != disabled && normal != disabled &&
      finished.items != normal.items && finished.items != disabled.items && normal.items != disabled.items &&
      finished.Valid() && normal.Valid() && disabled.Valid()
    }

    ghost function View(): (v: M.Server)
      reads this`current, this`toServe, this`stat, this`history, finished`contents, normal`contents, disabled`contents
      ensures v.kind == kind
    {
      M.Server(kind, toServe, current, disabled.contents, normal.contents, finished.contents, stat, history)
    }

    /** The same, as a function of the whole footprint. */
    ghost function State(): (v: M.Server)
      requires Valid()
      reads this, Repr
      ensures v.kind == kind
    {
      View()
    }

    /** The service table can be read and answers for every client. */
    ghost predicate Ready()
      reads table, table.buckets
    {
      table.Valid() && M.CanServe(kind, table.contents)
    }

    /** A server that can be ticked: it shares nothing with its table. */
    ghost predicate Sound()
      reads this, Repr, table, table.buckets
      ensures Sound() ==> Valid() && Ready() && this in Repr && table !in Repr && table.buckets !in Repr
    {
      Valid() && Ready() && table !in Repr && table.buckets !in Repr
    }

    ghost function Times(): (times: M.Times)
      requires Ready()
      reads table, table.buckets
      ensures M.Serviceable(times)
    {
      M.ServiceTimes(kind, table.contents)
    }

    constructor (kind: M.ServerType, table: Table)
      ensures Valid() && fresh(Repr) && View() == M.NewServer(kind) && this.table == table && this.kind == kind
      ensures table.Valid() && M.CanServe(kind, table.contents) ==> Sound()
    {
      this.kind := kind;
      this.table := table;
      current := None;
      toServe := 0;
      stat := M.ZERO_STAT;
      var f := new Queue<M.Client>(QUEUE_BASE_SIZE);
      var n := new Queue<M.Client>(QUEUE_BASE_SIZE);
      var d := new Queue<M.Client>(QUEUE_BASE_SIZE);
      finished, normal, disabled := f, n, d;
      history := [];
      Repr := {this, f, n, d, f.items, n.items, d.items};
    }

    /** standard_server_new and robotic_server_new; without memory for all of its parts there is no server. */
    static method New(kind: M.ServerType, table: Table, alloc: bool) returns (server: Server?)
      ensures (server == null) == !alloc
      ensures server != null ==>
        server.Valid() && fresh(server.Repr) && server.View() == M.NewServer(kind) && server.table == table &&
        server.kind == kind && (table.Valid() && M.CanServe(kind, table.contents) ==> server.Sound())
    {
      if !alloc {
        return null;
      }
      server := new Server(kind, table);
    }

    /** server_tick */
    method Tick()
      requires Sound() && (View().current.Some? ==> View().toServe > 0)
      modifies this`stat, this`toServe
      ensures Sound() && View() == M.Clock(old(View()))
    {
      hide Queue.Valid, HashMap.Valid, M.CanServe;
      if current.Some? {
        assert toServe > 0;
        stat := stat.(active := stat.active + 1);
        toServe := toServe - 1;
      } else {
        stat := stat.(idle := stat.idle + 1);
      }
    }

    method GetLoad(d: M.Disability) returns (load: int)
      requires Valid()
      ensures load == M.Load(View(), d)
    {
      match kind {
        case Standard =>
          load := Queue<M.Client>.Size(normal);
        case Robotic(_) =>
          load := Queue<M.Client>.Size(disabled);
          if d.NoDisability? {
            var n := Queue<M.Client>.Size(normal);
            load := n + load;
          }
      }
    }

    /** server_assign_client */
    method AssignClient(client: M.Client)
      requires Sound()
      modifies Repr
      ensures Sound() && View() == M.Assign(old(View()), client) && fresh(Repr - old(Repr))
    {
      hide Queue.Valid, HashMap.Valid, M.CanServe;
      if kind.Standard? || client.key.disability.NoDisability? {
        var _ := Queue<M.Client>.Push(normal, Some(client), true);
      } else {
        var _ := Queue<M.Client>.Push(disabled, Some(client), true);
      }
      history := history + [M.Admitted(client)];
      Repr := Repr + {normal.items, disabled.items};
    }

    /** get_service_time: the source dereferences the result of the lookup. */
    method GetServiceTime(client: M.Client) returns (time: int)
      requires table.Valid() && client.key in table.contents && (kind.Robotic? ==> kind.boost != 0.0)
      ensures time == M.Boosted(kind, table.contents[client.key])
      ensures kind.Standard? ==> time == table.contents[client.key]
      ensures kind.Robotic? ==> M.IsQuotient(time, table.contents[client.key], kind.boost)
    {
      hide HashMap.Valid, M.IsQuotient;
      if kind.Robotic? {
        BoostedIsQuotient(table.contents[client.key], kind.boost);
      }
      var value := table.Get(client.key);
      time := M.Boosted(kind, value.value);
    }

    lemma TimeOf(key: M.ServiceKey)
      requires Ready()
      ensures key in table.contents && (kind.Robotic? ==> kind.boost != 0.0)
      ensures Times()[key] == M.Boosted(kind, table.contents[key]) >= 1
    {
      hide HashMap.Valid;
      assert key in Times();
    }

    method StartDisabled(t: int)
      requires Valid() && Ready() && disabled.contents != []
      modifies this`current, this`toServe, this`Repr, disabled, disabled.items
      ensures Valid() && fresh(Repr - old(Repr))
      ensures View() ==
        M.StartNext(old(View().(disabled := View().disabled[1..])), old(disabled.contents)[0], t, Times())
    {
      hide Queue.Valid, HashMap.Valid, Times, M.CanServe;
      var next := disabled.Top();
      TimeOf(next.value.key);
      toServe := GetServiceTime(next.value);
      assert toServe > 0;
      var _ := disabled.Pop(true);
      current := Some(next.value.(start := t, wait := t - next.value.arrival));
      Repr := Repr + {disabled.items};
    }

    method StartNormal(t: int)
      requires Valid() && Ready() && normal.contents != []
      modifies this`current, this`toServe, this`Repr, normal, normal.items
      ensures Valid() && fresh(Repr - old(Repr))
      ensures View() ==
        M.StartNext(old(View().(normal := View().normal[1..])), old(normal.contents)[0], t, Times())
    {
      hide Queue.Valid, HashMap.Valid, Times, M.CanServe;
      var next := normal.Top();
      TimeOf(next.value.key);
      toServe := GetServiceTime(next.value);
      assert toServe > 0;
      var _ := normal.Pop(true);
      current := Some(next.value.(start := t, wait := t - next.value.arrival));
      Repr := Repr + {normal.items};
    }

    /** server_set_next_client; its callers have cleared the current client. */
    method SetNextClient(t: int)
      requires Valid() && Ready() && current.None?
      modifies this`current, this`toServe, this`Repr, normal, normal.items, disabled, disabled.items
      ensures Valid() && View() == M.SetNext(old(View()), t, old(Times())) && fresh(Repr - old(Repr))
    {
      hide Queue.Valid, HashMap.Valid, Times, M.CanServe;
      var waitingDisabled := Queue<M.Client>.Size(disabled);
      var waiting := Queue<M.Client>.Size(normal);
      if kind.Robotic? && waitingDisabled != 0 {
        StartDisabled(t);
      } else if waiting != 0 {
        StartNormal(t);
      } else {
        current := None;
        toServe := 0;
      }
    }

    /** server_finalize_current_client with the client_finalize that follows it. */
    method FinalizeCurrentClient(t: int)
      requires Valid() && current.Some?
      modifies this`current, this`stat, this`Repr, finished, finished.items
      ensures Valid() && View() == M.Finalize(old(View()), t) && fresh(Repr - old(Repr))
    {
      hide Queue.Valid;
      stat := stat.(served := stat.served + 1);
      var client := current.value;
      client := client.(finish := t, total := t - client.arrival);
      var _ := Queue<M.Client>.Push(finished, Some(client), true);
      current := None;
      Repr := Repr + {finished.items};
    }

    /** server_retry */
    method Retry()
      requires Valid() && Ready() && current.Some?
      modifies this`current, this`stat, this`toServe
      ensures Valid() && View() == M.Retry(old(View()), old(Times()))
    {
      hide Queue.Valid, HashMap.Valid, Times;
      stat := stat.(failures := stat.failures + 1);
      TimeOf(current.value.key);
      toServe := GetServiceTime(current.value);
      current := Some(current.value.(failures := current.value.failures + 1));
    }

    /** server_update_stat */
    method UpdateStat(t: nat)
      requires Valid()
      modifies this`stat
      ensures Valid() && View() == M.UpdateStat(old(View()), t)
    {
      hide Queue.Valid;
      var total: int := Queue<M.Client>.Size(normal);
      if kind.Robotic? {
        var n := Queue<M.Client>.Size(disabled);
        total := total + n;
      }
      stat := stat.(sumQueueLens := stat.sumQueueLens + total);
      stat := stat.(meanQueueLen := stat.sumQueueLens / (t + 1));
    }

    /** The body of the loop of update_clients. `ok` is the outcome of the success test. */
    method Update(t: nat, ok: bool)
      requires Sound()
      modifies Repr
      ensures Sound() && fresh(Repr - old(Repr))
      ensures View() == M.UpdateStat(M.Serve(old(View()), t, ok, Times()), t)
    {
      hide Queue.Valid, HashMap.Valid, M.CanServe, M.SetNext, M.Retry, M.UpdateStat;
      if current.Some? {
        if toServe == 0 {
          if ok {
            FinalizeCurrentClient(t);
            SetNextClient(t);
          } else {
            Retry();
          }
        }
      } else {
        SetNextClient(t);
      }
      UpdateStat(t);
    }

    /** server_free: the clients handed to the deallocator, in the order of the calls. */
    method Free() returns (freed: seq<M.Client>)
      requires Valid() && (kind.Standard? ==> View().disabled == [])
      ensures multiset(M.Names(freed)) == M.HeldBy(View())
    {
      hide Queue.Valid, M.HeldBy, M.Names, Reversed;
      var f := Queue<M.Client>.Free(finished);
      var c := if current.Some? then [current.value] else [];
      var n := Queue<M.Client>.Free(normal);
      var d := [];
      if kind.Robotic? {
        d := Queue<M.Client>.Free(disabled);
      }
      FreedIsHeld(View(), f, c, n, d);
      freed := f + c + n + d;
    }
  }

  lemma FreedIsHeld(s: M.Server, f: seq<M.Client>, c: seq<M.Client>, n: seq<M.Client>, d: seq<M.Client>)
    requires f == Reversed(s.finished) && c == M.Current(s) && n == Reversed(s.normal)
    requires if s.kind.Robotic? then d == Reversed(s.disabled) else d == s.disabled == []
    ensures multiset(M.Names(f + c + n + d)) == M.HeldBy(s)
  {
    hide Reversed, M.Names;
    SameNames(s.finished);
    SameNames(s.normal);
    SameNames(s.disabled);
    NamesTogether(f + c + n, d);
    NamesTogether(f + c, n);
    NamesTogether(f, c);
  }

  lemma NamesTogether(a: seq<M.Client>, b: seq<M.Client>)
    ensures multiset(M.Names(a + b)) == multiset(M.Names(a)) + multiset(M.Names(b))
  {
    assert M.Names(a + b) == M.Names(a) + M.Names(b);
  }

  lemma {:induction false} SameNames(cs: seq<M.Client>)
    ensures multiset(M.Names(Reversed(cs))) == multiset(M.Names(cs))
  {
    if cs != [] {
      var rest := cs[..|cs| - 1];
      SameNames(rest);
      assert cs == rest + [cs[|cs| - 1]];
      assert M.Names(cs) == M.Names(rest) + [M.Admitted(cs[|cs| - 1])];
      assert M.Names(Reversed(cs)) == [M.Admitted(cs[|cs| - 1])] + M.Names(Reversed(rest));
    }
  }
}
