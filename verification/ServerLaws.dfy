/**
  Laws that a server obeys after every tick, whatever arrives and whichever services fail. `T` is the
  number of ticks executed; during a tick its number `t` is the time.
 */
module ServerLaws {
  import opened Wrappers
  import opened Model

  /** The length of `n` services in a row. */
  function Services(n: int, service: int): int {
    n * service
  }

  lemma OneMoreService(n: int, service: int)
    ensures Services(0, service) == 0
    ensures Services(n + 1, service) == Services(n, service) + service
  {
  }

  /** Clock and UpdateStat touch counters only. */
  lemma CountersOnly(s: Server, t: nat)
    ensures Started(Clock(s)) == Started(s) && Started(UpdateStat(s, t)) == Started(s)
  {
  }

  lemma ArriveStarts(s: Server, arrival: Option<Client>)
    ensures Started(Arrive(s, arrival)) == Started(s)
  {
  }

  // ---------------------------------------------------------------- work conservation

  /** Nothing has been recorded of this client since it was dispatched. */
  ghost predicate Blank(c: Client) {
    c.arrival == c.wait == c.start == c.finish == c.failures == c.total == 0
  }

  ghost predicate Untouched(cs: seq<Client>) {
    forall c :: c in cs ==> Blank(c)
  }

  /** What holds of the queues at any point of a tick. */
  ghost predicate Tidy(s: Server) {
    (s.kind.Standard? ==> s.disabled == []) &&
    Untouched(s.disabled) && Untouched(s.normal) &&
    (s.current.Some? ==> s.current.value.arrival == s.current.value.finish == s.current.value.total == 0) &&
    (forall c :: c in s.disabled ==> !c.key.disability.NoDisability?) &&
    (s.kind.Robotic? ==> forall c :: c in s.normal ==> c.key.disability.NoDisability?)
  }

  /** An idle server has nobody waiting and a busy one has work left, so server_tick never asserts. */
  ghost predicate WorkConserving(s: Server) {
    (s.current.None? ==> s.disabled == [] && s.normal == []) &&
    (s.current.Some? ==> s.toServe > 0)
  }

  lemma SetNextConserves(s: Server, t: int, times: Times)
    requires Serviceable(times) && Tidy(s)
    ensures WorkConserving(SetNext(s, t, times)) && Tidy(SetNext(s, t, times))
    ensures SetNext(s, t, times).current.None? ==> SetNext(s, t, times).toServe == 0
  {
    if s.kind.Robotic? && s.disabled != [] {
      assert s.disabled[0] in s.disabled;
    } else if s.normal != [] {
      assert s.normal[0] in s.normal;
    }
  }

  lemma ServeConserves(s: Server, t: int, ok: bool, times: Times)
    requires Serviceable(times) && Tidy(s) && (s.current.Some? ==> s.toServe >= 0)
    ensures WorkConserving(Serve(s, t, ok, times)) && Tidy(Serve(s, t, ok, times))
    ensures Serve(s, t, ok, times).current.None? ==> Serve(s, t, ok, times).toServe == 0
  {
    SetNextConserves(s, t, times);
    if s.current.Some? {
      SetNextConserves(Finalize(s, t), t, times);
    }
  }

  /** A client dispatched at tick `t`: its record has just been zeroed. */
  ghost predicate Admissible(arrival: Option<Client>, t: int) {
    arrival.Some? ==> arrival.value.entry == t && Blank(arrival.value)
  }

  lemma ServeKeepsTidy(s: Server, t: int, arrival: Option<Client>, ok: bool, times: Times)
    requires Serviceable(times) && Tidy(s) && WorkConserving(s) && Admissible(arrival, t)
    ensures Tidy(Clock(Arrive(s, arrival)))
    ensures var s' := Serve(Clock(Arrive(s, arrival)), t, ok, times); WorkConserving(s') && Tidy(s')
  {
    ServeConserves(Clock(Arrive(s, arrival)), t, ok, times);
  }

  // ---------------------------------------------------------------- what the load of a server means

  /** The waiting clients in the order in which they are taken up while nobody arrives. */
  function Line(s: Server): seq<Client> {
    match s.kind
    case Standard => s.normal
    case Robotic(_) => s.disabled + s.normal
  }

  /** The server after it has turned to its next client `n` times; the `k`-th time is at tick `at(k)`. */
  function AfterTurns(s: Server, n: nat, at: nat -> int, times: Times): Server
    requires Complete(times)
  {
    if n == 0 then s else SetNext(AfterTurns(s, n - 1, at, times), at(n - 1), times)
  }

  lemma OneTurn(s: Server, t: int, times: Times)
    requires Complete(times) && Line(s) != []
    ensures var r := SetNext(s, t, times);
      r.kind == s.kind && Line(r) == Line(s)[1..] && r.current == Some(Begin(Line(s)[0], t))
  {
  }

  lemma {:induction false} TurnsFollowLine(s: Server, n: nat, at: nat -> int, times: Times)
    requires Complete(times) && n <= |Line(s)|
    ensures var r := AfterTurns(s, n, at, times);
      Line(r) == Line(s)[n..] && (n > 0 ==> r.current == Some(Begin(Line(s)[n - 1], at(n - 1))))
  {
    hide Line, SetNext;
    if n > 0 {
      TurnsFollowLine(s, n - 1, at, times);
      OneTurn(AfterTurns(s, n - 1, at, times), at(n - 1), times);
    }
  }

  lemma AssignJoinsLine(s: Server, c: Client)
    ensures var n := Load(s, c.key.disability);
      n <= |Line(s)| && Line(Assign(s, c)) == Line(s)[..n] + [c] + Line(s)[n..]
  {
  }

  /**
    The load that a client finds is the number of clients that will be taken up before it: if nobody else
    arrives, that many of those waiting now have their turn, in line, and then the client itself.
   */
  lemma LoadIsTurn(s: Server, c: Client, at: nat -> int, times: Times)
    requires Complete(times)
    ensures var n, r := Load(s, c.key.disability), Assign(s, c);
      n <= |Line(s)| && AfterTurns(r, n + 1, at, times).current == Some(Begin(c, at(n))) &&
      forall k: nat :: k < n ==> AfterTurns(r, k + 1, at, times).current == Some(Begin(Line(s)[k], at(k)))
  {
    hide Line, AfterTurns, Assign, Load, Begin;
    AssignJoinsLine(s, c);
    var n, r := Load(s, c.key.disability), Assign(s, c);
    TurnsFollowLine(r, n + 1, at, times);
    forall k: nat | k < n ensures AfterTurns(r, k + 1, at, times).current == Some(Begin(Line(s)[k], at(k))) {
      TurnsFollowLine(r, k + 1, at, times);
    }
  }

  // ---------------------------------------------------------------- Little's law

  /** How long clients waited before their service began. */
  function WaitSum(cs: seq<Client>): int {
    if cs == [] then 0 else WaitSum(cs[..|cs| - 1]) + (cs[|cs| - 1].start - cs[|cs| - 1].entry)
  }

  /** How long clients have been waiting at time `T`. */
  function AgeSum(cs: seq<Client>, T: int): int {
    if cs == [] then 0 else (T - cs[0].entry) + AgeSum(cs[1..], T)
  }

  /** The accumulated queue length is the total waiting time of all clients so far. */
  ghost predicate Little(s: Server, T: int) {
    s.stat.sumQueueLens == WaitSum(Started(s)) + AgeSum(s.disabled, T) + AgeSum(s.normal, T)
  }

  lemma WaitSumOfOneMore(cs: seq<Client>, c: Client)
    ensures WaitSum(cs + [c]) == WaitSum(cs) + c.start - c.entry
  {
    assert (cs + [c])[..|cs|] == cs;
  }

  lemma {:induction false} AgeSumOfOneMore(cs: seq<Client>, c: Client, T: int)
    ensures AgeSum(cs + [c], T) == AgeSum(cs, T) + T - c.entry
  {
    if cs != [] {
      AgeSumOfOneMore(cs[1..], c, T);
      assert (cs + [c])[1..] == cs[1..] + [c];
    } else {
      assert cs + [c] == [c];
    }
  }

  lemma {:induction false} AgeSumLater(cs: seq<Client>, T: int)
    ensures AgeSum(cs, T + 1) == AgeSum(cs, T) + |cs|
  {
    if cs != [] {
      AgeSumLater(cs[1..], T);
    }
  }

  lemma LittleArrive(s: Server, T: int, arrival: Option<Client>)
    requires Little(s, T) && (arrival.Some? ==> arrival.value.entry == T)
    ensures Little(Arrive(s, arrival), T)
  {
    if arrival.Some? {
      AgeSumOfOneMore(s.normal, arrival.value, T);
      AgeSumOfOneMore(s.disabled, arrival.value, T);
    }
  }

  lemma LittleSetNext(s: Server, t: int, times: Times)
    requires Serviceable(times) && Little(s, t) && s.current.None?
    ensures Little(SetNext(s, t, times), t)
  {
    var s' := SetNext(s, t, times);
    if s'.current.Some? {
      WaitSumOfOneMore(s.finished, s'.current.value);
    }
  }

  lemma LittleServe(s: Server, t: int, ok: bool, times: Times)
    requires Serviceable(times) && Little(s, t)
    ensures Little(Serve(s, t, ok, times), t)
  {
    if s.current.None? {
      LittleSetNext(s, t, times);
    } else {
      var c := s.current.value;
      WaitSumOfOneMore(s.finished, c);
      WaitSumOfOneMore(s.finished, c.(failures := c.failures + 1));
      WaitSumOfOneMore(s.finished, End(c, t));
      LittleSetNext(Finalize(s, t), t, times);
    }
  }

  /** Discrete Little's law, carried over one tick. */
  lemma LittleTick(s: Server, t: nat, arrival: Option<Client>, ok: bool, times: Times)
    requires Serviceable(times) && Tidy(s) && WorkConserving(s) && Little(s, t) && Admissible(arrival, t)
    ensures Little(TickServer(s, t, arrival, ok, times), t + 1)
  {
    hide WaitSum, AgeSum, Serve;
    var s1 := Arrive(s, arrival);
    LittleArrive(s, t, arrival);
    CountersOnly(s1, t);
    LittleServe(Clock(s1), t, ok, times);
    var s2 := Serve(Clock(s1), t, ok, times);
    ServeKeepsTidy(s, t, arrival, ok, times);
    AgeSumLater(s2.disabled, t);
    AgeSumLater(s2.normal, t);
    CountersOnly(s2, t);
  }

  // ---------------------------------------------------------------- the ledger of work

  function WorkSum(cs: seq<Client>, times: Times): int
    requires Serviceable(times)
  {
    if cs == [] then 0
    else WorkSum(cs[..|cs| - 1], times) +
         Services(cs[|cs| - 1].failures + 1, times[cs[|cs| - 1].key])
  }

  function FailureSum(cs: seq<Client>): int {
    if cs == [] then 0 else FailureSum(cs[..|cs| - 1]) + cs[|cs| - 1].failures
  }

  /** The time spent so far on the client being served. */
  function Spent(s: Server, times: Times): int
    requires Serviceable(times)
  {
    if s.current.None? then 0 else
      var c := s.current.value;
      var service := times[c.key];
      Services(c.failures, service) + (service - s.toServe)
  }

  /** Every active tick is accounted for by a service, and every failure by a client. */
  ghost predicate Ledger(s: Server, times: Times)
    requires Serviceable(times)
  {
    s.stat.active == WorkSum(s.finished, times) + Spent(s, times) &&
    s.stat.failures == FailureSum(Started(s)) &&
    s.stat.served == |s.finished|
  }

  lemma LedgerOfOneMore(cs: seq<Client>, c: Client, times: Times)
    requires Serviceable(times)
    ensures WorkSum(cs + [c], times) == WorkSum(cs, times) + Services(c.failures + 1, times[c.key])
    ensures FailureSum(cs + [c]) == FailureSum(cs) + c.failures
  {
    assert (cs + [c])[..|cs|] == cs;
  }

  lemma LedgerStart(s: Server, c: Client, t: int, times: Times)
    requires Serviceable(times) && Ledger(s, times) && s.current.None? && c.failures == 0
    ensures Ledger(StartNext(s, c, t, times), times)
  {
    OneMoreService(0, times[c.key]);
    hide Services, WorkSum, FailureSum;
    LedgerOfOneMore(s.finished, Begin(c, t), times);
  }

  lemma LedgerSetNext(s: Server, t: int, times: Times)
    requires Serviceable(times) && Tidy(s) && Ledger(s, times) && s.current.None?
    ensures Ledger(SetNext(s, t, times), times)
  {
    hide Services, WorkSum, FailureSum;
    if s.kind.Robotic? && s.disabled != [] {
      assert Blank(s.disabled[0]) by { assert s.disabled[0] in s.disabled; }
      LedgerStart(s.(disabled := s.disabled[1..]), s.disabled[0], t, times);
    } else if s.normal != [] {
      assert Blank(s.normal[0]) by { assert s.normal[0] in s.normal; }
      LedgerStart(s.(normal := s.normal[1..]), s.normal[0], t, times);
    }
  }

  lemma LedgerServe(s: Server, t: int, ok: bool, times: Times)
    requires Serviceable(times) && Tidy(s) && Ledger(s, times)
    ensures Ledger(Serve(s, t, ok, times), times)
  {
    if s.current.None? {
      LedgerSetNext(s, t, times);
    } else {
      var c := s.current.value;
      var service := times[c.key];
      OneMoreService(c.failures, service);
      LedgerOfOneMore(s.finished, c, times);
      LedgerOfOneMore(s.finished, c.(failures := c.failures + 1), times);
      LedgerOfOneMore(s.finished, End(c, t), times);
      if s.toServe == 0 {
        LedgerSetNext(Finalize(s, t), t, times);
      }
    }
  }

  lemma LedgerTick(s: Server, t: nat, arrival: Option<Client>, ok: bool, times: Times)
    requires Serviceable(times) && Tidy(s) && WorkConserving(s) && Ledger(s, times) && Admissible(arrival, t)
    ensures Ledger(TickServer(s, t, arrival, ok, times), times)
  {
    hide WorkSum, FailureSum, Serve;
    var s1 := Clock(Arrive(s, arrival));
    ArriveStarts(s, arrival);
    CountersOnly(Arrive(s, arrival), t);
    ServeKeepsTidy(s, t, arrival, ok, times);
    LedgerServe(s1, t, ok, times);
    CountersOnly(Serve(s1, t, ok, times), t);
  }

  // ---------------------------------------------------------------- the start/finish recursion

  function Max(a: int, b: int): int {
    if a < b then b else a
  }

  /** When a server became free for its `k`-th client. */
  function FreeAt(finished: seq<Client>, k: nat): int
    requires k <= |finished|
  {
    if k == 0 then 0 else finished[k - 1].finish
  }

  /** The closed-form finish of a client: its service is repeated after every failure. */
  function FinishOf(times: Times, c: Client): int
    requires Serviceable(times)
  {
    c.start + Services(c.failures + 1, times[c.key])
  }

  ghost predicate RecursionAt(finished: seq<Client>, k: nat, times: Times)
    requires Serviceable(times) && k < |finished|
  {
    finished[k].start == Max(finished[k].entry, FreeAt(finished, k)) &&
    finished[k].finish == FinishOf(times, finished[k])
  }

  /** Start and finish ticks are those of the closed-form recursion of a single-server queue. */
  ghost predicate Recursion(s: Server, times: Times)
    requires Serviceable(times)
  {
    (forall k: nat :: k < |s.finished| ==> RecursionAt(s.finished, k, times)) &&
    (s.current.Some? ==> s.current.value.start == Max(s.current.value.entry, FreeAt(s.finished, |s.finished|)))
  }

  /** The time since the current client started has gone into its failed and its running service. */
  ghost predicate Progress(s: Server, now: int, times: Times)
    requires Serviceable(times)
  {
    s.current.Some? ==> now - s.current.value.start == Spent(s, times)
  }

  /** Nothing recorded lies in the future. */
  ghost predicate Past(s: Server, now: int) {
    FreeAt(s.finished, |s.finished|) <= (if now < 0 then 0 else now) &&
    (forall c :: c in s.finished ==> c.start <= now && c.finish <= now) &&
    (s.current.Some? ==> s.current.value.start <= now) &&
    (forall c :: c in s.normal || c in s.disabled ==> 0 <= c.entry <= now)
  }

  /** Whoever waits at an idle server has arrived in this very tick. */
  ghost predicate Prompt(s: Server, t: int) {
    s.current.None? ==> forall c :: c in s.normal || c in s.disabled ==> c.entry == t
  }

  ghost predicate Paced(s: Server, now: int, times: Times)
    requires Serviceable(times)
  {
    Recursion(s, times) && Progress(s, now, times) && Past(s, now)
  }

  /** A server that becomes free now, or is idle with only new arrivals waiting, starts the next client now. */
  lemma PacedStart(s: Server, c: Client, t: int, times: Times)
    requires Serviceable(times) && Paced(s, t, times) && s.current.None? && t >= 0
    requires c.failures == 0 && c.entry <= t && FreeAt(s.finished, |s.finished|) <= t
    requires c.entry == t || FreeAt(s.finished, |s.finished|) == t
    ensures Paced(StartNext(s, c, t, times), t, times)
  {
    OneMoreService(0, times[c.key]);
    hide Services;
  }

  lemma PacedSetNext(s: Server, t: int, times: Times)
    requires Serviceable(times) && Tidy(s) && Paced(s, t, times) && s.current.None? && t >= 0
    requires FreeAt(s.finished, |s.finished|) <= t
    requires Prompt(s, t) || FreeAt(s.finished, |s.finished|) == t
    ensures Paced(SetNext(s, t, times), t, times)
  {
    if s.kind.Robotic? && s.disabled != [] {
      assert s.disabled[0] in s.disabled;
      PacedStart(s.(disabled := s.disabled[1..]), s.disabled[0], t, times);
    } else if s.normal != [] {
      assert s.normal[0] in s.normal;
      PacedStart(s.(normal := s.normal[1..]), s.normal[0], t, times);
    }
  }

  lemma PacedFinalize(s: Server, t: int, times: Times)
    requires Serviceable(times) && Paced(s, t, times) && s.current.Some? && s.toServe == 0
    ensures Paced(Finalize(s, t), t, times)
    ensures FreeAt(Finalize(s, t).finished, |s.finished| + 1) == t
  {
    hide Services;
    var s', c := Finalize(s, t), s.current.value;
    var service := times[c.key];
    OneMoreService(c.failures, service);
    forall k: nat | k < |s'.finished| ensures RecursionAt(s'.finished, k, times) {
      assert k < |s.finished| ==> RecursionAt(s.finished, k, times);
    }
  }

  lemma PacedRetry(s: Server, t: int, times: Times)
    requires Serviceable(times) && Paced(s, t, times) && s.current.Some? && s.toServe == 0
    ensures Paced(Retry(s, times), t, times)
  {
    hide Services;
    var c := s.current.value;
    var service := times[c.key];
    OneMoreService(c.failures, service);
  }

  lemma PacedServe(s: Server, t: int, ok: bool, times: Times)
    requires Serviceable(times) && Tidy(s) && Paced(s, t, times) && Prompt(s, t) && t >= 0
    ensures Paced(Serve(s, t, ok, times), t, times)
  {
    if s.current.None? {
      PacedSetNext(s, t, times);
    } else if s.toServe == 0 {
      if ok {
        PacedFinalize(s, t, times);
        PacedSetNext(Finalize(s, t), t, times);
      } else {
        PacedRetry(s, t, times);
      }
    }
  }

  lemma PacedClock(s: Server, t: int, arrival: Option<Client>, times: Times)
    requires Serviceable(times) && Paced(s, t - 1, times) && WorkConserving(s) && t >= 0
    requires arrival.Some? ==> arrival.value.entry == t
    ensures Paced(Clock(Arrive(s, arrival)), t, times) && Prompt(Clock(Arrive(s, arrival)), t)
  {
    var s' := Clock(Arrive(s, arrival));
    assert Started(s') == Started(s) && s'.finished == s.finished;
  }

  lemma PacedStat(s: Server, t: nat, times: Times)
    requires Serviceable(times) && Paced(s, t, times)
    ensures Paced(UpdateStat(s, t), t, times)
  {
  }

  /** The tick loop refines the closed-form recursion. */
  lemma PacedTick(s: Server, t: nat, arrival: Option<Client>, ok: bool, times: Times)
    requires Serviceable(times) && Tidy(s) && WorkConserving(s) && Paced(s, t - 1, times) && Admissible(arrival, t)
    ensures Paced(TickServer(s, t, arrival, ok, times), t, times)
  {
    hide Serve, Paced, Tidy, Prompt;
    PacedClock(s, t, arrival, times);
    ServeKeepsTidy(s, t, arrival, ok, times);
    PacedServe(Clock(Arrive(s, arrival)), t, ok, times);
    PacedStat(Serve(Clock(Arrive(s, arrival)), t, ok, times), t, times);
  }

  // ---------------------------------------------------------------- order of service

  /** The entries of a history that are, or are not, about disabled clients. */
  function Pick(ps: seq<Passport>, able: bool): seq<Passport> {
    if ps == [] then [] else
      var rest, p := Pick(ps[..|ps| - 1], able), ps[|ps| - 1];
      if p.key.disability.NoDisability? == able then rest + [p] else rest
  }

  /**
    First come, first served: on a standard server among all clients, on a robotic one among the disabled
    clients and among the others.
   */
  ghost predicate InOrder(s: Server) {
    match s.kind
    case Standard =>
      s.history == Names(Started(s)) + Names(s.normal)
    case Robotic(_) =>
      Pick(s.history, false) == Pick(Names(Started(s)), false) + Names(s.disabled) &&
      Pick(s.history, true) == Pick(Names(Started(s)), true) + Names(s.normal)
  }

  lemma NamesOfOneMore(cs: seq<Client>, c: Client)
    ensures Names(cs + [c]) == Names(cs) + [Admitted(c)]
  {
  }

  lemma PickOfOneMore(ps: seq<Passport>, p: Passport, able: bool)
    ensures Pick(ps + [p], able) ==
      if p.key.disability.NoDisability? == able then Pick(ps, able) + [p] else Pick(ps, able)
  {
    assert (ps + [p])[..|ps|] == ps;
  }

  lemma OrderArrive(s: Server, arrival: Option<Client>)
    requires Tidy(s) && InOrder(s)
    ensures InOrder(Arrive(s, arrival))
  {
    hide Names, Pick;
    ArriveStarts(s, arrival);
    if arrival.Some? {
      var c := arrival.value;
      NamesOfOneMore(s.normal, c);
      NamesOfOneMore(s.disabled, c);
      PickOfOneMore(s.history, Admitted(c), true);
      PickOfOneMore(s.history, Admitted(c), false);
    }
  }

  lemma NamesSplit(ps: seq<Passport>, cs: seq<Client>)
    requires cs != []
    ensures ps + Names(cs) == ps + [Admitted(cs[0])] + Names(cs[1..])
  {
    assert Names(cs) == [Admitted(cs[0])] + Names(cs[1..]);
  }

  lemma OrderSetNext(s: Server, t: int, times: Times)
    requires Serviceable(times) && Tidy(s) && InOrder(s) && s.current.None?
    ensures InOrder(SetNext(s, t, times))
  {
    hide Names, Pick;
    if s.kind.Robotic? && s.disabled != [] {
      assert s.disabled[0] in s.disabled;
      OrderStart(s.finished, Begin(s.disabled[0], t));
      NamesSplit(Pick(Names(s.finished), false), s.disabled);
    } else if s.normal != [] {
      assert s.normal[0] in s.normal;
      OrderStart(s.finished, Begin(s.normal[0], t));
      NamesSplit(Names(s.finished), s.normal);
      NamesSplit(Pick(Names(s.finished), true), s.normal);
    }
  }

  lemma OrderStart(cs: seq<Client>, c: Client)
    ensures Names(cs + [c]) == Names(cs) + [Admitted(c)]
    ensures forall able ::
      Pick(Names(cs + [c]), able) == Pick(Names(cs), able) + if Able(c) == able then [Admitted(c)] else []
  {
    NamesOfOneMore(cs, c);
    PickOfOneMore(Names(cs), Admitted(c), true);
    PickOfOneMore(Names(cs), Admitted(c), false);
  }

  lemma OrderServe(s: Server, t: int, ok: bool, times: Times)
    requires Serviceable(times) && Tidy(s) && InOrder(s)
    ensures InOrder(Serve(s, t, ok, times))
  {
    if s.current.None? {
      OrderSetNext(s, t, times);
    } else if s.toServe == 0 {
      assert Names(Started(Finalize(s, t))) == Names(Started(s));
      assert Names(Started(Retry(s, times))) == Names(Started(s));
      OrderSetNext(Finalize(s, t), t, times);
    }
  }

  lemma OrderTick(s: Server, t: nat, arrival: Option<Client>, ok: bool, times: Times)
    requires Serviceable(times) && Tidy(s) && WorkConserving(s) && InOrder(s) && Admissible(arrival, t)
    ensures InOrder(TickServer(s, t, arrival, ok, times))
  {
    hide Names, Pick, Serve;
    var s1 := Arrive(s, arrival);
    OrderArrive(s, arrival);
    CountersOnly(s1, t);
    ServeKeepsTidy(s, t, arrival, ok, times);
    OrderServe(Clock(s1), t, ok, times);
    CountersOnly(Serve(Clock(s1), t, ok, times), t);
  }

  // ---------------------------------------------------------------- priority

  predicate Able(c: Client) {
    c.key.disability.NoDisability?
  }

  /**
    A robotic server starts a client without disability only when no disabled client is waiting: every
    disabled client it takes up later, or has not taken up yet, was dispatched to it after that start.
   */
  ghost predicate Priority(s: Server) {
    s.kind.Robotic? ==>
      (forall i: nat, j: nat :: i < j < |Started(s)| && Able(Started(s)[i]) && !Able(Started(s)[j]) ==>
        Started(s)[i].start < Started(s)[j].entry) &&
      (forall i: nat, d :: i < |Started(s)| && Able(Started(s)[i]) && d in s.disabled ==> Started(s)[i].start < d.entry)
  }

  lemma PrioritySetNext(s: Server, t: int, times: Times)
    requires Serviceable(times) && Tidy(s) && Priority(s) && s.current.None?
    ensures Priority(SetNext(s, t, times))
  {
    var s' := SetNext(s, t, times);
    assert forall k: nat :: k < |s.finished| ==> Started(s')[k] == Started(s)[k];
    if s.disabled != [] {
      assert s.disabled[0] in s.disabled;
    }
    if s.normal != [] {
      assert s.normal[0] in s.normal;
    }
  }

  ghost predicate SameService(c: Client, d: Client) {
    c.key == d.key && c.start == d.start && c.entry == d.entry
  }

  /** Only who was started, when, and who is waiting matters. */
  lemma SamePriority(s: Server, r: Server)
    requires Priority(s) && r.kind == s.kind && r.disabled == s.disabled && |Started(r)| == |Started(s)|
    requires forall k: nat :: k < |Started(s)| ==> SameService(Started(r)[k], Started(s)[k])
    ensures Priority(r)
  {
  }

  lemma PriorityServe(s: Server, t: int, ok: bool, times: Times)
    requires Serviceable(times) && Tidy(s) && Priority(s)
    ensures Priority(Serve(s, t, ok, times))
  {
    hide Priority, SetNext;
    if s.current.None? {
      PrioritySetNext(s, t, times);
    } else if s.toServe == 0 {
      if ok {
        SamePriority(s, Finalize(s, t));
        PrioritySetNext(Finalize(s, t), t, times);
      } else {
        SamePriority(s, Retry(s, times));
      }
    }
  }

  lemma PriorityArrive(s: Server, t: int, arrival: Option<Client>)
    requires Priority(s) && Past(s, t - 1) && Admissible(arrival, t)
    ensures Priority(Arrive(s, arrival))
  {
    ArriveStarts(s, arrival);
  }

  lemma PriorityTick(s: Server, t: nat, arrival: Option<Client>, ok: bool, times: Times)
    requires Serviceable(times) && Tidy(s) && WorkConserving(s) && Admissible(arrival, t)
    requires Priority(s) && Past(s, t - 1)
    ensures Priority(TickServer(s, t, arrival, ok, times))
  {
    hide Serve, Priority, Tidy, Past;
    var s1 := Arrive(s, arrival);
    PriorityArrive(s, t, arrival);
    CountersOnly(s1, t);
    SamePriority(s1, Clock(s1));
    ServeKeepsTidy(s, t, arrival, ok, times);
    PriorityServe(Clock(s1), t, ok, times);
    var s2 := Serve(Clock(s1), t, ok, times);
    CountersOnly(s2, t);
    SamePriority(s2, UpdateStat(s2, t));
  }

  // ---------------------------------------------------------------- what the records say

  /** The recorded times of a client are absolute ticks, because its arrival time was zeroed. */
  ghost predicate Records(s: Server) {
    (forall c :: c in Started(s) ==> c.arrival == 0 && c.wait == c.start) &&
    (forall c :: c in s.finished ==> c.total == c.finish)
  }

  lemma RecordsTick(s: Server, t: nat, arrival: Option<Client>, ok: bool, times: Times)
    requires Serviceable(times) && Tidy(s) && WorkConserving(s) && Records(s) && Admissible(arrival, t)
    ensures Records(TickServer(s, t, arrival, ok, times))
  {
    var s1 := Clock(Arrive(s, arrival));
    ArriveStarts(s, arrival);
    ServeKeepsTidy(s, t, arrival, ok, times);
    RecordsServe(s1, t, ok, times);
    CountersOnly(Serve(s1, t, ok, times), t);
  }

  lemma RecordsSetNext(s: Server, t: int, times: Times)
    requires Serviceable(times) && Tidy(s) && Records(s) && s.current.None?
    ensures Records(SetNext(s, t, times))
  {
    if s.disabled != [] {
      assert s.disabled[0] in s.disabled;
    }
    if s.normal != [] {
      assert s.normal[0] in s.normal;
    }
  }

  lemma RecordsServe(s: Server, t: int, ok: bool, times: Times)
    requires Serviceable(times) && Tidy(s) && Records(s)
    ensures Records(Serve(s, t, ok, times))
  {
    if s.current.None? {
      RecordsSetNext(s, t, times);
    } else if s.toServe == 0 {
      assert s.current.value in Started(s);
      RecordsSetNext(Finalize(s, t), t, times);
    }
  }

  /** The recorded wait and total times are the real ones exactly for a client dispatched at tick 0. */
  lemma RecordedTimesAreReal(s: Server, c: Client)
    requires Records(s) && c in s.finished
    ensures c.wait == c.start - c.entry <==> c.entry == 0
    ensures c.total == c.finish - c.entry <==> c.entry == 0
  {
    assert c in Started(s);
  }

  // ---------------------------------------------------------------- all laws together

  /** The accumulated queue length is not negative, and the mean is over the ticks executed. */
  ghost predicate Averaged(s: Server, T: nat) {
    s.stat.sumQueueLens >= 0 && s.stat.meanQueueLen == if T == 0 then 0 else s.stat.sumQueueLens / T
  }

  ghost predicate Lawful(s: Server, T: nat, times: Times)
    requires Serviceable(times)
  {
    Tidy(s) && WorkConserving(s) && s.stat.active + s.stat.idle == T && Averaged(s, T) &&
    Little(s, T) && Ledger(s, times) && Paced(s, T - 1, times) && InOrder(s) && Priority(s) && Records(s)
  }

  /**
    Client `k` of the history is the `k`-th that the server starts, as soon as it has arrived and the one
    before has left; it leaves after one service more than it has failed.
   */
  ghost predicate IsQueue(s: Server, times: Times)
    requires Complete(times)
  {
    |s.history| == |Started(s)| + |s.normal| &&
    (forall k: nat :: k < |Started(s)| ==>
      var c, p := Started(s)[k], s.history[k];
      p == Admitted(c) && c.start == Max(p.tick, FreeAt(s.finished, k))) &&
    (forall k: nat :: k < |s.finished| ==>
      var c, p := s.finished[k], s.history[k];
      c.finish == Max(p.tick, FreeAt(s.finished, k)) + Services(c.failures + 1, times[p.key]))
  }

  /** A standard server is a queue. */
  lemma StandardIsQueue(s: Server, T: nat, times: Times)
    requires Serviceable(times) && Lawful(s, T, times) && s.kind.Standard?
    ensures IsQueue(s, times)
  {
    hide Tidy, WorkConserving, Averaged, Little, Ledger, Progress, Past, Priority, Records, InOrder, Recursion, IsQueue;
    OrderedRecursion(s, times);
  }

  lemma OrderedRecursion(s: Server, times: Times)
    requires Serviceable(times) && InOrder(s) && Recursion(s, times) && s.kind.Standard?
    ensures IsQueue(s, times)
  {
    hide Services, Names, Max;
    NamesOf(Started(s));
    NamesOf(s.normal);
    forall k: nat | k < |Started(s)|
      ensures s.history[k] == Admitted(Started(s)[k])
      ensures Started(s)[k].start == Max(s.history[k].tick, FreeAt(s.finished, k))
    {
      assert s.history[k] == Names(Started(s))[k];
      assert k < |s.finished| ==> RecursionAt(s.finished, k, times) && Started(s)[k] == s.finished[k];
    }
    forall k: nat | k < |s.finished|
      ensures s.finished[k].finish == Max(s.history[k].tick, FreeAt(s.finished, k)) +
        Services(s.finished[k].failures + 1, times[s.history[k].key])
    {
      assert Started(s)[k] == s.finished[k] && RecursionAt(s.finished, k, times);
    }
  }

  lemma NamesOf(cs: seq<Client>)
    ensures |Names(cs)| == |cs| && forall k: nat :: k < |cs| ==> Names(cs)[k] == Admitted(cs[k])
  {
  }

  /** A server that has met nobody. */
  ghost predicate Unused(s: Server) {
    |s.disabled| == |s.normal| == |s.finished| == |s.history| == 0 && s.current.None? && s.stat == ZERO_STAT
  }

  lemma UnusedCounts(s: Server, times: Times)
    requires Unused(s) && Serviceable(times)
    ensures Little(s, 0) && Ledger(s, times)
  {
  }

  lemma UnusedIsPaced(s: Server, times: Times)
    requires Unused(s) && Serviceable(times)
    ensures Paced(s, -1, times)
  {
  }

  lemma UnusedIsOrdered(s: Server)
    requires Unused(s)
    ensures InOrder(s) && Priority(s) && Records(s)
  {
  }

  lemma UnusedIsLawful(s: Server, times: Times)
    requires Unused(s) && Serviceable(times)
    ensures Lawful(s, 0, times)
  {
    hide Little, Ledger, Paced, InOrder, Priority, Records;
    UnusedCounts(s, times);
    UnusedIsPaced(s, times);
    UnusedIsOrdered(s);
  }

  lemma NewServerIsLawful(kind: ServerType, times: Times)
    requires Serviceable(times)
    ensures Lawful(NewServer(kind), 0, times)
  {
    hide Lawful;
    UnusedIsLawful(NewServer(kind), times);
  }

  lemma ServeKeepsCounters(s: Server, t: int, ok: bool, times: Times)
    requires Serviceable(times)
    ensures var s' := Serve(s, t, ok, times);
      s'.stat.active == s.stat.active && s'.stat.idle == s.stat.idle && s'.stat.sumQueueLens == s.stat.sumQueueLens
  {
  }

  lemma CountersTick(s: Server, t: nat, arrival: Option<Client>, ok: bool, times: Times)
    requires Serviceable(times) && s.stat.active + s.stat.idle == t && Averaged(s, t)
    ensures var s' := TickServer(s, t, arrival, ok, times);
      s'.stat.active + s'.stat.idle == t + 1 && Averaged(s', t + 1)
  {
    hide Serve;
    ServeKeepsCounters(Clock(Arrive(s, arrival)), t, ok, times);
  }

  /** One tick keeps every law. */
  lemma TickIsLawful(s: Server, t: nat, arrival: Option<Client>, ok: bool, times: Times)
    requires Serviceable(times) && Lawful(s, t, times) && Admissible(arrival, t)
    ensures Lawful(TickServer(s, t, arrival, ok, times), t + 1, times)
  {
    CountersTick(s, t, arrival, ok, times);
    LittleTick(s, t, arrival, ok, times);
    LedgerTick(s, t, arrival, ok, times);
    PacedTick(s, t, arrival, ok, times);
    OrderTick(s, t, arrival, ok, times);
    PriorityTick(s, t, arrival, ok, times);
    RecordsTick(s, t, arrival, ok, times);
    TidyTick(s, t, arrival, ok, times);
    hide TickServer, Tidy, WorkConserving, Averaged, Little, Ledger, Paced, InOrder, Priority, Records;
  }

  lemma TidyTick(s: Server, t: nat, arrival: Option<Client>, ok: bool, times: Times)
    requires Serviceable(times) && Tidy(s) && WorkConserving(s) && Admissible(arrival, t)
    ensures var s' := TickServer(s, t, arrival, ok, times); WorkConserving(s') && Tidy(s')
  {
    hide Serve;
    ServeKeepsTidy(s, t, arrival, ok, times);
  }
}
