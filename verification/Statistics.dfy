/** What compute_stats adds up over all finished clients, and how its means relate. */
module Statistics {
  import opened Model
  import opened ServerLaws
  import opened Queue
  import opened SystemModel
  import opened SystemLaws

  /** The three running totals of compute_client_stats. */
  datatype Tally = Tally(count: int, wait: int, service: int)

  const ZERO_TALLY := Tally(0, 0, 0)

  function Add(t: Tally, c: Client): Tally {
    Tally(t.count + 1, t.wait + c.wait, t.service + c.total)
  }

  function Sum(a: Tally, b: Tally): Tally {
    Tally(a.count + b.count, a.wait + b.wait, a.service + b.service)
  }

  /** The totals over the clients of one class. */
  function TallyOf(cs: seq<Client>, d: Disability): Tally {
    if cs == [] then ZERO_TALLY else
      var rest := TallyOf(cs[..|cs| - 1], d);
      if cs[|cs| - 1].key.disability == d then Add(rest, cs[|cs| - 1]) else rest
  }

  function TallyAll(cs: seq<Client>): Tally {
    if cs == [] then ZERO_TALLY else Add(TallyAll(cs[..|cs| - 1]), cs[|cs| - 1])
  }

  lemma TallyOfOneMore(cs: seq<Client>, c: Client)
    ensures TallyAll(cs + [c]) == Add(TallyAll(cs), c)
    ensures forall d :: TallyOf(cs + [c], d) == if c.key.disability == d then Add(TallyOf(cs, d), c) else TallyOf(cs, d)
  {
    assert (cs + [c])[..|cs|] == cs;
  }

  function Classes(cs: seq<Client>): Tally {
    Sum(Sum(TallyOf(cs, NoDisability), TallyOf(cs, Type1)), Sum(TallyOf(cs, Type2), TallyOf(cs, Type3)))
  }

  lemma OneMoreAddsUp(cs: seq<Client>, c: Client)
    ensures Classes(cs + [c]) == Add(Classes(cs), c)
  {
    TallyOfOneMore(cs, c);
    hide TallyOf, TallyAll;
  }

  lemma NothingToAdd(cs: seq<Client>, d: Disability)
    requires |cs| == 0
    ensures TallyAll(cs) == ZERO_TALLY && TallyOf(cs, d) == ZERO_TALLY
  {
  }

  /** The four classes add up to the overall totals. */
  lemma {:induction false} ClassesAddUp(cs: seq<Client>)
    ensures TallyAll(cs) == Classes(cs) && TallyAll(cs).count == |cs|
    decreases |cs|
  {
    hide TallyOf, TallyAll;
    if |cs| == 0 {
      NothingToAdd(cs, NoDisability);
      NothingToAdd(cs, Type1);
      NothingToAdd(cs, Type2);
      NothingToAdd(cs, Type3);
    } else {
      var rest, c := cs[..|cs| - 1], cs[|cs| - 1];
      ClassesAddUp(rest);
      assert cs == rest + [c];
      OneMoreAddsUp(rest, c);
      TallyOfOneMore(rest, c);
    }
  }

  /** An empty class has nothing to add. */
  ghost predicate SoundTally(t: Tally) {
    t.count >= 0 && (t.count == 0 ==> t.wait == 0 && t.service == 0)
  }

  lemma {:induction false} ClassIsSound(cs: seq<Client>, d: Disability)
    ensures SoundTally(TallyOf(cs, d))
    decreases |cs|
  {
    if |cs| > 0 {
      ClassIsSound(cs[..|cs| - 1], d);
    }
  }

  // ---------------------------------------------------------------- truncated means

  /** C division: truncation towards zero. */
  function CDiv(a: int, n: int): int
    requires n > 0
  {
    if a >= 0 then a / n else -((-a) / n)
  }

  function Mean(total: int, count: int): int {
    if count > 0 then CDiv(total, count) else 0
  }

  /** A truncated mean: multiplied back it leaves a rest of the sign of the total, and of less than the count. */
  ghost predicate IsMean(q: int, total: int, count: int) {
    var rest := total - q * count;
    if count == 0 then q == 0 else if total >= 0 then 0 <= rest < count else -count < rest <= 0
  }

  lemma DivisionRest(a: int, n: int)
    requires n > 0
    ensures 0 <= a - (a / n) * n < n
  {
  }

  lemma Negate(a: int, b: int)
    ensures (-a) * b == -(a * b)
  {
  }

  lemma MeanIsMean(total: int, count: int)
    requires count >= 0
    ensures IsMean(Mean(total, count), total, count)
  {
    if count > 0 {
      DivisionRest(if total >= 0 then total else -total, count);
      Negate((-total) / count, count);
    }
  }

  lemma MeanIsUnique(q: int, total: int, count: int)
    requires count >= 0 && IsMean(q, total, count)
    ensures q == Mean(total, count)
  {
    var r := Mean(total, count);
    MeanIsMean(total, count);
    if count > 0 {
      Compare(q, r, count);
      Compare(r, q, count);
      Compare(q, r + 1, count);
      Compare(r, q + 1, count);
      Distribute(count, q, 1);
      Distribute(count, r, 1);
    }
  }

  /** Division rounds down, whatever the sign of the numerator. */
  lemma Floor(a: int, n: int, m: int)
    requires n > 0
    ensures a / n >= m <==> a >= m * n
  {
    var q := a / n;
    assert q * n <= a < q * n + n;
    Compare(q, m, n);
  }

  lemma Compare(q: int, m: int, n: int)
    requires n > 0
    ensures q >= m ==> q * n >= m * n
    ensures q < m ==> q * n + n <= m * n
  {
    Distribute(n, q - m, m);
    Distribute(n, m - q - 1, q + 1);
    Distribute(n, q, 1);
    if q >= m {
      ProductIsPositive(q - m, n);
    } else {
      ProductIsPositive(m - q - 1, n);
    }
  }

  lemma ProductIsPositive(a: int, b: int)
    requires a >= 0 && b >= 0
    ensures b * a >= 0
  {
  }

  lemma Distribute(m: int, a: int, b: int)
    ensures m * (a + b) == m * a + m * b
  {
  }

  /** What a truncated quotient says about its numerator. */
  lemma Truncated(a: int, n: int, m: int)
    requires n > 0
    ensures CDiv(a, n) >= m <==> if m > 0 then a >= m * n else a > (m - 1) * n
    ensures CDiv(a, n) <= m <==> if m < 0 then a <= m * n else a < (m + 1) * n
  {
    Compare(0, m, n);
    Compare(m, 0, n);
    Compare(m - 1, -1, n);
    Compare(1, m + 1, n);
    if a >= 0 {
      Floor(a, n, m);
      Floor(a, n, m + 1);
    } else {
      Floor(-a, n, -m);
      Floor(-a, n, 1 - m);
      assert -m * n == -(m * n) && (1 - m) * n == -((m - 1) * n);
    }
  }

  /** A pooled mean lies between bounds of the means of two groups; an empty group has no say. */
  lemma PooledMean(a: int, m: int, b: int, n: int, lo: int, hi: int)
    requires m >= 0 && n >= 0 && (m == 0 ==> a == 0) && (n == 0 ==> b == 0)
    requires m > 0 ==> lo <= CDiv(a, m) <= hi
    requires n > 0 ==> lo <= CDiv(b, n) <= hi
    ensures m + n > 0 ==> lo <= CDiv(a + b, m + n) <= hi
  {
    if m > 0 && n > 0 {
      Truncated(a, m, lo);
      Truncated(a, m, hi);
      Truncated(b, n, lo);
      Truncated(b, n, hi);
      Truncated(a + b, m + n, lo);
      Truncated(a + b, m + n, hi);
      Distribute(lo, m, n);
      Distribute(lo - 1, m, n);
      Distribute(hi, m, n);
      Distribute(hi + 1, m, n);
    }
  }

  // ---------------------------------------------------------------- the statistics of a system

  datatype SimStat = SimStat(totalClients: int, meanQueueSize: int, meanWait: int, meanServe: int,
                             ndMeanWait: int, ndMeanServe: int, t1MeanWait: int, t1MeanServe: int,
                             t2MeanWait: int, t2MeanServe: int, t3MeanWait: int, t3MeanServe: int)

  /** The finished clients of all servers, in the order in which they are visited. */
  function Finished(ss: seq<Server>): seq<Client> {
    if ss == [] then [] else Finished(ss[..|ss| - 1]) + Reversed(ss[|ss| - 1].finished)
  }

  function QueueMeans(ss: seq<Server>): int {
    if ss == [] then 0 else QueueMeans(ss[..|ss| - 1]) + ss[|ss| - 1].stat.meanQueueLen
  }

  function ServedSum(ss: seq<Server>): int {
    if ss == [] then 0 else ServedSum(ss[..|ss| - 1]) + ss[|ss| - 1].stat.served
  }

  lemma NoServers(ss: seq<Server>)
    requires |ss| == 0
    ensures TotalsOf(Finished(ss)) == Totals(ZERO_TALLY, ZERO_TALLY, ZERO_TALLY, ZERO_TALLY, ZERO_TALLY)
    ensures QueueMeans(ss) == 0
  {
    hide TotalsOf;
    NoTotals();
  }

  lemma NextServer(ss: seq<Server>, i: nat)
    requires i < |ss|
    ensures Finished(ss[..i + 1]) == Finished(ss[..i]) + Reversed(ss[i].finished)
    ensures QueueMeans(ss[..i + 1]) == QueueMeans(ss[..i]) + ss[i].stat.meanQueueLen
  {
    assert ss[..i + 1][..i] == ss[..i];
  }

  /** The running totals of compute_stats, by class and overall. */
  datatype Totals = Totals(nd: Tally, t1: Tally, t2: Tally, t3: Tally, all: Tally)

  function TotalsOf(cs: seq<Client>): Totals {
    Totals(TallyOf(cs, NoDisability), TallyOf(cs, Type1), TallyOf(cs, Type2), TallyOf(cs, Type3), TallyAll(cs))
  }

  /** One client more: it goes to the totals of its class and to the overall ones. */
  function Enlist(t: Totals, c: Client): Totals {
    var t' := t.(all := Add(t.all, c));
    match c.key.disability
    case NoDisability => t'.(nd := Add(t.nd, c))
    case Type1 => t'.(t1 := Add(t.t1, c))
    case Type2 => t'.(t2 := Add(t.t2, c))
    case Type3 => t'.(t3 := Add(t.t3, c))
  }

  lemma EnlistIsOneMore(cs: seq<Client>, c: Client)
    ensures TotalsOf(cs + [c]) == Enlist(TotalsOf(cs), c)
  {
    TallyOfOneMore(cs, c);
    hide TallyOf, TallyAll;
  }

  lemma NoTotals()
    ensures TotalsOf([]) == Totals(ZERO_TALLY, ZERO_TALLY, ZERO_TALLY, ZERO_TALLY, ZERO_TALLY)
  {
    hide TallyOf, TallyAll;
    NothingToAdd([], NoDisability);
    NothingToAdd([], Type1);
    NothingToAdd([], Type2);
    NothingToAdd([], Type3);
  }

  /** The final divisions of compute_stats. */
  function Divide(totalClients: int, queueMeans: int, servers: int, t: Totals): SimStat {
    SimStat(totalClients, Mean(queueMeans, servers),
            Mean(t.all.wait, t.all.count), Mean(t.all.service, t.all.count),
            Mean(t.nd.wait, t.nd.count), Mean(t.nd.service, t.nd.count),
            Mean(t.t1.wait, t.t1.count), Mean(t.t1.service, t.t1.count),
            Mean(t.t2.wait, t.t2.count), Mean(t.t2.service, t.t2.count),
            Mean(t.t3.wait, t.t3.count), Mean(t.t3.service, t.t3.count))
  }

  /** The statistics of the given servers: every mean is over all clients that some server has finished. */
  function StatsOf(ss: seq<Server>, totalClients: int): SimStat {
    Divide(totalClients, QueueMeans(ss), |ss|, TotalsOf(Finished(ss)))
  }

  ghost predicate Bounds(t: Tally, lo: int, hi: int) {
    t.count > 0 ==> lo <= Mean(t.wait, t.count) <= hi
  }

  lemma TwoGroups(a: Tally, b: Tally, lo: int, hi: int)
    requires SoundTally(a) && SoundTally(b) && Bounds(a, lo, hi) && Bounds(b, lo, hi)
    ensures SoundTally(Sum(a, b)) && Bounds(Sum(a, b), lo, hi)
  {
    hide CDiv;
    PooledMean(a.wait, a.count, b.wait, b.count, lo, hi);
  }

  lemma FourGroups(a: Tally, b: Tally, c: Tally, d: Tally, lo: int, hi: int)
    requires SoundTally(a) && SoundTally(b) && SoundTally(c) && SoundTally(d)
    requires Bounds(a, lo, hi) && Bounds(b, lo, hi) && Bounds(c, lo, hi) && Bounds(d, lo, hi)
    ensures Bounds(Sum(Sum(a, b), Sum(c, d)), lo, hi)
  {
    hide CDiv, Mean, Bounds;
    TwoGroups(a, b, lo, hi);
    TwoGroups(c, d, lo, hi);
    TwoGroups(Sum(a, b), Sum(c, d), lo, hi);
  }

  /** Waiting and service totals are treated alike. */
  function Swap(t: Tally): Tally {
    Tally(t.count, t.service, t.wait)
  }

  /** The overall truncated mean waiting time lies between any bounds of those of the non-empty classes. */
  lemma MeanWaitBetweenClasses(cs: seq<Client>, lo: int, hi: int)
    requires forall d :: Bounds(TallyOf(cs, d), lo, hi)
    ensures Bounds(TallyAll(cs), lo, hi)
  {
    hide TallyOf, TallyAll, Mean, Bounds;
    ClassesAddUp(cs);
    ClassIsSound(cs, NoDisability);
    ClassIsSound(cs, Type1);
    ClassIsSound(cs, Type2);
    ClassIsSound(cs, Type3);
    FourGroups(TallyOf(cs, NoDisability), TallyOf(cs, Type1), TallyOf(cs, Type2), TallyOf(cs, Type3), lo, hi);
  }

  /** The same for the mean service time. */
  lemma MeanServiceBetweenClasses(cs: seq<Client>, lo: int, hi: int)
    requires forall d :: Bounds(Swap(TallyOf(cs, d)), lo, hi)
    ensures Bounds(Swap(TallyAll(cs)), lo, hi)
  {
    hide TallyOf, TallyAll, Mean, Bounds;
    ClassesAddUp(cs);
    ClassIsSound(cs, NoDisability);
    ClassIsSound(cs, Type1);
    ClassIsSound(cs, Type2);
    ClassIsSound(cs, Type3);
    FourGroups(Swap(TallyOf(cs, NoDisability)), Swap(TallyOf(cs, Type1)), Swap(TallyOf(cs, Type2)),
               Swap(TallyOf(cs, Type3)), lo, hi);
  }

  /** The reported mean of a class lies between the bounds, unless no client of the class has been served. */
  ghost predicate Within(mean: int, cs: seq<Client>, d: Disability, lo: int, hi: int) {
    TallyOf(cs, d).count > 0 ==> lo <= mean <= hi
  }

  ghost predicate WaitsWithin(stat: SimStat, cs: seq<Client>, lo: int, hi: int) {
    Within(stat.ndMeanWait, cs, NoDisability, lo, hi) && Within(stat.t1MeanWait, cs, Type1, lo, hi) &&
    Within(stat.t2MeanWait, cs, Type2, lo, hi) && Within(stat.t3MeanWait, cs, Type3, lo, hi)
  }

  ghost predicate ServicesWithin(stat: SimStat, cs: seq<Client>, lo: int, hi: int) {
    Within(stat.ndMeanServe, cs, NoDisability, lo, hi) && Within(stat.t1MeanServe, cs, Type1, lo, hi) &&
    Within(stat.t2MeanServe, cs, Type2, lo, hi) && Within(stat.t3MeanServe, cs, Type3, lo, hi)
  }

  /** The overall means that are reported lie between any bounds of the reported means of the classes served. */
  lemma ReportedMeansBetweenClasses(ss: seq<Server>, totalClients: int, lo: int, hi: int)
    requires Finished(ss) != []
    ensures var stat := StatsOf(ss, totalClients);
      (WaitsWithin(stat, Finished(ss), lo, hi) ==> lo <= stat.meanWait <= hi) &&
      (ServicesWithin(stat, Finished(ss), lo, hi) ==> lo <= stat.meanServe <= hi)
  {
    hide TallyOf, TallyAll, Mean, Finished;
    var stat, cs := StatsOf(ss, totalClients), Finished(ss);
    ClassesAddUp(cs);
    if WaitsWithin(stat, cs, lo, hi) {
      forall d ensures Bounds(TallyOf(cs, d), lo, hi) {
        match d { case NoDisability => case Type1 => case Type2 => case Type3 => }
      }
      MeanWaitBetweenClasses(cs, lo, hi);
    }
    if ServicesWithin(stat, cs, lo, hi) {
      forall d ensures Bounds(Swap(TallyOf(cs, d)), lo, hi) {
        match d { case NoDisability => case Type1 => case Type2 => case Type3 => }
      }
      MeanServiceBetweenClasses(cs, lo, hi);
    }
  }

  // ---------------------------------------------------------------- the reported queue size

  /** The accumulated queue lengths of all servers. */
  function QueueSum(ss: seq<Server>): int {
    if ss == [] then 0 else QueueSum(ss[..|ss| - 1]) + ss[|ss| - 1].stat.sumQueueLens
  }

  /** The time that clients have waited at these servers until now, whether they have been taken up or not. */
  function WaitedAt(ss: seq<Server>, T: int): int {
    if ss == [] then 0 else
      var s := ss[|ss| - 1];
      WaitedAt(ss[..|ss| - 1], T) + WaitSum(Started(s)) + AgeSum(s.disabled, T) + AgeSum(s.normal, T)
  }

  lemma {:induction false} QueuesAreWaits(ss: seq<Server>, T: int)
    requires forall i :: 0 <= i < |ss| ==> Little(ss[i], T)
    ensures QueueSum(ss) == WaitedAt(ss, T)
    decreases |ss|
  {
    hide WaitSum, AgeSum;
    if |ss| > 0 {
      QueuesAreWaits(ss[..|ss| - 1], T);
    }
  }

  lemma TicksOf(sum: int, T: int)
    requires T > 0 && sum >= 0
    ensures 0 <= T * (sum / T) <= sum <= T * (sum / T) + T - 1
  {
  }

  /** The means of the servers, multiplied by the ticks, lack less than one tick a server. */
  lemma {:induction false} MeansOfQueues(ss: seq<Server>, T: nat)
    requires T > 0 && forall i :: 0 <= i < |ss| ==> Averaged(ss[i], T)
    ensures 0 <= T * QueueMeans(ss) <= QueueSum(ss) <= T * QueueMeans(ss) + |ss| * (T - 1)
    decreases |ss|
  {
    if |ss| > 0 {
      var s, rest := ss[|ss| - 1], ss[..|ss| - 1];
      MeansOfQueues(rest, T);
      var q := s.stat.meanQueueLen;
      TicksOf(s.stat.sumQueueLens, T);
      Distribute(T, QueueMeans(rest), q);
      OneMore(|ss|, T - 1);
    }
  }

  lemma OneMore(n: int, a: int)
    ensures n * a == (n - 1) * a + a
  {
  }

  ghost predicate QueueSizeIsWait(ss: seq<Server>, T: nat, totalClients: int) {
    var q, n := StatsOf(ss, totalClients).meanQueueSize, |ss|;
    q >= 0 && T * (n * q) <= WaitedAt(ss, T) < T * (n * (q + 2))
  }

  /**
    The reported queue size is a mean over ticks and servers, rounded down twice: multiplied by both it is at
    most the time that all clients have waited so far, and less than two clients below it.
   */
  lemma MeanQueueSize(ss: seq<Server>, T: nat, totalClients: int)
    requires T > 0 && |ss| > 0 && forall i :: 0 <= i < |ss| ==> Averaged(ss[i], T) && Little(ss[i], T)
    ensures QueueSizeIsWait(ss, T, totalClients)
  {
    hide Little, Averaged, WaitedAt, QueueSum, QueueMeans, TotalsOf;
    var q, n, all := StatsOf(ss, totalClients).meanQueueSize, |ss|, QueueMeans(ss);
    QueuesAreWaits(ss, T);
    MeansOfQueues(ss, T);
    PositiveFactor(T, all);
    Quotient(all, n, q);
    Grows(T, n * q, all);
    Grows(T, all, n * q + n - 1);
    Collect(T, n, q);
  }

  lemma PositiveFactor(a: int, b: int)
    requires a > 0 && a * b >= 0
    ensures b >= 0
  {
    if b < 0 {
      ProductIsPositive(a - 1, -b);
    }
  }

  lemma Quotient(a: int, n: int, q: int)
    requires n > 0 && a >= 0 && q == Mean(a, n)
    ensures 0 <= q && n * q <= a <= n * q + n - 1
  {
    Floor(a, n, 0);
    assert a == n * (a / n) + a % n;
  }

  lemma Grows(m: int, a: int, b: int)
    requires m >= 0 && a <= b
    ensures m * a <= m * b
  {
    ProductIsPositive(m, b - a);
    Distribute(m, a, b - a);
  }

  lemma Collect(T: int, n: int, q: int)
    requires T > 0 && n > 0
    ensures T * (n * q + n - 1) + n * (T - 1) < T * (n * (q + 2))
  {
    Distribute(T, n * q, n - 1);
    Distribute(T, n, -1);
    Distribute(n, T, -1);
    Distribute(n, q, 2);
    Distribute(T, n * q, n * 2);
    Distribute(T, n, n);
  }

  /** Every served client is counted exactly once. */
  lemma {:induction false} AllServedAreCounted(ss: seq<Server>)
    requires forall i :: 0 <= i < |ss| ==> ss[i].stat.served == |ss[i].finished|
    ensures TallyAll(Finished(ss)).count == ServedSum(ss)
  {
    ClassesAddUp(Finished(ss));
    hide TallyAll, TallyOf;
    if ss != [] {
      AllServedAreCounted(ss[..|ss| - 1]);
      ClassesAddUp(Finished(ss[..|ss| - 1]));
    }
  }

  /** All finished clients, whatever the order. */
  function AllFinished(ss: seq<Server>): multiset<Client> {
    if ss == [] then multiset{} else AllFinished(ss[..|ss| - 1]) + multiset(ss[|ss| - 1].finished)
  }

  lemma {:induction false} SameClients(cs: seq<Client>)
    ensures multiset(Reversed(cs)) == multiset(cs)
  {
    if cs != [] {
      var rest, c := cs[..|cs| - 1], cs[|cs| - 1];
      SameClients(rest);
      assert cs == rest + [c] && Reversed(cs) == [c] + Reversed(rest);
    }
  }

  /** The clients visited are exactly those that some server has finished, each as often as that. */
  lemma {:induction false} FinishedAreVisited(ss: seq<Server>)
    ensures multiset(Finished(ss)) == AllFinished(ss)
    decreases |ss|
  {
    if |ss| > 0 {
      FinishedAreVisited(ss[..|ss| - 1]);
      SameClients(ss[|ss| - 1].finished);
    }
  }

  // ---------------------------------------------------------------- what the reported means are means of

  function EntrySum(cs: seq<Client>): int {
    if cs == [] then 0 else EntrySum(cs[..|cs| - 1]) + cs[|cs| - 1].entry
  }

  /** How long clients really spent in the system. */
  function StaySum(cs: seq<Client>): int {
    if cs == [] then 0 else StaySum(cs[..|cs| - 1]) + (cs[|cs| - 1].finish - cs[|cs| - 1].entry)
  }

  /** A finished client whose recorded times are absolute ticks. */
  ghost predicate Absolute(c: Client) {
    c.wait == c.start && c.total == c.finish
  }

  /** The recorded times exceed the real ones by the dispatch ticks, which were lost. */
  lemma {:induction false} RecordedTimesAreTooLong(cs: seq<Client>)
    requires forall c :: c in cs ==> Absolute(c)
    ensures TallyAll(cs).wait == WaitSum(cs) + EntrySum(cs)
    ensures TallyAll(cs).service == StaySum(cs) + EntrySum(cs)
    decreases |cs|
  {
    if |cs| > 0 {
      RecordedTimesAreTooLong(cs[..|cs| - 1]);
      assert cs[|cs| - 1] in cs;
    }
  }

  lemma {:induction false} FinishedAreAbsolute(ss: seq<Server>)
    requires forall i :: 0 <= i < |ss| ==> Records(ss[i])
    ensures forall c :: c in Finished(ss) ==> Absolute(c)
    decreases |ss|
  {
    if |ss| > 0 {
      var s := ss[|ss| - 1];
      FinishedAreAbsolute(ss[..|ss| - 1]);
      forall c | c in Reversed(s.finished) ensures Absolute(c) {
        assert c in s.finished && c in Started(s);
      }
    }
  }

  /** The clients of one class. */
  function Of(cs: seq<Client>, d: Disability): seq<Client> {
    if cs == [] then [] else
      var rest, c := Of(cs[..|cs| - 1], d), cs[|cs| - 1];
      if c.key.disability == d then rest + [c] else rest
  }

  lemma OfOneMore(cs: seq<Client>, c: Client)
    ensures WaitSum(cs + [c]) == WaitSum(cs) + c.start - c.entry
    ensures EntrySum(cs + [c]) == EntrySum(cs) + c.entry
    ensures StaySum(cs + [c]) == StaySum(cs) + c.finish - c.entry
  {
    assert (cs + [c])[..|cs|] == cs;
  }

  /** What the records say: the sums of the recorded waiting times and total times. */
  function RecordedWaits(cs: seq<Client>): int {
    if cs == [] then 0 else RecordedWaits(cs[..|cs| - 1]) + cs[|cs| - 1].wait
  }

  function RecordedStays(cs: seq<Client>): int {
    if cs == [] then 0 else RecordedStays(cs[..|cs| - 1]) + cs[|cs| - 1].total
  }

  /** The totals of a class are the sums over the records of its clients, whatever these say. */
  lemma {:induction false} TallyIsRecorded(cs: seq<Client>, d: Disability)
    ensures var own := Of(cs, d); TallyOf(cs, d) == Tally(|own|, RecordedWaits(own), RecordedStays(own))
    ensures TallyAll(cs) == Tally(|cs|, RecordedWaits(cs), RecordedStays(cs))
    decreases |cs|
  {
    if |cs| > 0 {
      var rest, c := cs[..|cs| - 1], cs[|cs| - 1];
      TallyIsRecorded(rest, d);
      var own := Of(rest, d);
      assert (own + [c])[..|own|] == own;
    }
  }

  /** The totals of a class, by the real times of its clients. */
  lemma {:induction false} ClassTotals(cs: seq<Client>, d: Disability)
    requires forall c :: c in cs ==> Absolute(c)
    ensures var own := Of(cs, d);
      TallyOf(cs, d) == Tally(|own|, WaitSum(own) + EntrySum(own), StaySum(own) + EntrySum(own))
    decreases |cs|
  {
    if |cs| > 0 {
      var rest, c := cs[..|cs| - 1], cs[|cs| - 1];
      ClassTotals(rest, d);
      assert c in cs;
      OfOneMore(Of(rest, d), c);
    }
  }

  /**
    Two reported means are those of these clients: they divide the real waiting times and stays, plus the tick
    at which each client was dispatched, by the number of clients.
   */
  ghost predicate Shifted(meanWait: int, meanServe: int, cs: seq<Client>) {
    IsMean(meanWait, WaitSum(cs) + EntrySum(cs), |cs|) && IsMean(meanServe, StaySum(cs) + EntrySum(cs), |cs|)
  }

  /** The overall means are those of all served clients, the means of a class those of the served ones in it. */
  ghost predicate MeansAreShifted(ss: seq<Server>, totalClients: int) {
    var cs, stat := Finished(ss), StatsOf(ss, totalClients);
    ServedSum(ss) == |cs| && stat.totalClients == totalClients &&
    Shifted(stat.meanWait, stat.meanServe, cs) &&
    Shifted(stat.ndMeanWait, stat.ndMeanServe, Of(cs, NoDisability)) &&
    Shifted(stat.t1MeanWait, stat.t1MeanServe, Of(cs, Type1)) &&
    Shifted(stat.t2MeanWait, stat.t2MeanServe, Of(cs, Type2)) &&
    Shifted(stat.t3MeanWait, stat.t3MeanServe, Of(cs, Type3))
  }

  /** What every simulation reports. */
  lemma ReportedMeans(sys: System, T: nat, luck: Luck, table: Times, totalClients: int)
    requires Equipped(sys, table) && Capable(sys, table) && AllNew(sys)
    ensures var r := Run(sys, T, luck, table); MeansAreShifted(r.standard + r.robotic, totalClients)
  {
    hide Equipped, Capable, AllNew, Run, LawfulSystem, MeansAreShifted, Records;
    NewSystemIsLawful(sys, table);
    RunIsLawful(sys, T, luck, table);
    var r := Run(sys, T, luck, table);
    LawfulRecords(r, T, table);
    MeansOf(r.standard + r.robotic, totalClients);
  }

  lemma MeansOf(ss: seq<Server>, totalClients: int)
    requires forall i :: 0 <= i < |ss| ==> Records(ss[i]) && ss[i].stat.served == |ss[i].finished|
    ensures MeansAreShifted(ss, totalClients)
  {
    hide Finished, ServedSum, QueueMeans, TallyAll, TallyOf, Mean, IsMean, WaitSum, EntrySum, StaySum, Records, Classes,
      Of;
    FinishedAreAbsolute(ss);
    var cs := Finished(ss);
    RecordedTimesAreTooLong(cs);
    AllServedAreCounted(ss);
    ClassesAddUp(cs);
    MeansOfTally(TallyAll(cs), cs);
    ClassMeans(cs, NoDisability);
    ClassMeans(cs, Type1);
    ClassMeans(cs, Type2);
    ClassMeans(cs, Type3);
  }

  lemma MeansOfTally(t: Tally, cs: seq<Client>)
    requires t == Tally(|cs|, WaitSum(cs) + EntrySum(cs), StaySum(cs) + EntrySum(cs))
    ensures Shifted(Mean(t.wait, t.count), Mean(t.service, t.count), cs)
  {
    MeanIsMean(t.wait, |cs|);
    MeanIsMean(t.service, |cs|);
  }

  lemma ClassMeans(cs: seq<Client>, d: Disability)
    requires forall c :: c in cs ==> Absolute(c)
    ensures var t := TallyOf(cs, d); Shifted(Mean(t.wait, t.count), Mean(t.service, t.count), Of(cs, d))
  {
    ClassTotals(cs, d);
    MeansOfTally(TallyOf(cs, d), Of(cs, d));
  }

  lemma LawfulRecords(sys: System, T: nat, table: Times)
    requires Equipped(sys, table) && Capable(sys, table) && LawfulSystem(sys, T, table)
    ensures var ss := sys.standard + sys.robotic;
      forall i :: 0 <= i < |ss| ==> Records(ss[i]) && ss[i].stat.served == |ss[i].finished|
  {
    hide Records, Tidy, WorkConserving, Little, Paced, InOrder, Priority;
  }

  lemma LawfulQueues(sys: System, T: nat, table: Times)
    requires Equipped(sys, table) && Capable(sys, table) && LawfulSystem(sys, T, table)
    ensures var ss := sys.standard + sys.robotic; forall i :: 0 <= i < |ss| ==> Averaged(ss[i], T) && Little(ss[i], T)
  {
    hide Records, Tidy, WorkConserving, Little, Ledger, Paced, InOrder, Priority, Averaged;
  }

  /** Little's law for the reported queue size, in every simulation. */
  lemma ReportedQueueSize(sys: System, T: nat, luck: Luck, table: Times, totalClients: int)
    requires Equipped(sys, table) && Capable(sys, table) && AllNew(sys) && T > 0
    ensures var r := Run(sys, T, luck, table); QueueSizeIsWait(r.standard + r.robotic, T, totalClients)
  {
    hide Capable, AllNew, Run, LawfulSystem, QueueSizeIsWait, Averaged, Little, Team;
    NewSystemIsLawful(sys, table);
    RunIsLawful(sys, T, luck, table);
    var r := Run(sys, T, luck, table);
    LawfulQueues(r, T, table);
    MeanQueueSize(r.standard + r.robotic, T, totalClients);
  }
}
