/**
  The queueing engine as values: the states of clients, servers and the system, and what one tick of
  the clock does to them. The classes Server and System are proved to compute these functions in place.
 */
module Model {
  import opened Wrappers

  // ---------------------------------------------------------------- clients

  datatype Disability = NoDisability | Type1 | Type2 | Type3
  datatype Destination = Dest1 | Dest2
  datatype ServiceKey = ServiceKey(disability: Disability, dest: Destination)

  /**
    A client with its service record. `entry` is not in the record: it remembers the tick at which the
    client was dispatched, because the record's own arrival time is overwritten then.
   */
  datatype Client = Client(id: int, key: ServiceKey, arrival: int, wait: int, start: int, finish: int,
                           failures: int, total: int, entry: int)

  /** Arrival times increase strictly and are not negative, as clients_init generates them. */
  ghost predicate Chronological(cs: seq<Client>) {
    (forall i, j :: 0 <= i < j < |cs| ==> cs[i].arrival < cs[j].arrival) &&
    (forall i :: 0 <= i < |cs| ==> cs[i].arrival >= 0)
  }

  ghost predicate DistinctIds(cs: seq<Client>) {
    forall i, j :: 0 <= i < j < |cs| ==> cs[i].id != cs[j].id
  }

  /** Who a client is, from the moment it was generated. */
  datatype Passport = Passport(id: int, key: ServiceKey, tick: int)

  function Waiting(c: Client): Passport {
    Passport(c.id, c.key, c.arrival)
  }

  function Admitted(c: Client): Passport {
    Passport(c.id, c.key, c.entry)
  }

  /** Dispatching a client zeroes its whole record, the arrival time included. */
  function Enter(c: Client, t: int): Client {
    c.(arrival := 0, wait := 0, start := 0, finish := 0, failures := 0, total := 0, entry := t)
  }

  function Begin(c: Client, t: int): Client {
    c.(start := t, wait := t - c.arrival)
  }

  function End(c: Client, t: int): Client {
    c.(finish := t, total := t - c.arrival)
  }

  // ---------------------------------------------------------------- service times

  type Times = map<ServiceKey, int>

  datatype ServerType = Standard | Robotic(boost: real)

  /** A robotic server divides the tabulated time by its boost and drops the fraction. */
  function Boosted(kind: ServerType, time: int): int
    requires kind.Robotic? ==> kind.boost != 0.0
  {
    match kind
    case Standard => time
    case Robotic(boost) => Truncate(time as real / boost)
  }

  /** Conversion of a floating-point number to an integer drops the fraction. */
  function Truncate(x: real): int {
    if x >= 0.0 then x.Floor else -(-x).Floor
  }

  /**
    What division with a dropped fraction means: multiplying back leaves a rest of the sign of the dividend
    that is smaller than the divisor. A negative divisor changes the sign of the quotient.
   */
  ghost predicate IsQuotient(q: int, a: int, b: real)
    requires b != 0.0
  {
    if b > 0.0 then HasRest(q, a, b) else HasRest(-q, a, -b)
  }

  ghost predicate HasRest(q: int, a: int, b: real) {
    var rest := a as real - q as real * b;
    if a >= 0 then 0.0 <= rest < b else -b < rest <= 0.0
  }

  /** The service times of one server: the table as its type of server applies it. */
  ghost function ServiceTimes(kind: ServerType, table: Times): Times
    requires kind.Robotic? ==> kind.boost != 0.0
  {
    map k | k in table :: Boosted(kind, table[k])
  }

  /** There is a service time for every client. */
  ghost predicate Complete(times: Times) {
    forall k :: k in times
  }

  /** The table can be looked up for every client. */
  ghost predicate HasTimes(kind: ServerType, table: Times) {
    (kind.Robotic? ==> kind.boost != 0.0) && Complete(ServiceTimes(kind, table))
  }

  /** The same, and the source's assertions about service times hold. */
  ghost predicate CanServe(kind: ServerType, table: Times)
    ensures CanServe(kind, table) ==> HasTimes(kind, table)
  {
    (kind.Robotic? ==> kind.boost != 0.0) && Serviceable(ServiceTimes(kind, table))
  }

  /** There is a service time for every client, and every service takes time. */
  ghost predicate Serviceable(times: Times) {
    forall k :: k in times && times[k] >= 1
  }

  // ---------------------------------------------------------------- servers

  datatype Stat = Stat(active: int, idle: int, served: int, failures: int, sumQueueLens: int, meanQueueLen: int)

  /**
    A server. The single queue of a standard server is `normal`; it has no `disabled` queue, which stays
    empty. Queues are listed oldest first. `history` lists all clients ever assigned.
   */
  datatype Server = Server(kind: ServerType, toServe: int, current: Option<Client>, disabled: seq<Client>,
                           normal: seq<Client>, finished: seq<Client>, stat: Stat, history: seq<Passport>)

  const ZERO_STAT := Stat(0, 0, 0, 0, 0, 0)

  function NewServer(kind: ServerType): Server {
    Server(kind, 0, None, [], [], [], ZERO_STAT, [])
  }

  function Assign(s: Server, c: Client): (r: Server)
    ensures r.kind == s.kind
  {
    var s' := s.(history := s.history + [Admitted(c)]);
    if s.kind.Standard? || c.key.disability.NoDisability? then
      s'.(normal := s.normal + [c])
    else
      s'.(disabled := s.disabled + [c])
  }

  /** server_tick */
  function Clock(s: Server): (r: Server)
    ensures r.kind == s.kind
  {
    if s.current.Some? then
      s.(stat := s.stat.(active := s.stat.active + 1), toServe := s.toServe - 1)
    else
      s.(stat := s.stat.(idle := s.stat.idle + 1))
  }

  function StartNext(s: Server, c: Client, t: int, times: Times): (r: Server)
    requires Complete(times)
    ensures r.kind == s.kind
  {
    s.(toServe := times[c.key], current := Some(Begin(c, t)))
  }

  /** server_set_next_client */
  function SetNext(s: Server, t: int, times: Times): (r: Server)
    requires Complete(times)
    ensures r.kind == s.kind
  {
    if s.kind.Robotic? && s.disabled != [] then
      StartNext(s.(disabled := s.disabled[1..]), s.disabled[0], t, times)
    else if s.normal != [] then
      StartNext(s.(normal := s.normal[1..]), s.normal[0], t, times)
    else
      s.(toServe := 0, current := None)
  }

  /** server_finalize_current_client, then client_finalize on the client it returns */
  function Finalize(s: Server, t: int): (r: Server)
    requires s.current.Some?
    ensures r.kind == s.kind
  {
    s.(stat := s.stat.(served := s.stat.served + 1), finished := s.finished + [End(s.current.value, t)],
       current := None)
  }

  /** server_retry */
  function Retry(s: Server, times: Times): (r: Server)
    requires s.current.Some? && Complete(times)
    ensures r.kind == s.kind
  {
    var c := s.current.value;
    s.(stat := s.stat.(failures := s.stat.failures + 1), current := Some(c.(failures := c.failures + 1)),
       toServe := times[c.key])
  }

  /** What update_clients does with one server before its statistics; `ok` is the outcome of the success test. */
  function Serve(s: Server, t: int, ok: bool, times: Times): (r: Server)
    requires Complete(times)
    ensures r.kind == s.kind
  {
    if s.current.None? then SetNext(s, t, times)
    else if s.toServe != 0 then s
    else if ok then SetNext(Finalize(s, t), t, times)
    else Retry(s, times)
  }

  function QueueLength(s: Server): int {
    match s.kind
    case Standard => |s.normal|
    case Robotic(_) => |s.normal| + |s.disabled|
  }

  /** server_update_stat; C division agrees with `/` because queue lengths are never negative. */
  function UpdateStat(s: Server, t: nat): (r: Server)
    ensures r.kind == s.kind
  {
    var sum := s.stat.sumQueueLens + QueueLength(s);
    s.(stat := s.stat.(sumQueueLens := sum, meanQueueLen := sum / (t + 1)))
  }

  function Arrive(s: Server, arrival: Option<Client>): (r: Server)
    ensures r.kind == s.kind
  {
    if arrival.Some? then Assign(s, arrival.value) else s
  }

  /** Everything one tick does to one server. */
  function TickServer(s: Server, t: nat, arrival: Option<Client>, ok: bool, times: Times): (r: Server)
    requires Complete(times)
    ensures r.kind == s.kind
  {
    UpdateStat(Serve(Clock(Arrive(s, arrival)), t, ok, times), t)
  }

  /** How much a server has to do before it would get to a client of this kind: the load of assign_client. */
  function Load(s: Server, d: Disability): nat {
    match s.kind
    case Standard => |s.normal|
    case Robotic(_) => if d.NoDisability? then |s.normal| + |s.disabled| else |s.disabled|
  }

  /** The clients a server has taken up, in the order in which it did. */
  function Started(s: Server): seq<Client> {
    if s.current.Some? then s.finished + [s.current.value] else s.finished
  }

  function Names(cs: seq<Client>): seq<Passport> {
    seq(|cs|, i requires 0 <= i < |cs| => Admitted(cs[i]))
  }

  function Current(s: Server): seq<Client> {
    if s.current.Some? then [s.current.value] else []
  }

  /** The clients a server has: finished, being served, and waiting. */
  function HeldBy(s: Server): multiset<Passport> {
    multiset(Names(s.finished)) + multiset(Names(Current(s))) + multiset(Names(s.disabled)) + multiset(Names(s.normal))
  }
}
