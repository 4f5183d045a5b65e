/** The generation of the arrivals of a simulation. */
module Clients {
  import opened Wrappers
  import opened Queue
  import opened Model

  /** The random samples drawn for one client; `garbage` is what an unlucky sample leaves in the record. */
  datatype Draw = Draw(gap: int, disabled: bool, sample: int, garbage: Disability, toDest2: bool)

  /**
    What a draw decides: the destination by `toDest2`, no disability unless `disabled`, and the type of the
    disability by the sample.
   */
  ghost predicate OfKind(key: ServiceKey, d: Draw) {
    (key.dest == Dest2 <==> d.toDest2) &&
    (!d.disabled ==> key.disability == NoDisability) &&
    (d.disabled && d.sample == 0 ==> key.disability == Type1) &&
    (d.disabled && d.sample == 1 ==> key.disability == Type2) &&
    (d.disabled && d.sample == 2 ==> key.disability == Type3) &&
    (d.disabled && d.sample !in {0, 1, 2} ==> key.disability == d.garbage)
  }

  /** The arrival time of the `n`-th client, counted from 1. */
  function GapSum(draws: nat -> Draw, n: nat): int {
    if n == 0 then 0 else GapSum(draws, n - 1) + draws(n - 1).gap
  }

  lemma {:induction false} GapSumGrows(draws: nat -> Draw, m: nat, n: nat)
    requires m < n && forall i :: draws(i).gap >= 1
    ensures GapSum(draws, m) < GapSum(draws, n)
  {
    if m < n - 1 {
      GapSumGrows(draws, m, n - 1);
    }
  }

  /** Client `i` of the generated list is the one that the `i`-th draw describes, with a fresh record. */
  ghost predicate Drawn(c: Client, draws: nat -> Draw, i: nat) {
    c.id == i && c.arrival == GapSum(draws, i + 1) && OfKind(c.key, draws(i)) &&
    c.wait == c.start == c.finish == c.failures == 0
  }

  /** Generated clients arrive at strictly increasing times from 1 on, with distinct ids. */
  lemma DrawnInOrder(cs: seq<Client>, draws: nat -> Draw)
    requires forall i :: draws(i).gap >= 1
    requires forall i :: 0 <= i < |cs| ==> Drawn(cs[i], draws, i)
    ensures Chronological(cs) && DistinctIds(cs)
    ensures forall i :: 0 <= i < |cs| ==> cs[i].arrival >= 1
  {
    forall i, j | 0 <= i < j < |cs| ensures cs[i].arrival < cs[j].arrival {
      GapSumGrows(draws, i + 1, j + 1);
    }
    forall i | 0 <= i < |cs| ensures cs[i].arrival >= 1 {
      GapSumGrows(draws, 0, i + 1);
    }
  }

  /** client_new: the id, the kind and the total time are left as they are found in memory. */
  method ClientNew() returns (client: Client)
    ensures client.arrival == client.wait == client.start == client.finish == client.failures == 0
  {
    var memory: Client := *;
    client := memory.(arrival := 0, wait := 0, start := 0, finish := 0, failures := 0);
  }

  /**
    Draws clients until one would arrive at or after `finishTime`: exactly the draws with earlier
    arrival times become clients, in order.
   */
  method ClientsInit(draws: nat -> Draw, finishTime: int) returns (clients: Queue<Client>)
    requires forall i :: draws(i).gap >= 1
    ensures fresh(clients) && fresh(clients.items) && clients.Valid()
    ensures forall i :: 0 <= i < |clients.contents| ==>
      Drawn(clients.contents[i], draws, i) && clients.contents[i].arrival < finishTime
    ensures GapSum(draws, |clients.contents| + 1) >= finishTime
    ensures Chronological(clients.contents) && DistinctIds(clients.contents)
  {
    clients := new Queue<Client>(QUEUE_BASE_SIZE);
    var id: nat := 0;
    var next := 0;
    while true
      invariant next == GapSum(draws, id)
      invariant fresh(clients) && fresh(clients.items) && clients.Valid() && |clients.contents| == id
      invariant forall i :: 0 <= i < id ==>
        Drawn(clients.contents[i], draws, i) && clients.contents[i].arrival < finishTime
      decreases finishTime - next
    {
      var d := draws(id);
      next := next + d.gap;
      if next >= finishTime {
        break;
      }
      var client := ClientNew();
      client := client.(id := id, arrival := next);
      var disability;
      if d.disabled {
        match d.sample {
          case 0 => disability := Type1;
          case 1 => disability := Type2;
          case 2 => disability := Type3;
          case _ => disability := d.garbage;
        }
      } else {
        disability := NoDisability;
      }
      client := client.(key := ServiceKey(disability, if d.toDest2 then Dest2 else Dest1));
      id := id + 1;
      var _ := Queue<Client>.Push(clients, Some(client), true);
    }
    DrawnInOrder(clients.contents, draws);
  }
}
