/** The timed port refines the queues of the transition system: sending is `Put`, receiving is `Pop`, delivering and the
    passing of time are nothing. */
module LockseqNet {
  import opened DbRename
  import opened Lockseq
  import opened Netsim

  function Contents<T>(h: History<T>): seq<T> {
    match h
    case Empty => []
    case Then(before, last) => Contents(before) + [last]
  }

  lemma {:induction false} ContentsJoin<T>(h: History<T>, k: History<T>)
    ensures Contents(Join(h, k)) == Contents(h) + Contents(k)
  {
    if k.Then? { ContentsJoin(h, k.before); }
  }

  /** Every channel of the port holds what its queue in the transition system holds. `link` names the channel of a
      source: of client `c` for a port of replica `r`, and of replica `r` for the port of client `c`, it is
      `Channel(c, r)`. */
  ghost predicate Carries<A(!new), T>(queue: seq<Message<A, T>>, flights: seq<Message<A, T>>,
                                      queues: map<Channel, seq<T>>, link: A -> Channel) {
    forall a :: Queue(queues, link(a)) == Contents(Holds(queue, flights, a))
  }

  lemma SendIsPut<A(!new), T>(queue: seq<Message<A, T>>, flights: seq<Message<A, T>>, m: Message<A, T>,
                              queues: map<Channel, seq<T>>, link: A -> Channel)
    requires Injective(link) && Carries(queue, flights, queues, link)
    ensures Carries(queue, flights + [m], Put(queues, link(m.from), m.body, true), link)
  {
    forall a
      ensures Queue(Put(queues, link(m.from), m.body, true), link(a)) == Contents(Holds(queue, flights + [m], a))
    {
      FromSnoc(flights, m, a);
      assert Holds(queue, flights + [m], a) == Add(Holds(queue, flights, a), m, a);
    }
  }

  lemma ReceiveIsPop<A(!new), T>(queue: seq<Message<A, T>>, flights: seq<Message<A, T>>,
                                 queues: map<Channel, seq<T>>, link: A -> Channel)
    requires queue != [] && Injective(link) && Carries(queue, flights, queues, link)
    ensures var ch := link(queue[0].from);
      && Queue(queues, ch) != [] && Queue(queues, ch)[0] == queue[0].body
      && Carries(queue[1..], flights, Pop(queues, ch), link)
  {
    var m := queue[0];
    forall a
      ensures Queue(queues, link(a))
           == (if a == m.from then [m.body] else []) + Contents(Holds(queue[1..], flights, a))
    {
      ReceiveHolds([], queue, flights);
      ContentsJoin(Add(Empty, m, a), Holds(queue[1..], flights, a));
    }
    var ch := link(m.from);
    assert Queue(queues, ch)[1..] == Contents(Holds(queue[1..], flights, m.from));
  }

  method Send<A(==, !new), T>(port: Port<A, T>, m: Message<A, T>, lost: bool,
                              ghost queues: map<Channel, seq<T>>, ghost link: A -> Channel)
    requires port.Valid() && (m.from in port.idleAt ==> port.idleAt[m.from] <= port.now)
    requires Injective(link) && Carries(port.messageq, port.inFlight, queues, link)
    modifies port
    ensures port.Valid()
    ensures Carries(port.messageq, port.inFlight, Put(queues, link(m.from), m.body, !lost), link)
  {
    if !lost { SendIsPut(port.messageq, port.inFlight, m, queues, link); }
    port.Send(m, lost);
  }

  method Deliver<A(==, !new), T>(port: Port<A, T>, k: nat, ghost queues: map<Channel, seq<T>>, ghost link: A -> Channel)
    requires port.Valid() && k < |port.inFlight| && port.due[k] == port.now
    requires Carries(port.messageq, port.inFlight, queues, link)
    modifies port
    ensures port.Valid() && Carries(port.messageq, port.inFlight, queues, link)
  {
    port.Deliver(k);
  }

  method Receive<A(==, !new), T>(port: Port<A, T>, ghost queues: map<Channel, seq<T>>, ghost link: A -> Channel)
    returns (m: Message<A, T>)
    requires port.Valid() && port.messageq != []
    requires Injective(link) && Carries(port.messageq, port.inFlight, queues, link)
    modifies port
    ensures port.Valid() && Queue(queues, link(m.from)) != [] && Queue(queues, link(m.from))[0] == m.body
    ensures Carries(port.messageq, port.inFlight, Pop(queues, link(m.from)), link)
  {
    ReceiveIsPop(port.messageq, port.inFlight, queues, link);
    assert port.messageq == [port.messageq[0]] + port.messageq[1..];
    m := port.ReceiveFrom();
  }
}
