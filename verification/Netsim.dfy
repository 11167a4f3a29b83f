/** The timed network: why a channel is a lossy queue that keeps its order. */
module Netsim {
  /** Addresses of type `A` are compared for equality only. */
  datatype Message<A, T> = Message(body: T, from: A)

  /** What one source sent, or a receiver had from it: `last` is the newest. */
  datatype History<T> = Empty | Then(before: History<T>, last: T)

  function Join<T>(h: History<T>, k: History<T>): History<T> {
    match k
    case Empty => h
    case Then(before, last) => Then(Join(h, before), last)
  }

  lemma {:induction false} JoinAssoc<T>(h: History<T>, k: History<T>, l: History<T>)
    ensures Join(Join(h, k), l) == Join(h, Join(k, l))
  {
    if l.Then? { JoinAssoc(h, k, l.before); }
  }

  lemma {:induction false} JoinEmpty<T>(h: History<T>)
    ensures Join(Empty, h) == h
  {
    if h.Then? { JoinEmpty(h.before); }
  }

  function Add<A(==), T>(h: History<T>, m: Message<A, T>, a: A): History<T> {
    if m.from == a then Then(h, m.body) else h
  }

  /** The bodies of the messages from one source among the first `n`, in order. */
  function FromFirst<A(==), T>(ms: seq<Message<A, T>>, n: nat, a: A): History<T>
    requires n <= |ms|
  {
    if n == 0 then Empty else Add(FromFirst(ms, n - 1, a), ms[n - 1], a)
  }

  function From<A(==), T>(ms: seq<Message<A, T>>, a: A): History<T> { FromFirst(ms, |ms|, a) }

  lemma {:induction false} FromPrefix<A(!new), T>(xs: seq<Message<A, T>>, ys: seq<Message<A, T>>, n: nat, a: A)
    requires n <= |xs|
    ensures FromFirst(xs + ys, n, a) == FromFirst(xs, n, a)
  {
    if n > 0 { FromPrefix(xs, ys, n - 1, a); }
  }

  lemma {:induction false} FromSplit<A(!new), T>(xs: seq<Message<A, T>>, ys: seq<Message<A, T>>, n: nat, a: A)
    requires n <= |ys|
    ensures FromFirst(xs + ys, |xs| + n, a) == Join(FromFirst(xs, |xs|, a), FromFirst(ys, n, a))
  {
    if n == 0 {
      FromPrefix(xs, ys, |xs|, a);
    } else {
      FromSplit(xs, ys, n - 1, a);
      assert (xs + ys)[|xs| + n - 1] == ys[n - 1];
    }
  }

  lemma FromConcat<A(!new), T>(xs: seq<Message<A, T>>, ys: seq<Message<A, T>>, a: A)
    ensures From(xs + ys, a) == Join(From(xs, a), From(ys, a))
  {
    FromSplit(xs, ys, |ys|, a);
  }

  lemma FromSnoc<A(!new), T>(ms: seq<Message<A, T>>, m: Message<A, T>, a: A)
    ensures From(ms + [m], a) == Add(From(ms, a), m, a)
  {
    FromPrefix(ms, [m], |ms|, a);
    assert (ms + [m])[|ms|] == m;
  }

  lemma FromOne<A(!new), T>(m: Message<A, T>, a: A)
    ensures From([m], a) == Add(Empty, m, a)
  {
    assert FromFirst([m], 1, a) == Add(FromFirst([m], 0, a), m, a);
  }

  lemma {:induction false} FromNone<A(!new), T>(ms: seq<Message<A, T>>, n: nat, a: A)
    requires n <= |ms| && forall i :: 0 <= i < n ==> ms[i].from != a
    ensures FromFirst(ms, n, a) == Empty
  {
    if n > 0 { FromNone(ms, n - 1, a); }
  }

  function Without<T>(s: seq<T>, k: nat): seq<T>
    requires k < |s|
  {
    s[..k] + s[k + 1..]
  }

  lemma FromAround<A(!new), T>(before: seq<Message<A, T>>, m: Message<A, T>, after: seq<Message<A, T>>, a: A)
    requires forall i :: 0 <= i < |before| ==> before[i].from != m.from
    ensures From(before + ([m] + after), a) == Join(From([m], a), From(before + after, a))
  {
    FromConcat(before, [m] + after, a);
    FromConcat([m], after, a);
    FromConcat(before, after, a);
    FromOne(m, a);
    JoinEmpty(From(after, a));
    JoinEmpty(From(before + after, a));
    if m.from == a { FromNone(before, |before|, a); JoinEmpty(Join(From([m], a), From(after, a))); }
  }

  /** Moving out a message with none of its source before it moves out the first of that source. */
  lemma FromWithout<A(!new), T>(ms: seq<Message<A, T>>, k: nat, a: A)
    requires k < |ms| && forall i :: 0 <= i < k ==> ms[i].from != ms[k].from
    ensures From(ms, a) == Join(From([ms[k]], a), From(Without(ms, k), a))
  {
    assert ms == ms[..k] + ([ms[k]] + ms[k + 1..]);
    FromAround(ms[..k], ms[k], ms[k + 1..], a);
  }

  lemma FromHead<A(!new), T>(ms: seq<Message<A, T>>, a: A)
    requires ms != []
    ensures From(ms, a) == Join(From([ms[0]], a), From(ms[1..], a))
  {
    assert ms == [ms[0]] + ms[1..];
    FromConcat([ms[0]], ms[1..], a);
  }

  // ----- what the methods of a port do to every channel -----

  /** What the channel from `a` holds: what of it waits in the port's queue, then what is in flight. */
  function Holds<A(==), T>(queue: seq<Message<A, T>>, flights: seq<Message<A, T>>, a: A): History<T> {
    Join(From(queue, a), From(flights, a))
  }

  function At<A(==), T>(kept: map<A, History<T>>, a: A): History<T> {
    if a in kept then kept[a] else Empty
  }

  /** From every source: what was received, then what the channel holds, is what was sent and not lost. */
  ghost predicate Accounted<A(!new), T>(received: seq<Message<A, T>>, queue: seq<Message<A, T>>,
                                        flights: seq<Message<A, T>>, kept: map<A, History<T>>) {
    forall a :: Join(From(received, a), Holds(queue, flights, a)) == At(kept, a)
  }

  /** A message that is sent and not lost is the newest that its channel holds. */
  lemma SendHolds<A(!new), T>(received: seq<Message<A, T>>, queue: seq<Message<A, T>>, flights: seq<Message<A, T>>,
                              kept: map<A, History<T>>, m: Message<A, T>)
    requires Accounted(received, queue, flights, kept)
    ensures forall a :: Holds(queue, flights + [m], a) == Add(Holds(queue, flights, a), m, a)
    ensures Accounted(received, queue, flights + [m], kept[m.from := Then(At(kept, m.from), m.body)])
  {
    forall a ensures From(flights + [m], a) == Add(From(flights, a), m, a) { FromSnoc(flights, m, a); }
  }

  /** Delivering a message with none of its source before it changes nothing that a channel holds. */
  lemma DeliverHolds<A(!new), T>(queue: seq<Message<A, T>>, flights: seq<Message<A, T>>, k: nat)
    requires k < |flights| && forall i :: 0 <= i < k ==> flights[i].from != flights[k].from
    ensures forall a :: Holds(queue + [flights[k]], Without(flights, k), a) == Holds(queue, flights, a)
  {
    forall a ensures Holds(queue + [flights[k]], Without(flights, k), a) == Holds(queue, flights, a) {
      FromConcat(queue, [flights[k]], a);
      FromWithout(flights, k, a);
      JoinAssoc(From(queue, a), From([flights[k]], a), From(Without(flights, k), a));
    }
  }

  /** The head of the port's queue is the oldest that its channel holds. */
  lemma ReceiveHolds<A(!new), T>(received: seq<Message<A, T>>, queue: seq<Message<A, T>>, flights: seq<Message<A, T>>)
    requires queue != []
    ensures forall a :: Holds(queue, flights, a) == Join(Add(Empty, queue[0], a), Holds(queue[1..], flights, a))
    ensures forall a :: Join(From(received + [queue[0]], a), Holds(queue[1..], flights, a))
                     == Join(From(received, a), Holds(queue, flights, a))
  {
    var m := queue[0];
    forall a
      ensures Holds(queue, flights, a) == Join(Add(Empty, m, a), Holds(queue[1..], flights, a))
      ensures Join(From(received + [m], a), Holds(queue[1..], flights, a))
           == Join(From(received, a), Holds(queue, flights, a))
    {
      FromHead(queue, a);
      FromOne(m, a);
      FromConcat(received, [m], a);
      JoinAssoc(From([m], a), From(queue[1..], a), From(flights, a));
      JoinAssoc(From(received, a), From([m], a), Holds(queue[1..], flights, a));
    }
  }

  /** What has been received from a source is the beginning of what it sent and was not lost. */
  lemma ReceivedInOrder<A(!new), T>(received: seq<Message<A, T>>, queue: seq<Message<A, T>>,
                                    flights: seq<Message<A, T>>, kept: map<A, History<T>>, a: A)
    requires Accounted(received, queue, flights, kept)
    ensures exists later :: At(kept, a) == Join(From(received, a), later)
  {
    assert At(kept, a) == Join(From(received, a), Holds(queue, flights, a));
  }

  // ----- times -----

  /** Flights are not overdue, and those of one source are due in the order in which they were sent. */
  ghost predicate Timely<A, T>(now: nat, linkDelay: nat, sendDelay: nat, flights: seq<Message<A, T>>, due: seq<nat>,
                            idleAt: map<A, nat>) {
    && |due| == |flights|
    && (forall i :: 0 <= i < |flights| ==>
          now <= due[i] && flights[i].from in idleAt && due[i] + sendDelay <= idleAt[flights[i].from] + linkDelay)
    && (forall i, j :: 0 <= i < j < |flights| && flights[i].from == flights[j].from ==> due[i] < due[j])
  }

  /** A sender that waits out a positive send delay keeps its flights apart. */
  lemma SendTimely<A(!new), T>(now: nat, linkDelay: nat, sendDelay: nat, flights: seq<Message<A, T>>, due: seq<nat>,
                      idleAt: map<A, nat>, m: Message<A, T>)
    requires Timely(now, linkDelay, sendDelay, flights, due, idleAt) && sendDelay > 0
    requires m.from in idleAt ==> idleAt[m.from] <= now
    ensures Timely(now, linkDelay, sendDelay, flights + [m], due + [now + linkDelay], idleAt[m.from := now + sendDelay])
  {
  }

  lemma LossTimely<A(!new), T>(now: nat, linkDelay: nat, sendDelay: nat, flights: seq<Message<A, T>>, due: seq<nat>,
                      idleAt: map<A, nat>, a: A)
    requires Timely(now, linkDelay, sendDelay, flights, due, idleAt)
    requires a in idleAt ==> idleAt[a] <= now
    ensures Timely(now, linkDelay, sendDelay, flights, due, idleAt[a := now + sendDelay])
  {
  }

  lemma DeliverTimely<A(!new), T>(now: nat, linkDelay: nat, sendDelay: nat, flights: seq<Message<A, T>>, due: seq<nat>,
                         idleAt: map<A, nat>, k: nat)
    requires Timely(now, linkDelay, sendDelay, flights, due, idleAt) && k < |flights| && due[k] == now
    ensures Timely(now, linkDelay, sendDelay, Without(flights, k), Without(due, k), idleAt)
    ensures forall i :: 0 <= i < k ==> flights[i].from != flights[k].from
  {
  }

  /** The state of a port: what is in flight to it and when each of that is due, what waits in its queue, and when each
      sender's awaited send completes. */
  datatype PortState<A, T> = PortState(
    inFlight: seq<Message<A, T>>, due: seq<nat>, messageq: seq<Message<A, T>>, idleAt: map<A, nat>)

  function Sent<A, T>(p: PortState<A, T>, now: nat, linkDelay: nat, sendDelay: nat, m: Message<A, T>, lost: bool)
    : PortState<A, T>
  {
    var idleAt := p.idleAt[m.from := now + sendDelay];
    if lost then p.(idleAt := idleAt)
    else p.(inFlight := p.inFlight + [m], due := p.due + [now + linkDelay], idleAt := idleAt)
  }

  lemma SentTimely<A(!new), T>(p: PortState<A, T>, now: nat, linkDelay: nat, sendDelay: nat, m: Message<A, T>,
                               lost: bool)
    requires Timely(now, linkDelay, sendDelay, p.inFlight, p.due, p.idleAt) && sendDelay > 0
    requires m.from in p.idleAt ==> p.idleAt[m.from] <= now
    ensures var p' := Sent(p, now, linkDelay, sendDelay, m, lost);
      Timely(now, linkDelay, sendDelay, p'.inFlight, p'.due, p'.idleAt)
  {
    if lost {
      LossTimely(now, linkDelay, sendDelay, p.inFlight, p.due, p.idleAt, m.from);
    } else {
      SendTimely(now, linkDelay, sendDelay, p.inFlight, p.due, p.idleAt, m);
    }
  }

  function Delivered<A, T>(p: PortState<A, T>, k: nat): PortState<A, T>
    requires k < |p.inFlight| && k < |p.due|
  {
    p.(inFlight := Without(p.inFlight, k), due := Without(p.due, k), messageq := p.messageq + [p.inFlight[k]])
  }

  function Received<A, T>(p: PortState<A, T>): PortState<A, T>
    requires p.messageq != []
  {
    p.(messageq := p.messageq[1..])
  }

  /** A receiving port with its inbound channels, and the pending `send_after` events of the simulation. */
  class Port<A(==, !new), T> {
    const linkDelay: nat
    const sendDelay: nat
    var now: nat
    var inFlight: seq<Message<A, T>>
    var due: seq<nat>  // when each message in flight is delivered
    var messageq: seq<Message<A, T>>
    var idleAt: map<A, nat>  // when each sender's awaited send completes

    ghost var kept: map<A, History<T>>  // what each source sent and was not lost
    ghost var received: seq<Message<A, T>>

    ghost predicate Valid()
      reads this
    {
      && sendDelay > 0
      && Timely(now, linkDelay, sendDelay, inFlight, due, idleAt)
      && Accounted(received, messageq, inFlight, kept)
    }

    function State(): PortState<A, T>
      reads this
    {
      PortState(inFlight, due, messageq, idleAt)
    }

    constructor (linkDelay: nat, sendDelay: nat)
      requires sendDelay > 0
      ensures Valid() && messageq == [] && inFlight == [] && received == [] && kept == map[] && now == 0
    {
      this.linkDelay, this.sendDelay := linkDelay, sendDelay;
      now, inFlight, due, messageq, idleAt := 0, [], [], [], map[];
      kept, received := map[], [];
    }

    /** `channel::send`: the message is lost, or is delivered after the link delay; sending takes time. */
    method Send(m: Message<A, T>, lost: bool)
      requires Valid() && (m.from in idleAt ==> idleAt[m.from] <= now)
      modifies this`inFlight, this`due, this`idleAt, this`kept
      ensures Valid() && State() == Sent(old(State()), now, linkDelay, sendDelay, m, lost)
      ensures idleAt == old(idleAt)[m.from := now + sendDelay]
      ensures lost ==> inFlight == old(inFlight) && due == old(due)
      ensures !lost ==> inFlight == old(inFlight) + [m] && due == old(due) + [now + linkDelay]
      ensures kept == if lost then old(kept) else old(kept)[m.from := Then(At(old(kept), m.from), m.body)]
    {
      if lost { Wait(m.from); } else { SendAfter(m); }
    }

    /** The sender is busy for the send delay. */
    method Wait(from: A)
      requires Valid() && (from in idleAt ==> idleAt[from] <= now)
      modifies this`idleAt
      ensures Valid() && State() == old(State()).(idleAt := old(idleAt)[from := now + sendDelay])
    {
      LossTimely(now, linkDelay, sendDelay, inFlight, due, idleAt, from);
      idleAt := idleAt[from := now + sendDelay];
    }

    /** `channel::send_after`: the delivery is scheduled, while the sender is busy. */
    method SendAfter(m: Message<A, T>)
      requires Valid() && (m.from in idleAt ==> idleAt[m.from] <= now)
      modifies this`inFlight, this`due, this`idleAt, this`kept
      ensures Valid() && State() == Sent(old(State()), now, linkDelay, sendDelay, m, false)
      ensures kept == old(kept)[m.from := Then(At(old(kept), m.from), m.body)]
    {
      SendTimely(now, linkDelay, sendDelay, inFlight, due, idleAt, m);
      SendHolds(received, messageq, inFlight, kept, m);
      inFlight, due := inFlight + [m], due + [now + linkDelay];
      idleAt := idleAt[m.from := now + sendDelay];
      kept := kept[m.from := Then(At(kept, m.from), m.body)];
    }

    /** Time passes, up to the next pending event. */
    method Advance(t: nat)
      requires Valid() && now <= t && forall i :: 0 <= i < |due| ==> t <= due[i]
      modifies this`now
      ensures Valid() && now == t
    {
      now := t;
    }

    /** `receiver::deliver`: any event that is due may fire first. What each channel holds does not change. */
    method Deliver(k: nat)
      requires Valid() && k < |inFlight| && due[k] == now
      modifies this`inFlight, this`due, this`messageq
      ensures Valid() && State() == Delivered(old(State()), k) && messageq == old(messageq) + [old(inFlight)[k]]
      ensures inFlight == Without(old(inFlight), k) && due == Without(old(due), k)
      ensures forall a :: Holds(messageq, inFlight, a) == Holds(old(messageq), old(inFlight), a)
    {
      DeliverTimely(now, linkDelay, sendDelay, inFlight, due, idleAt, k);
      DeliverHolds(messageq, inFlight, k);
      messageq := messageq + [inFlight[k]];
      inFlight, due := inFlight[..k] + inFlight[k + 1..], due[..k] + due[k + 1..];
    }

    /** `receiver::receive_from`: the oldest delivered message, which is the oldest that its channel holds. */
    method ReceiveFrom() returns (m: Message<A, T>)
      requires Valid() && messageq != []
      modifies this`messageq, this`received
      ensures Valid() && m == old(messageq)[0] && State() == Received(old(State()))
      ensures received == old(received) + [m] && [m] + messageq == old(messageq)
      ensures forall a :: Holds(old(messageq), inFlight, a) == Join(Add(Empty, m, a), Holds(messageq, inFlight, a))
    {
      ReceiveHolds(received, messageq, inFlight);
      m := messageq[0];
      messageq := messageq[1..];
      received := received + [m];
    }
  }
}
