/** Serials, and where the replies come from: every answer is the leader's answer to one of the client's own sends. */
module LockseqHistory {
  import opened PancyMsgs
  import opened DbSpec
  import opened Lockseq

  /** `r` is what the leader answered to its request number `t`. */
  predicate AnswerAt(served: seq<PRequest>, t: nat, r: PResponse) {
    t < |served| && r == Process(ProcessAll(EmptyDb(), served[..t], NoTag), served[t], NoTag).1
  }

  /** The client that a serial belongs to: `serial & client_mask()`. */
  function ClientOf(serial: nat): nat { serial % MAX_CLIENTS }

  /** A request of client `i`, of its current loop or an earlier one. */
  predicate Mine(clients: seq<Client>, i: nat, q: PRequest) {
    && i < |clients| && ClientOf(q.serial) == i
    && q.serial <= clients[i].serial
    && (q.serial == clients[i].serial && clients[i].phase != Resting ==> q == CurrentRequest(clients[i]))
  }

  ghost predicate Answered(served: seq<PRequest>, i: nat, r: PResponse) {
    exists t: nat :: AnswerAt(served, t, r) && ClientOf(served[t].serial) == i
  }

  ghost predicate History(cfg: Config, s: System) {
    && |s.clients| == cfg.nclients
    && s.db == ProcessAll(EmptyDb(), s.served, NoTag)
    && (forall i: nat :: i < |s.clients| ==> ClientOf(s.clients[i].serial) == i)
    && (forall ch: Channel, q :: q in Queue(s.requests, ch) ==> Mine(s.clients, ch.cid, q))
    && (forall q :: q in s.served ==> Mine(s.clients, ClientOf(q.serial), q))
    && (forall ch: Channel, r :: r in Queue(s.replies, ch) && !r.RedirectionResponse? ==> Answered(s.served, ch.cid, r))
  }

  /** A client's own step either keeps its current request or moves to a later serial. */
  predicate Moves(c: Client, c': Client) {
    || (c'.serial == c.serial + SERIAL_STEP)
    || (&& c'.serial == c.serial
        && (c'.phase == Resting || (c.phase != Resting && CurrentRequest(c') == CurrentRequest(c))))
  }

  lemma MineMoves(clients: seq<Client>, i: nat, c': Client, j: nat, q: PRequest)
    requires i < |clients| && Moves(clients[i], c') && Mine(clients, j, q)
    ensures Mine(clients[i := c'], j, q)
  {
  }

  lemma OnMessageMoves(c: Client, r: PResponse, pick: nat, wait: bool)
    requires Active(c) && (Expected(c, r) && r.serial == c.serial ==> Working(c, r))
    ensures Moves(c, OnMessage(c, r, pick, wait))
  {
  }

  /** The response is not one of the codes that make a client throw. */
  predicate Working(c: Client, r: PResponse) {
    match c.phase
    case Locking => r.CasResponse? && (r.errcode == Ok || r.errcode == NoMatch)
    case Writing => r.PutResponse? && r.errcode == Ok
    case Clearing => r.RemoveResponse? && (r.errcode == Ok || r.errcode == NotFound)
    case Unlocking => r.RemoveResponse? && (c.tries == 0 ==> r.errcode == Ok)
    case _ => true
  }

  lemma ProcessSerial(db: PDb, q: PRequest)
    ensures Process(db, q, NoTag).1.serial == q.serial && !Process(db, q, NoTag).1.RedirectionResponse?
  {
  }

  lemma ServedGrows(served: seq<PRequest>, req: PRequest, i: nat, r: PResponse)
    requires Answered(served, i, r)
    ensures Answered(served + [req], i, r)
  {
    var t: nat :| AnswerAt(served, t, r) && ClientOf(served[t].serial) == i;
    assert (served + [req])[..t] == served[..t];
    assert AnswerAt(served + [req], t, r);
  }

  lemma ServeHistory(cfg: Config, s: System, step: Step)
    requires History(cfg, s) && step.Serve? && Enabled(cfg, s, step)
    ensures History(cfg, Apply(cfg, s, step))
  {
    var Serve(ch, kept) := step;
    var s' := Apply(cfg, s, step);
    var req := Queue(s.requests, ch)[0];
    var (db, resp) := Respond(cfg, s.db, ch.rid, req);
    assert req in Queue(s.requests, ch);
    if ch.rid == cfg.leader {
      assert s'.served[..|s'.served| - 1] == s.served;
      assert AnswerAt(s'.served, |s.served|, resp);
    }
    forall c: Channel, r | r in Queue(s'.replies, c) && !r.RedirectionResponse?
      ensures Answered(s'.served, c.cid, r)
    {
      InPut(s.replies, ch, resp, kept, c, r);
      if r in Queue(s.replies, c) && ch.rid == cfg.leader { ServedGrows(s.served, req, c.cid, r); }
    }
    forall c: Channel, q | q in Queue(s'.requests, c) ensures Mine(s.clients, c.cid, q) {
      InPop(s.requests, ch, c, q);
    }
  }

  lemma InPut<T>(m: map<Channel, seq<T>>, ch: Channel, x: T, kept: bool, c: Channel, r: T)
    ensures r in Queue(Put(m, ch, x, kept), c) ==> r in Queue(m, c) || (r == x && c == ch)
  {
  }

  lemma InPop<T>(m: map<Channel, seq<T>>, ch: Channel, c: Channel, q: T)
    requires Queue(m, ch) != []
    ensures q in Queue(Pop(m, ch), c) ==> q in Queue(m, c)
  {
  }

  predicate SentNow(i: nat, c: Client, ch: Channel, q: PRequest) {
    ch.cid == i && c.phase != Resting && q == CurrentRequest(c)
  }

  /** A step of client `i` that leaves the leader alone. */
  lemma ClientHistory(cfg: Config, s: System, s': System, i: nat, c': Client)
    requires History(cfg, s) && i < |s.clients| && Moves(s.clients[i], c')
    requires s'.clients == s.clients[i := c'] && s'.db == s.db && s'.served == s.served
    requires forall ch: Channel, q :: q in Queue(s'.requests, ch) ==>
      q in Queue(s.requests, ch) || SentNow(i, c', ch, q)
    requires forall ch: Channel, r :: r in Queue(s'.replies, ch) ==> r in Queue(s.replies, ch)
    ensures History(cfg, s')
  {
    assert ClientOf(s.clients[i].serial) == i;
    assert ClientOf(c'.serial) == i;
    forall ch: Channel, q | q in Queue(s'.requests, ch) ensures Mine(s'.clients, ch.cid, q) {
      if q in Queue(s.requests, ch) {
        MineMoves(s.clients, i, c', ch.cid, q);
      } else {
        assert SentNow(i, c', ch, q);
      }
    }
    forall q | q in s'.served ensures Mine(s'.clients, ClientOf(q.serial), q) {
      MineMoves(s.clients, i, c', ClientOf(q.serial), q);
    }
  }

  lemma StepHistory(cfg: Config, s: System, step: Step)
    requires History(cfg, s) && Enabled(cfg, s, step)
    requires step.Receive? ==> OnMessageOk(s.clients[step.ch.cid], Queue(s.replies, step.ch)[0])
    ensures History(cfg, Apply(cfg, s, step))
  {
    match step
    case Begin(i, _, _, _) => LocalHistory(cfg, s, step, i);
    case Timeout(i, _) => LocalHistory(cfg, s, step, i);
    case Send(i, kept) => SendHistory(cfg, s, i, kept);
    case Serve(_, _) => ServeHistory(cfg, s, step);
    case Receive(_, _, _) => ReceiveHistory(cfg, s, step);
  }

  lemma LocalHistory(cfg: Config, s: System, step: Step, i: nat)
    requires History(cfg, s) && Enabled(cfg, s, step) && (step.Begin? || step.Timeout?) && i == step.cid
    ensures History(cfg, Apply(cfg, s, step))
  {
    var s' := Apply(cfg, s, step);
    ClientHistory(cfg, s, s', i, s'.clients[i]);
  }

  lemma ReceiveHistory(cfg: Config, s: System, step: Step)
    requires History(cfg, s) && Enabled(cfg, s, step) && step.Receive?
    requires OnMessageOk(s.clients[step.ch.cid], Queue(s.replies, step.ch)[0])
    ensures History(cfg, Apply(cfg, s, step))
  {
    var Receive(ch, pick, wait) := step;
    var s' := Apply(cfg, s, step);
    OnMessageMoves(s.clients[ch.cid], Queue(s.replies, ch)[0], pick, wait);
    ClientHistory(cfg, s, s', ch.cid, s'.clients[ch.cid]);
  }

  lemma SendHistory(cfg: Config, s: System, i: nat, kept: bool)
    requires History(cfg, s) && Enabled(cfg, s, Send(i, kept))
    ensures History(cfg, Apply(cfg, s, Send(i, kept)))
  {
    var s' := Apply(cfg, s, Send(i, kept));
    ClientHistory(cfg, s, s', i, s.clients[i].(awaiting := true));
  }

  predicate OnMessageOk(c: Client, r: PResponse) {
    Active(c) && (Expected(c, r) && r.serial == c.serial ==> Working(c, r))
  }

  /** An answer to the current request was given to that very request, after the loop began. */
  lemma AnswerIsCurrent(cfg: Config, s: System, ch: Channel, r: PResponse) returns (t: nat)
    requires History(cfg, s) && ch.cid < |s.clients| && r in Queue(s.replies, ch)
    requires r.serial == s.clients[ch.cid].serial && !r.RedirectionResponse? && s.clients[ch.cid].phase != Resting
    ensures AnswerAt(s.served, t, r) && s.served[t] == CurrentRequest(s.clients[ch.cid])
  {
    t :| AnswerAt(s.served, t, r) && ClientOf(s.served[t].serial) == ch.cid;
    assert s.served[t] in s.served;
    ProcessSerial(ProcessAll(EmptyDb(), s.served[..t], NoTag), s.served[t]);
  }
}
