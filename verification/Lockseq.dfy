/** The lock-sequence protocol as a transition system: clients, lossy FIFO channels, one leader. */
module Lockseq {
  import opened PancyMsgs
  import opened DbSpec
  import opened LockKeys

  const NGROUPS: nat := 100
  const MAX_SEQUENCE_LENGTH: nat := 100
  const MAX_CLIENTS: nat := 4096
  const SERIAL_STEP: nat := 4096

  /** The value a client writes: its key, a space, and random hexadecimal digits. `NoTag` is the empty string. */
  datatype Tag = NoTag | Tag(cid: nat, hex: string)

  type PKey = Key<nat>
  type PRequest = Request<PKey, Tag>
  type PResponse = Response<Tag>
  type PDb = Db<PKey, Tag>

  // ----- one client -----

  /** `Blocked` is the throw that reports a lock held by another client; `Failed` is every other throw. */
  datatype Phase = Resting | Locking | Writing | Clearing | Unlocking | Blocked | Failed

  datatype Client = Client(
    cid: nat,
    phase: Phase,
    serial: nat,
    gid: nat,
    value: Tag,
    nvalues: nat,
    lockVersion: int,
    n: nat,
    tries: nat,
    awaiting: bool,
    leader: nat)

  predicate Active(c: Client) {
    c.phase == Locking || c.phase == Writing || c.phase == Clearing || c.phase == Unlocking
  }

  function LockRequest(c: Client): PRequest {
    CasRequest(c.serial, Lock(c.gid), NoTag, c.value, ANY_VERSION)
  }

  /** The request that the current loop sends, and sends again. */
  function CurrentRequest(c: Client): PRequest {
    match c.phase
    case Writing => PutRequest(c.serial, Slot(c.gid, c.n), c.value, ANY_VERSION)
    case Clearing => RemoveRequest(c.serial, Slot(c.gid, c.n), ANY_VERSION)
    case Unlocking => RemoveRequest(c.serial, Lock(c.gid), c.lockVersion)
    case _ => LockRequest(c)
  }

  /** Start a loop under a new serial. */
  function Start(c: Client, phase: Phase, n: nat): Client {
    c.(phase := phase, n := n, serial := c.serial + SERIAL_STEP, tries := 0, awaiting := false)
  }

  function BeginRound(c: Client, gid: nat, value: Tag, nvalues: nat): Client {
    Start(c.(gid := gid, value := value, nvalues := nvalues, lockVersion := 0), Locking, 0)
  }

  function ToUnlock(c: Client, n: nat): Client { Start(c, Unlocking, n) }

  function ToClear(c: Client, n: nat): Client {
    if n < MAX_SEQUENCE_LENGTH then Start(c, Clearing, n) else ToUnlock(c, n)
  }

  function ToWrite(c: Client, n: nat): Client {
    if n != c.nvalues then Start(c, Writing, n) else ToClear(c, n)
  }

  /** Timeout or redirection: try again, with a new leader every three tries. */
  function Retry(c: Client, pick: nat): Client {
    c.(leader := if c.tries % 3 == 2 then pick else c.leader, tries := c.tries + 1, awaiting := false)
  }

  function OnCas(c: Client, resp: PResponse, wait: bool): Client
    requires resp.CasResponse?
  {
    if resp.errcode == Ok then ToWrite(c.(lockVersion := resp.version), 0)
    else if resp.errcode != NoMatch then c.(phase := Failed)
    else if resp.actual == c.value && c.tries > 0 then ToWrite(c.(lockVersion := resp.version), 0)
    else if !HasPrefix(resp.actual, c.cid) && !wait then c.(phase := Blocked)
    else c.(tries := c.tries + 1, awaiting := false)
  }

  /** `actual.starts_with(client_key_prefix)`. */
  predicate HasPrefix(actual: Tag, cid: nat) {
    actual.Tag? && actual.cid == cid
  }

  function OnPut(c: Client, resp: PResponse): Client
    requires resp.PutResponse?
  {
    if resp.errcode != Ok then c.(phase := Failed) else ToWrite(c, c.n + 1)
  }

  function OnClear(c: Client, resp: PResponse): Client
    requires resp.RemoveResponse?
  {
    if resp.errcode == Ok then ToClear(c, c.n + 1)
    else if resp.errcode != NotFound then c.(phase := Failed)
    else if c.tries == 0 then ToUnlock(c, c.n)
    else ToClear(c, c.n + 1)
  }

  function OnUnlock(c: Client, resp: PResponse): Client
    requires resp.RemoveResponse?
  {
    if resp.errcode != Ok && c.tries == 0 then c.(phase := Failed)
    else c.(phase := Resting, awaiting := false)
  }

  /** The response type that the current loop waits for. */
  predicate Expected(c: Client, resp: PResponse) {
    match c.phase
    case Locking => resp.CasResponse?
    case Writing => resp.PutResponse?
    case Clearing => resp.RemoveResponse?
    case Unlocking => resp.RemoveResponse?
    case _ => false
  }

  /** A message arrives at an awaiting client. `wait` decides whether a client that finds another holder waits or
      halts. */
  function OnMessage(c: Client, resp: PResponse, pick: nat, wait: bool): Client {
    if resp.serial != c.serial then c
    else if resp.RedirectionResponse? then Retry(c.(leader := resp.redirection), pick)
    else if !Expected(c, resp) then Retry(c, pick)
    else match c.phase
      case Locking => OnCas(c, resp, wait)
      case Writing => OnPut(c, resp)
      case Clearing => OnClear(c, resp)
      case Unlocking => OnUnlock(c, resp)
      case _ => c
  }

  // ----- the whole system -----

  datatype Config = Config(nclients: nat, nreplicas: nat, leader: nat, guesses: seq<nat>)

  predicate ValidConfig(cfg: Config) {
    cfg.nclients <= MAX_CLIENTS && cfg.leader < cfg.nreplicas && |cfg.guesses| == cfg.nclients
    && forall i :: 0 <= i < cfg.nclients ==> cfg.guesses[i] < cfg.nreplicas
  }

  /** The two-way link of client `cid` and replica `rid`. */
  datatype Channel = Channel(cid: nat, rid: nat)

  datatype System = System(
    db: PDb,
    clients: seq<Client>,
    requests: map<Channel, seq<PRequest>>,
    replies: map<Channel, seq<PResponse>>,
    served: seq<PRequest>)

  function Queue<T>(m: map<Channel, seq<T>>, ch: Channel): seq<T> {
    if ch in m then m[ch] else []
  }

  function Init(cfg: Config): System
    requires ValidConfig(cfg)
  {
    System(EmptyDb(),
           seq(cfg.nclients, i requires 0 <= i < cfg.nclients =>
             Client(i, Resting, i, 0, NoTag, 0, 0, 0, 0, false, cfg.guesses[i])),
           map[], map[], [])
  }

  datatype Step =
    | Begin(cid: nat, gid: nat, hex: string, nvalues: nat)
    | Send(cid: nat, kept: bool)
    | Serve(ch: Channel, kept: bool)
    | Receive(ch: Channel, pick: nat, wait: bool)
    | Timeout(cid: nat, pick: nat)

  predicate Enabled(cfg: Config, s: System, step: Step) {
    match step
    case Begin(cid, gid, hex, nvalues) =>
      cid < |s.clients| && s.clients[cid].phase == Resting && gid < NGROUPS && |hex| == 7
      && 1 <= nvalues <= MAX_SEQUENCE_LENGTH
    case Send(cid, _) =>
      cid < |s.clients| && Active(s.clients[cid]) && !s.clients[cid].awaiting
    case Serve(ch, _) =>
      ch.cid < |s.clients| && Queue(s.requests, ch) != []
    case Receive(ch, pick, _) =>
      ch.cid < |s.clients| && Active(s.clients[ch.cid]) && s.clients[ch.cid].awaiting
      && Queue(s.replies, ch) != [] && pick < cfg.nreplicas
    case Timeout(cid, pick) =>
      cid < |s.clients| && Active(s.clients[cid]) && s.clients[cid].awaiting && pick < cfg.nreplicas
  }

  function Put<T>(m: map<Channel, seq<T>>, ch: Channel, x: T, kept: bool): map<Channel, seq<T>> {
    if kept then m[ch := Queue(m, ch) + [x]] else m
  }

  function Pop<T>(m: map<Channel, seq<T>>, ch: Channel): map<Channel, seq<T>>
    requires Queue(m, ch) != []
  {
    m[ch := Queue(m, ch)[1..]]
  }

  /** The response of replica `rid`, and the leader's database after it. */
  function Respond(cfg: Config, db: PDb, rid: nat, req: PRequest): (PDb, PResponse) {
    if rid == cfg.leader then Process(db, req, NoTag)
    else (db, RedirectionResponse(req.serial, Redirect, cfg.leader))
  }

  function Apply(cfg: Config, s: System, step: Step): System
    requires Enabled(cfg, s, step)
  {
    match step
    case Begin(cid, gid, hex, nvalues) =>
      s.(clients := s.clients[cid := BeginRound(s.clients[cid], gid, Tag(cid, hex), nvalues)])
    case Send(cid, kept) =>
      var c := s.clients[cid];
      s.(clients := s.clients[cid := c.(awaiting := true)],
         requests := Put(s.requests, Channel(cid, c.leader), CurrentRequest(c), kept))
    case Serve(ch, kept) =>
      var req := Queue(s.requests, ch)[0];
      var (db, resp) := Respond(cfg, s.db, ch.rid, req);
      s.(db := db,
         requests := Pop(s.requests, ch),
         replies := Put(s.replies, ch, resp, kept),
         served := if ch.rid == cfg.leader then s.served + [req] else s.served)
    case Receive(ch, pick, wait) =>
      s.(clients := s.clients[ch.cid := OnMessage(s.clients[ch.cid], Queue(s.replies, ch)[0], pick, wait)],
         replies := Pop(s.replies, ch))
    case Timeout(cid, pick) =>
      s.(clients := s.clients[cid := Retry(s.clients[cid], pick)])
  }

  /** The state after a run; steps that are not enabled do nothing. */
  function Run(cfg: Config, steps: seq<Step>): System
    requires ValidConfig(cfg)
  {
    if steps == [] then Init(cfg)
    else
      var s, step := Run(cfg, steps[..|steps| - 1]), steps[|steps| - 1];
      if Enabled(cfg, s, step) then Apply(cfg, s, step) else s
  }

  lemma RunSnoc(cfg: Config, steps: seq<Step>, step: Step)
    requires ValidConfig(cfg)
    ensures var s := Run(cfg, steps);
      Run(cfg, steps + [step]) == if Enabled(cfg, s, step) then Apply(cfg, s, step) else s
  {
    assert (steps + [step])[..|steps + [step]| - 1] == steps;
  }
}
