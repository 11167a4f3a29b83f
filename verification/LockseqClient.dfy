/** The client coroutine, one wake-up at a time. It works on text; seen through the typed keys and values, it makes
    exactly the transitions of the system. */
module LockseqClient {
  import opened PancyMsgs
  import opened DbRename
  import opened LockKeys
  import opened Lockseq
  import opened LockseqText

  class LockseqClient {
    const cid: nat
    const clientKeyPrefix: string
    var phase: Phase
    var serial: nat
    var gid: nat
    var lockKey: string
    var value: string
    var nvalues: nat
    var lockVersion: int
    var n: nat
    var tries: nat
    var awaiting: bool
    var leader: nat
    ghost var tag: Tag  // what `value` is the text of

    ghost predicate Valid()
      reads this
    {
      clientKeyPrefix == ClientPrefix(cid) && lockKey == MakeLockKey(gid) && value == RenderTag(tag)
    }

    ghost function State(): Client
      reads this
    {
      Client(cid, phase, serial, gid, tag, nvalues, lockVersion, n, tries, awaiting, leader)
    }

    constructor (cid: nat, leader: nat)
      ensures Valid() && State() == Client(cid, Resting, cid, 0, NoTag, 0, 0, 0, 0, false, leader)
    {
      this.cid, this.leader, clientKeyPrefix := cid, leader, MakeClientKey(cid) + " ";
      phase, serial, gid, lockKey, value, nvalues := Resting, cid, 0, MakeLockKey(0), "", 0;
      lockVersion, n, tries, awaiting := 0, 0, 0, false;
      tag := NoTag;
    }

    /** Pick a group, a value and a length, and enter phase 1. */
    method Begin(gid: nat, hex: string, nvalues: nat)
      requires Valid()
      modifies this
      ensures Valid() && State() == BeginRound(old(State()), gid, Tag(cid, hex), nvalues)
    {
      this.gid, lockKey, this.nvalues, lockVersion := gid, MakeLockKey(gid), nvalues, 0;
      value, tag := clientKeyPrefix + hex, Tag(cid, hex);
      n := 0;
      StartLoop(Locking);
    }

    /** `serial += serial_step()`, then a loop from `tries = 0`. */
    method StartLoop(phase: Phase)
      modifies this`phase, this`serial, this`tries, this`awaiting
      ensures State() == Start(old(State()), phase, n)
    {
      this.phase := phase;
      serial := serial + SERIAL_STEP;
      tries, awaiting := 0, false;
    }

    /** `co_await send_request`: the text of the current loop's request, and the replica it goes to. */
    method SendRequest() returns (replica: nat, req: Request<string, string>)
      requires Valid() && Active(State())
      modifies this`awaiting
      ensures Valid() && State() == old(State()).(awaiting := true)
      ensures replica == leader && req == RenameRequest(CurrentRequest(State()), RenderKey, RenderTag)
    {
      replica := leader;
      match phase {
        case Locking => req := CasRequest(serial, lockKey, "", value, ANY_VERSION);
        case Writing => req := PutRequest(serial, MakeValueKey(gid, n), value, ANY_VERSION);
        case Clearing => req := RemoveRequest(serial, MakeValueKey(gid, n), ANY_VERSION);
        case Unlocking => req := RemoveRequest(serial, lockKey, lockVersion);
      }
      awaiting := true;
    }

    /** No response: try a new leader every three tries. */
    method NoResponse(pick: nat)
      modifies this`leader, this`tries, this`awaiting
      ensures State() == Retry(old(State()), pick)
    {
      if tries % 3 == 2 { leader := pick; }
      tries := tries + 1;
      awaiting := false;
    }

    /** `receive_response` and what each loop does with its result, for the text `resp` of a response `r`. */
    method Receive(resp: Response<string>, ghost r: PResponse, pick: nat, wait: bool)
      requires Valid() && Active(State()) && awaiting && resp == RenameResponse(r, RenderTag)
      modifies this
      ensures Valid() && State() == OnMessage(old(State()), r, pick, wait)
    {
      // a reply to some earlier loop
      if resp.serial != serial { return; }
      if resp.RedirectionResponse? {
        leader := resp.redirection;
        NoResponse(pick);
        return;
      }
      if phase == Locking && resp.CasResponse? {
        Locked(resp, r, wait);
      } else if phase == Writing && resp.PutResponse? {
        Written(resp, r);
      } else if phase == Clearing && resp.RemoveResponse? {
        Cleared(resp, r);
      } else if phase == Unlocking && resp.RemoveResponse? {
        if resp.errcode != Ok && tries == 0 {
          phase := Failed;
        } else {
          phase, awaiting := Resting, false;
        }
      } else {
        // the serial is live, but the type is wrong
        NoResponse(pick);
      }
    }

    method Locked(resp: Response<string>, ghost r: PResponse, wait: bool)
      requires Valid() && resp.CasResponse? && resp == RenameResponse(r, RenderTag)
      modifies this
      ensures Valid() && r.CasResponse? && State() == OnCas(old(State()), r, wait)
    {
      SameTests(r.actual, tag, cid);
      if resp.errcode == Ok {
        // the lock is taken
        lockVersion := resp.version;
        n := 0;
        WritePhase();
      } else if resp.errcode != NoMatch {
        phase := Failed;
      } else if resp.actual == value && tries > 0 {
        // a try whose answer was lost had taken it
        lockVersion := resp.version;
        n := 0;
        WritePhase();
      } else if !(clientKeyPrefix <= resp.actual) && !wait {
        phase := Blocked;
      } else {
        tries, awaiting := tries + 1, false;
      }
    }

    /** The guard of the write loop. */
    method WritePhase()
      modifies this`phase, this`serial, this`tries, this`awaiting
      ensures State() == ToWrite(old(State()), n)
    {
      if n != nvalues { StartLoop(Writing); } else { ClearPhase(); }
    }

    /** The guard of the clear loop. */
    method ClearPhase()
      modifies this`phase, this`serial, this`tries, this`awaiting
      ensures State() == ToClear(old(State()), n)
    {
      if n < MAX_SEQUENCE_LENGTH { StartLoop(Clearing); } else { StartLoop(Unlocking); }
    }

    method Written(resp: Response<string>, ghost r: PResponse)
      requires Valid() && resp.PutResponse? && resp == RenameResponse(r, RenderTag)
      modifies this
      ensures Valid() && r.PutResponse? && State() == OnPut(old(State()), r)
    {
      if resp.errcode != Ok {
        phase := Failed;
      } else {
        n := n + 1;
        WritePhase();
      }
    }

    method Cleared(resp: Response<string>, ghost r: PResponse)
      requires Valid() && resp.RemoveResponse? && resp == RenameResponse(r, RenderTag)
      modifies this
      ensures Valid() && r.RemoveResponse? && State() == OnClear(old(State()), r)
    {
      if resp.errcode == Ok {
        n := n + 1;
        ClearPhase();
      } else if resp.errcode != NotFound {
        phase := Failed;
      } else if tries == 0 {
        // a first-try miss: nothing lies beyond
        StartLoop(Unlocking);
      } else {
        n := n + 1;
        ClearPhase();
      }
    }
  }
}
