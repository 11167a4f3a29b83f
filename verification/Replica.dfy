/** `pt_paxos_replica`: the leader processes requests, every other replica redirects. */
module Replica {
  import opened Base
  import opened PancyMsgs
  import opened DbRename
  import opened DbSpec
  import opened PancyDb
  import LockCheck
  import LockseqCheck
  import LockseqText
  import Lockseq

  class PtPaxosReplica {
    const index: nat
    const leaderIndex: nat
    const db: PancyDb
    ghost var served: seq<Request<string, string>>

    ghost predicate Valid()
      reads this, db, db.nonexistent
    {
      db.Valid() && db.Abs() == ProcessAll(EmptyDb(), served, "")
    }

    constructor (index: nat, leaderIndex: nat, nonexistent: NonexistentVv)
      requires nonexistent.vv == Versioned("", NONEXISTENT_VERSION)
      ensures Valid() && this.index == index && this.leaderIndex == leaderIndex && served == [] && fresh(db)
      ensures db.nonexistent == nonexistent
    {
      this.index, this.leaderIndex, served := index, leaderIndex, [];
      this.db := new PancyDb(nonexistent);
    }

    /** One turn of the loop in `run`. */
    method Serve(req: Request<string, string>) returns (resp: Response<string>)
      requires Valid()
      modifies this, db, db.nonexistent
      ensures Valid()
      ensures index != leaderIndex ==>
        resp == RedirectionResponse(req.serial, Redirect, leaderIndex)
        && served == old(served) && unchanged(db, db.nonexistent)
      ensures index == leaderIndex ==>
        served == old(served) + [req] && resp == Process(old(db.Abs()), req, "").1
    {
      // every other replica points at the leader
      if index != leaderIndex {
        return RedirectionResponse(req.serial, Redirect, leaderIndex);
      }
      resp := db.ProcessReq(req);
      served := served + [req];
      assert served[..|served| - 1] == old(served);
    }

    /** A replica of the transition system: it answers the text of a request with the text of the system's answer. `qs`
        is what the system's leader has served. */
    method ServeText(req: Request<string, string>, ghost cfg: Lockseq.Config, ghost qs: seq<Lockseq.PRequest>,
                     ghost q: Lockseq.PRequest)
      returns (resp: Response<string>)
      requires Valid() && leaderIndex == cfg.leader && (index == cfg.leader ==> served == LockseqText.RenderAll(qs))
      requires req == RenameRequest(q, LockseqText.RenderKey, LockseqText.RenderTag)
      modifies this, db, db.nonexistent
      ensures Valid() && (index == cfg.leader ==> served == LockseqText.RenderAll(qs + [q]))
      ensures var answer := Lockseq.Respond(cfg, ProcessAll(EmptyDb(), qs, Lockseq.NoTag), index, q).1;
        resp == RenameResponse(answer, LockseqText.RenderTag)
    {
      if index == cfg.leader { LockseqText.AnswersRender(qs, q); }
      assert LockseqText.RenderAll(qs + [q]) == LockseqText.RenderAll(qs) + [req];
      resp := Serve(req);
    }

    /** What `try_one_seed` checks when a run ends: a leader that has served the text of a run's requests. */
    method CheckAfterRun(ghost cfg: Lockseq.Config, ghost steps: seq<Lockseq.Step>) returns (problem: Option<string>)
      requires Valid() && Lockseq.ValidConfig(cfg)
      requires served == LockseqText.RenderAll(Lockseq.Run(cfg, steps).served)
      ensures problem.None?
    {
      LockseqCheck.EveryDatabasePassesCheck(cfg, steps);
      problem := LockCheck.Check(LockseqCheck.Entries(db.Abs()));
    }
  }
}
