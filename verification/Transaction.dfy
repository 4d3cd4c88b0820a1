/** `memory/transaction.py`: the three-state journal of one turn. */
module Transaction {
  import opened Outcomes
  import opened Models
  import opened Storage
  import opened RawArchive
  import opened LongTerm

  /** The guard reads the serialized journal; what it makes of the bare texts in it is another
      question, which `append` and the document's `commit` ask. */
  predicate JournalSafe(cfg: Settings, j: Journal) {
    cfg.safe(cfg.journalText(j))
  }

  /** `_load(required=False)`. */
  function LoadJournal(cfg: Settings, f: JournalFile): (r: Outcome<Option<Journal>>)
    ensures !r.Crashed?
  {
    match f
    case NoJournal => Ok(None)
    case BadJournal => Err("TURN_TRANSACTION_INVALID")
    case JournalOf(j) =>
      if JournalSafe(cfg, j) && ValidJournal(j) then Ok(Some(j)) else Err("TURN_TRANSACTION_INVALID")
  }

  function RequireJournal(cfg: Settings, f: JournalFile): (r: Outcome<Journal>)
    ensures !r.Crashed?
  {
    var loaded := LoadJournal(cfg, f);
    if !loaded.Ok? then Err(loaded.code)
    else if loaded.value.None? then Err("TURN_TRANSACTION_MISSING")
    else Ok(loaded.value.value)
  }

  /** `PreTurnCheckpoint.capture`, given the log and the document it reads. */
  function Capture(rs: seq<RawRecord>, d: Document, agentState: string): PreTurnCheckpoint {
    PreTurnCheckpoint(|rs|, if rs == [] then None else Some(rs[|rs| - 1].id), Identity(rs),
                      Some(d.revision), Some(d), agentState)
  }

  function WriteJournalTrace(cfg: Settings, s: DiskState, j: Journal): Trace<()> {
    if !JournalSafe(cfg, j) then Trace([], Err("CREDENTIAL_REJECTED"))
    else Trace([s.(journal := JournalOf(j))], Ok(()))
  }

  function BeginTrace(cfg: Settings, s: DiskState, checkpoint: PreTurnCheckpoint, user: RawRecord, transactionId: string): Trace<()> {
    var loaded := LoadJournal(cfg, s.journal);
    if !loaded.Ok? then Trace([], Err(loaded.code))
    else if loaded.value.Some? then Trace([], Err("TURN_TRANSACTION_ACTIVE"))
    else if user.role != User then Trace([], Err("TURN_TRANSACTION_INVALID"))
    else
      var j := Journal(Prepared, transactionId, user.turn, checkpoint, user, None, None, None, None);
      if !ValidJournal(j) then Trace([], Err("VALIDATION_ERROR"))
      else WriteJournalTrace(cfg, s, j)
  }

  function DropJournalTrace(cfg: Settings, s: DiskState): Trace<()> {
    var j := RequireJournal(cfg, s.journal);
    if !j.Ok? then Trace([], Err(j.code))
    else if j.value.state != Prepared then Trace([], Err("TURN_TRANSACTION_STATE"))
    else Trace([s.(journal := NoJournal)], Ok(()))
  }

  predicate IsSpace(c: char) {
    c in [' ', '\t', '\n', '\r']
  }

  function PendingTrace(cfg: Settings, s: DiskState, failureCode: string): Trace<()> {
    var j := RequireJournal(cfg, s.journal);
    if !j.Ok? then Trace([], Err(j.code))
    else if j.value.state != Prepared then Trace([], Err("TURN_TRANSACTION_STATE"))
    else if failureCode == "" || exists c | c in failureCode :: IsSpace(c) then Trace([], Err("TURN_TRANSACTION_INVALID"))
    else WriteJournalTrace(cfg, s, j.value.(state := ReadyPending, failureCode := Some(failureCode)))
  }

  function ReadyJournal(j: Journal, assistant: RawRecord, target: Option<Document>): Journal {
    j.(state := ReadyToCommit, assistant := Some(assistant), target := target, targetIdentity := target)
  }

  function ReadyTrace(cfg: Settings, s: DiskState, assistant: RawRecord, target: Option<Document>): Trace<()> {
    var j := RequireJournal(cfg, s.journal);
    if !j.Ok? then Trace([], Err(j.code))
    else if j.value.state != Prepared || assistant.turn != j.value.turn then Trace([], Err("TURN_TRANSACTION_STATE"))
    else WriteJournalTrace(cfg, s, ReadyJournal(j.value, assistant, target))
  }

  /** The records a decided journal publishes. */
  function PublishRawTrace(cfg: Settings, s: DiskState, j: Journal): (t: Trace<RawRecord>)
    requires j.state == ReadyToCommit ==> j.assistant.Some?
    ensures !t.outcome.Crashed?
  {
    if j.state == ReadyPending then AppendPendingTrace(cfg, s, j.user, j.checkpoint.rawIdentity)
    else if j.state == ReadyToCommit then AppendTurnTrace(cfg, s, j.user, j.assistant.value, j.checkpoint.rawIdentity)
    else Trace([], Err("TURN_TRANSACTION_STATE"))
  }

  /** The document a decided journal publishes after its records, if any. */
  ghost function PublishDocumentTrace(cfg: Settings, s: DiskState, j: Journal, now: int): (t: Trace<()>)
    ensures !t.outcome.Crashed?
  {
    if j.state != ReadyToCommit || j.target.None? then Trace([], Ok(()))
    else if !ValidDocument(j.target.value) then Trace([], Err("VALIDATION_ERROR"))
    else
      var published := PublishTrace(cfg, s, j.checkpoint, j.target.value, j.targetIdentity, now);
      Trace(published.writes, MapOk(published.outcome, _ => ()))
  }

  ghost function PublishedTrace(cfg: Settings, s: DiskState, j: Journal, now: int): (t: Trace<()>)
    requires j.state == ReadyToCommit ==> j.assistant.Some?
    ensures !t.outcome.Crashed?
  {
    var raw := PublishRawTrace(cfg, s, j);
    Then(raw, PublishDocumentTrace(cfg, End(s, raw), j, now))
  }

  /** `commit`: raw first, then the document, then the journal goes. */
  ghost function CommitJournalTrace(cfg: Settings, s: DiskState, now: int): (t: Trace<()>)
    ensures !t.outcome.Crashed?
  {
    var loaded := LoadJournal(cfg, s.journal);
    if !loaded.Ok? then Trace([], Err(loaded.code))
    else if loaded.value.None? then Trace([], Ok(()))
    else
      var j := loaded.value.value;
      var published := PublishedTrace(cfg, s, j, now);
      Then(published, Trace([End(s, published).(journal := NoJournal)], Ok(())))
  }

  ghost function RecoverTrace(cfg: Settings, s: DiskState, now: int): (t: Trace<()>)
    ensures !t.outcome.Crashed?
  {
    var loaded := LoadJournal(cfg, s.journal);
    if !loaded.Ok? then Trace([], Err(loaded.code))
    else if loaded.value.None? then Trace([], Ok(()))
    else if loaded.value.value.state == Prepared then Trace([s.(journal := NoJournal)], Ok(()))
    else CommitJournalTrace(cfg, s, now)
  }

  class TurnUnitOfWork {
    const cfg: Settings
    const disk: Disk
    const archive: RawRecordArchive
    const store: LongTermStore

    ghost predicate Valid() {
      && archive.disk == disk && archive.cfg == cfg
      && store.disk == disk && store.cfg == cfg && store.archive == archive && store.Valid()
    }

    constructor (cfg: Settings, disk: Disk, archive: RawRecordArchive, store: LongTermStore)
      requires archive.disk == disk && archive.cfg == cfg
      requires store.disk == disk && store.cfg == cfg && store.archive == archive && store.Valid()
      ensures Valid() && this.cfg == cfg && this.disk == disk && this.archive == archive && this.store == store
    {
      this.cfg, this.disk, this.archive, this.store := cfg, disk, archive, store;
    }

    method Begin(checkpoint: PreTurnCheckpoint, user: RawRecord, transactionId: string) returns (r: Outcome<()>)
      requires Valid()
      modifies disk
      ensures Follows(old(disk.State()), old(disk.fuse), BeginTrace(cfg, old(disk.State()), checkpoint, user, transactionId), disk.State(), disk.fuse, r)
    {
      var loaded :- LoadJournal(cfg, disk.journal);
      if loaded.Some? {
        return Err("TURN_TRANSACTION_ACTIVE");
      }
      if user.role != User {
        return Err("TURN_TRANSACTION_INVALID");
      }
      var j := Journal(Prepared, transactionId, user.turn, checkpoint, user, None, None, None, None);
      if !ValidJournal(j) {
        return Err("VALIDATION_ERROR");
      }
      r := Write(j);
    }

    method Write(j: Journal) returns (r: Outcome<()>)
      modifies disk
      ensures Follows(old(disk.State()), old(disk.fuse), WriteJournalTrace(cfg, old(disk.State()), j), disk.State(), disk.fuse, r)
    {
      if !JournalSafe(cfg, j) {
        return Err("CREDENTIAL_REJECTED");
      }
      r := disk.Step(disk.State().(journal := JournalOf(j)));
    }

    method Discard() returns (r: Outcome<()>)
      requires Valid()
      modifies disk
      ensures Follows(old(disk.State()), old(disk.fuse), DropJournalTrace(cfg, old(disk.State())), disk.State(), disk.fuse, r)
    {
      var j :- RequireJournal(cfg, disk.journal);
      if j.state != Prepared {
        return Err("TURN_TRANSACTION_STATE");
      }
      r := disk.Step(disk.State().(journal := NoJournal));
    }

    method Pending(failureCode: string) returns (r: Outcome<()>)
      requires Valid()
      modifies disk
      ensures Follows(old(disk.State()), old(disk.fuse), PendingTrace(cfg, old(disk.State()), failureCode), disk.State(), disk.fuse, r)
    {
      var j :- RequireJournal(cfg, disk.journal);
      if j.state != Prepared {
        return Err("TURN_TRANSACTION_STATE");
      }
      if failureCode == "" || exists c | c in failureCode :: IsSpace(c) {
        return Err("TURN_TRANSACTION_INVALID");
      }
      r := Write(j.(state := ReadyPending, failureCode := Some(failureCode)));
    }

    method Ready(assistant: RawRecord, target: Option<Document>) returns (r: Outcome<()>)
      requires Valid()
      modifies disk
      ensures Follows(old(disk.State()), old(disk.fuse), ReadyTrace(cfg, old(disk.State()), assistant, target), disk.State(), disk.fuse, r)
    {
      var j :- RequireJournal(cfg, disk.journal);
      if j.state != Prepared || assistant.turn != j.turn {
        return Err("TURN_TRANSACTION_STATE");
      }
      r := Write(ReadyJournal(j, assistant, target));
    }

    method PublishRaw(j: Journal) returns (r: Outcome<RawRecord>)
      requires Valid() && (j.state == ReadyToCommit ==> j.assistant.Some?)
      modifies disk
      ensures Follows(old(disk.State()), old(disk.fuse), PublishRawTrace(cfg, old(disk.State()), j), disk.State(), disk.fuse, r)
    {
      if j.state == Prepared {
        return Err("TURN_TRANSACTION_STATE");
      }
      if j.state == ReadyPending {
        r := archive.AppendPendingUser(j.user, j.checkpoint.rawIdentity);
      } else {
        r := archive.AppendCompleteTurn(j.user, j.assistant.value, j.checkpoint.rawIdentity);
      }
    }

    method PublishDocument(j: Journal, now: int) returns (r: Outcome<()>)
      requires Valid()
      modifies disk, store
      ensures Follows(old(disk.State()), old(disk.fuse), PublishDocumentTrace(cfg, old(disk.State()), j, now), disk.State(), disk.fuse, r)
    {
      if j.state != ReadyToCommit || j.target.None? {
        return Ok(());
      }
      var valid := ValidateDocument(j.target.value);
      if !valid {
        return Err("VALIDATION_ERROR");
      }
      var _ :- store.PublishTarget(j.checkpoint, j.target.value, j.targetIdentity, now);
      return Ok(());
    }

    method Commit(now: int) returns (r: Outcome<()>)
      requires Valid()
      modifies disk, store
      ensures Follows(old(disk.State()), old(disk.fuse), CommitJournalTrace(cfg, old(disk.State()), now), disk.State(), disk.fuse, r)
    {
      ghost var s, fuse := disk.State(), disk.fuse;
      var loaded :- LoadJournal(cfg, disk.journal);
      if loaded.None? {
        return Ok(());
      }
      var j := loaded.value;
      var published := PublishDecision(j, now);
      ghost var s1, fuse1 := disk.State(), disk.fuse;
      var _ :- published;
      r := disk.Step(disk.State().(journal := NoJournal));
      FollowsThen(s, fuse, PublishedTrace(cfg, s, j, now), s1, fuse1, published,
                  Trace([s1.(journal := NoJournal)], Ok(())), disk.State(), disk.fuse, r);
    }

    method PublishDecision(j: Journal, now: int) returns (r: Outcome<()>)
      requires Valid() && (j.state == ReadyToCommit ==> j.assistant.Some?)
      modifies disk, store
      ensures Follows(old(disk.State()), old(disk.fuse), PublishedTrace(cfg, old(disk.State()), j, now), disk.State(), disk.fuse, r)
    {
      ghost var s, fuse := disk.State(), disk.fuse;
      var raw := PublishRaw(j);
      ghost var s1, fuse1 := disk.State(), disk.fuse;
      var _ :- raw;
      r := PublishDocument(j, now);
      FollowsThen(s, fuse, PublishRawTrace(cfg, s, j), s1, fuse1, raw,
                  PublishDocumentTrace(cfg, s1, j, now), disk.State(), disk.fuse, r);
    }

    /** PREPARED is thrown away; both READY states are rolled forward. */
    method Recover(now: int) returns (r: Outcome<()>)
      requires Valid()
      modifies disk, store
      ensures Follows(old(disk.State()), old(disk.fuse), RecoverTrace(cfg, old(disk.State()), now), disk.State(), disk.fuse, r)
    {
      var loaded :- LoadJournal(cfg, disk.journal);
      if loaded.None? {
        return Ok(());
      }
      if loaded.value.state == Prepared {
        r := disk.Step(disk.State().(journal := NoJournal));
        return r;
      }
      r := Commit(now);
    }
  }
}
