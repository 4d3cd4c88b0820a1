/** The storage skeleton of `SingleTurnController.run_turn`, of `discard_pending` and of
    `CurationService.propose`; what the models and the user answer is an input. */
module Controller {
  import opened Outcomes
  import opened Models
  import opened Storage
  import opened RawArchive
  import opened LongTerm
  import opened Transaction
  import opened Curation
  import opened Coverage

  /** What the curator model call gives, when a batch is due. */
  datatype CuratorAnswer =
    | Responds(response: Option<ModelProposal>)
    | CuratorRejected
    | CuratorFails(code: string, retryable: bool)

  /** What assembling and sending the chat prompt gives. */
  datatype ChatAnswer =
    | Replies(text: string)
    | ChatRejected
    | ChatFails(code: string, retryable: bool)
    | Cancelled
    | AssemblyFails(code: string)

  datatype TurnInput = TurnInput(
    content: string, turn: string, resume: bool, stateId: string, configRevision: string,
    userId: string, assistantId: string, transactionId: string, now: int,
    curator: CuratorAnswer, chat: ChatAnswer)

  /** How a turn ends without an error. `TurnRejected` is an exception class of its own,
      which the session survives; every other exception ends the session. */
  datatype TurnEnd = Shown(text: string) | Rejected

  predicate BecomesPending(code: string, retryable: bool) {
    retryable || "PROVIDER_" <= code || "NETWORK_" <= code
  }

  datatype Proposed =
    | NoProposal
    | Target(document: Document)
    | ProposeRejected
    | ProposeFailed(code: string, retryable: bool)

  // ---------------------------------------------------------------- propose

  /** The part of `propose` after the load: carve, ask, validate, merge. */
  ghost function ProposalFrom(cfg: Settings, rs: seq<RawRecord>, d: Document, curator: CuratorAnswer): Proposed {
    var batch := NextBatch(cfg, rs, d.curation.frontier, false);
    if batch.None? then NoProposal
    else match curator
      case CuratorRejected => ProposeRejected
      case CuratorFails(code, retryable) => ProposeFailed(code, retryable)
      case Responds(response) =>
        var records := BatchRecords(rs, batch.value);
        var validated := ValidateResponse(cfg, response, SourceAliases(SortByTime(records)));
        if !validated.Ok? then ProposeFailed(validated.code, response.None?)
        else if records == [] || IdsOf(records) != batch.value.recordIds || !SourcesKnown(validated.value.candidates, ById(records))
          then ProposeFailed("CURATION_FAILED", true)
        else
          var merged := MergedDocument(cfg, d, batch.value, records, validated.value);
          if ValidDocument(merged) then Target(merged) else ProposeFailed("VALIDATION_ERROR", false)
  }

  /** `tuple(indexed[item] for item in batch.record_ids)`. */
  function BatchRecords(rs: seq<RawRecord>, batch: CurationBatch): seq<RawRecord> {
    var byId := ById(rs);
    if exists i | 0 <= i < |batch.recordIds| :: batch.recordIds[i] !in byId then []
    else seq(|batch.recordIds|, i requires 0 <= i < |batch.recordIds| && batch.recordIds[i] in byId => byId[batch.recordIds[i]])
  }

  ghost function ProposeTrace(cfg: Settings, s: DiskState, input: TurnInput): Trace<Proposed> {
    var read := ReadSegments(s.segments);
    if !read.Ok? then Trace([], Ok(ProposeFailed(read.code, false)))
    else
      var load := LoadTrace(cfg, s, input.now);
      Trace(load.writes,
            if load.outcome.Ok? then Ok(ProposalFrom(cfg, read.value, load.outcome.value.document, input.curator))
            else Ok(ProposeFailed(load.outcome.code, false)))
  }

  // ---------------------------------------------------------------- discarding

  ghost function DiscardPendingTrace(cfg: Settings, s: DiskState, expected: Option<string>): Trace<Option<string>> {
    var read := ReadSegments(s.segments);
    if !read.Ok? then Trace([], Err(read.code))
    else if PendingOf(read.value).None? then DiscardTrace(s, expected)
    else
      var allowed := DiscardableCheck(cfg, s, PendingOf(read.value).value);
      if !allowed.Ok? then Trace([], allowed.PropagateFailure()) else DiscardTrace(s, expected)
  }

  function Fail<T>(t: Trace<()>, code: string): Trace<T> {
    Then(t, Trace([], Err(code)))
  }

  function RejectTrace(cfg: Settings, s: DiskState): Trace<TurnEnd> {
    Then(DropJournalTrace(cfg, s), Trace([], Ok(Rejected)))
  }

  ghost function RejectResumedTrace(cfg: Settings, s: DiskState, turn: string): Trace<TurnEnd> {
    Then(DiscardPendingTrace(cfg, s, Some(turn)), Trace([], Ok(Rejected)))
  }

  // ---------------------------------------------------------------- one turn

  /** The second load of the turn and the coverage gate of the assembler. */
  ghost function GateTrace(cfg: Settings, s: DiskState, user: RawRecord, now: int): Trace<()> {
    var read := ReadSegments(s.segments);
    if !read.Ok? then Trace([], Err(read.code))
    else
      var load := LoadTrace(cfg, s, now);
      if !load.outcome.Ok? then Trace(load.writes, Err(load.outcome.code))
      else Trace(load.writes, SplitGate(read.value, load.outcome.value.document, user))
  }

  function SplitGate(rs: seq<RawRecord>, d: Document, user: RawRecord): (r: Outcome<()>)
    ensures !r.Crashed?
  {
    if exists i | 0 <= i < |d.overview.spans| :: !ValidSpan(d.overview.spans[i]) then Err("VALIDATION_ERROR")
    else
      var check := CoverageCheck(rs, d.overview.spans, d.curation.frontier,
                                 DirectRecords(rs, d.curation.frontier, Some(user.id)), Some(user));
      if check.Ok? then Ok(()) else Err("MEMORY_COVERAGE_GAP")
  }

  ghost function FailTurnTrace(cfg: Settings, s: DiskState, code: string, retryable: bool, now: int): Trace<TurnEnd> {
    if !BecomesPending(code, retryable) then Trace([], Err(code))
    else
      var pending := PendingTrace(cfg, s, code);
      Fail(Then(pending, CommitJournalTrace(cfg, End(s, pending), now)), code)
  }

  /** `ready` then `commit` then the text of the published answer. */
  ghost function FinishTurnTrace(cfg: Settings, s: DiskState, assistant: RawRecord, target: Option<Document>, now: int): Trace<TurnEnd> {
    var ready := ReadyTrace(cfg, s, assistant, target);
    var done := Then(ready, CommitJournalTrace(cfg, End(s, ready), now));
    Then(done, Trace([], PublishedText(End(s, done), assistant.id)))
  }

  /** The answer handed to `on_output` is read back from the archive. */
  function PublishedText(s: DiskState, id: string): (r: Outcome<TurnEnd>)
    ensures !r.Crashed?
  {
    var read := ReadSegments(s.segments);
    if !read.Ok? then Err(read.code)
    else if id in ById(read.value) then Ok(Shown(ById(read.value)[id].content))
    else Err("STOP_ITERATION")
  }

  /** A journalled turn from the PREPARED journal on. */
  ghost function PreparedTurnTrace(cfg: Settings, s: DiskState, input: TurnInput, user: RawRecord): Trace<TurnEnd> {
    var propose := ProposeTrace(cfg, s, input);
    Then(propose, CuratedTurnTrace(cfg, End(s, propose), input, user, propose.outcome.value))
  }

  ghost function CuratedTurnTrace(cfg: Settings, s: DiskState, input: TurnInput, user: RawRecord, proposed: Proposed): Trace<TurnEnd> {
    match proposed
    case ProposeRejected => RejectTrace(cfg, s)
    case ProposeFailed(code, retryable) => FailTurnTrace(cfg, s, code, retryable, input.now)
    case NoProposal => AnsweredTurnTrace(cfg, s, input, user, None)
    case Target(d) => AnsweredTurnTrace(cfg, s, input, user, Some(d))
  }

  ghost function AnsweredTurnTrace(cfg: Settings, s: DiskState, input: TurnInput, user: RawRecord, target: Option<Document>): Trace<TurnEnd> {
    var gate := GateTrace(cfg, s, user, input.now);
    Then(gate, ChatTrace(cfg, End(s, gate), input, user, target))
  }

  ghost function ChatTrace(cfg: Settings, s: DiskState, input: TurnInput, user: RawRecord, target: Option<Document>): Trace<TurnEnd> {
    match input.chat
    case AssemblyFails(code) => Trace([], Err(code))
    case Cancelled => Trace([], Err("CANCELLED"))
    case ChatRejected => RejectTrace(cfg, s)
    case ChatFails(code, retryable) => FailTurnTrace(cfg, s, code, retryable, input.now)
    case Replies(text) =>
      var assistant := AnswerRecord(input, text, user.sequence + 1);
      if !ValidRecord(assistant) then Trace([], Err("VALIDATION_ERROR"))
      else FinishTurnTrace(cfg, s, assistant, target, input.now)
  }

  function UserRecord(input: TurnInput, sequence: int): RawRecord {
    CreateRecord(input.userId, sequence, input.turn, User, input.content, input.now, input.stateId, input.configRevision)
  }

  function AnswerRecord(input: TurnInput, text: string, sequence: int): RawRecord {
    CreateRecord(input.assistantId, sequence, input.turn, Assistant, text, input.now, input.stateId, input.configRevision)
  }

  ghost function FreshTurnTrace(cfg: Settings, s: DiskState, input: TurnInput, rs: seq<RawRecord>): Trace<TurnEnd> {
    var user := UserRecord(input, |rs| + 1);
    if !ValidRecord(user) then Trace([], Err("VALIDATION_ERROR"))
    else OpenedTurnTrace(cfg, s, input, rs, user)
  }

  ghost function OpenedTurnTrace(cfg: Settings, s: DiskState, input: TurnInput, rs: seq<RawRecord>, user: RawRecord): Trace<TurnEnd> {
    var begin := OpenTrace(cfg, s, input, rs, user);
    Then(begin, PreparedTurnTrace(cfg, End(s, begin), input, user))
  }

  /** The checkpoint's load, then `begin`. */
  ghost function OpenTrace(cfg: Settings, s: DiskState, input: TurnInput, rs: seq<RawRecord>, user: RawRecord): Trace<()> {
    var load := LoadTrace(cfg, s, input.now);
    if !load.outcome.Ok? then Trace(load.writes, Err(load.outcome.code))
    else Then(load, BeginTrace(cfg, End(s, load), Capture(rs, load.outcome.value.document, input.stateId), user, input.transactionId))
  }

  /** A resumed turn has no journal: a target is committed at once, the answer appended directly. */
  ghost function ResumedTurnTrace(cfg: Settings, s: DiskState, input: TurnInput, user: RawRecord): Trace<TurnEnd> {
    var propose := ProposeTrace(cfg, s, input);
    var load := LoadTrace(cfg, s, input.now);
    Then(propose, CuratedResumeTrace(cfg, End(s, propose), input, user, propose.outcome.value,
                                     load.outcome.Ok? && load.outcome.value.readOnly,
                                     if load.outcome.Ok? then load.outcome.value.loadedHash else None))
  }

  /** `readOnly` and `loadedHash` are the store's fields after the load of `propose`. */
  ghost function CuratedResumeTrace(cfg: Settings, s: DiskState, input: TurnInput, user: RawRecord, proposed: Proposed,
                                    readOnly: bool, loadedHash: Option<DocumentFile>): Trace<TurnEnd> {
    match proposed
    case ProposeRejected => RejectResumedTrace(cfg, s, input.turn)
    case ProposeFailed(code, _) => Trace([], Err(code))
    case NoProposal => AnsweredResumeTrace(cfg, s, input, user)
    case Target(d) => CommitAnswerTrace(cfg, s, input, user, d, readOnly, loadedHash)
  }

  /** `curate_if_needed` commits with the fields its load left in the store. */
  ghost function CommitAnswerTrace(cfg: Settings, s: DiskState, input: TurnInput, user: RawRecord, d: Document,
                                   readOnly: bool, loadedHash: Option<DocumentFile>): Trace<TurnEnd> {
    var c := CommitTrace(cfg, s, d, readOnly, loadedHash);
    Then(c, AnsweredResumeTrace(cfg, End(s, c), input, user))
  }

  ghost function AnsweredResumeTrace(cfg: Settings, s: DiskState, input: TurnInput, user: RawRecord): Trace<TurnEnd> {
    var gate := GateTrace(cfg, s, user, input.now);
    Then(gate, ResumeChatTrace(cfg, End(s, gate), input))
  }

  ghost function ResumeChatTrace(cfg: Settings, s: DiskState, input: TurnInput): Trace<TurnEnd> {
    match input.chat
    case AssemblyFails(code) => Trace([], Err(code))
    case Cancelled => Trace([], Err("CANCELLED"))
    case ChatRejected => RejectResumedTrace(cfg, s, input.turn)
    case ChatFails(code, _) => Trace([], Err(code))
    case Replies(text) => Then(AppendTrace(cfg, s, AnswerRecord(input, text, 0)), Trace([], Ok(Shown(text))))
  }

  function TurnRecords(rs: seq<RawRecord>, turn: string): seq<RawRecord> {
    GroupOf(rs, turn)
  }

  ghost function RunTurnTrace(cfg: Settings, s: DiskState, input: TurnInput): Trace<TurnEnd> {
    var read := ReadSegments(s.segments);
    if !read.Ok? then Trace([], Err(read.code))
    else
      var existing := TurnRecords(read.value, input.turn);
      if existing == [] then FreshTurnTrace(cfg, s, input, read.value)
      else if !input.resume || |existing| != 1 || existing[0].role != User then Trace([], Err("TURN_ALREADY_CONFIRMED"))
      else ResumedTurnTrace(cfg, s, input, existing[0])
  }

  class SingleTurnController {
    const cfg: Settings
    const disk: Disk
    const archive: RawRecordArchive
    const store: LongTermStore
    const uow: TurnUnitOfWork
    var shown: seq<string>

    ghost predicate Valid() {
      && archive.disk == disk && archive.cfg == cfg
      && store.disk == disk && store.cfg == cfg && store.archive == archive && store.Valid()
      && uow.disk == disk && uow.cfg == cfg && uow.archive == archive && uow.store == store && uow.Valid()
    }

    constructor (cfg: Settings, disk: Disk)
      ensures Valid() && this.cfg == cfg && this.disk == disk && shown == []
      ensures fresh(store) && fresh(archive) && fresh(uow)
    {
      var a := new RawRecordArchive(cfg, disk);
      var l := new LongTermStore(cfg, disk, a);
      var u := new TurnUnitOfWork(cfg, disk, a, l);
      this.cfg, this.disk, archive, store, uow, shown := cfg, disk, a, l, u, [];
    }

    method DiscardPending(expected: Option<string>) returns (r: Outcome<Option<string>>)
      requires Valid()
      modifies disk
      ensures Follows(old(disk.State()), old(disk.fuse), DiscardPendingTrace(cfg, old(disk.State()), expected), disk.State(), disk.fuse, r)
    {
      var records :- archive.ReadAll();
      var pending := PendingOf(records);
      if pending.Some? {
        var _ :- store.AssertPendingDiscardable(pending.value);
      }
      r := archive.DiscardPendingTail(expected);
    }

    method Propose(input: TurnInput) returns (r: Outcome<Proposed>)
      requires Valid() && ValidSettings(cfg)
      modifies disk, store
      ensures Follows(old(disk.State()), old(disk.fuse), ProposeTrace(cfg, old(disk.State()), input), disk.State(), disk.fuse, r)
      ensures var load := LoadTrace(cfg, old(disk.State()), input.now);
              (r.Ok? && r.value.Target? ==>
                 load.outcome.Ok? && load.outcome.value.readOnly == store.readOnly && load.outcome.value.loadedHash == store.loadedHash)
    {
      var read := archive.ReadAll();
      if !read.Ok? {
        return Ok(ProposeFailed(read.code, false));
      }
      var load := store.Load(input.now);
      if load.Crashed? {
        return Crashed;
      }
      if load.Err? {
        return Ok(ProposeFailed(load.code, false));
      }
      var proposed := Ask(read.value, load.value, input.curator);
      return Ok(proposed);
    }

    /** `propose` after its load. */
    method Ask(rs: seq<RawRecord>, d: Document, curator: CuratorAnswer) returns (p: Proposed)
      requires ValidSettings(cfg)
      ensures p == ProposalFrom(cfg, rs, d, curator)
    {
      var batch := ComputeNextBatch(cfg, rs, d.curation.frontier, false);
      if batch.None? {
        return NoProposal;
      }
      match curator
      case CuratorRejected => return ProposeRejected;
      case CuratorFails(code, retryable) => return ProposeFailed(code, retryable);
      case Responds(response) =>
        var records := BatchRecords(rs, batch.value);
        var validated := ValidateResponse(cfg, response, SourceAliases(SortByTime(records)));
        if !validated.Ok? {
          return ProposeFailed(validated.code, response.None?);
        }
        if records == [] || IdsOf(records) != batch.value.recordIds || !SourcesKnown(validated.value.candidates, ById(records)) {
          return ProposeFailed("CURATION_FAILED", true);
        }
        var merged := Merge(cfg, d, batch.value, records, validated.value);
        var valid := ValidateDocument(merged);
        return if valid then Target(merged) else ProposeFailed("VALIDATION_ERROR", false);
    }

    method Gate(user: RawRecord, now: int) returns (r: Outcome<()>)
      requires Valid()
      modifies disk, store
      ensures Follows(old(disk.State()), old(disk.fuse), GateTrace(cfg, old(disk.State()), user, now), disk.State(), disk.fuse, r)
    {
      var records :- archive.ReadAll();
      var document :- store.Load(now);
      r := SplitGate(records, document, user);
    }

    method FailTurn(code: string, retryable: bool, now: int) returns (r: Outcome<TurnEnd>)
      requires Valid()
      modifies disk, store
      ensures Follows(old(disk.State()), old(disk.fuse), FailTurnTrace(cfg, old(disk.State()), code, retryable, now), disk.State(), disk.fuse, r)
    {
      if !BecomesPending(code, retryable) {
        return Err(code);
      }
      var _ :- KeepPending(code, now);
      return Err(code);
    }

    method KeepPending(code: string, now: int) returns (r: Outcome<()>)
      requires Valid()
      modifies disk, store
      ensures var pending := PendingTrace(cfg, old(disk.State()), code);
              Follows(old(disk.State()), old(disk.fuse), Then(pending, CommitJournalTrace(cfg, End(old(disk.State()), pending), now)),
                      disk.State(), disk.fuse, r)
    {
      ghost var s, fuse := disk.State(), disk.fuse;
      var pending := uow.Pending(code);
      ghost var s1, fuse1 := disk.State(), disk.fuse;
      if pending.Ok? {
        r := uow.Commit(now);
      } else {
        r := pending;
      }
      FollowsThen(s, fuse, PendingTrace(cfg, s, code), s1, fuse1, pending,
                  CommitJournalTrace(cfg, s1, now), disk.State(), disk.fuse, r);
    }

    method PublishTurn(assistant: RawRecord, target: Option<Document>, now: int) returns (r: Outcome<()>)
      requires Valid()
      modifies disk, store
      ensures var ready := ReadyTrace(cfg, old(disk.State()), assistant, target);
              Follows(old(disk.State()), old(disk.fuse), Then(ready, CommitJournalTrace(cfg, End(old(disk.State()), ready), now)),
                      disk.State(), disk.fuse, r)
    {
      ghost var s, fuse := disk.State(), disk.fuse;
      var ready := uow.Ready(assistant, target);
      ghost var s1, fuse1 := disk.State(), disk.fuse;
      if ready.Ok? {
        r := uow.Commit(now);
      } else {
        r := ready;
      }
      FollowsThen(s, fuse, ReadyTrace(cfg, s, assistant, target), s1, fuse1, ready,
                  CommitJournalTrace(cfg, s1, now), disk.State(), disk.fuse, r);
    }

    method FinishTurn(assistant: RawRecord, target: Option<Document>, now: int) returns (r: Outcome<TurnEnd>)
      requires Valid()
      modifies disk, store
      ensures Follows(old(disk.State()), old(disk.fuse), FinishTurnTrace(cfg, old(disk.State()), assistant, target, now), disk.State(), disk.fuse, r)
    {
      var _ :- PublishTurn(assistant, target, now);
      r := Published(assistant.id);
    }

    method Published(id: string) returns (r: Outcome<TurnEnd>)
      requires Valid()
      ensures r == PublishedText(disk.State(), id)
    {
      var records :- archive.ReadAll();
      var byId := ById(records);
      return if id in byId then Ok(Shown(byId[id].content)) else Err("STOP_ITERATION");
    }

    method RejectTurn() returns (r: Outcome<TurnEnd>)
      requires Valid()
      modifies disk
      ensures Follows(old(disk.State()), old(disk.fuse), RejectTrace(cfg, old(disk.State())), disk.State(), disk.fuse, r)
    {
      var _ :- uow.Discard();
      return Ok(Rejected);
    }

    method RejectResumed(turn: string) returns (r: Outcome<TurnEnd>)
      requires Valid()
      modifies disk
      ensures Follows(old(disk.State()), old(disk.fuse), RejectResumedTrace(cfg, old(disk.State()), turn), disk.State(), disk.fuse, r)
    {
      var _ :- DiscardPending(Some(turn));
      return Ok(Rejected);
    }

    method Chat(input: TurnInput, user: RawRecord, target: Option<Document>) returns (r: Outcome<TurnEnd>)
      requires Valid()
      modifies disk, store
      ensures Follows(old(disk.State()), old(disk.fuse), ChatTrace(cfg, old(disk.State()), input, user, target), disk.State(), disk.fuse, r)
    {
      match input.chat
      case AssemblyFails(code) => r := Err(code);
      case Cancelled => r := Err("CANCELLED");
      case ChatRejected => r := RejectTurn();
      case ChatFails(code, retryable) => r := FailTurn(code, retryable, input.now);
      case Replies(text) =>
        var assistant := AnswerRecord(input, text, user.sequence + 1);
        if !ValidRecord(assistant) {
          r := Err("VALIDATION_ERROR");
        } else {
          r := FinishTurn(assistant, target, input.now);
        }
    }

    method AnsweredTurn(input: TurnInput, user: RawRecord, target: Option<Document>) returns (r: Outcome<TurnEnd>)
      requires Valid()
      modifies disk, store
      ensures Follows(old(disk.State()), old(disk.fuse), AnsweredTurnTrace(cfg, old(disk.State()), input, user, target), disk.State(), disk.fuse, r)
    {
      ghost var s, fuse := disk.State(), disk.fuse;
      var first := Gate(user, input.now);
      ghost var s1, fuse1 := disk.State(), disk.fuse;
      if first.Ok? {
        r := Chat(input, user, target);
      } else {
        r := first.PropagateFailure();
      }
      FollowsThen(s, fuse, GateTrace(cfg, s, user, input.now), s1, fuse1, first, ChatTrace(cfg, s1, input, user, target), disk.State(), disk.fuse, r);
    }

    method CuratedTurn(input: TurnInput, user: RawRecord, proposed: Proposed) returns (r: Outcome<TurnEnd>)
      requires Valid()
      modifies disk, store
      ensures Follows(old(disk.State()), old(disk.fuse), CuratedTurnTrace(cfg, old(disk.State()), input, user, proposed), disk.State(), disk.fuse, r)
    {
      match proposed
      case ProposeRejected => r := RejectTurn();
      case ProposeFailed(code, retryable) => r := FailTurn(code, retryable, input.now);
      case NoProposal => r := AnsweredTurn(input, user, None);
      case Target(d) => r := AnsweredTurn(input, user, Some(d));
    }

    method PreparedTurn(input: TurnInput, user: RawRecord) returns (r: Outcome<TurnEnd>)
      requires Valid() && ValidSettings(cfg)
      modifies disk, store
      ensures Follows(old(disk.State()), old(disk.fuse), PreparedTurnTrace(cfg, old(disk.State()), input, user), disk.State(), disk.fuse, r)
    {
      ghost var s, fuse := disk.State(), disk.fuse;
      var first := Propose(input);
      ghost var s1, fuse1 := disk.State(), disk.fuse;
      if first.Ok? {
        r := CuratedTurn(input, user, first.value);
      } else {
        r := first.PropagateFailure();
      }
      FollowsThen(s, fuse, ProposeTrace(cfg, s, input), s1, fuse1, first, CuratedTurnTrace(cfg, s1, input, user, ProposeTrace(cfg, s, input).outcome.value), disk.State(), disk.fuse, r);
    }

    method Open(input: TurnInput, records: seq<RawRecord>, user: RawRecord) returns (r: Outcome<()>)
      requires Valid()
      modifies disk, store
      ensures Follows(old(disk.State()), old(disk.fuse), OpenTrace(cfg, old(disk.State()), input, records, user), disk.State(), disk.fuse, r)
    {
      ghost var s, fuse := disk.State(), disk.fuse;
      ghost var load := LoadDocumentTrace(cfg, s, input.now);
      var loaded := store.Load(input.now);
      ghost var s1, fuse1 := disk.State(), disk.fuse;
      if loaded.Ok? {
        r := uow.Begin(Capture(records, loaded.value, input.stateId), user, input.transactionId);
        FollowsThen(s, fuse, load, s1, fuse1, loaded, BeginTrace(cfg, s1, Capture(records, loaded.value, input.stateId), user, input.transactionId), disk.State(), disk.fuse, r);
      } else {
        r := loaded.PropagateFailure();
      }
    }

    method OpenedTurn(input: TurnInput, records: seq<RawRecord>, user: RawRecord) returns (r: Outcome<TurnEnd>)
      requires Valid() && ValidSettings(cfg)
      modifies disk, store
      ensures Follows(old(disk.State()), old(disk.fuse), OpenedTurnTrace(cfg, old(disk.State()), input, records, user), disk.State(), disk.fuse, r)
    {
      ghost var s, fuse := disk.State(), disk.fuse;
      var first := Open(input, records, user);
      ghost var s1, fuse1 := disk.State(), disk.fuse;
      if first.Ok? {
        r := PreparedTurn(input, user);
      } else {
        r := first.PropagateFailure();
      }
      FollowsThen(s, fuse, OpenTrace(cfg, s, input, records, user), s1, fuse1, first, PreparedTurnTrace(cfg, s1, input, user), disk.State(), disk.fuse, r);
    }

    method FreshTurn(input: TurnInput, records: seq<RawRecord>) returns (r: Outcome<TurnEnd>)
      requires Valid() && ValidSettings(cfg)
      modifies disk, store
      ensures Follows(old(disk.State()), old(disk.fuse), FreshTurnTrace(cfg, old(disk.State()), input, records), disk.State(), disk.fuse, r)
    {
      var user := UserRecord(input, |records| + 1);
      if !ValidRecord(user) {
        return Err("VALIDATION_ERROR");
      }
      r := OpenedTurn(input, records, user);
    }

    method ResumeChat(input: TurnInput) returns (r: Outcome<TurnEnd>)
      requires Valid()
      modifies disk
      ensures Follows(old(disk.State()), old(disk.fuse), ResumeChatTrace(cfg, old(disk.State()), input), disk.State(), disk.fuse, r)
    {
      match input.chat
      case AssemblyFails(code) => r := Err(code);
      case Cancelled => r := Err("CANCELLED");
      case ChatRejected => r := RejectResumed(input.turn);
      case ChatFails(code, _) => r := Err(code);
      case Replies(text) =>
        var _ :- archive.Append(AnswerRecord(input, text, 0));
        r := Ok(Shown(text));
    }

    method AnsweredResume(input: TurnInput, user: RawRecord) returns (r: Outcome<TurnEnd>)
      requires Valid()
      modifies disk, store
      ensures Follows(old(disk.State()), old(disk.fuse), AnsweredResumeTrace(cfg, old(disk.State()), input, user), disk.State(), disk.fuse, r)
    {
      ghost var s, fuse := disk.State(), disk.fuse;
      var first := Gate(user, input.now);
      ghost var s1, fuse1 := disk.State(), disk.fuse;
      if first.Ok? {
        r := ResumeChat(input);
      } else {
        r := first.PropagateFailure();
      }
      FollowsThen(s, fuse, GateTrace(cfg, s, user, input.now), s1, fuse1, first, ResumeChatTrace(cfg, s1, input), disk.State(), disk.fuse, r);
    }

    method CommitAndAnswer(input: TurnInput, user: RawRecord, d: Document) returns (r: Outcome<TurnEnd>)
      requires Valid()
      modifies disk, store
      ensures Follows(old(disk.State()), old(disk.fuse),
                      CommitAnswerTrace(cfg, old(disk.State()), input, user, d, old(store.readOnly), old(store.loadedHash)),
                      disk.State(), disk.fuse, r)
    {
      ghost var s, fuse := disk.State(), disk.fuse;
      ghost var c := CommitTrace(cfg, s, d, store.readOnly, store.loadedHash);
      var first := store.Commit(d);
      ghost var s1, fuse1 := disk.State(), disk.fuse;
      if first.Ok? {
        r := AnsweredResume(input, user);
      } else {
        r := first.PropagateFailure();
      }
      FollowsThen(s, fuse, c, s1, fuse1, first, AnsweredResumeTrace(cfg, s1, input, user), disk.State(), disk.fuse, r);
    }

    method CuratedResume(input: TurnInput, user: RawRecord, proposed: Proposed) returns (r: Outcome<TurnEnd>)
      requires Valid()
      modifies disk, store
      ensures Follows(old(disk.State()), old(disk.fuse),
                      CuratedResumeTrace(cfg, old(disk.State()), input, user, proposed, old(store.readOnly), old(store.loadedHash)),
                      disk.State(), disk.fuse, r)
    {
      match proposed
      case ProposeRejected => r := RejectResumed(input.turn);
      case ProposeFailed(code, _) => r := Err(code);
      case NoProposal => r := AnsweredResume(input, user);
      case Target(d) => r := CommitAndAnswer(input, user, d);
    }

    method ResumedTurn(input: TurnInput, user: RawRecord) returns (r: Outcome<TurnEnd>)
      requires Valid() && ValidSettings(cfg)
      modifies disk, store
      ensures Follows(old(disk.State()), old(disk.fuse), ResumedTurnTrace(cfg, old(disk.State()), input, user), disk.State(), disk.fuse, r)
    {
      ghost var s, fuse := disk.State(), disk.fuse;
      ghost var load := LoadTrace(cfg, s, input.now);
      ghost var readOnly := load.outcome.Ok? && load.outcome.value.readOnly;
      ghost var loadedHash := if load.outcome.Ok? then load.outcome.value.loadedHash else None;
      var first := Propose(input);
      ghost var s1, fuse1 := disk.State(), disk.fuse;
      if first.Ok? {
        r := CuratedResume(input, user, first.value);
      } else {
        r := first.PropagateFailure();
      }
      FollowsThen(s, fuse, ProposeTrace(cfg, s, input), s1, fuse1, first,
                  CuratedResumeTrace(cfg, s1, input, user, ProposeTrace(cfg, s, input).outcome.value, readOnly, loadedHash),
                  disk.State(), disk.fuse, r);
    }

    method RunTurn(input: TurnInput) returns (r: Outcome<TurnEnd>)
      requires Valid() && ValidSettings(cfg)
      modifies disk, store, this`shown
      ensures Follows(old(disk.State()), old(disk.fuse), RunTurnTrace(cfg, old(disk.State()), input), disk.State(), disk.fuse, r)
      ensures shown == if r.Ok? && r.value.Shown? then old(shown) + [r.value.text] else old(shown)
    {
      var records :- archive.ReadAll();
      var existing := TurnRecords(records, input.turn);
      if existing == [] {
        r := FreshTurn(input, records);
      } else if !input.resume || |existing| != 1 || existing[0].role != User {
        r := Err("TURN_ALREADY_CONFIRMED");
      } else {
        r := ResumedTurn(input, existing[0]);
      }
      if r.Ok? && r.value.Shown? {
        shown := shown + [r.value.text];
      }
    }
  }
}
