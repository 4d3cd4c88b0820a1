/** All or nothing: a fresh turn, killed at any atomic step and recovered, has either not
    happened or happened as its journal decided. */
module Atomicity {
  import opened Outcomes
  import opened Models
  import opened Storage
  import opened RawArchive
  import opened LongTerm
  import opened Transaction
  import opened Curation
  import opened Coherence
  import opened Coverage
  import opened Controller
  import opened Safety
  import opened Turns
  import opened Session
  import opened Recovery
  import opened Limits

  /** Between turns, with one loadable document in both of its files. */
  ghost predicate Clean(cfg: Settings, s: DiskState, d: Document) {
    Settled(cfg, s) && s.primary == s.lastValid == Holds(d) && WithinReadLimits(cfg, d)
  }

  function OpenJournal(input: TurnInput, rs: seq<RawRecord>, d: Document): Journal {
    Journal(Prepared, input.transactionId, input.turn, Capture(rs, d, input.stateId),
            UserRecord(input, |rs| + 1), None, None, None, None)
  }

  function PendingJournal(j: Journal, code: string): Journal {
    j.(state := ReadyPending, failureCode := Some(code))
  }

  /** A failure is kept as a pending USER when it may be retried and its code is a plain token. */
  function KeptFailure(cfg: Settings, j: Journal, code: string, retryable: bool): Option<Journal> {
    if BecomesPending(code, retryable) && code != "" && (forall c | c in code :: !IsSpace(c)) && JournalSafe(cfg, PendingJournal(j, code))
    then Some(PendingJournal(j, code)) else None
  }

  function ChatDecision(cfg: Settings, j: Journal, input: TurnInput, target: Option<Document>): Option<Journal> {
    match input.chat
    case AssemblyFails(_) => None
    case Cancelled => None
    case ChatRejected => None
    case ChatFails(code, retryable) => KeptFailure(cfg, j, code, retryable)
    case Replies(text) =>
      var assistant := AnswerRecord(input, text, j.user.sequence + 1);
      var ready := ReadyJournal(j, assistant, target);
      if ValidRecord(assistant) && JournalSafe(cfg, ready) then Some(ready) else None
  }

  /** The journal the turn decides on, if it decides at all: a function of the log, the
      document and what the models answered. */
  ghost function DecisionOf(cfg: Settings, rs: seq<RawRecord>, d: Document, input: TurnInput): Option<Journal> {
    var j := OpenJournal(input, rs, d);
    if !ValidRecord(j.user) || !JournalSafe(cfg, j) then None
    else match ProposalFrom(cfg, rs, d, input.curator)
      case ProposeRejected => None
      case ProposeFailed(code, retryable) => KeptFailure(cfg, j, code, retryable)
      case NoProposal => ChatDecision(cfg, j, input, None)
      case Target(t) => ChatDecision(cfg, j, input, Some(t))
  }

  // ---------------------------------------------------------------- a clean disk

  lemma {:induction false} CleanParses(cfg: Settings, s: DiskState, d: Document)
    requires Clean(cfg, s, d)
    ensures ParseFile(cfg, Holds(d), ReadSegments(s.segments)) == Ok(d) && Coherent(d, Log(s))
  {
    LogWellFormed(s);
    Loadable(cfg, d, Log(s), Log(s));
  }

  lemma {:induction false} CleanLoads(cfg: Settings, s: DiskState, d: Document, f: JournalFile, now: int)
    requires Clean(cfg, s, d)
    ensures LoadTrace(cfg, s.(journal := f), now) == Trace([], Ok(AsLoaded(d)))
    ensures InitializeTrace(cfg, s.(journal := f), now) == Trace([], Ok(AsLoaded(d)))
  {
    CleanParses(cfg, s, d);
    CleanLoad(cfg, s.(journal := f), d, now);
  }

  /** The first part of the turn: nothing but the PREPARED journal is written. */
  lemma {:induction false} OpensWith(cfg: Settings, s: DiskState, d: Document, input: TurnInput)
    requires Clean(cfg, s, d)
    ensures var j := OpenJournal(input, Log(s), d);
            var t := OpenTrace(cfg, s, input, Log(s), j.user);
            if ValidRecord(j.user) && JournalSafe(cfg, j) then t == Trace([s.(journal := JournalOf(j))], Ok(()))
            else t.writes == [] && t.outcome.Err?
  {
    CleanLoads(cfg, s, d, s.journal, input.now);
    assert s.(journal := s.journal) == s;
    BeginWrites(cfg, s, OpenJournal(input, Log(s), d));
  }

  lemma {:induction false} BeginWrites(cfg: Settings, s: DiskState, j: Journal)
    requires s.journal.NoJournal? && j.user.role == User && j.state == Prepared && j.turn == j.user.turn
    requires j.assistant.None? && j.target.None? && j.targetIdentity.None? && j.failureCode.None?
    ensures var t := BeginTrace(cfg, s, j.checkpoint, j.user, j.transactionId);
            if ValidRecord(j.user) && JournalSafe(cfg, j) then t == Trace([s.(journal := JournalOf(j))], Ok(()))
            else t.writes == [] && t.outcome.Err?
  {
  }

  lemma {:induction false} ProposesOver(cfg: Settings, s: DiskState, d: Document, f: JournalFile, input: TurnInput)
    requires Clean(cfg, s, d)
    ensures ProposeTrace(cfg, s.(journal := f), input) == Trace([], Ok(ProposalFrom(cfg, Log(s), d, input.curator)))
  {
    CleanLoads(cfg, s, d, f, input.now);
  }

  /** The coverage gate lets every fresh turn through. */
  lemma {:induction false} GateOpens(cfg: Settings, s: DiskState, d: Document, f: JournalFile, user: RawRecord, now: int)
    requires Clean(cfg, s, d) && user.id !in IdsOf(Log(s))
    ensures GateTrace(cfg, s.(journal := f), user, now) == Trace([], Ok(()))
  {
    CleanLoads(cfg, s, d, f, now);
    CleanParses(cfg, s, d);
    LogWellFormed(s);
    ControllerSplitAccepted(d, Log(s), user);
    SpansValid(d, Log(s));
  }

  lemma {:induction false} SpansValid(d: Document, rs: seq<RawRecord>)
    requires Coherent(d, rs)
    ensures forall i | 0 <= i < |d.overview.spans| :: ValidSpan(d.overview.spans[i])
  {
  }

  // ---------------------------------------------------------------- decisions are the stages

  lemma {:induction false} FirstStage(cfg: Settings, segs: seq<Segment>, d: Document, j: Journal)
    requires j.target.Some? ==> j.target.value != d
    ensures var all, s0 := Stages(cfg, segs, d, j), StageAt(cfg, segs, j, 0, d, d);
            all != [] && all[0] == s0 && all[1..] == RollForward(cfg, segs, d, j, s0, 0)
  {
    RawStage(cfg, segs, d, j, 0);
  }

  lemma {:induction false} TargetIsNew(cfg: Settings, segs: seq<Segment>, d: Document, j: Journal)
    requires Decision(cfg, segs, d, j)
    ensures j.target.Some? ==> j.target.value != d
  {
  }

  lemma {:induction false} CommitIsStages(cfg: Settings, segs: seq<Segment>, d: Document, j: Journal, now: int)
    requires Decision(cfg, segs, d, j)
    ensures var all := Stages(cfg, segs, d, j);
            CommitJournalTrace(cfg, all[0], now) == Trace(all[1..], Ok(()))
  {
    RecoverResumes(cfg, segs, d, j, 0, d, now);
    TargetIsNew(cfg, segs, d, j);
    FirstStage(cfg, segs, d, j);
  }

  /** Once the journal holds the decision: that write, and those of the commit that follows. */
  ghost function Deciding(cfg: Settings, s: DiskState, j: Journal, now: int): seq<DiskState> {
    var s1 := s.(journal := JournalOf(j));
    [s1] + CommitJournalTrace(cfg, s1, now).writes
  }

  /** A turn that fails with `code` in an open transaction. */
  lemma {:induction false} FailureWrites(cfg: Settings, s: DiskState, j: Journal, code: string, retryable: bool, now: int)
    requires s.journal == JournalOf(j) && LoadJournal(cfg, s.journal) == Ok(Some(j)) && j.state == Prepared
    ensures FailTurnTrace(cfg, s, code, retryable, now).writes
            == if KeptFailure(cfg, j, code, retryable).Some? then Deciding(cfg, s, PendingJournal(j, code), now) else []
  {
    if KeptFailure(cfg, j, code, retryable).None? {
      FailureRefused(cfg, s, j, code, retryable, now);
    } else {
      PendingWrites(cfg, s, j, code);
      FailureThen(cfg, s, code, retryable, now, s.(journal := JournalOf(PendingJournal(j, code))));
    }
  }

  lemma {:induction false} FailureThen(cfg: Settings, s: DiskState, code: string, retryable: bool, now: int, s1: DiskState)
    requires BecomesPending(code, retryable) && PendingTrace(cfg, s, code) == Trace([s1], Ok(()))
    ensures FailTurnTrace(cfg, s, code, retryable, now).writes == [s1] + CommitJournalTrace(cfg, s1, now).writes
  {
  }

  lemma {:induction false} FailureRefused(cfg: Settings, s: DiskState, j: Journal, code: string, retryable: bool, now: int)
    requires s.journal == JournalOf(j) && LoadJournal(cfg, s.journal) == Ok(Some(j)) && j.state == Prepared
    requires KeptFailure(cfg, j, code, retryable).None?
    ensures FailTurnTrace(cfg, s, code, retryable, now).writes == []
  {
  }

  lemma {:induction false} PendingWrites(cfg: Settings, s: DiskState, j: Journal, code: string)
    requires s.journal == JournalOf(j) && LoadJournal(cfg, s.journal) == Ok(Some(j)) && j.state == Prepared
    requires code != "" && (forall c | c in code :: !IsSpace(c)) && JournalSafe(cfg, PendingJournal(j, code))
    ensures PendingTrace(cfg, s, code) == Trace([s.(journal := JournalOf(PendingJournal(j, code)))], Ok(()))
  {
  }

  lemma {:induction false} ReadyWrites(cfg: Settings, s: DiskState, j: Journal, assistant: RawRecord, target: Option<Document>)
    requires s.journal == JournalOf(j) && LoadJournal(cfg, s.journal) == Ok(Some(j)) && j.state == Prepared
    requires assistant.turn == j.turn
    ensures ReadyTrace(cfg, s, assistant, target)
            == if JournalSafe(cfg, ReadyJournal(j, assistant, target))
               then Trace([s.(journal := JournalOf(ReadyJournal(j, assistant, target)))], Ok(()))
               else Trace([], Err("CREDENTIAL_REJECTED"))
  {
  }

  lemma {:induction false} AnswerWrites(cfg: Settings, s: DiskState, j: Journal, assistant: RawRecord, target: Option<Document>, now: int)
    requires s.journal == JournalOf(j) && LoadJournal(cfg, s.journal) == Ok(Some(j)) && j.state == Prepared && assistant.turn == j.turn
    ensures FinishTurnTrace(cfg, s, assistant, target, now).writes
            == if JournalSafe(cfg, ReadyJournal(j, assistant, target)) then Deciding(cfg, s, ReadyJournal(j, assistant, target), now) else []
  {
    var j' := ReadyJournal(j, assistant, target);
    ReadyWrites(cfg, s, j, assistant, target);
    if JournalSafe(cfg, j') {
      FinishThen(cfg, s, assistant, target, now, s.(journal := JournalOf(j')));
    }
  }

  lemma {:induction false} FinishThen(cfg: Settings, s: DiskState, assistant: RawRecord, target: Option<Document>, now: int, s1: DiskState)
    requires ReadyTrace(cfg, s, assistant, target) == Trace([s1], Ok(()))
    ensures FinishTurnTrace(cfg, s, assistant, target, now).writes == [s1] + CommitJournalTrace(cfg, s1, now).writes
  {
  }

  // ---------------------------------------------------------------- the disks of a turn

  /** The writes of an open turn once its decision is known. */
  ghost predicate DecidedWrites(cfg: Settings, s: DiskState, decision: Option<Journal>, now: int, writes: seq<DiskState>) {
    if decision.Some? then writes == Deciding(cfg, s, decision.value, now)
    else writes == [] || writes == [s.(journal := NoJournal)]
  }

  lemma {:induction false} RejectionWrites(cfg: Settings, s: DiskState, j: Journal)
    requires s.journal == JournalOf(j) && LoadJournal(cfg, s.journal) == Ok(Some(j)) && j.state == Prepared
    ensures RejectTrace(cfg, s).writes == [s.(journal := NoJournal)]
  {
  }

  /** PREPARED on disk, as `LoadJournal` reads it. */
  ghost predicate OpenOver(cfg: Settings, s: DiskState, j: Journal) {
    s.journal == JournalOf(j) && LoadJournal(cfg, s.journal) == Ok(Some(j)) && j.state == Prepared
  }

  lemma {:induction false} FailedChatWrites(cfg: Settings, s: DiskState, j: Journal, input: TurnInput, target: Option<Document>)
    requires OpenOver(cfg, s, j) && input.chat.ChatFails?
    ensures DecidedWrites(cfg, s, ChatDecision(cfg, j, input, target), input.now, ChatTrace(cfg, s, input, j.user, target).writes)
  {
    FailureWrites(cfg, s, j, input.chat.code, input.chat.retryable, input.now);
  }

  lemma {:induction false} AnsweredChatWrites(cfg: Settings, s: DiskState, j: Journal, input: TurnInput, target: Option<Document>)
    requires OpenOver(cfg, s, j) && input.chat.Replies? && j.turn == input.turn
    ensures DecidedWrites(cfg, s, ChatDecision(cfg, j, input, target), input.now, ChatTrace(cfg, s, input, j.user, target).writes)
  {
    var assistant := AnswerRecord(input, input.chat.text, j.user.sequence + 1);
    if ValidRecord(assistant) {
      AnsweredIs(cfg, s, j.user, input, target, assistant);
      AnsweredDecides(cfg, j, input, target, assistant);
      AnswerWrites(cfg, s, j, assistant, target, input.now);
    }
  }

  lemma {:induction false} AnsweredIs(cfg: Settings, s: DiskState, user: RawRecord, input: TurnInput, target: Option<Document>, assistant: RawRecord)
    requires input.chat.Replies? && assistant == AnswerRecord(input, input.chat.text, user.sequence + 1) && ValidRecord(assistant)
    ensures ChatTrace(cfg, s, input, user, target) == FinishTurnTrace(cfg, s, assistant, target, input.now)
  {
  }

  lemma {:induction false} AnsweredDecides(cfg: Settings, j: Journal, input: TurnInput, target: Option<Document>, assistant: RawRecord)
    requires input.chat.Replies? && assistant == AnswerRecord(input, input.chat.text, j.user.sequence + 1) && ValidRecord(assistant)
    ensures ChatDecision(cfg, j, input, target)
            == if JournalSafe(cfg, ReadyJournal(j, assistant, target)) then Some(ReadyJournal(j, assistant, target)) else None
  {
  }

  lemma {:induction false} ChatWrites(cfg: Settings, s: DiskState, j: Journal, input: TurnInput, target: Option<Document>)
    requires OpenOver(cfg, s, j) && j.turn == input.turn
    ensures DecidedWrites(cfg, s, ChatDecision(cfg, j, input, target), input.now, ChatTrace(cfg, s, input, j.user, target).writes)
  {
    if input.chat.ChatFails? {
      FailedChatWrites(cfg, s, j, input, target);
    } else if input.chat.Replies? {
      AnsweredChatWrites(cfg, s, j, input, target);
    } else {
      UndecidedChatWrites(cfg, s, j, input, target);
    }
  }

  lemma {:induction false} UndecidedChatWrites(cfg: Settings, s: DiskState, j: Journal, input: TurnInput, target: Option<Document>)
    requires OpenOver(cfg, s, j) && !input.chat.ChatFails? && !input.chat.Replies?
    ensures DecidedWrites(cfg, s, ChatDecision(cfg, j, input, target), input.now, ChatTrace(cfg, s, input, j.user, target).writes)
  {
    RejectionWrites(cfg, s, j);
  }

  lemma {:induction false} CuratedWrites(cfg: Settings, s: DiskState, d: Document, input: TurnInput, opened_: DiskState)
    requires Clean(cfg, s, d) && FreshTurnInput(Log(s), input)
    requires var j := OpenJournal(input, Log(s), d); ValidRecord(j.user) && JournalSafe(cfg, j) && opened_ == s.(journal := JournalOf(j))
    ensures var p := ProposalFrom(cfg, Log(s), d, input.curator);
            DecidedWrites(cfg, opened_, DecisionOf(cfg, Log(s), d, input), input.now,
                          CuratedTurnTrace(cfg, opened_, input, OpenJournal(input, Log(s), d).user, p).writes)
  {
    var j := OpenJournal(input, Log(s), d);
    OpenJournalLoads(cfg, j);
    match ProposalFrom(cfg, Log(s), d, input.curator)
    case ProposeRejected => RejectionWrites(cfg, opened_, j);
    case ProposeFailed(code, retryable) => FailureWrites(cfg, opened_, j, code, retryable, input.now);
    case NoProposal => GatedWrites(cfg, s, d, input, None);
    case Target(t) => GatedWrites(cfg, s, d, input, Some(t));
  }

  lemma {:induction false} OpenJournalLoads(cfg: Settings, j: Journal)
    requires ValidJournal(j) && j.state == Prepared && JournalSafe(cfg, j)
    ensures LoadJournal(cfg, JournalOf(j)) == Ok(Some(j))
  {
  }

  lemma {:induction false} GatedWrites(cfg: Settings, s: DiskState, d: Document, input: TurnInput, target: Option<Document>)
    requires Clean(cfg, s, d) && FreshTurnInput(Log(s), input)
    requires var j := OpenJournal(input, Log(s), d); ValidRecord(j.user) && JournalSafe(cfg, j)
    ensures var j := OpenJournal(input, Log(s), d);
            var s1 := s.(journal := JournalOf(j));
            DecidedWrites(cfg, s1, ChatDecision(cfg, j, input, target), input.now, AnsweredTurnTrace(cfg, s1, input, j.user, target).writes)
  {
    var j := OpenJournal(input, Log(s), d);
    var s1 := s.(journal := JournalOf(j));
    OpenJournalLoads(cfg, j);
    assert forall i | 0 <= i < |Log(s)| :: IdsOf(Log(s))[i] == Log(s)[i].id;
    GateOpens(cfg, s, d, s1.journal, j.user, input.now);
    ChatWrites(cfg, s1, j, input, target);
    AfterQuiet(Trace([], Ok(())), ChatTrace(cfg, s1, input, j.user, target));
  }

  lemma {:induction false} AfterQuiet<T, U>(t: Trace<T>, u: Trace<U>)
    requires t.writes == [] && t.outcome.Ok?
    ensures Then(t, u) == u
  {
  }

  /** Every disk a fresh turn leaves behind: the open journal, then what its decision writes. */
  lemma {:induction false} TurnWrites(cfg: Settings, s: DiskState, d: Document, input: TurnInput)
    requires Clean(cfg, s, d) && FreshTurnInput(Log(s), input)
    ensures var j := OpenJournal(input, Log(s), d);
            var s1 := s.(journal := JournalOf(j));
            var writes := RunTurnTrace(cfg, s, input).writes;
            || (writes == [] && DecisionOf(cfg, Log(s), d, input).None?)
            || (ValidRecord(j.user) && JournalSafe(cfg, j) && writes != [] && writes[0] == s1
                && DecidedWrites(cfg, s1, DecisionOf(cfg, Log(s), d, input), input.now, writes[1..]))
  {
    var j := OpenJournal(input, Log(s), d);
    var s1 := s.(journal := JournalOf(j));
    NoSuchTurn(Log(s), input.turn);
    OpensWith(cfg, s, d, input);
    if ValidRecord(j.user) && JournalSafe(cfg, j) {
      ProposesOver(cfg, s, d, s1.journal, input);
      CuratedWrites(cfg, s, d, input, s1);
      AfterQuiet(ProposeTrace(cfg, s1, input), CuratedTurnTrace(cfg, s1, input, j.user, ProposalFrom(cfg, Log(s), d, input.curator)));
      assert PreparedTurnTrace(cfg, s1, input, j.user) == CuratedTurnTrace(cfg, s1, input, j.user, ProposalFrom(cfg, Log(s), d, input.curator));
      OpenedWrites(cfg, s, input, Log(s), j.user, s1);
    }
  }

  lemma {:induction false} OpenedWrites(cfg: Settings, s: DiskState, input: TurnInput, rs: seq<RawRecord>, user: RawRecord, s1: DiskState)
    requires OpenTrace(cfg, s, input, rs, user) == Trace([s1], Ok(()))
    ensures OpenedTurnTrace(cfg, s, input, rs, user).writes == [s1] + PreparedTurnTrace(cfg, s1, input, user).writes
  {
  }

  // ---------------------------------------------------------------- what a decision meets

  lemma {:induction false} KeptIsDecision(cfg: Settings, s: DiskState, d: Document, input: TurnInput, code: string, retryable: bool)
    requires Clean(cfg, s, d) && FreshTurnInput(Log(s), input)
    requires var j := OpenJournal(input, Log(s), d);
             ValidRecord(j.user) && JournalSafe(cfg, j) && KeptFailure(cfg, j, code, retryable).Some?
    ensures Undelivered(cfg, s.segments, d, PendingJournal(OpenJournal(input, Log(s), d), code))
  {
    var j := OpenJournal(input, Log(s), d);
    OpenJournalAnchored(cfg, s, d, input);
    PendingAnchored(j, code, Log(s));
    CleanParses(cfg, s, d);
    PendingValid(cfg, j, code);
    NoTargetDecision(cfg, s.segments, Log(s), d, PendingJournal(j, code));
  }

  lemma {:induction false} PendingValid(cfg: Settings, j: Journal, code: string)
    requires ValidJournal(j) && j.state == Prepared && JournalSafe(cfg, PendingJournal(j, code)) && code != ""
    ensures ValidJournal(PendingJournal(j, code)) && JournalSafe(cfg, PendingJournal(j, code))
  {
  }

  lemma {:induction false} NoTargetDecision(cfg: Settings, segs: seq<Segment>, rs: seq<RawRecord>, d: Document, j: Journal)
    requires ReadSegments(segs) == Ok(rs) && Anchored(j, rs, rs) && Coherent(d, rs) && WithinReadLimits(cfg, d)
    requires ValidJournal(j) && JournalSafe(cfg, j) && j.state != Prepared && j.target.None?
    requires j.checkpoint.longTermRevision == Some(d.revision) && j.checkpoint.longTermIdentity == Some(d)
    ensures Undelivered(cfg, segs, d, j)
  {
  }

  lemma {:induction false} PendingAnchored(j: Journal, code: string, rs: seq<RawRecord>)
    requires Anchored(j, rs, rs)
    ensures Anchored(PendingJournal(j, code), rs, rs)
  {
  }

  lemma {:induction false} OpenJournalAnchored(cfg: Settings, s: DiskState, d: Document, input: TurnInput)
    requires Settled(cfg, s) && FreshTurnInput(Log(s), input) && ValidRecord(OpenJournal(input, Log(s), d).user)
    ensures Anchored(OpenJournal(input, Log(s), d), Log(s), Log(s))
  {
    LogWellFormed(s);
    AnchorNew(OpenJournal(input, Log(s), d), Log(s));
  }

  lemma {:induction false} ChatIsDecision(cfg: Settings, s: DiskState, d: Document, input: TurnInput, target: Option<Document>)
    requires Clean(cfg, s, d) && FreshTurnInput(Log(s), input)
    requires ValidRecord(OpenJournal(input, Log(s), d).user) && JournalSafe(cfg, OpenJournal(input, Log(s), d))
    requires target.Some? ==> Coherent(target.value, Log(s)) && target.value.curation.frontier > d.curation.frontier
    requires ChatDecision(cfg, OpenJournal(input, Log(s), d), input, target).Some?
    ensures Undelivered(cfg, s.segments, d, ChatDecision(cfg, OpenJournal(input, Log(s), d), input, target).value)
  {
    var j := OpenJournal(input, Log(s), d);
    match input.chat
    case ChatFails(code, retryable) => KeptIsDecision(cfg, s, d, input, code, retryable);
    case Replies(text) =>
      var assistant := AnswerRecord(input, text, j.user.sequence + 1);
      OpenJournalAnchored(cfg, s, d, input);
      AnchorReady(j, Log(s), assistant, target);
      CleanParses(cfg, s, d);
  }

  lemma {:induction false} ProposedTarget(cfg: Settings, s: DiskState, d: Document, curator: CuratorAnswer)
    requires ValidSettings(cfg) && Clean(cfg, s, d)
    ensures var p := ProposalFrom(cfg, Log(s), d, curator);
            p.Target? ==> Coherent(p.document, Log(s)) && p.document.curation.frontier > d.curation.frontier
  {
    CleanParses(cfg, s, d);
    LogWellFormed(s);
    TargetCoherent(cfg, Log(s), d, curator);
  }

  lemma {:induction false} DecisionCases(cfg: Settings, rs: seq<RawRecord>, d: Document, input: TurnInput)
    requires DecisionOf(cfg, rs, d, input).Some?
    ensures var j := OpenJournal(input, rs, d);
            && ValidRecord(j.user) && JournalSafe(cfg, j)
            && DecisionOf(cfg, rs, d, input) ==
                 match ProposalFrom(cfg, rs, d, input.curator)
                 case ProposeRejected => None
                 case ProposeFailed(code, retryable) => KeptFailure(cfg, j, code, retryable)
                 case NoProposal => ChatDecision(cfg, j, input, None)
                 case Target(t) => ChatDecision(cfg, j, input, Some(t))
  {
  }

  /** Whatever the models answered, a decision meets everything recovery needs but the limits
      that only publishing it checks. */
  lemma {:induction false} DecisionHolds(cfg: Settings, s: DiskState, d: Document, input: TurnInput)
    requires ValidSettings(cfg) && Clean(cfg, s, d) && FreshTurnInput(Log(s), input)
    requires DecisionOf(cfg, Log(s), d, input).Some?
    ensures Undelivered(cfg, s.segments, d, DecisionOf(cfg, Log(s), d, input).value)
  {
    DecisionCases(cfg, Log(s), d, input);
    ProposedTarget(cfg, s, d, input.curator);
    match ProposalFrom(cfg, Log(s), d, input.curator)
    case ProposeFailed(code, retryable) => KeptIsDecision(cfg, s, d, input, code, retryable);
    case NoProposal => ChatIsDecision(cfg, s, d, input, None);
    case Target(t) => ChatIsDecision(cfg, s, d, input, Some(t));
  }

  // ---------------------------------------------------------------- all or nothing

  lemma {:induction false} QuietBoots(cfg: Settings, s: DiskState, d: Document, bs: seq<Boot>)
    requires Clean(cfg, s, d)
    ensures Boots(cfg, s, bs) == s
  {
    if bs != [] {
      var b := bs[|bs| - 1];
      QuietBoots(cfg, s, d, bs[..|bs| - 1]);
      QuietBoot(cfg, s, d, b.now);
    }
  }

  lemma {:induction false} QuietBoot(cfg: Settings, s: DiskState, d: Document, now: int)
    requires Clean(cfg, s, d)
    ensures BootTrace(cfg, s, now) == Trace([], Ok(()))
  {
    CleanLoads(cfg, s, d, s.journal, now);
    assert s.(journal := s.journal) == s;
    QuietStart(cfg, s, AsLoaded(d), [], now);
  }

  lemma {:induction false} QuietStart(cfg: Settings, s: DiskState, l: Loaded, rest: seq<DiskState>, now: int)
    requires InitializeTrace(cfg, s, now) == Trace([], Ok(l)) && RecoverTrace(cfg, s, now) == Trace(rest, Ok(()))
    ensures BootTrace(cfg, s, now) == Trace(rest, Ok(()))
  {
  }

  lemma {:induction false} PreparedBoot(cfg: Settings, s: DiskState, d: Document, j: Journal, now: int)
    requires Clean(cfg, s, d) && LoadJournal(cfg, JournalOf(j)) == Ok(Some(j)) && j.state == Prepared
    ensures BootTrace(cfg, s.(journal := JournalOf(j)), now) == Trace([s], Ok(()))
  {
    CleanLoads(cfg, s, d, JournalOf(j), now);
    assert s.(journal := JournalOf(j)).(journal := NoJournal) == s;
    QuietStart(cfg, s.(journal := JournalOf(j)), AsLoaded(d), [s], now);
  }

  lemma {:induction false} BootsBetween(cfg: Settings, s: DiskState, s1: DiskState, bs: seq<Boot>)
    requires forall now :: BootTrace(cfg, s, now) == Trace([], Ok(()))
    requires forall now :: BootTrace(cfg, s1, now) == Trace([s], Ok(()))
    ensures Boots(cfg, s1, bs) == s || Boots(cfg, s1, bs) == s1
    ensures bs != [] && bs[|bs| - 1].crash.None? ==> Boots(cfg, s1, bs) == s
  {
    if bs != [] {
      var before, b := Boots(cfg, s1, bs[..|bs| - 1]), bs[|bs| - 1];
      BootsBetween(cfg, s, s1, bs[..|bs| - 1]);
      BootedBetween(s, s1, before, BootTrace(cfg, before, b.now), b.crash);
    }
  }

  lemma {:induction false} BootedBetween(s: DiskState, s1: DiskState, before: DiskState, t: Trace<()>, crash: Option<nat>)
    requires (before == s && t == Trace([], Ok(()))) || (before == s1 && t == Trace([s], Ok(())))
    ensures Booted(before, t, crash) == s || (crash.Some? && Booted(before, t, crash) == s1)
  {
  }

  /** An undecided turn leaves nothing once start-up has completed. */
  lemma {:induction false} UndecidedVanishes(cfg: Settings, s: DiskState, d: Document, j: Journal, bs: seq<Boot>, now: int)
    requires Clean(cfg, s, d) && LoadJournal(cfg, JournalOf(j)) == Ok(Some(j)) && j.state == Prepared
    ensures Boots(cfg, s.(journal := JournalOf(j)), bs + [Boot(now, None)]) == s
  {
    var s1 := s.(journal := JournalOf(j));
    forall n ensures BootTrace(cfg, s, n) == Trace([], Ok(())) && BootTrace(cfg, s1, n) == Trace([s], Ok(())) {
      QuietBoot(cfg, s, d, n);
      PreparedBoot(cfg, s, d, j, n);
    }
    BootsBetween(cfg, s, s1, bs + [Boot(now, None)]);
  }

  /** How far a crash after `k` steps of the turn lets it get, when `last` is as far as it gets. */
  function Reached(last: nat, k: nat): nat
    requires k >= 2
  {
    if k - 2 > last then last else k - 2
  }

  /** The disk when a decided turn dies after `k` steps: a stage of the roll-forward, or the
      stage at which publishing is refused. */
  ghost predicate DecidedDisk(cfg: Settings, segs: seq<Segment>, d: Document, j: Journal, k: nat, crashed: DiskState)
    requires k >= 2
  {
    if Publishable(cfg, j) then
      var all := Stages(cfg, segs, d, j); all != [] && crashed == all[Reached(|all| - 1, k)]
    else crashed == StageAt(cfg, segs, j, Reached(StallsAfter(cfg, j), k), d, d)
  }

  lemma {:induction false} AlongStages(all: seq<DiskState>, t: Trace<()>, k: nat)
    requires all != [] && t == Trace(all[1..], Ok(())) && k >= 2
    ensures After(all[0], t, k - 2) == all[Reached(|all| - 1, k)]
  {
  }

  lemma {:induction false} PublishableDisk(cfg: Settings, segs: seq<Segment>, d: Document, j: Journal, k: nat, now: int)
    requires Undelivered(cfg, segs, d, j) && Publishable(cfg, j) && k >= 2
    ensures var s1, all := StageAt(cfg, segs, j, 0, d, d), Stages(cfg, segs, d, j);
            all != [] && After(s1, CommitJournalTrace(cfg, s1, now), k - 2) == all[Reached(|all| - 1, k)]
  {
    CommitIsStages(cfg, segs, d, j, now);
    FirstIsStage(cfg, segs, d, j);
    AlongStages(Stages(cfg, segs, d, j), CommitJournalTrace(cfg, StageAt(cfg, segs, j, 0, d, d), now), k);
  }

  lemma {:induction false} FirstIsStage(cfg: Settings, segs: seq<Segment>, d: Document, j: Journal)
    ensures Stages(cfg, segs, d, j) != [] && Stages(cfg, segs, d, j)[0] == StageAt(cfg, segs, j, 0, d, d)
  {
  }

  lemma {:induction false} StalledDisk(cfg: Settings, segs: seq<Segment>, d: Document, j: Journal, k: nat, now: int)
    requires Undelivered(cfg, segs, d, j) && !Publishable(cfg, j) && k >= 2
    ensures var s1 := StageAt(cfg, segs, j, 0, d, d);
            After(s1, CommitJournalTrace(cfg, s1, now), k - 2) == StageAt(cfg, segs, j, Reached(StallsAfter(cfg, j), k), d, d)
  {
    StallsOn(cfg, segs, d, j, 0, now);
    AlongStalls(cfg, segs, d, j, CommitJournalTrace(cfg, StageAt(cfg, segs, j, 0, d, d), now), StallsAfter(cfg, j), k);
  }

  lemma {:induction false} AlongStalls(cfg: Settings, segs: seq<Segment>, d: Document, j: Journal, t: Trace<()>, last: nat, k: nat)
    requires k >= 2 && |t.writes| == last
    requires forall i | 0 <= i < |t.writes| :: t.writes[i] == StageAt(cfg, segs, j, 1 + i, d, d)
    ensures After(StageAt(cfg, segs, j, 0, d, d), t, k - 2) == StageAt(cfg, segs, j, Reached(last, k), d, d)
  {
  }

  lemma {:induction false} DecidingDisk(cfg: Settings, segs: seq<Segment>, d: Document, j: Journal, k: nat, now: int)
    requires Undelivered(cfg, segs, d, j) && k >= 2
    ensures var s1 := StageAt(cfg, segs, j, 0, d, d);
            DecidedDisk(cfg, segs, d, j, k, After(s1, CommitJournalTrace(cfg, s1, now), k - 2))
  {
    if Publishable(cfg, j) {
      PublishableDisk(cfg, segs, d, j, k, now);
    } else {
      StalledDisk(cfg, segs, d, j, k, now);
    }
  }

  lemma {:induction false} CrashedTurn(cfg: Settings, s: DiskState, d: Document, input: TurnInput, k: nat)
    requires ValidSettings(cfg) && Clean(cfg, s, d) && FreshTurnInput(Log(s), input)
    ensures var decision := DecisionOf(cfg, Log(s), d, input);
            var crashed := After(s, RunTurnTrace(cfg, s, input), k);
            var j := OpenJournal(input, Log(s), d);
            && (decision.None? || k <= 1 ==>
                  (crashed == s || (crashed == s.(journal := JournalOf(j)) && ValidRecord(j.user) && JournalSafe(cfg, j))))
            && (decision.Some? && k >= 2 ==> DecidedDisk(cfg, s.segments, d, decision.value, k, crashed))
  {
    var decision := DecisionOf(cfg, Log(s), d, input);
    TurnWrites(cfg, s, d, input);
    CrashedAt(cfg, s, d, input, decision, RunTurnTrace(cfg, s, input), k);
    if decision.Some? && k >= 2 {
      DecisionHolds(cfg, s, d, input);
      DecidingDisk(cfg, s.segments, d, decision.value, k, input.now);
    }
  }

  lemma {:induction false} CrashedAt<T>(cfg: Settings, s: DiskState, d: Document, input: TurnInput, decision: Option<Journal>, t: Trace<T>, k: nat)
    requires s.journal.NoJournal? && s.primary == s.lastValid == Holds(d)
    requires var s1 := s.(journal := JournalOf(OpenJournal(input, Log(s), d)));
             || (t.writes == [] && decision.None?)
             || (t.writes != [] && t.writes[0] == s1 && DecidedWrites(cfg, s1, decision, input.now, t.writes[1..]))
    ensures var s1 := s.(journal := JournalOf(OpenJournal(input, Log(s), d)));
            var crashed := After(s, t, k);
            && (decision.None? || k <= 1 ==> crashed == s || (crashed == s1 && t.writes != []))
            && (decision.Some? && k >= 2 ==>
                  var s2 := StageAt(cfg, s.segments, decision.value, 0, d, d);
                  crashed == After(s2, CommitJournalTrace(cfg, s2, input.now), k - 2))
  {
    var s1 := s.(journal := JournalOf(OpenJournal(input, Log(s), d)));
    assert s1.(journal := NoJournal) == s;
    if decision.Some? && k >= 2 {
      var s2 := StageAt(cfg, s.segments, decision.value, 0, d, d);
      assert s2 == s1.(journal := JournalOf(decision.value));
      DecidedAt(s, s1, s2, t, CommitJournalTrace(cfg, s2, input.now), k);
    }
  }

  lemma {:induction false} DecidedAt<T, U>(s: DiskState, s1: DiskState, s2: DiskState, t: Trace<T>, commit: Trace<U>, k: nat)
    requires k >= 2 && t.writes != [] && t.writes[1..] == [s2] + commit.writes
    ensures After(s, t, k) == After(s2, commit, k - 2)
  {
    assert t.writes == [t.writes[0]] + ([s2] + commit.writes);
  }

  /** The end of a turn that died after `k` steps and was recovered by `bs` and one more,
      uninterrupted start-up: without a decision, or before it, the disk is exactly as before
      the turn; after it, the disk is exactly the decided one, if and only if all of the
      decision can be published and no crash left it at a blocked stage: between the two
      document writes of a target that changes the memories or holds too many of them, or
      behind both of a target that holds too many. */
  ghost predicate AllOrNothingAt(cfg: Settings, s: DiskState, d: Document, decision: Option<Journal>, k: nat, bs: seq<Boot>, final: DiskState) {
    if decision.None? || k <= 1 then final == s else SettlesAt(cfg, s.segments, d, decision.value, k, bs, final)
  }

  ghost predicate SettlesAt(cfg: Settings, segs: seq<Segment>, d: Document, j: Journal, k: nat, bs: seq<Boot>, final: DiskState)
    requires k >= 2
  {
    var last := |Stages(cfg, segs, d, j)| - 1;
    final == Done(cfg, segs, d, j)
    <==> Publishable(cfg, j) && !Blocked(cfg, d, j, StageAfter(cfg, d, j, last, Reached(last, k), bs))
  }

  /** All or nothing. A fresh turn dies after `k` of its atomic steps; start-up is then
      interrupted any number of times and at last completes. */
  lemma {:induction false} AllOrNothing(cfg: Settings, s: DiskState, d: Document, input: TurnInput, k: nat, bs: seq<Boot>, now: int)
    requires ValidSettings(cfg) && Clean(cfg, s, d) && FreshTurnInput(Log(s), input)
    ensures AllOrNothingAt(cfg, s, d, DecisionOf(cfg, Log(s), d, input), k, bs,
                           Boots(cfg, After(s, RunTurnTrace(cfg, s, input), k), bs + [Boot(now, None)]))
  {
    var decision := DecisionOf(cfg, Log(s), d, input);
    var crashed := After(s, RunTurnTrace(cfg, s, input), k);
    CrashedTurn(cfg, s, d, input, k);
    if decision.None? || k <= 1 {
      NothingHappened(cfg, s, d, input, decision, crashed, k, bs, now);
    } else {
      DecisionHolds(cfg, s, d, input);
      DecidedHappened(cfg, s, d, decision.value, crashed, k, bs, now);
    }
  }

  lemma {:induction false} NothingHappened(cfg: Settings, s: DiskState, d: Document, input: TurnInput, decision: Option<Journal>, crashed: DiskState,
                                           k: nat, bs: seq<Boot>, now: int)
    requires Clean(cfg, s, d) && (decision.None? || k <= 1)
    requires var j := OpenJournal(input, Log(s), d);
             crashed == s || (crashed == s.(journal := JournalOf(j)) && ValidRecord(j.user) && JournalSafe(cfg, j))
    ensures AllOrNothingAt(cfg, s, d, decision, k, bs, Boots(cfg, crashed, bs + [Boot(now, None)]))
  {
    Nothing(cfg, s, d, input, crashed, bs, now);
  }

  lemma {:induction false} DecidedHappened(cfg: Settings, s: DiskState, d: Document, j: Journal, crashed: DiskState, k: nat, bs: seq<Boot>, now: int)
    requires k >= 2 && Undelivered(cfg, s.segments, d, j) && DecidedDisk(cfg, s.segments, d, j, k, crashed)
    ensures AllOrNothingAt(cfg, s, d, Some(j), k, bs, Boots(cfg, crashed, bs + [Boot(now, None)]))
  {
    if Publishable(cfg, j) {
      ReachedSettles(cfg, s.segments, d, j, k, bs, now);
    } else {
      NeverSettles(cfg, s.segments, d, j, k, bs + [Boot(now, None)]);
    }
  }

  lemma {:induction false} ReachedSettles(cfg: Settings, segs: seq<Segment>, d: Document, j: Journal, k: nat, bs: seq<Boot>, now: int)
    requires Undelivered(cfg, segs, d, j) && Publishable(cfg, j) && k >= 2 && Stages(cfg, segs, d, j) != []
    ensures var all := Stages(cfg, segs, d, j);
            SettlesAt(cfg, segs, d, j, k, bs, Boots(cfg, all[Reached(|all| - 1, k)], bs + [Boot(now, None)]))
  {
    Converges(cfg, segs, d, j, Reached(|Stages(cfg, segs, d, j)| - 1, k), bs, now);
  }

  lemma {:induction false} NeverSettles(cfg: Settings, segs: seq<Segment>, d: Document, j: Journal, k: nat, bs: seq<Boot>)
    requires Undelivered(cfg, segs, d, j) && !Publishable(cfg, j) && k >= 2
    ensures Boots(cfg, StageAt(cfg, segs, j, Reached(StallsAfter(cfg, j), k), d, d), bs) != Done(cfg, segs, d, j)
  {
    var m := NeverDone(cfg, segs, d, j, Reached(StallsAfter(cfg, j), k), bs);
  }

  lemma {:induction false} Nothing(cfg: Settings, s: DiskState, d: Document, input: TurnInput, crashed: DiskState, bs: seq<Boot>, now: int)
    requires Clean(cfg, s, d)
    requires var j := OpenJournal(input, Log(s), d);
             crashed == s || (crashed == s.(journal := JournalOf(j)) && ValidRecord(j.user) && JournalSafe(cfg, j))
    ensures Boots(cfg, crashed, bs + [Boot(now, None)]) == s
  {
    if crashed == s {
      QuietBoots(cfg, s, d, bs + [Boot(now, None)]);
    } else {
      var j := OpenJournal(input, Log(s), d);
      OpenJournalLoads(cfg, j);
      UndecidedVanishes(cfg, s, d, j, bs, now);
    }
  }
}
