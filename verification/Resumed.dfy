/** A resumed turn has no journal: its target is committed before the answer is asked for.
    This module says exactly which disks it passes through and where a crash leaves it. */
module Resumed {
  import opened Outcomes
  import opened Models
  import opened Storage
  import opened RawArchive
  import opened LongTerm
  import opened Transaction
  import opened Curation
  import opened Coherence
  import opened Coverage
  import opened Controller
  import opened Safety
  import opened Turns
  import opened Session
  import opened Recovery
  import opened Atomicity
  import opened Limits
  import opened AfterReset

  /** An unanswered USER waits to be resumed, over one loadable document in both files. */
  ghost predicate Waiting(cfg: Settings, s: DiskState, d: Document, user: RawRecord) {
    Pending(cfg, s, user) && s.primary == s.lastValid == Holds(d) && WithinReadLimits(cfg, d)
  }

  // ---------------------------------------------------------------- the disks of a resumed turn

  function Dropped(s: DiskState): DiskState {
    if s.segments != [] && s.segments[|s.segments| - 1].lines != [] then s.(segments := DropLastLine(s.segments)) else s
  }

  function Answer(s: DiskState, input: TurnInput, text: string): RawRecord {
    Renumbered(AnswerRecord(input, text, 0), |Log(s)| + 1)
  }

  /** The archive takes the answer. */
  predicate Takes(cfg: Settings, s: DiskState, input: TurnInput, text: string) {
    var r := Answer(s, input, text); cfg.safe(text) && ValidRecord(r) && cfg.lineBytes(r) <= cfg.maxRecordBytes
  }

  function ChatSteps(cfg: Settings, s: DiskState, input: TurnInput): seq<DiskState> {
    match input.chat
    case AssemblyFails(_) => []
    case Cancelled => []
    case ChatRejected => [Dropped(s)]
    case ChatFails(_, _) => []
    case Replies(text) => if Takes(cfg, s, input, text) then [Appended(cfg, s, Answer(s, input, text))] else []
  }

  function Torn(s: DiskState, t: Document): DiskState {
    s.(primary := Holds(t))
  }

  function Committed(s: DiskState, t: Document): DiskState {
    s.(primary := Holds(t), lastValid := Holds(t))
  }

  /** The target that the turn commits, if it commits one. */
  function CommittedTarget(cfg: Settings, p: Proposed): Option<Document> {
    if p.Target? && CommitFits(cfg, p.document) then Some(p.document) else None
  }

  /** Every disk that a turn leaves behind, in order, when the curator's part gave `p`. */
  function StepsFor(cfg: Settings, s: DiskState, p: Proposed, input: TurnInput): seq<DiskState> {
    match p
    case ProposeRejected => [Dropped(s)]
    case ProposeFailed(_, _) => []
    case NoProposal => ChatSteps(cfg, s, input)
    case Target(t) => if CommitFits(cfg, t) then CommittedSteps(cfg, s, t, input) else []
  }

  function CommittedSteps(cfg: Settings, s: DiskState, t: Document, input: TurnInput): seq<DiskState> {
    [Torn(s, t), Committed(s, t)] + (if |t.memories| <= cfg.maxItems then ChatSteps(cfg, Committed(s, t), input) else [])
  }

  // ---------------------------------------------------------------- the trace has those disks

  lemma {:induction false} WaitingLoads(cfg: Settings, s: DiskState, d: Document, user: RawRecord, now: int)
    requires Waiting(cfg, s, d, user)
    ensures ParseFile(cfg, s.primary, ReadSegments(s.segments)) == Ok(d) && Coherent(d, Log(s))
    ensures LoadTrace(cfg, s, now) == Trace([], Ok(AsLoaded(d)))
  {
    LogWellFormed(s);
    DocumentsCoherent(cfg, s);
    Loadable(cfg, d, Log(s), Log(s));
    CleanLoad(cfg, s, d, now);
  }

  lemma {:induction false} WaitingGate(cfg: Settings, s: DiskState, d: Document, user: RawRecord, now: int)
    requires Waiting(cfg, s, d, user)
    ensures GateTrace(cfg, s, user, now) == Trace([], Ok(()))
  {
    WaitingLoads(cfg, s, d, user, now);
    LogWellFormed(s);
    ControllerSplitAccepted(d, Log(s), user);
    SpansValid(d, Log(s));
  }

  lemma {:induction false} RejectionDrops(cfg: Settings, s: DiskState, d: Document, user: RawRecord)
    requires Waiting(cfg, s, d, user)
    ensures RejectResumedTrace(cfg, s, user.turn).writes == [Dropped(s)]
  {
    WaitingLoads(cfg, s, d, user, 0);
    DiscardIsNeverBlocked(cfg, s, user);
    DiscardCases(cfg, s, Some(user.turn));
  }

  lemma {:induction false} AnswerAppends(cfg: Settings, s: DiskState, input: TurnInput, text: string, user: RawRecord)
    requires Pending(cfg, s, user) && user.turn == input.turn
    ensures var t := AppendTrace(cfg, s, AnswerRecord(input, text, 0));
            t.writes == if Takes(cfg, s, input, text) then [Appended(cfg, s, Answer(s, input, text))] else []
  {
    LogWellFormed(s);
    TailIsAlone(Log(s));
  }

  lemma {:induction false} ResumeChatIs(cfg: Settings, s: DiskState, input: TurnInput)
    ensures ResumeChatTrace(cfg, s, input).writes ==
              match input.chat
              case ChatRejected => RejectResumedTrace(cfg, s, input.turn).writes
              case Replies(text) => AppendTrace(cfg, s, AnswerRecord(input, text, 0)).writes
              case _ => []
  {
  }

  lemma {:induction false} ChatWritesOf(cfg: Settings, s: DiskState, d: Document, input: TurnInput, user: RawRecord)
    requires Waiting(cfg, s, d, user) && user.turn == input.turn
    ensures ResumeChatTrace(cfg, s, input).writes == ChatSteps(cfg, s, input)
  {
    ResumeChatIs(cfg, s, input);
    if input.chat.ChatRejected? {
      RejectionDrops(cfg, s, d, user);
    } else if input.chat.Replies? {
      AnswerAppends(cfg, s, input, input.chat.text, user);
    }
  }

  lemma {:induction false} AnsweredWrites(cfg: Settings, s: DiskState, d: Document, input: TurnInput, user: RawRecord)
    requires Waiting(cfg, s, d, user) && user.turn == input.turn
    ensures AnsweredResumeTrace(cfg, s, input, user).writes == ChatSteps(cfg, s, input)
  {
    WaitingGate(cfg, s, d, user, input.now);
    ChatWritesOf(cfg, s, d, input, user);
    AfterQuiet(GateTrace(cfg, s, user, input.now), ResumeChatTrace(cfg, s, input));
  }

  lemma {:induction false} CommitOf(cfg: Settings, s: DiskState, d: Document, t: Document)
    requires s.primary == s.lastValid == Holds(d) && t != d
    requires ValidDocument(t) && SourcesCheck(t, ReadSegments(s.segments)).Ok?
    ensures var c := CommitTrace(cfg, s, t, false, Some(Holds(d)));
            if CommitFits(cfg, t) then c == Trace([Torn(s, t), Committed(s, t)], Ok(t)) else c.writes == [] && !c.outcome.Ok?
  {
  }

  lemma {:induction false} TargetResolves(s: DiskState, t: Document)
    requires ReadSegments(s.segments).Ok? && Coherent(t, Log(s))
    ensures ValidDocument(t) && SourcesCheck(t, ReadSegments(s.segments)).Ok?
  {
    LogWellFormed(s);
    CoherentResolves(t, Log(s));
    SourcesCheckIff(t, Log(s));
  }

  lemma {:induction false} TargetCommit(cfg: Settings, s: DiskState, d: Document, t: Document, user: RawRecord)
    requires Waiting(cfg, s, d, user) && Coherent(t, Log(s)) && t != d
    ensures var c := CommitTrace(cfg, s, t, false, Some(Holds(d)));
            if CommitFits(cfg, t) then c == Trace([Torn(s, t), Committed(s, t)], Ok(t)) else c.writes == [] && !c.outcome.Ok?
  {
    TargetResolves(s, t);
    CommitOf(cfg, s, d, t);
  }

  lemma {:induction false} CommittedWaits(cfg: Settings, s: DiskState, d: Document, t: Document, user: RawRecord)
    requires Waiting(cfg, s, d, user) && Coherent(t, Log(s)) && CommitFits(cfg, t)
    ensures var s2 := Committed(s, t);
            Pending(cfg, s2, user) && s2.primary == s2.lastValid == Holds(t) && (|t.memories| <= cfg.maxItems ==> Waiting(cfg, s2, t, user))
  {
    WriteDocumentStep(cfg, s, t);
  }

  lemma {:induction false} OverfullGate(cfg: Settings, s: DiskState, t: Document, user: RawRecord, input: TurnInput)
    requires s.primary == s.lastValid == Holds(t) && |t.memories| > cfg.maxItems && ReadSegments(s.segments).Ok?
    ensures AnsweredResumeTrace(cfg, s, input, user).writes == []
  {
    TooManyItems(cfg, s, t, input.now);
  }

  lemma {:induction false} CommitAnswerWrites(cfg: Settings, s: DiskState, d: Document, t: Document, input: TurnInput, user: RawRecord)
    requires Waiting(cfg, s, d, user) && user.turn == input.turn && Coherent(t, Log(s)) && t != d
    ensures CommitAnswerTrace(cfg, s, input, user, t, false, Some(Holds(d))).writes
            == if CommitFits(cfg, t) then CommittedSteps(cfg, s, t, input) else []
  {
    TargetCommit(cfg, s, d, t, user);
    if CommitFits(cfg, t) {
      var s2 := Committed(s, t);
      CommittedWaits(cfg, s, d, t, user);
      if |t.memories| <= cfg.maxItems {
        AnsweredWrites(cfg, s2, t, input, user);
      } else {
        OverfullGate(cfg, s2, t, user, input);
      }
      CommitThen(cfg, s, d, t, input, user, AnsweredResumeTrace(cfg, s2, input, user));
    }
  }

  lemma {:induction false} CommitThen(cfg: Settings, s: DiskState, d: Document, t: Document, input: TurnInput, user: RawRecord, rest: Trace<TurnEnd>)
    requires CommitTrace(cfg, s, t, false, Some(Holds(d))) == Trace([Torn(s, t), Committed(s, t)], Ok(t))
    requires rest == AnsweredResumeTrace(cfg, Committed(s, t), input, user)
    ensures CommitAnswerTrace(cfg, s, input, user, t, false, Some(Holds(d))).writes == [Torn(s, t), Committed(s, t)] + rest.writes
  {
  }

  lemma {:induction false} ProposesQuietly(cfg: Settings, s: DiskState, d: Document, input: TurnInput, user: RawRecord)
    requires Waiting(cfg, s, d, user)
    ensures ProposeTrace(cfg, s, input) == Trace([], Ok(ProposalFrom(cfg, Log(s), d, input.curator)))
  {
    WaitingLoads(cfg, s, d, user, input.now);
  }

  lemma {:induction false} ResumedIsCurated(cfg: Settings, s: DiskState, d: Document, input: TurnInput, user: RawRecord)
    requires Waiting(cfg, s, d, user)
    ensures ResumedTurnTrace(cfg, s, input, user)
            == CuratedResumeTrace(cfg, s, input, user, ProposalFrom(cfg, Log(s), d, input.curator), false, Some(Holds(d)))
  {
    WaitingLoads(cfg, s, d, user, input.now);
    ProposesQuietly(cfg, s, d, input, user);
    AfterQuiet(ProposeTrace(cfg, s, input),
               CuratedResumeTrace(cfg, s, input, user, ProposalFrom(cfg, Log(s), d, input.curator), false, Some(Holds(d))));
  }

  lemma {:induction false} CuratedSteps(cfg: Settings, s: DiskState, d: Document, input: TurnInput, user: RawRecord, p: Proposed)
    requires Waiting(cfg, s, d, user) && user.turn == input.turn
    requires p.Target? ==> Coherent(p.document, Log(s)) && p.document != d
    ensures CuratedResumeTrace(cfg, s, input, user, p, false, Some(Holds(d))).writes == StepsFor(cfg, s, p, input)
  {
    match p
    case ProposeRejected => RejectionDrops(cfg, s, d, user);
    case ProposeFailed(_, _) =>
    case NoProposal => AnsweredWrites(cfg, s, d, input, user);
    case Target(t) => CommitAnswerWrites(cfg, s, d, t, input, user);
  }

  /** What the curator's part of a turn over a waiting disk gives. */
  ghost predicate Gives(cfg: Settings, s: DiskState, d: Document, input: TurnInput, p: Proposed) {
    p == ProposalFrom(cfg, Log(s), d, input.curator)
  }

  lemma {:induction false} GivenTarget(cfg: Settings, s: DiskState, d: Document, input: TurnInput, user: RawRecord, p: Proposed)
    requires ValidSettings(cfg) && Waiting(cfg, s, d, user) && Gives(cfg, s, d, input, p)
    ensures p.Target? ==> Coherent(p.document, Log(s)) && p.document.curation != d.curation
  {
    WaitingLoads(cfg, s, d, user, 0);
    LogWellFormed(s);
    TargetCoherent(cfg, Log(s), d, input.curator);
  }

  /** The atomic steps of a resumed turn, whatever the models and the user answer. */
  lemma {:induction false} ResumedWrites(cfg: Settings, s: DiskState, d: Document, input: TurnInput, user: RawRecord, p: Proposed)
    requires ValidSettings(cfg) && Waiting(cfg, s, d, user) && input.resume && user.turn == input.turn && Gives(cfg, s, d, input, p)
    ensures RunTurnTrace(cfg, s, input).writes == StepsFor(cfg, s, p, input)
  {
    LogWellFormed(s);
    PendingIsAlone(Log(s), user);
    GivenTarget(cfg, s, d, input, user, p);
    ResumedIsCurated(cfg, s, d, input, user);
    CuratedSteps(cfg, s, d, input, user, p);
  }

  // ---------------------------------------------------------------- crashes and start-ups

  function StepAt(s: DiskState, steps: seq<DiskState>, k: nat): DiskState {
    if k == 0 || steps == [] then s else if k <= |steps| then steps[k - 1] else steps[|steps| - 1]
  }

  /** A start-up heals the copy of a torn pair only when the memories did not change. */
  predicate Heals(cfg: Settings, d: Document, t: Document) {
    |t.memories| <= cfg.maxItems && t.memories == d.memories
  }

  /** The disk in the end: a crash at step `k`, then start-ups. */
  function ResumedEnd(cfg: Settings, s: DiskState, d: Document, p: Proposed, input: TurnInput, k: nat): DiskState {
    var target := CommittedTarget(cfg, p);
    if target.Some? && k == 1 && Heals(cfg, d, target.value) then Committed(s, target.value)
    else StepAt(s, StepsFor(cfg, s, p, input), k)
  }

  lemma {:induction false} QuietForever(cfg: Settings, s: DiskState, bs: seq<Boot>)
    requires forall now :: BootTrace(cfg, s, now).writes == []
    ensures Boots(cfg, s, bs) == s
  {
    if bs != [] {
      QuietForever(cfg, s, bs[..|bs| - 1]);
    }
  }

  lemma {:induction false} SamePairIsQuiet(cfg: Settings, s: DiskState, d: Document, now: int)
    requires s.journal.NoJournal? && s.primary == s.lastValid == Holds(d)
    ensures BootTrace(cfg, s, now).writes == []
  {
  }

  lemma {:induction false} TornInit(cfg: Settings, s: DiskState, d: Document, t: Document, user: RawRecord, now: int)
    requires Waiting(cfg, s, d, user) && Coherent(t, Log(s)) && CommitFits(cfg, t) && t.curation != d.curation
    ensures var init := InitializeTrace(cfg, Torn(s, t), now);
            if Heals(cfg, d, t) then init == Trace([Committed(s, t)], Ok(AsLoaded(t))) else init.writes == []
  {
    var x := Torn(s, t);
    if |t.memories| <= cfg.maxItems {
      WaitingLoads(cfg, s, d, user, now);
      LogWellFormed(s);
      Loadable(cfg, t, Log(s), Log(s));
      TornLoad(cfg, x, t, d, now);
    } else {
      OverfullTorn(cfg, x, t, now);
    }
  }

  lemma {:induction false} TornBoot(cfg: Settings, s: DiskState, d: Document, t: Document, user: RawRecord, now: int)
    requires Waiting(cfg, s, d, user) && Coherent(t, Log(s)) && CommitFits(cfg, t) && t.curation != d.curation
    ensures var boot := BootTrace(cfg, Torn(s, t), now);
            if Heals(cfg, d, t) then boot == Trace([Committed(s, t)], Ok(())) else boot.writes == []
  {
    TornInit(cfg, s, d, t, user, now);
    NoJournalBoot(cfg, Torn(s, t), now);
  }

  lemma {:induction false} OverfullTorn(cfg: Settings, s: DiskState, t: Document, now: int)
    requires s.primary == Holds(t) && |t.memories| > cfg.maxItems
    ensures InitializeTrace(cfg, s, now).writes == []
  {
  }

  lemma {:induction false} NoJournalBoot(cfg: Settings, s: DiskState, now: int)
    requires s.journal.NoJournal?
    ensures var init := InitializeTrace(cfg, s, now);
            BootTrace(cfg, s, now).writes == init.writes && (init.outcome.Ok? ==> BootTrace(cfg, s, now) == Trace(init.writes, Ok(())))
  {
    var init := InitializeTrace(cfg, s, now);
    InitLeavesJournal(cfg, s, now);
    NothingToRecover(cfg, End(s, init), now);
    BootIs(cfg, s, now, init, Trace([], Ok(())));
  }

  lemma {:induction false} NothingToRecover(cfg: Settings, s: DiskState, now: int)
    requires s.journal.NoJournal?
    ensures RecoverTrace(cfg, s, now) == Trace([], Ok(()))
  {
  }

  lemma {:induction false} TornEnds(cfg: Settings, s: DiskState, d: Document, t: Document, user: RawRecord, bs: seq<Boot>, now: int)
    requires Waiting(cfg, s, d, user) && Coherent(t, Log(s)) && CommitFits(cfg, t) && t.curation != d.curation
    ensures Boots(cfg, Torn(s, t), bs + [Boot(now, None)]) == if Heals(cfg, d, t) then Committed(s, t) else Torn(s, t)
  {
    if Heals(cfg, d, t) {
      CommittedWaits(cfg, s, d, t, user);
      forall n ensures BootTrace(cfg, Torn(s, t), n) == Trace([Committed(s, t)], Ok(())) && BootTrace(cfg, Committed(s, t), n) == Trace([], Ok(())) {
        TornBoot(cfg, s, d, t, user, n);
        WaitingBoot(cfg, Committed(s, t), t, user, n);
      }
      BootsBetween(cfg, Committed(s, t), Torn(s, t), bs + [Boot(now, None)]);
    } else {
      forall n ensures BootTrace(cfg, Torn(s, t), n).writes == [] {
        TornBoot(cfg, s, d, t, user, n);
      }
      QuietForever(cfg, Torn(s, t), bs + [Boot(now, None)]);
    }
  }

  lemma {:induction false} WaitingBoot(cfg: Settings, s: DiskState, d: Document, user: RawRecord, now: int)
    requires Waiting(cfg, s, d, user)
    ensures BootTrace(cfg, s, now) == Trace([], Ok(()))
  {
    WaitingLoads(cfg, s, d, user, now);
    CleanLoad(cfg, s, d, now);
    NoJournalBoot(cfg, s, now);
  }

  lemma {:induction false} ChatKeepsDocuments(cfg: Settings, s: DiskState, input: TurnInput, k: nat)
    ensures var x := StepAt(s, ChatSteps(cfg, s, input), k);
            x.journal == s.journal && x.primary == s.primary && x.lastValid == s.lastValid
  {
  }

  lemma {:induction false} CommittedLog(cfg: Settings, s: DiskState, t: Document, input: TurnInput, k: nat)
    ensures var x := StepAt(s, CommittedSteps(cfg, s, t, input), k);
            var s2 := Committed(s, t);
            && (k == 0 ==> x == s) && (k == 1 ==> x == Torn(s, t)) && (k == 2 ==> x == s2)
            && (k >= 3 ==> x == if |t.memories| <= cfg.maxItems then StepAt(s2, ChatSteps(cfg, s2, input), k - 2) else s2)
  {
  }

  lemma {:induction false} CommittedDocuments(cfg: Settings, s: DiskState, t: Document, input: TurnInput, k: nat)
    requires k >= 2
    ensures var x := StepAt(s, CommittedSteps(cfg, s, t, input), k);
            x.journal == s.journal && x.primary == x.lastValid == Holds(t)
  {
    CommittedLog(cfg, s, t, input, k);
    ChatKeepsDocuments(cfg, Committed(s, t), input, if k > 2 then k - 2 else 1);
  }

  /** All steps but the torn one leave one document in both files, and no journal. */
  lemma {:induction false} DocumentsAt(cfg: Settings, s: DiskState, d: Document, p: Proposed, input: TurnInput, k: nat)
    requires s.primary == s.lastValid == Holds(d) && s.journal.NoJournal?
    requires CommittedTarget(cfg, p).Some? ==> k != 1
    ensures var x := StepAt(s, StepsFor(cfg, s, p, input), k);
            var target := CommittedTarget(cfg, p);
            x.journal.NoJournal? && x.primary == x.lastValid == Holds(if k == 0 || target.None? then d else target.value)
  {
    if k > 0 {
      match p
      case ProposeRejected =>
      case ProposeFailed(_, _) =>
      case NoProposal => ChatKeepsDocuments(cfg, s, input, k);
      case Target(t) => if CommitFits(cfg, t) { CommittedDocuments(cfg, s, t, input, k); }
    }
  }

  lemma {:induction false} OtherStepsAreQuiet(cfg: Settings, s: DiskState, d: Document, p: Proposed, input: TurnInput, k: nat, bs: seq<Boot>)
    requires s.primary == s.lastValid == Holds(d) && s.journal.NoJournal? && (CommittedTarget(cfg, p).Some? ==> k != 1)
    ensures var x := StepAt(s, StepsFor(cfg, s, p, input), k); Boots(cfg, x, bs) == x
  {
    var x := StepAt(s, StepsFor(cfg, s, p, input), k);
    DocumentsAt(cfg, s, d, p, input, k);
    forall n ensures BootTrace(cfg, x, n).writes == [] {
      SamePairIsQuiet(cfg, x, x.primary.document, n);
    }
    QuietForever(cfg, x, bs);
  }

  lemma {:induction false} AfterIsStep<T>(s: DiskState, t: Trace<T>, k: nat)
    ensures After(s, t, k) == StepAt(s, t.writes, k)
  {
  }

  lemma {:induction false} StepsEnd(cfg: Settings, s: DiskState, d: Document, p: Proposed, input: TurnInput, user: RawRecord, k: nat, bs: seq<Boot>, now: int)
    requires Waiting(cfg, s, d, user) && (p.Target? ==> Coherent(p.document, Log(s)) && p.document.curation != d.curation)
    ensures Boots(cfg, StepAt(s, StepsFor(cfg, s, p, input), k), bs + [Boot(now, None)]) == ResumedEnd(cfg, s, d, p, input, k)
  {
    var target := CommittedTarget(cfg, p);
    if target.Some? && k == 1 {
      TornEnds(cfg, s, d, target.value, user, bs, now);
    } else {
      OtherStepsAreQuiet(cfg, s, d, p, input, k, bs + [Boot(now, None)]);
    }
  }

  /** A resumed turn that dies after `k` steps, and any number of interrupted start-ups with a
      last one that is not: where the disk is. */
  lemma {:induction false} ResumedCrash(cfg: Settings, s: DiskState, d: Document, input: TurnInput, user: RawRecord, p: Proposed,
                                        k: nat, bs: seq<Boot>, now: int)
    requires ValidSettings(cfg) && Waiting(cfg, s, d, user) && input.resume && user.turn == input.turn && Gives(cfg, s, d, input, p)
    ensures Boots(cfg, After(s, RunTurnTrace(cfg, s, input), k), bs + [Boot(now, None)]) == ResumedEnd(cfg, s, d, p, input, k)
  {
    ResumedWrites(cfg, s, d, input, user, p);
    AfterIsStep(s, RunTurnTrace(cfg, s, input), k);
    GivenTarget(cfg, s, d, input, user, p);
    StepsEnd(cfg, s, d, p, input, user, k, bs, now);
  }

  // ---------------------------------------------------------------- which document, which log

  /** From which step on the answer or the rejection is on the disk. */
  function ChatAt(cfg: Settings, p: Proposed): nat {
    if CommittedTarget(cfg, p).Some? then 3 else 1
  }

  /** The log once the chat of a turn over `s` has ended. */
  function ChatLogOf(cfg: Settings, s: DiskState, input: TurnInput): seq<RawRecord> {
    match input.chat
    case AssemblyFails(_) => Log(s)
    case Cancelled => Log(s)
    case ChatRejected => AnsweredPart(Log(s))
    case ChatFails(_, _) => Log(s)
    case Replies(text) => if Takes(cfg, s, input, text) then Log(s) + [Answer(s, input, text)] else Log(s)
  }

  /** The log once the turn has ended. */
  function LogInTheEnd(cfg: Settings, s: DiskState, p: Proposed, input: TurnInput): seq<RawRecord> {
    if p.ProposeRejected? then AnsweredPart(Log(s))
    else if p.ProposeFailed? || (p.Target? && (!CommitFits(cfg, p.document) || |p.document.memories| > cfg.maxItems)) then Log(s)
    else ChatLogOf(cfg, s, input)
  }

  lemma {:induction false} AnswerLog(cfg: Settings, s: DiskState, input: TurnInput, user: RawRecord, text: string)
    requires Pending(cfg, s, user) && user.turn == input.turn && input.assistantId !in IdsOf(Log(s))
    requires Takes(cfg, s, input, text)
    ensures Log(Appended(cfg, s, Answer(s, input, text))) == Log(s) + [Answer(s, input, text)]
  {
    var r := Answer(s, input, text);
    LogWellFormed(s);
    TailIsAlone(Log(s));
    forall x | x in Log(s) ensures x.id != r.id && (x.turn != r.turn || x.role != r.role) {
      var i :| 0 <= i < |Log(s)| && Log(s)[i] == x;
      assert IdsOf(Log(s))[i] == x.id;
    }
    AppendReads(cfg, s.segments, Log(s), r);
  }

  lemma {:induction false} DroppedLog(cfg: Settings, s: DiskState, user: RawRecord)
    requires Pending(cfg, s, user)
    ensures Log(Dropped(s)) == AnsweredPart(Log(s))
  {
    DropStep(cfg, s);
  }

  lemma {:induction false} ChatLog(cfg: Settings, s: DiskState, input: TurnInput, user: RawRecord, k: nat)
    requires Pending(cfg, s, user) && user.turn == input.turn && input.assistantId !in IdsOf(Log(s)) && k > 0
    ensures Log(StepAt(s, ChatSteps(cfg, s, input), k)) == ChatLogOf(cfg, s, input)
  {
    if input.chat.ChatRejected? {
      DroppedLog(cfg, s, user);
    } else if input.chat.Replies? && Takes(cfg, s, input, input.chat.text) {
      AnswerLog(cfg, s, input, user, input.chat.text);
    }
  }

  lemma {:induction false} SameLogs(cfg: Settings, s: DiskState, other: DiskState, input: TurnInput)
    requires other.segments == s.segments
    ensures Log(other) == Log(s) && ChatLogOf(cfg, other, input) == ChatLogOf(cfg, s, input)
  {
  }

  lemma {:induction false} CommittedOutcome(cfg: Settings, s: DiskState, t: Document, input: TurnInput, user: RawRecord, k: nat)
    requires Pending(cfg, Committed(s, t), user) && user.turn == input.turn && input.assistantId !in IdsOf(Log(s))
    ensures var x := StepAt(s, CommittedSteps(cfg, s, t, input), k);
            && (k > 0 ==> x.primary == Holds(t))
            && Log(x) == if k < 3 || |t.memories| > cfg.maxItems then Log(s) else ChatLogOf(cfg, s, input)
  {
    var s2 := Committed(s, t);
    CommittedLog(cfg, s, t, input, k);
    SameLogs(cfg, s, s2, input);
    SameLogs(cfg, s, Torn(s, t), input);
    if k > 2 {
      ChatKeepsDocuments(cfg, s2, input, k - 2);
      ChatLog(cfg, s2, input, user, k - 2);
    }
  }

  lemma {:induction false} TargetOutcome(cfg: Settings, s: DiskState, d: Document, p: Proposed, input: TurnInput, user: RawRecord, k: nat)
    requires CommittedTarget(cfg, p).Some? && p.document != d && s.primary == Holds(d)
    requires Pending(cfg, Committed(s, p.document), user) && user.turn == input.turn && input.assistantId !in IdsOf(Log(s))
    ensures EndsAs(cfg, s, d, p, input, k)
  {
    EndOfTarget(cfg, s, d, p, input, k);
    CommittedOutcome(cfg, s, p.document, input, user, k);
    SameLogs(cfg, s, Committed(s, p.document), input);
  }

  lemma {:induction false} EndOfTarget(cfg: Settings, s: DiskState, d: Document, p: Proposed, input: TurnInput, k: nat)
    requires CommittedTarget(cfg, p).Some?
    ensures var t := p.document;
            && ResumedEnd(cfg, s, d, p, input, k)
               == (if k == 1 && Heals(cfg, d, t) then Committed(s, t) else StepAt(s, CommittedSteps(cfg, s, t, input), k))
            && LogInTheEnd(cfg, s, p, input) == (if |t.memories| > cfg.maxItems then Log(s) else ChatLogOf(cfg, s, input))
  {
  }

  /** Which document and which log are there in the end. */
  predicate EndsAs(cfg: Settings, s: DiskState, d: Document, p: Proposed, input: TurnInput, k: nat) {
    var final := ResumedEnd(cfg, s, d, p, input, k);
    var target := CommittedTarget(cfg, p);
    && (final.primary == Holds(d) <==> target.None? || k == 0)
    && (target.Some? && k > 0 ==> final.primary == Holds(target.value))
    && Log(final) == if k < ChatAt(cfg, p) then Log(s) else LogInTheEnd(cfg, s, p, input)
  }

  lemma {:induction false} OtherLog(cfg: Settings, s: DiskState, p: Proposed, input: TurnInput, user: RawRecord, k: nat)
    requires Pending(cfg, s, user) && user.turn == input.turn && input.assistantId !in IdsOf(Log(s))
    requires CommittedTarget(cfg, p).None? && k > 0
    ensures Log(StepAt(s, StepsFor(cfg, s, p, input), k)) == LogInTheEnd(cfg, s, p, input)
  {
    if p.ProposeRejected? {
      DroppedLog(cfg, s, user);
    } else if p.NoProposal? {
      ChatLog(cfg, s, input, user, k);
    }
  }

  lemma {:induction false} OtherOutcome(cfg: Settings, s: DiskState, d: Document, p: Proposed, input: TurnInput, user: RawRecord, k: nat)
    requires Pending(cfg, s, user) && user.turn == input.turn && input.assistantId !in IdsOf(Log(s))
    requires s.primary == s.lastValid == Holds(d) && CommittedTarget(cfg, p).None?
    ensures EndsAs(cfg, s, d, p, input, k)
  {
    DocumentsAt(cfg, s, d, p, input, k);
    if k > 0 {
      OtherLog(cfg, s, p, input, user, k);
    }
  }

  /** The document is still the old one exactly when no target was committed or the crash came
      first; from the first step on it is the target, although the answer is in the log only
      from the third: so the new document may stand without its answer, as it does for good
      after a crash at step 1 or 2, a failed chat or a rejected one. */
  lemma {:induction false} ResumedOutcome(cfg: Settings, s: DiskState, d: Document, input: TurnInput, user: RawRecord, p: Proposed, k: nat)
    requires ValidSettings(cfg) && Waiting(cfg, s, d, user) && user.turn == input.turn && input.assistantId !in IdsOf(Log(s))
    requires Gives(cfg, s, d, input, p)
    ensures EndsAs(cfg, s, d, p, input, k)
  {
    if CommittedTarget(cfg, p).Some? {
      GivenTarget(cfg, s, d, input, user, p);
      CommittedWaits(cfg, s, d, p.document, user);
      TargetOutcome(cfg, s, d, p, input, user, k);
    } else {
      OtherOutcome(cfg, s, d, p, input, user, k);
    }
  }
}
