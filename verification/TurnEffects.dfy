/** What a fresh turn leaves behind and how it ends, case by case in terms of what the user
    typed and the models answered. */
module TurnEffects {
  import opened Outcomes
  import opened Models
  import opened Storage
  import opened RawArchive
  import opened Transaction
  import opened Curation
  import opened Controller
  import opened Safety
  import opened Turns
  import opened Recovery
  import opened Atomicity

  // ---------------------------------------------------------------- the records of a turn

  /** The user's message as a record after `n` others. */
  function Message(input: TurnInput, n: nat): RawRecord {
    RawRecord(input.userId, n + 1, input.turn, User, input.content, input.now, input.stateId, input.configRevision, Digest(input.content))
  }

  /** The answer right after it. */
  function Reply(input: TurnInput, text: string, n: nat): RawRecord {
    RawRecord(input.assistantId, n + 2, input.turn, Assistant, text, input.now, input.stateId, input.configRevision, Digest(text))
  }

  /** Between turns again: some records more, one document in both files. */
  ghost predicate Added(s: DiskState, records: seq<RawRecord>, d: Document, end: DiskState) {
    Log(end) == Log(s) + records && end.primary == end.lastValid == Holds(d) && end.journal.NoJournal?
  }

  /** The transaction of the turn can be opened. */
  ghost predicate Opens(cfg: Settings, s: DiskState, d: Document, input: TurnInput) {
    && ValidSettings(cfg) && Clean(cfg, s, d) && FreshTurnInput(Log(s), input)
    && input.content != "" && input.stateId != "" && JournalSafe(cfg, OpenJournal(input, Log(s), d))
  }

  /** The curator leaves the turn to the chat, with or without a new document. */
  ghost predicate Reaches(cfg: Settings, s: DiskState, d: Document, input: TurnInput, target: Option<Document>) {
    ProposalFrom(cfg, Log(s), d, input.curator) == if target.Some? then Target(target.value) else NoProposal
  }

  lemma {:induction false} MessageIs(input: TurnInput, rs: seq<RawRecord>, d: Document)
    ensures OpenJournal(input, rs, d).user == Message(input, |rs|)
    ensures input.content != "" && input.stateId != "" ==> ValidRecord(Message(input, |rs|))
    ensures forall text :: AnswerRecord(input, text, |rs| + 2) == Reply(input, text, |rs|)
  {
  }

  // ---------------------------------------------------------------- a turn that fails

  /** The chat or the curator fails with this code. */
  ghost predicate FailsWith(cfg: Settings, s: DiskState, d: Document, input: TurnInput, code: string, retryable: bool) {
    || ProposalFrom(cfg, Log(s), d, input.curator) == ProposeFailed(code, retryable)
    || (input.chat == ChatFails(code, retryable) && exists target :: Reaches(cfg, s, d, input, target))
  }

  /** A code without blanks, and a journal with it that the guard accepts. */
  ghost predicate Recordable(cfg: Settings, s: DiskState, d: Document, input: TurnInput, code: string) {
    && code != "" && (forall c | c in code :: c != ' ' && c != '\t' && c != '\n' && c != '\r')
    && cfg.safe(cfg.journalText(OpenJournal(input, Log(s), d).(state := ReadyPending, failureCode := Some(code))))
  }

  /** The failure may pass by itself. */
  predicate Transient(code: string, retryable: bool) {
    retryable || (|code| >= 9 && code[..9] == "PROVIDER_") || (|code| >= 8 && code[..8] == "NETWORK_")
  }

  /** The decision, once the transaction is open. */
  lemma {:induction false} DecisionIs(cfg: Settings, rs: seq<RawRecord>, d: Document, input: TurnInput, p: Proposed)
    requires ValidRecord(OpenJournal(input, rs, d).user) && JournalSafe(cfg, OpenJournal(input, rs, d))
    requires p == ProposalFrom(cfg, rs, d, input.curator)
    ensures var j := OpenJournal(input, rs, d);
            DecisionOf(cfg, rs, d, input) ==
              match p
              case ProposeRejected => None
              case ProposeFailed(code, retryable) => KeptFailure(cfg, j, code, retryable)
              case NoProposal => ChatDecision(cfg, j, input, None)
              case Target(t) => ChatDecision(cfg, j, input, Some(t))
  {
  }

  lemma {:induction false} FailureDecides(cfg: Settings, s: DiskState, d: Document, input: TurnInput, code: string, retryable: bool)
    requires Opens(cfg, s, d, input) && FailsWith(cfg, s, d, input, code, retryable)
    ensures var j := OpenJournal(input, Log(s), d);
            DecisionOf(cfg, Log(s), d, input) == if Transient(code, retryable) && Recordable(cfg, s, d, input, code) then Some(PendingJournal(j, code)) else None
  {
    MessageIs(input, Log(s), d);
    DecisionIs(cfg, Log(s), d, input, ProposalFrom(cfg, Log(s), d, input.curator));
    KeptIff(cfg, s, d, input, code, retryable);
  }

  lemma {:induction false} KeptIff(cfg: Settings, s: DiskState, d: Document, input: TurnInput, code: string, retryable: bool)
    ensures var j := OpenJournal(input, Log(s), d);
            KeptFailure(cfg, j, code, retryable) == if Transient(code, retryable) && Recordable(cfg, s, d, input, code) then Some(PendingJournal(j, code)) else None
  {
  }

  lemma {:induction false} DoneAdds(cfg: Settings, s: DiskState, d: Document, j: Journal, records: seq<RawRecord>)
    requires Decision(cfg, s.segments, d, j) && records == [j.user] + (if j.assistant.Some? then [j.assistant.value] else [])
    ensures Added(s, records, FinalDocument(d, j), Done(cfg, s.segments, d, j))
  {
    DoneMeans(cfg, s.segments, d, j);
  }

  lemma {:induction false} EndsDone(cfg: Settings, s: DiskState, d: Document, input: TurnInput, j: Journal)
    requires Opens(cfg, s, d, input) && DecisionOf(cfg, Log(s), d, input) == Some(j) && Publishable(cfg, j)
    ensures Decision(cfg, s.segments, d, j) && End(s, RunTurnTrace(cfg, s, input)) == Done(cfg, s.segments, d, j)
  {
    var t := RunTurnTrace(cfg, s, input);
    var k := |t.writes| + |Stages(cfg, s.segments, d, j)| + 2;
    CrashedTurn(cfg, s, d, input, k);
    DecisionHolds(cfg, s, d, input);
    FarEnough(cfg, s.segments, d, j, k, After(s, t, k));
    PastTheEnd(s, t, k);
  }

  lemma {:induction false} PastTheEnd<T>(s: DiskState, t: Trace<T>, k: nat)
    requires k >= |t.writes|
    ensures After(s, t, k) == End(s, t)
  {
  }

  lemma {:induction false} FarEnough(cfg: Settings, segs: seq<Segment>, d: Document, j: Journal, k: nat, end: DiskState)
    requires k >= |Stages(cfg, segs, d, j)| + 2 && Publishable(cfg, j) && DecidedDisk(cfg, segs, d, j, k, end)
    ensures end == Done(cfg, segs, d, j)
  {
    LastOfStages(cfg, segs, d, j);
  }

  /** What a decision that can be published adds by the end of its turn. */
  lemma {:induction false} DecidedAdds(cfg: Settings, s: DiskState, d: Document, input: TurnInput, j: Journal, records: seq<RawRecord>)
    requires Opens(cfg, s, d, input) && DecisionOf(cfg, Log(s), d, input) == Some(j) && Publishable(cfg, j)
    requires records == [j.user] + (if j.assistant.Some? then [j.assistant.value] else [])
    ensures Added(s, records, FinalDocument(d, j), End(s, RunTurnTrace(cfg, s, input)))
    ensures Added(s, records, FinalDocument(d, j), Done(cfg, s.segments, d, j))
  {
    EndsDone(cfg, s, d, input, j);
    DoneAdds(cfg, s, d, j, records);
  }

  /** Without a target no crash blocks the way. */
  lemma {:induction false} SettlesDone(cfg: Settings, s: DiskState, d: Document, j: Journal, k: nat, bs: seq<Boot>, final: DiskState)
    requires k >= 2 && AllOrNothingAt(cfg, s, d, Some(j), k, bs, final) && Publishable(cfg, j) && j.target.None?
    ensures final == Done(cfg, s.segments, d, j)
  {
  }

  /** A fresh turn whose chat or curator fails, killed after any number of its steps or not at
      all, then any start-ups: the message is kept if and only if the failure is transient, can
      be recorded, and the crash came after it was. The log is then the old one plus exactly
      this message, waiting for its answer; otherwise the disk is as it was before the turn. */
  lemma {:induction false} FailureKeepsMessageIff(cfg: Settings, s: DiskState, d: Document, input: TurnInput, code: string, retryable: bool,
                                                  k: nat, bs: seq<Boot>, now: int)
    requires Opens(cfg, s, d, input) && FailsWith(cfg, s, d, input, code, retryable)
    requires Refusal(cfg, Message(input, |Log(s)|)).None?
    ensures var kept := Transient(code, retryable) && Recordable(cfg, s, d, input, code);
            var t := RunTurnTrace(cfg, s, input);
            var end := Boots(cfg, After(s, t, k), bs + [Boot(now, None)]);
            && (kept ==> Added(s, [Message(input, |Log(s)|)], d, End(s, t)))
            && (if kept && k >= 2 then Added(s, [Message(input, |Log(s)|)], d, end) else end == s)
  {
    var j := PendingJournal(OpenJournal(input, Log(s), d), code);
    MessageIs(input, Log(s), d);
    FailureDecides(cfg, s, d, input, code, retryable);
    AllOrNothing(cfg, s, d, input, k, bs, now);
    if Transient(code, retryable) && Recordable(cfg, s, d, input, code) {
      PendingAdds(cfg, s, d, input, j);
      if k >= 2 {
        SettlesDone(cfg, s, d, j, k, bs, Boots(cfg, After(s, RunTurnTrace(cfg, s, input), k), bs + [Boot(now, None)]));
      }
    }
  }

  lemma {:induction false} PendingAdds(cfg: Settings, s: DiskState, d: Document, input: TurnInput, j: Journal)
    requires Opens(cfg, s, d, input) && DecisionOf(cfg, Log(s), d, input) == Some(j) && Publishable(cfg, j)
    requires j.user == Message(input, |Log(s)|) && j.assistant.None? && j.target.None?
    ensures Added(s, [Message(input, |Log(s)|)], d, End(s, RunTurnTrace(cfg, s, input)))
    ensures Added(s, [Message(input, |Log(s)|)], d, Done(cfg, s.segments, d, j))
  {
    assert [j.user] + [] == [j.user];
    DecidedAdds(cfg, s, d, input, j, [j.user]);
  }

  // ---------------------------------------------------------------- a turn that is answered

  /** The answer can be journalled with its target, and all of it published. */
  ghost predicate Answerable(cfg: Settings, s: DiskState, d: Document, input: TurnInput, text: string, target: Option<Document>) {
    && text != "" && JournalSafe(cfg, ReadyJournal(OpenJournal(input, Log(s), d), Reply(input, text, |Log(s)|), target))
    && Refusal(cfg, Message(input, |Log(s)|)).None? && Refusal(cfg, Reply(input, text, |Log(s)|)).None?
    && (target.Some? ==> CommitFits(cfg, target.value))
  }

  lemma {:induction false} AnswerDecides(cfg: Settings, s: DiskState, d: Document, input: TurnInput, text: string, target: Option<Document>)
    requires Opens(cfg, s, d, input) && Reaches(cfg, s, d, input, target) && input.chat == Replies(text)
    requires Answerable(cfg, s, d, input, text, target)
    ensures var j := ReadyJournal(OpenJournal(input, Log(s), d), Reply(input, text, |Log(s)|), target);
            DecisionOf(cfg, Log(s), d, input) == Some(j) && Publishable(cfg, j)
  {
    MessageIs(input, Log(s), d);
    DecisionIs(cfg, Log(s), d, input, ProposalFrom(cfg, Log(s), d, input.curator));
  }

  /** A fresh turn that gets an answer ends over the old log plus its message and this answer,
      with the curator's document if there is one. */
  lemma {:induction false} AnswerIsKept(cfg: Settings, s: DiskState, d: Document, input: TurnInput, text: string, target: Option<Document>)
    requires Opens(cfg, s, d, input) && Reaches(cfg, s, d, input, target) && input.chat == Replies(text)
    requires Answerable(cfg, s, d, input, text, target)
    ensures var t := RunTurnTrace(cfg, s, input);
            && Added(s, [Message(input, |Log(s)|), Reply(input, text, |Log(s)|)], if target.Some? then target.value else d, End(s, t))
            && t.outcome == Ok(Shown(text))
  {
    var j := ReadyJournal(OpenJournal(input, Log(s), d), Reply(input, text, |Log(s)|), target);
    MessageIs(input, Log(s), d);
    AnswerDecides(cfg, s, d, input, text, target);
    assert [Message(input, |Log(s)|)] + [Reply(input, text, |Log(s)|)] == [Message(input, |Log(s)|), Reply(input, text, |Log(s)|)];
    DecidedAdds(cfg, s, d, input, j, [Message(input, |Log(s)|), Reply(input, text, |Log(s)|)]);
    EndsDone(cfg, s, d, input, j);
    AnswerIsShown(cfg, s, d, input, text, target, j);
  }

  // ---------------------------------------------------------------- how it ends

  /** A turn that is opened is its open journal and then what the curator leads to. */
  lemma {:induction false} TurnIs(cfg: Settings, s: DiskState, d: Document, input: TurnInput, s1: DiskState)
    requires Opens(cfg, s, d, input) && s1 == s.(journal := JournalOf(OpenJournal(input, Log(s), d)))
    ensures var rest := CuratedTurnTrace(cfg, s1, input, Message(input, |Log(s)|), ProposalFrom(cfg, Log(s), d, input.curator));
            RunTurnTrace(cfg, s, input) == Trace([s1] + rest.writes, rest.outcome)
  {
    var user := Message(input, |Log(s)|);
    MessageIs(input, Log(s), d);
    NoSuchTurn(Log(s), input.turn);
    OpensWith(cfg, s, d, input);
    ProposesOver(cfg, s, d, s1.journal, input);
    AfterQuiet(ProposeTrace(cfg, s1, input), CuratedTurnTrace(cfg, s1, input, user, ProposalFrom(cfg, Log(s), d, input.curator)));
    PreparedIs(cfg, s1, input, user, ProposalFrom(cfg, Log(s), d, input.curator));
    OpenedIs(cfg, s, input, Log(s), user, s1);
    RunIsFresh(cfg, s, input, user);
  }

  lemma {:induction false} PreparedIs(cfg: Settings, s: DiskState, input: TurnInput, user: RawRecord, p: Proposed)
    requires ProposeTrace(cfg, s, input) == Trace([], Ok(p))
    ensures PreparedTurnTrace(cfg, s, input, user) == CuratedTurnTrace(cfg, s, input, user, p)
  {
    AfterQuiet(ProposeTrace(cfg, s, input), CuratedTurnTrace(cfg, s, input, user, p));
  }

  lemma {:induction false} OpenedIs(cfg: Settings, s: DiskState, input: TurnInput, rs: seq<RawRecord>, user: RawRecord, s1: DiskState)
    requires OpenTrace(cfg, s, input, rs, user) == Trace([s1], Ok(()))
    ensures var rest := PreparedTurnTrace(cfg, s1, input, user);
            OpenedTurnTrace(cfg, s, input, rs, user) == Trace([s1] + rest.writes, rest.outcome)
  {
  }

  lemma {:induction false} RunIsFresh(cfg: Settings, s: DiskState, input: TurnInput, user: RawRecord)
    requires ReadSegments(s.segments).Ok? && TurnRecords(Log(s), input.turn) == []
    requires user == UserRecord(input, |Log(s)| + 1) && ValidRecord(user)
    ensures RunTurnTrace(cfg, s, input) == OpenedTurnTrace(cfg, s, input, Log(s), user)
  {
  }

  lemma {:induction false} MessageIsNew(s: DiskState, input: TurnInput)
    requires FreshTurnInput(Log(s), input)
    ensures Message(input, |Log(s)|).id !in IdsOf(Log(s))
  {
    assert forall i | 0 <= i < |Log(s)| :: IdsOf(Log(s))[i] == Log(s)[i].id;
  }

  /** With the gate open the rest is the chat. */
  lemma {:induction false} ChatIs(cfg: Settings, s: DiskState, d: Document, input: TurnInput, s1: DiskState, target: Option<Document>)
    requires Opens(cfg, s, d, input) && Reaches(cfg, s, d, input, target) && s1 == s.(journal := JournalOf(OpenJournal(input, Log(s), d)))
    ensures var rest := ChatTrace(cfg, s1, input, Message(input, |Log(s)|), target);
            RunTurnTrace(cfg, s, input) == Trace([s1] + rest.writes, rest.outcome)
  {
    var user := Message(input, |Log(s)|);
    TurnIs(cfg, s, d, input, s1);
    MessageIsNew(s, input);
    GateOpens(cfg, s, d, s1.journal, user, input.now);
    AnsweredIsChat(cfg, s1, input, user, target);
    CuratedIs(cfg, s1, input, user, ProposalFrom(cfg, Log(s), d, input.curator), target);
  }

  lemma {:induction false} CuratedIs(cfg: Settings, s: DiskState, input: TurnInput, user: RawRecord, p: Proposed, target: Option<Document>)
    requires p == if target.Some? then Target(target.value) else NoProposal
    ensures CuratedTurnTrace(cfg, s, input, user, p) == AnsweredTurnTrace(cfg, s, input, user, target)
  {
  }

  lemma {:induction false} AnsweredIsChat(cfg: Settings, s: DiskState, input: TurnInput, user: RawRecord, target: Option<Document>)
    requires GateTrace(cfg, s, user, input.now) == Trace([], Ok(()))
    ensures AnsweredTurnTrace(cfg, s, input, user, target) == ChatTrace(cfg, s, input, user, target)
  {
    AfterQuiet(GateTrace(cfg, s, user, input.now), ChatTrace(cfg, s, input, user, target));
  }

  lemma {:induction false} AnswerIsShown(cfg: Settings, s: DiskState, d: Document, input: TurnInput, text: string, target: Option<Document>, j: Journal)
    requires Opens(cfg, s, d, input) && Reaches(cfg, s, d, input, target) && input.chat == Replies(text)
    requires Answerable(cfg, s, d, input, text, target) && Decision(cfg, s.segments, d, j)
    requires j == ReadyJournal(OpenJournal(input, Log(s), d), Reply(input, text, |Log(s)|), target)
    ensures RunTurnTrace(cfg, s, input).outcome == Ok(Shown(text))
  {
    var open := OpenJournal(input, Log(s), d);
    var s1, assistant := s.(journal := JournalOf(open)), Reply(input, text, |Log(s)|);
    MessageIs(input, Log(s), d);
    ChatIs(cfg, s, d, input, s1, target);
    OpenJournalLoads(cfg, open);
    ReadyWrites(cfg, s1, open, assistant, target);
    CommitIsStages(cfg, s.segments, d, j, input.now);
    FirstIsStage(cfg, s.segments, d, j);
    LastOfStages(cfg, s.segments, d, j);
    AnsweredIs(cfg, s1, Message(input, |Log(s)|), input, target, assistant);
    Finishes(cfg, s1, StageAt(cfg, s.segments, j, 0, d, d), assistant, target, input.now, Stages(cfg, s.segments, d, j));
    ReplyIsRead(cfg, s.segments, d, j, Done(cfg, s.segments, d, j), assistant);
  }

  lemma {:induction false} Finishes(cfg: Settings, s1: DiskState, s2: DiskState, assistant: RawRecord, target: Option<Document>, now: int, all: seq<DiskState>)
    requires ReadyTrace(cfg, s1, assistant, target) == Trace([s2], Ok(()))
    requires |all| > 1 && CommitJournalTrace(cfg, s2, now) == Trace(all[1..], Ok(()))
    ensures FinishTurnTrace(cfg, s1, assistant, target, now).outcome == PublishedText(all[|all| - 1], assistant.id)
  {
    var done := Then(ReadyTrace(cfg, s1, assistant, target), CommitJournalTrace(cfg, s2, now));
    assert done.writes == [s2] + all[1..];
  }

  lemma {:induction false} ReplyIsRead(cfg: Settings, segs: seq<Segment>, d: Document, j: Journal, s: DiskState, assistant: RawRecord)
    requires Decision(cfg, segs, d, j) && s == Done(cfg, segs, d, j) && j.assistant == Some(assistant)
    ensures PublishedText(s, assistant.id) == Ok(Shown(assistant.content))
  {
    DoneMeans(cfg, segs, d, j);
    FinalLog(cfg, segs, j, s);
    assert Log(s)[|Log(s)| - 1] == assistant;
    ByIdAt(Log(s), |Log(s)| - 1);
  }

  /** A turn that fails says so with the code it failed with. */
  lemma {:induction false} FailureIsReported(cfg: Settings, s: DiskState, d: Document, input: TurnInput, code: string, retryable: bool)
    requires Opens(cfg, s, d, input) && FailsWith(cfg, s, d, input, code, retryable) && Refusal(cfg, Message(input, |Log(s)|)).None?
    requires Transient(code, retryable) ==> Recordable(cfg, s, d, input, code)
    ensures RunTurnTrace(cfg, s, input).outcome == Err(code)
  {
    var s1 := s.(journal := JournalOf(OpenJournal(input, Log(s), d)));
    FailureEnds(cfg, s, d, input, code, retryable, s1);
    FailsThrough(cfg, s, d, input, code, retryable, s1);
  }

  /** Both ways to fail lead to the same handler. */
  lemma {:induction false} FailsThrough(cfg: Settings, s: DiskState, d: Document, input: TurnInput, code: string, retryable: bool, s1: DiskState)
    requires Opens(cfg, s, d, input) && FailsWith(cfg, s, d, input, code, retryable)
    requires s1 == s.(journal := JournalOf(OpenJournal(input, Log(s), d)))
    ensures RunTurnTrace(cfg, s, input).outcome == FailTurnTrace(cfg, s1, code, retryable, input.now).outcome
  {
    if ProposalFrom(cfg, Log(s), d, input.curator) == ProposeFailed(code, retryable) {
      TurnIs(cfg, s, d, input, s1);
      FailedCuration(cfg, s1, input, Message(input, |Log(s)|), code, retryable);
    } else {
      var target :| Reaches(cfg, s, d, input, target);
      ChatIs(cfg, s, d, input, s1, target);
      FailedChat(cfg, s1, input, Message(input, |Log(s)|), target);
    }
  }

  lemma {:induction false} FailedCuration(cfg: Settings, s: DiskState, input: TurnInput, user: RawRecord, code: string, retryable: bool)
    ensures CuratedTurnTrace(cfg, s, input, user, ProposeFailed(code, retryable)) == FailTurnTrace(cfg, s, code, retryable, input.now)
  {
  }

  lemma {:induction false} FailedChat(cfg: Settings, s: DiskState, input: TurnInput, user: RawRecord, target: Option<Document>)
    requires input.chat.ChatFails?
    ensures ChatTrace(cfg, s, input, user, target) == FailTurnTrace(cfg, s, input.chat.code, input.chat.retryable, input.now)
  {
  }

  lemma {:induction false} FailureEnds(cfg: Settings, s: DiskState, d: Document, input: TurnInput, code: string, retryable: bool, s1: DiskState)
    requires Opens(cfg, s, d, input) && FailsWith(cfg, s, d, input, code, retryable) && Refusal(cfg, Message(input, |Log(s)|)).None?
    requires Transient(code, retryable) ==> Recordable(cfg, s, d, input, code)
    requires s1 == s.(journal := JournalOf(OpenJournal(input, Log(s), d)))
    ensures FailTurnTrace(cfg, s1, code, retryable, input.now).outcome == Err(code)
  {
    if Transient(code, retryable) {
      var j := PendingJournal(OpenJournal(input, Log(s), d), code);
      PendingCommits(cfg, s, d, input, code, retryable, j);
      PendingOver(cfg, s, d, input, code, s1, j);
      FailsAfter(cfg, s1, s.(journal := JournalOf(j)), code, retryable, input.now);
    }
  }

  lemma {:induction false} PendingOver(cfg: Settings, s: DiskState, d: Document, input: TurnInput, code: string, s1: DiskState, j: Journal)
    requires Opens(cfg, s, d, input) && Recordable(cfg, s, d, input, code)
    requires s1 == s.(journal := JournalOf(OpenJournal(input, Log(s), d))) && j == PendingJournal(OpenJournal(input, Log(s), d), code)
    ensures PendingTrace(cfg, s1, code) == Trace([s.(journal := JournalOf(j))], Ok(()))
  {
    MessageIs(input, Log(s), d);
    OpenJournalLoads(cfg, OpenJournal(input, Log(s), d));
    PendingWrites(cfg, s1, OpenJournal(input, Log(s), d), code);
  }

  lemma {:induction false} PendingCommits(cfg: Settings, s: DiskState, d: Document, input: TurnInput, code: string, retryable: bool, j: Journal)
    requires Opens(cfg, s, d, input) && FailsWith(cfg, s, d, input, code, retryable) && Refusal(cfg, Message(input, |Log(s)|)).None?
    requires Transient(code, retryable) && Recordable(cfg, s, d, input, code) && j == PendingJournal(OpenJournal(input, Log(s), d), code)
    ensures CommitJournalTrace(cfg, s.(journal := JournalOf(j)), input.now).outcome.Ok?
  {
    MessageIs(input, Log(s), d);
    FailureDecides(cfg, s, d, input, code, retryable);
    EndsDone(cfg, s, d, input, j);
    CommitIsStages(cfg, s.segments, d, j, input.now);
    FirstIsStage(cfg, s.segments, d, j);
    assert s.(journal := JournalOf(j)) == StageAt(cfg, s.segments, j, 0, d, d);
  }

  lemma {:induction false} FailsAfter(cfg: Settings, s1: DiskState, s2: DiskState, code: string, retryable: bool, now: int)
    requires PendingTrace(cfg, s1, code) == Trace([s2], Ok(())) && CommitJournalTrace(cfg, s2, now).outcome.Ok?
    ensures FailTurnTrace(cfg, s1, code, retryable, now).outcome == Err(code)
  {
  }

  /** The user rejects one of the two prompts, or there is no answer to keep. */
  ghost predicate Abandoned(cfg: Settings, s: DiskState, d: Document, input: TurnInput) {
    || ProposalFrom(cfg, Log(s), d, input.curator).ProposeRejected?
    || ((input.chat.ChatRejected? || input.chat.Cancelled? || input.chat.AssemblyFails?) && exists target :: Reaches(cfg, s, d, input, target))
  }

  lemma {:induction false} AbandonedDecides(cfg: Settings, s: DiskState, d: Document, input: TurnInput)
    requires Opens(cfg, s, d, input) && Abandoned(cfg, s, d, input)
    ensures DecisionOf(cfg, Log(s), d, input).None?
  {
    var p := ProposalFrom(cfg, Log(s), d, input.curator);
    MessageIs(input, Log(s), d);
    DecisionIs(cfg, Log(s), d, input, p);
    if !p.ProposeRejected? {
      var target :| Reaches(cfg, s, d, input, target);
      NothingToKeep(cfg, OpenJournal(input, Log(s), d), input, target);
    }
  }

  lemma {:induction false} NothingToKeep(cfg: Settings, j: Journal, input: TurnInput, target: Option<Document>)
    requires input.chat.ChatRejected? || input.chat.Cancelled? || input.chat.AssemblyFails?
    ensures ChatDecision(cfg, j, input, target).None?
  {
  }

  /** A turn that the user rejects, or that is cancelled or cannot be assembled, leaves nothing. */
  lemma {:induction false} OthersLeaveNothing(cfg: Settings, s: DiskState, d: Document, input: TurnInput, k: nat, bs: seq<Boot>, now: int)
    requires Opens(cfg, s, d, input) && Abandoned(cfg, s, d, input)
    ensures Boots(cfg, After(s, RunTurnTrace(cfg, s, input), k), bs + [Boot(now, None)]) == s
  {
    AbandonedDecides(cfg, s, d, input);
    AllOrNothing(cfg, s, d, input, k, bs, now);
  }

  /** A turn whose chat is rejected ends without an error, over the disk it started from. */
  lemma {:induction false} RejectedTurnEnds(cfg: Settings, s: DiskState, d: Document, input: TurnInput, target: Option<Document>)
    requires Opens(cfg, s, d, input) && Reaches(cfg, s, d, input, target) && input.chat.ChatRejected?
    ensures var t := RunTurnTrace(cfg, s, input); t.outcome == Ok(Rejected) && End(s, t) == s
  {
    var s1 := s.(journal := JournalOf(OpenJournal(input, Log(s), d)));
    ChatIs(cfg, s, d, input, s1, target);
    RejectedChat(cfg, s, d, input, s1, target);
  }

  lemma {:induction false} RejectedChat(cfg: Settings, s: DiskState, d: Document, input: TurnInput, s1: DiskState, target: Option<Document>)
    requires Opens(cfg, s, d, input) && input.chat.ChatRejected? && s1 == s.(journal := JournalOf(OpenJournal(input, Log(s), d)))
    ensures ChatTrace(cfg, s1, input, Message(input, |Log(s)|), target) == Trace([s], Ok(Rejected))
  {
    MessageIs(input, Log(s), d);
    OpenJournalLoads(cfg, OpenJournal(input, Log(s), d));
    RejectIs(cfg, s1, OpenJournal(input, Log(s), d));
    assert s1.(journal := NoJournal) == s;
  }

  lemma {:induction false} RejectIs(cfg: Settings, s: DiskState, j: Journal)
    requires s.journal == JournalOf(j) && LoadJournal(cfg, s.journal) == Ok(Some(j)) && j.state == Prepared
    ensures RejectTrace(cfg, s) == Trace([s.(journal := NoJournal)], Ok(Rejected))
  {
  }
}
