/** How `chat` starts over what is on the disk, and how a resumed turn ends. */
module StartUps {
  import opened Outcomes
  import opened Models
  import opened Storage
  import opened RawArchive
  import opened Curation
  import opened Controller
  import opened Safety
  import opened Turns
  import opened Session
  import opened Atomicity
  import opened Resumed

  // ---------------------------------------------------------------- starting

  lemma {:induction false} StartsOver(cfg: Settings, s: DiskState, resume: bool, now: int)
    requires BootTrace(cfg, s, now) == Trace([], Ok(()))
    ensures StartTrace(cfg, s, resume, now) == ResolveTrace(cfg, s, resume)
  {
    AfterQuiet(BootTrace(cfg, s, now), ResolveTrace(cfg, s, resume));
  }

  lemma {:induction false} DiscardDrops(cfg: Settings, s: DiskState, d: Document, user: RawRecord)
    requires Waiting(cfg, s, d, user)
    ensures DiscardPendingTrace(cfg, s, Some(user.turn)) == Trace([Dropped(s)], Ok(Some(user.turn)))
  {
    WaitingLoads(cfg, s, d, user, 0);
    DiscardIsNeverBlocked(cfg, s, user);
    DiscardCases(cfg, s, Some(user.turn));
  }

  lemma {:induction false} ResolvesWaiting(cfg: Settings, s: DiskState, user: RawRecord, resume: bool)
    requires ReadSegments(s.segments).Ok? && PendingOf(Log(s)) == Some(user)
    ensures ResolveTrace(cfg, s, resume)
            == if resume then Trace([], Ok(Resuming(user.turn))) else Then(DiscardPendingTrace(cfg, s, Some(user.turn)), Trace([], Ok(Idle)))
  {
  }

  /** Over a message without an answer: with `--resume` the session goes on with exactly its turn
      and nothing is written; without it the message goes, in one write, and nothing else. */
  lemma {:induction false} StartOverPending(cfg: Settings, s: DiskState, d: Document, user: RawRecord, resume: bool, now: int)
    requires Waiting(cfg, s, d, user)
    ensures StartTrace(cfg, s, resume, now) == if resume then Trace([], Ok(Resuming(user.turn))) else Trace([Dropped(s)], Ok(Idle))
    ensures Log(Dropped(s)) == Log(s)[..|Log(s)| - 1] && Dropped(s) == s.(segments := Dropped(s).segments)
  {
    WaitingBoot(cfg, s, d, user, now);
    StartsOver(cfg, s, resume, now);
    PendingReads(cfg, s, user);
    ResolvesWaiting(cfg, s, user, resume);
    DiscardDrops(cfg, s, d, user);
    DroppedLog(cfg, s, user);
    AnsweredIsFront(Log(s), user);
  }

  lemma {:induction false} PendingReads(cfg: Settings, s: DiskState, user: RawRecord)
    requires Pending(cfg, s, user)
    ensures ReadSegments(s.segments).Ok?
  {
    LogWellFormed(s);
  }

  lemma {:induction false} AnsweredIsFront(rs: seq<RawRecord>, user: RawRecord)
    requires PendingOf(rs) == Some(user)
    ensures AnsweredPart(rs) == rs[..|rs| - 1]
  {
  }

  /** Between turns a start-up changes nothing and waits for input. */
  lemma {:induction false} StartOverWholeTurns(cfg: Settings, s: DiskState, d: Document, resume: bool, now: int)
    requires Clean(cfg, s, d)
    ensures StartTrace(cfg, s, resume, now) == Trace([], Ok(Idle))
  {
    QuietBoot(cfg, s, d, now);
    StartsOver(cfg, s, resume, now);
    LogWellFormed(s);
  }

  // ---------------------------------------------------------------- a resumed turn that is answered

  /** The record that answers the waiting message, at the end of the log. */
  function LateReply(input: TurnInput, text: string, n: nat): RawRecord {
    RawRecord(input.assistantId, n + 1, input.turn, Assistant, text, input.now, input.stateId, input.configRevision, Digest(text))
  }

  lemma {:induction false} AnswerIs(s: DiskState, input: TurnInput, text: string)
    ensures Answer(s, input, text) == LateReply(input, text, |Log(s)|)
  {
  }

  lemma {:induction false} ChatShows(cfg: Settings, s: DiskState, d: Document, input: TurnInput, user: RawRecord, text: string)
    requires Waiting(cfg, s, d, user) && user.turn == input.turn && input.chat == Replies(text) && Takes(cfg, s, input, text)
    requires input.assistantId !in IdsIn(Log(s))
    ensures AnsweredResumeTrace(cfg, s, input, user) == Trace([Appended(cfg, s, Answer(s, input, text))], Ok(Shown(text)))
  {
    WaitingGate(cfg, s, d, user, input.now);
    AfterQuiet(GateTrace(cfg, s, user, input.now), ResumeChatTrace(cfg, s, input));
    AppendAnswers(cfg, s, input, user, text);
  }

  ghost function IdsIn(rs: seq<RawRecord>): set<string> {
    set r | r in rs :: r.id
  }

  lemma {:induction false} AppendAnswers(cfg: Settings, s: DiskState, input: TurnInput, user: RawRecord, text: string)
    requires Pending(cfg, s, user) && user.turn == input.turn && Takes(cfg, s, input, text)
    ensures AppendTrace(cfg, s, AnswerRecord(input, text, 0)) == Trace([Appended(cfg, s, Answer(s, input, text))], Ok(Answer(s, input, text)))
  {
    LogWellFormed(s);
    TailIsAlone(Log(s));
  }

  /** A resumed turn that gets an answer shows exactly this text; the log then ends with it, right
      after the message that waited. */
  lemma {:induction false} ResumedAnswer(cfg: Settings, s: DiskState, d: Document, input: TurnInput, user: RawRecord, text: string)
    requires ValidSettings(cfg) && Waiting(cfg, s, d, user) && input.resume && user.turn == input.turn && input.chat == Replies(text)
    requires ProposalFrom(cfg, Log(s), d, input.curator) == NoProposal && Takes(cfg, s, input, text) && input.assistantId !in IdsIn(Log(s))
    ensures var t := RunTurnTrace(cfg, s, input);
            && t.outcome == Ok(Shown(text)) && Log(End(s, t)) == Log(s) + [LateReply(input, text, |Log(s)|)]
            && End(s, t) == s.(segments := End(s, t).segments)
  {
    ResumedIsChat(cfg, s, d, input, user);
    ChatShows(cfg, s, d, input, user, text);
    AnswerIs(s, input, text);
    NewId(s, input);
    AnswerLog(cfg, s, input, user, text);
  }

  lemma {:induction false} ResumedIsChat(cfg: Settings, s: DiskState, d: Document, input: TurnInput, user: RawRecord)
    requires Waiting(cfg, s, d, user) && input.resume && user.turn == input.turn && ProposalFrom(cfg, Log(s), d, input.curator) == NoProposal
    ensures RunTurnTrace(cfg, s, input) == AnsweredResumeTrace(cfg, s, input, user)
  {
    LogWellFormed(s);
    PendingIsAlone(Log(s), user);
    ResumedIsCurated(cfg, s, d, input, user);
    ResumedRuns(cfg, s, input, user);
    NoTarget(cfg, s, d, input, user);
  }

  lemma {:induction false} NoTarget(cfg: Settings, s: DiskState, d: Document, input: TurnInput, user: RawRecord)
    ensures CuratedResumeTrace(cfg, s, input, user, NoProposal, false, Some(Holds(d))) == AnsweredResumeTrace(cfg, s, input, user)
  {
  }

  lemma {:induction false} NewId(s: DiskState, input: TurnInput)
    requires input.assistantId !in IdsIn(Log(s))
    ensures input.assistantId !in IdsOf(Log(s))
  {
  }

  lemma {:induction false} ResumedRuns(cfg: Settings, s: DiskState, input: TurnInput, user: RawRecord)
    requires ReadSegments(s.segments).Ok? && TurnRecords(Log(s), input.turn) == [user] && input.resume && user.role == User
    ensures RunTurnTrace(cfg, s, input) == ResumedTurnTrace(cfg, s, input, user)
  {
  }
}
