/** One whole turn, fresh or resumed, keeps the disk safe at every atomic step. */
module Turns {
  import opened Outcomes
  import opened Models
  import opened Storage
  import opened RawArchive
  import opened LongTerm
  import opened Transaction
  import opened Curation
  import opened Coherence
  import opened Controller
  import opened Safety

  /** Between turns: no journal and no unanswered USER. */
  ghost predicate Settled(cfg: Settings, s: DiskState) {
    SafeDisk(cfg, s) && s.journal.NoJournal? && CompletePairs(Log(s))
  }

  predicate Answers(rs: seq<RawRecord>, text: string) {
    exists r | r in rs :: r.role == Assistant && r.content == text
  }

  /** What a turn promises: every step is safe over `base`; if it ends without an exception
      the disk is settled again; and a text is shown only when it is in the log. */
  ghost predicate TurnKeeps(cfg: Settings, base: seq<RawRecord>, s: DiskState, t: Trace<TurnEnd>) {
    && Safe(cfg, base, t)
    && (t.outcome.Ok? ==> Settled(cfg, End(s, t)))
    && (t.outcome.Ok? && t.outcome.value.Shown? ==> Answers(Log(End(s, t)), t.outcome.value.text))
  }

  lemma {:induction false} KeepsThen<T>(cfg: Settings, base: seq<RawRecord>, s: DiskState, t: Trace<T>, u: Trace<TurnEnd>)
    requires Safe(cfg, base, t) && (t.outcome.Ok? ==> TurnKeeps(cfg, base, End(s, t), u))
    requires !t.outcome.Crashed?
    ensures TurnKeeps(cfg, base, s, Then(t, u))
  {
    SafeThen(cfg, base, t, u);
    if t.outcome.Ok? {
      ThenEnd(s, t, u);
    }
  }

  // ---------------------------------------------------------------- a journalled turn

  /** The disk of an open turn: PREPARED over the settled log. */
  ghost predicate Opened(cfg: Settings, s: DiskState, j: Journal, baseline: seq<RawRecord>) {
    && SafeDisk(cfg, s) && s.journal == JournalOf(j) && Log(s) == baseline
    && Anchored(j, baseline, baseline)
    && j.state == Prepared && j.assistant.None? && j.target.None? && j.failureCode.None?
  }

  lemma {:induction false} AnchorNew(j: Journal, baseline: seq<RawRecord>)
    requires WellFormedLog(baseline) && CompletePairs(baseline)
    requires ValidRecord(j.user) && j.user.role == User && j.user.sequence == |baseline| + 1
    requires Fresh(baseline, j.user) && j.assistant.None? && j.target.None?
    requires j.checkpoint.rawIdentity == Identity(baseline)
    ensures Anchored(j, baseline, baseline)
  {
    assert Full(j, baseline) == baseline + [j.user];
  }

  /** `begin` over a settled log writes a PREPARED journal that stands on it, or nothing. */
  lemma {:induction false} BeginSafe(cfg: Settings, s: DiskState, d: Document, input: TurnInput, user: RawRecord)
    requires Settled(cfg, s)
    requires user == UserRecord(input, |Log(s)| + 1) && ValidRecord(user) && Fresh(Log(s), user)
    ensures var t := BeginTrace(cfg, s, Capture(Log(s), d, input.stateId), user, input.transactionId);
            && !t.outcome.Crashed? && Safe(cfg, Log(s), t)
            && (t.outcome.Ok? ==> exists j :: Opened(cfg, End(s, t), j, Log(s)) && j.user == user && j.turn == user.turn)
  {
    var checkpoint := Capture(Log(s), d, input.stateId);
    var j := Journal(Prepared, input.transactionId, user.turn, checkpoint, user, None, None, None, None);
    var t := BeginTrace(cfg, s, checkpoint, user, input.transactionId);
    LogWellFormed(s);
    AnchorNew(j, Log(s));
    var next := s.(journal := JournalOf(j));
    JournalStep(cfg, s, j, Log(s));
    BeginShape(cfg, s, checkpoint, user, input.transactionId);
    if t.outcome.Ok? {
      assert Opened(cfg, next, j, Log(s));
    }
  }

  lemma {:induction false} BeginShape(cfg: Settings, s: DiskState, checkpoint: PreTurnCheckpoint, user: RawRecord, transactionId: string)
    ensures var t := BeginTrace(cfg, s, checkpoint, user, transactionId);
            && !t.outcome.Crashed?
            && t.writes == if t.outcome.Ok? then
                 [s.(journal := JournalOf(Journal(Prepared, transactionId, user.turn, checkpoint, user, None, None, None, None)))] else []
  {
  }

  /** Writing a journal that stands on the log keeps the disk safe. */
  lemma {:induction false} JournalStep(cfg: Settings, s: DiskState, j: Journal, baseline: seq<RawRecord>)
    requires SafeDisk(cfg, s) && Anchored(j, baseline, Log(s))
    ensures var next := s.(journal := JournalOf(j)); SafeDisk(cfg, next) && Log(next) == Log(s)
  {
  }

  lemma {:induction false} OpenSafe(cfg: Settings, s: DiskState, input: TurnInput, user: RawRecord)
    requires Settled(cfg, s)
    requires user == UserRecord(input, |Log(s)| + 1) && ValidRecord(user) && Fresh(Log(s), user)
    ensures var t := OpenTrace(cfg, s, input, Log(s), user);
            && !t.outcome.Crashed? && Safe(cfg, Log(s), t)
            && (t.outcome.Ok? ==> exists j :: Opened(cfg, End(s, t), j, Log(s)) && j.user == user && j.turn == user.turn)
  {
    var load := LoadTrace(cfg, s, input.now);
    LoadSafe(cfg, Log(s), s, input.now);
    if load.outcome.Ok? {
      var s1, d := End(s, load), load.outcome.value.document;
      var begin := BeginTrace(cfg, s1, Capture(Log(s), d, input.stateId), user, input.transactionId);
      assert Log(s1) == Log(s);
      BeginSafe(cfg, s1, d, input, user);
      ThenEnd(s, load, begin);
      SafeThen(cfg, Log(s), load, begin);
    }
  }

  lemma {:induction false} RejectKeeps(cfg: Settings, s: DiskState, j: Journal, baseline: seq<RawRecord>)
    requires Opened(cfg, s, j, baseline)
    ensures TurnKeeps(cfg, baseline, s, RejectTrace(cfg, s))
  {
  }

  lemma {:induction false} PendingShapeOf(cfg: Settings, s: DiskState, j: Journal, code: string)
    requires s.journal == JournalOf(j)
    ensures var t := PendingTrace(cfg, s, code);
            && !t.outcome.Crashed?
            && t.writes == if t.outcome.Ok? then [s.(journal := JournalOf(j.(state := ReadyPending, failureCode := Some(code))))] else []
  {
  }

  lemma {:induction false} FailKeeps(cfg: Settings, s: DiskState, j: Journal, baseline: seq<RawRecord>, code: string, retryable: bool, now: int)
    requires ValidSettings(cfg) && Opened(cfg, s, j, baseline)
    ensures TurnKeeps(cfg, baseline, s, FailTurnTrace(cfg, s, code, retryable, now))
  {
    var pending := PendingTrace(cfg, s, code);
    var s1 := End(s, pending);
    var commit := CommitJournalTrace(cfg, s1, now);
    PendingShapeOf(cfg, s, j, code);
    PendingThenCommit(cfg, s, j, baseline, code, now);
    FailedKeeps(cfg, baseline, s, Then(pending, commit), code);
  }

  lemma {:induction false} FailedKeeps(cfg: Settings, baseline: seq<RawRecord>, s: DiskState, t: Trace<()>, code: string)
    requires Safe(cfg, baseline, t)
    ensures TurnKeeps(cfg, baseline, s, Fail(t, code)) && TurnKeeps(cfg, baseline, s, Trace([], Err(code)))
  {
  }

  lemma {:induction false} PendingThenCommit(cfg: Settings, s: DiskState, j: Journal, baseline: seq<RawRecord>, code: string, now: int)
    requires ValidSettings(cfg) && Opened(cfg, s, j, baseline)
    requires var t := PendingTrace(cfg, s, code);
             t.writes == if t.outcome.Ok? then [s.(journal := JournalOf(j.(state := ReadyPending, failureCode := Some(code))))] else []
    ensures var t := PendingTrace(cfg, s, code);
            Safe(cfg, baseline, Then(t, CommitJournalTrace(cfg, End(s, t), now)))
  {
    var t := PendingTrace(cfg, s, code);
    var j' := j.(state := ReadyPending, failureCode := Some(code));
    JournalStep(cfg, s, j', baseline);
    if t.outcome.Ok? {
      CommitJournalSafe(cfg, End(s, t), now);
    }
    SafeThen(cfg, baseline, t, CommitJournalTrace(cfg, End(s, t), now));
  }

  lemma {:induction false} AnchorUnique(j: Journal, a: seq<RawRecord>, b: seq<RawRecord>, rs: seq<RawRecord>)
    requires Anchored(j, a, rs) && Anchored(j, b, rs) && |rs| >= |a|
    ensures a == b
  {
    assert |Identity(a)| == |a| && |Identity(b)| == |b|;
    assert a == Full(j, a)[..|a|] == rs[..|a|];
    assert b == Full(j, b)[..|b|] == rs[..|b|];
  }

  lemma {:induction false} AnchorReady(j: Journal, baseline: seq<RawRecord>, assistant: RawRecord, target: Option<Document>)
    requires Anchored(j, baseline, baseline) && j.assistant.None?
    requires j.user.role == User
    requires ValidRecord(assistant) && assistant.sequence == |baseline| + 2 && assistant.role == Assistant
    requires assistant.turn == j.user.turn && assistant.id != j.user.id && Fresh(baseline, assistant)
    requires target.Some? ==> Coherent(target.value, baseline)
    ensures Anchored(ReadyJournal(j, assistant, target), baseline, baseline)
    ensures CompletePairs(Full(ReadyJournal(j, assistant, target), baseline))
  {
    var full := Full(ReadyJournal(j, assistant, target), baseline);
    assert full == Full(j, baseline) + [assistant];
    assert Full(j, baseline)[|baseline|] == j.user;
  }

  /** `ready` writes the decision, or refuses and writes nothing. */
  lemma {:induction false} ReadySafe(cfg: Settings, s: DiskState, j: Journal, baseline: seq<RawRecord>, assistant: RawRecord, target: Option<Document>)
    requires Opened(cfg, s, j, baseline) && Anchored(ReadyJournal(j, assistant, target), baseline, baseline)
    ensures var t := ReadyTrace(cfg, s, assistant, target);
            && !t.outcome.Crashed? && Safe(cfg, baseline, t)
            && (t.outcome.Ok? ==>
                  && SafeDisk(cfg, End(s, t)) && Log(End(s, t)) == baseline
                  && End(s, t).journal == JournalOf(ReadyJournal(j, assistant, target)))
  {
    var j' := ReadyJournal(j, assistant, target);
    JournalStep(cfg, s, j', baseline);
    ReadyShape(cfg, s, j, assistant, target);
    OneWriteSafe(cfg, baseline, s, s.(journal := JournalOf(j')), ReadyTrace(cfg, s, assistant, target));
  }

  lemma {:induction false} OneWriteSafe(cfg: Settings, base: seq<RawRecord>, s: DiskState, next: DiskState, t: Trace<()>)
    requires SafeDisk(cfg, next) && base <= Log(next) && t.writes == if t.outcome.Ok? then [next] else []
    ensures Safe(cfg, base, t) && (t.outcome.Ok? ==> End(s, t) == next)
  {
  }

  lemma {:induction false} ReadyShape(cfg: Settings, s: DiskState, j: Journal, assistant: RawRecord, target: Option<Document>)
    requires s.journal == JournalOf(j)
    ensures var t := ReadyTrace(cfg, s, assistant, target);
            && !t.outcome.Crashed?
            && t.writes == if t.outcome.Ok? then [s.(journal := JournalOf(ReadyJournal(j, assistant, target)))] else []
  {
  }

  /** Committing a decided journal that stands on `baseline` publishes exactly its records. */
  lemma {:induction false} CommitPublishes(cfg: Settings, s: DiskState, j: Journal, baseline: seq<RawRecord>, now: int)
    requires ValidSettings(cfg) && SafeDisk(cfg, s) && s.journal == JournalOf(j)
    requires Anchored(j, baseline, Log(s)) && baseline <= Log(s)
    ensures var t := CommitJournalTrace(cfg, s, now);
            && !t.outcome.Crashed? && Safe(cfg, Log(s), t)
            && (t.outcome.Ok? ==>
                  SafeDisk(cfg, End(s, t)) && End(s, t).journal.NoJournal? && Log(End(s, t)) == Full(j, baseline))
  {
    var t := CommitJournalTrace(cfg, s, now);
    CommitJournalSafe(cfg, s, now);
    if t.outcome.Ok? {
      var b :| Anchored(j, b, Log(s)) && Log(End(s, t)) == Full(j, b);
      SameLength(j, b, baseline);
      AnchorUnique(j, b, baseline, Log(s));
    }
  }

  lemma {:induction false} SameLength(j: Journal, a: seq<RawRecord>, b: seq<RawRecord>)
    requires j.checkpoint.rawIdentity == Identity(a) == Identity(b)
    ensures |a| == |b|
  {
    assert |Identity(a)| == |a| && |Identity(b)| == |b|;
  }

  lemma {:induction false} FinishKeeps(cfg: Settings, s: DiskState, j: Journal, baseline: seq<RawRecord>, assistant: RawRecord, target: Option<Document>, now: int)
    requires ValidSettings(cfg) && Opened(cfg, s, j, baseline)
    requires ValidRecord(assistant) && assistant.sequence == |baseline| + 2 && assistant.role == Assistant
    requires assistant.turn == j.user.turn && assistant.id != j.user.id && Fresh(baseline, assistant)
    requires j.user.role == User && (target.Some? ==> Coherent(target.value, baseline))
    ensures TurnKeeps(cfg, baseline, s, FinishTurnTrace(cfg, s, assistant, target, now))
  {
    var ready := ReadyTrace(cfg, s, assistant, target);
    var s1 := End(s, ready);
    var j' := ReadyJournal(j, assistant, target);
    AnchorReady(j, baseline, assistant, target);
    ReadySafe(cfg, s, j, baseline, assistant, target);
    var commit := CommitJournalTrace(cfg, s1, now);
    var done := Then(ready, commit);
    if ready.outcome.Ok? {
      CommitPublishes(cfg, s1, j', baseline, now);
      ThenEnd(s, ready, commit);
    }
    SafeThen(cfg, baseline, ready, commit);
    if done.outcome.Ok? {
      ShownIsPublished(cfg, End(s, done), j', baseline, assistant);
    }
    KeepsThen(cfg, baseline, s, done, Trace([], PublishedText(End(s, done), assistant.id)));
  }

  lemma {:induction false} ShownIsPublished(cfg: Settings, s: DiskState, j: Journal, baseline: seq<RawRecord>, assistant: RawRecord)
    requires SafeDisk(cfg, s) && s.journal.NoJournal? && j.assistant == Some(assistant) && assistant.role == Assistant
    requires Log(s) == Full(j, baseline) && CompletePairs(Log(s))
    ensures TurnKeeps(cfg, baseline, s, Trace([], PublishedText(s, assistant.id)))
    ensures PublishedText(s, assistant.id) == Ok(Shown(assistant.content))
  {
    var k := |baseline| + 1;
    assert Log(s)[k] == assistant;
    LogWellFormed(s);
    ByIdAt(Log(s), k);
    assert assistant in Log(s);
  }

  // ---------------------------------------------------------------- proposing over a safe log

  lemma {:induction false} ResolvedAreFromBatch(cfg: Settings, cs: seq<ModelCandidate>, ordered: seq<RawRecord>, ids: seq<string>)
    requires forall i | 0 <= i < |cs| :: 1 <= |cs[i].text| <= 8192 && cs[i].sources != []
    requires forall id | id in IdsOf(ordered) :: id in ids
    requires ResolveCandidates(cfg, cs, SourceAliases(ordered)).Ok?
    ensures var r := ResolveCandidates(cfg, cs, SourceAliases(ordered)).value;
            forall i | 0 <= i < |r| :: 1 <= |r[i].text| <= 8192 && r[i].sourceIds != []
              && forall k | 0 <= k < |r[i].sourceIds| :: r[i].sourceIds[k] in ids
  {
    if cs != [] {
      var n := |cs| - 1;
      ResolvedAreFromBatch(cfg, cs[..n], ordered, ids);
      forall k | 0 <= k < |cs[n].sources| ensures SourceAliases(ordered)[cs[n].sources[k]] in ids {
        AliasesNameRecords(ordered, cs[n].sources[k]);
      }
    }
  }

  lemma {:induction false} SortedIds(rs: seq<RawRecord>)
    ensures forall id | id in IdsOf(SortByTime(rs)) :: id in IdsOf(rs)
  {
    SortKeeps(rs);
    var sorted := SortByTime(rs);
    forall id | id in IdsOf(sorted) ensures id in IdsOf(rs) {
      var i :| 0 <= i < |sorted| && IdsOf(sorted)[i] == id;
      assert sorted[i] in multiset(rs);
      var k :| 0 <= k < |rs| && rs[k] == sorted[i];
      assert IdsOf(rs)[k] == id;
    }
  }

  lemma {:induction false} BatchRecordsAre(rs: seq<RawRecord>, a: nat, b: nat, batch: CurationBatch)
    requires UniqueIds(rs) && a <= b <= |rs| && batch.recordIds == IdsOf(rs[a..b])
    ensures BatchRecords(rs, batch) == rs[a..b]
  {
    forall i | 0 <= i < |batch.recordIds| ensures batch.recordIds[i] in ById(rs) && ById(rs)[batch.recordIds[i]] == rs[a..b][i] {
      ByIdAt(rs, a + i);
    }
  }

  /** Whatever the curator model answers, a target that comes out is coherent with the log. */
  lemma {:induction false} TargetCoherent(cfg: Settings, rs: seq<RawRecord>, d: Document, curator: CuratorAnswer)
    requires ValidSettings(cfg) && WellFormedLog(rs) && LogShape(rs) && Coherent(d, rs)
    ensures var p := ProposalFrom(cfg, rs, d, curator);
            p.Target? ==> Coherent(p.document, rs) && p.document.curation.frontier > d.curation.frontier
  {
    var f := d.curation.frontier;
    var batch := NextBatch(cfg, rs, f, false);
    if batch.Some? && curator.Responds? {
      NextBatchExact(cfg, rs, f, false);
      var b := batch.value;
      var records := rs[f..b.newFrontier];
      BatchRecordsAre(rs, f, b.newFrontier, b);
      var aliases := SourceAliases(SortByTime(records));
      var validated := ValidateResponse(cfg, curator.response, aliases);
      if validated.Ok? {
        SortedIds(records);
        ResolvedAreFromBatch(cfg, curator.response.value.candidates, SortByTime(records), b.recordIds);
        MergeKeepsCoherence(cfg, d, rs, b, validated.value);
      }
    }
  }

  lemma {:induction false} ProposeSafe(cfg: Settings, base: seq<RawRecord>, s: DiskState, input: TurnInput)
    requires ValidSettings(cfg) && SafeDisk(cfg, s) && base <= Log(s)
    ensures var t := ProposeTrace(cfg, s, input);
            && t.outcome.Ok? && Safe(cfg, base, t) && SafeDisk(cfg, End(s, t))
            && End(s, t).segments == s.segments && End(s, t).journal == s.journal
            && (t.outcome.value.Target? ==> Coherent(t.outcome.value.document, Log(s)))
  {
    LoadSafe(cfg, base, s, input.now);
    LogWellFormed(s);
    var load := LoadTrace(cfg, s, input.now);
    if load.outcome.Ok? {
      TargetCoherent(cfg, Log(s), load.outcome.value.document, input.curator);
    }
  }

  lemma {:induction false} GateShape(cfg: Settings, s: DiskState, user: RawRecord, now: int)
    requires ReadSegments(s.segments).Ok?
    ensures var t := GateTrace(cfg, s, user, now);
            !t.outcome.Crashed? && t.writes == LoadTrace(cfg, s, now).writes
  {
  }

  lemma {:induction false} SameWritesSafe<T>(cfg: Settings, base: seq<RawRecord>, s: DiskState, t: Trace<T>, load: Trace<Loaded>)
    requires LoadKeeps(cfg, base, s, load) && t.writes == load.writes
    ensures Safe(cfg, base, t) && SafeDisk(cfg, End(s, t))
    ensures End(s, t).segments == s.segments && End(s, t).journal == s.journal
  {
    assert End(s, t) == End(s, load);
  }

  lemma {:induction false} GateSafe(cfg: Settings, base: seq<RawRecord>, s: DiskState, user: RawRecord, now: int)
    requires SafeDisk(cfg, s) && base <= Log(s)
    ensures var t := GateTrace(cfg, s, user, now);
            && !t.outcome.Crashed? && Safe(cfg, base, t) && SafeDisk(cfg, End(s, t))
            && End(s, t).segments == s.segments && End(s, t).journal == s.journal
  {
    LoadSafe(cfg, base, s, now);
    GateShape(cfg, s, user, now);
    SameWritesSafe(cfg, base, s, GateTrace(cfg, s, user, now), LoadTrace(cfg, s, now));
  }

  // ---------------------------------------------------------------- fresh turns

  predicate FreshTurnInput(rs: seq<RawRecord>, input: TurnInput) {
    && input.userId != input.assistantId
    && forall r | r in rs :: r.id != input.userId && r.id != input.assistantId && r.turn != input.turn
  }

  lemma {:induction false} ChatKeeps(cfg: Settings, s: DiskState, j: Journal, input: TurnInput, user: RawRecord, target: Option<Document>)
    requires ValidSettings(cfg) && Opened(cfg, s, j, Log(s)) && FreshTurnInput(Log(s), input)
    requires j.user == user == UserRecord(input, |Log(s)| + 1)
    requires target.Some? ==> Coherent(target.value, Log(s))
    ensures TurnKeeps(cfg, Log(s), s, ChatTrace(cfg, s, input, user, target))
  {
    match input.chat
    case AssemblyFails(_) =>
    case Cancelled =>
    case ChatRejected => RejectKeeps(cfg, s, j, Log(s));
    case ChatFails(code, retryable) => FailKeeps(cfg, s, j, Log(s), code, retryable, input.now);
    case Replies(text) =>
      var assistant := AnswerRecord(input, text, user.sequence + 1);
      if ValidRecord(assistant) {
        FinishKeeps(cfg, s, j, Log(s), assistant, target, input.now);
      }
  }

  lemma {:induction false} OpenedStays(cfg: Settings, s: DiskState, s1: DiskState, j: Journal)
    requires Opened(cfg, s, j, Log(s)) && SafeDisk(cfg, s1) && s1.segments == s.segments && s1.journal == s.journal
    ensures Opened(cfg, s1, j, Log(s1)) && Log(s1) == Log(s)
  {
  }

  lemma {:induction false} AnsweredTurnKeeps(cfg: Settings, s: DiskState, j: Journal, input: TurnInput, user: RawRecord, target: Option<Document>)
    requires ValidSettings(cfg) && Opened(cfg, s, j, Log(s)) && FreshTurnInput(Log(s), input)
    requires j.user == user == UserRecord(input, |Log(s)| + 1)
    requires target.Some? ==> Coherent(target.value, Log(s))
    ensures TurnKeeps(cfg, Log(s), s, AnsweredTurnTrace(cfg, s, input, user, target))
  {
    var gate := GateTrace(cfg, s, user, input.now);
    GateSafe(cfg, Log(s), s, user, input.now);
    var s1 := End(s, gate);
    OpenedStays(cfg, s, s1, j);
    ChatKeeps(cfg, s1, j, input, user, target);
    KeepsThen(cfg, Log(s), s, gate, ChatTrace(cfg, s1, input, user, target));
  }

  lemma {:induction false} PreparedTurnKeeps(cfg: Settings, s: DiskState, j: Journal, input: TurnInput, user: RawRecord)
    requires ValidSettings(cfg) && Opened(cfg, s, j, Log(s)) && FreshTurnInput(Log(s), input)
    requires j.user == user == UserRecord(input, |Log(s)| + 1)
    ensures TurnKeeps(cfg, Log(s), s, PreparedTurnTrace(cfg, s, input, user))
  {
    var propose := ProposeTrace(cfg, s, input);
    ProposeSafe(cfg, Log(s), s, input);
    var s1 := End(s, propose);
    OpenedStays(cfg, s, s1, j);
    match propose.outcome.value {
      case ProposeRejected => RejectKeeps(cfg, s1, j, Log(s));
      case ProposeFailed(code, retryable) => FailKeeps(cfg, s1, j, Log(s), code, retryable, input.now);
      case NoProposal => AnsweredTurnKeeps(cfg, s1, j, input, user, None);
      case Target(d) => AnsweredTurnKeeps(cfg, s1, j, input, user, Some(d));
    }
    KeepsThen(cfg, Log(s), s, propose, CuratedTurnTrace(cfg, s1, input, user, propose.outcome.value));
  }

  lemma {:induction false} FreshTurnKeeps(cfg: Settings, s: DiskState, input: TurnInput)
    requires ValidSettings(cfg) && Settled(cfg, s) && FreshTurnInput(Log(s), input)
    ensures TurnKeeps(cfg, Log(s), s, FreshTurnTrace(cfg, s, input, Log(s)))
  {
    var user := UserRecord(input, |Log(s)| + 1);
    if ValidRecord(user) {
      var open := OpenTrace(cfg, s, input, Log(s), user);
      OpenSafe(cfg, s, input, user);
      var s1 := End(s, open);
      if open.outcome.Ok? {
        var j :| Opened(cfg, s1, j, Log(s)) && j.user == user && j.turn == user.turn;
        PreparedTurnKeeps(cfg, s1, j, input, user);
      }
      KeepsThen(cfg, Log(s), s, open, PreparedTurnTrace(cfg, s1, input, user));
    }
  }

  // ---------------------------------------------------------------- resumed turns

  /** A pending turn about to be resumed: the last record is its USER and nothing is journalled. */
  ghost predicate Pending(cfg: Settings, s: DiskState, user: RawRecord) {
    SafeDisk(cfg, s) && s.journal.NoJournal? && PendingOf(Log(s)) == Some(user)
  }

  lemma {:induction false} PendingShape(cfg: Settings, s: DiskState, user: RawRecord)
    requires Pending(cfg, s, user)
    ensures CompletePairs(AnsweredPart(Log(s))) && AnsweredPart(Log(s)) <= Log(s)
  {
  }

  lemma {:induction false} DiscardWrites(s: DiskState, expected: Option<string>)
    requires ReadSegments(s.segments).Ok?
    ensures var t := DiscardTrace(s, expected);
            && !t.outcome.Crashed?
            && (|| (t.writes == [] && (t.outcome.Ok? ==> PendingOf(Log(s)).None?))
                || (&& PendingOf(Log(s)).Some? && t.outcome.Ok?
                    && s.segments != [] && s.segments[|s.segments| - 1].lines != []
                    && t.writes == [s.(segments := DropLastLine(s.segments))]))
  {
  }

  /** Discarding writes nothing or drops the last stored line. */
  lemma {:induction false} DiscardCases(cfg: Settings, s: DiskState, expected: Option<string>)
    requires ReadSegments(s.segments).Ok?
    ensures var t := DiscardPendingTrace(cfg, s, expected);
            && !t.outcome.Crashed?
            && (|| (t.writes == [] && (t.outcome.Ok? ==> PendingOf(Log(s)).None?))
                || (&& PendingOf(Log(s)).Some? && t.outcome.Ok?
                    && s.segments != [] && s.segments[|s.segments| - 1].lines != []
                    && t.writes == [s.(segments := DropLastLine(s.segments))]))
  {
    DiscardWrites(s, expected);
    DiscardGuarded(cfg, s, expected);
  }

  lemma {:induction false} DiscardGuarded(cfg: Settings, s: DiskState, expected: Option<string>)
    requires ReadSegments(s.segments).Ok?
    ensures var t := DiscardPendingTrace(cfg, s, expected);
            t == DiscardTrace(s, expected) || (t.writes == [] && t.outcome.Err?)
  {
  }

  ghost predicate DiscardKeeps(cfg: Settings, s: DiskState, t: Trace<Option<string>>) {
    && !t.outcome.Crashed? && Safe(cfg, AnsweredPart(Log(s)), t)
    && (t.outcome.Ok? ==> Settled(cfg, End(s, t)) && Log(End(s, t)) == AnsweredPart(Log(s)))
  }

  lemma {:induction false} DroppedKeeps(cfg: Settings, s: DiskState, next: DiskState, t: Trace<Option<string>>)
    requires t.writes == [next] && !t.outcome.Crashed?
    requires SafeDisk(cfg, next) && next.journal.NoJournal?
    requires Log(next) == AnsweredPart(Log(s)) && CompletePairs(Log(next))
    ensures DiscardKeeps(cfg, s, t)
  {
  }

  lemma {:induction false} NothingDropped(cfg: Settings, s: DiskState, t: Trace<Option<string>>)
    requires SafeDisk(cfg, s) && s.journal.NoJournal? && t.writes == [] && !t.outcome.Crashed?
    requires t.outcome.Ok? ==> PendingOf(Log(s)).None?
    ensures DiscardKeeps(cfg, s, t)
  {
  }

  /** Discarding takes the unanswered USER away, or nothing. */
  lemma {:induction false} DiscardSafe(cfg: Settings, s: DiskState, expected: Option<string>)
    requires SafeDisk(cfg, s) && s.journal.NoJournal?
    ensures DiscardKeeps(cfg, s, DiscardPendingTrace(cfg, s, expected))
  {
    var t := DiscardPendingTrace(cfg, s, expected);
    DiscardCases(cfg, s, expected);
    if t.writes == [] {
      NothingDropped(cfg, s, t);
    } else {
      DropStep(cfg, s);
      DroppedKeeps(cfg, s, s.(segments := DropLastLine(s.segments)), t);
    }
  }

  lemma {:induction false} TailIsAlone(rs: seq<RawRecord>)
    requires WellFormedLog(rs) && LogShape(rs) && PendingOf(rs).Some?
    ensures CompletePairs(rs[..|rs| - 1]) && forall x | x in rs[..|rs| - 1] :: x.turn != rs[|rs| - 1].turn
  {
    var n := |rs| - 1;
    if n > 0 {
      assert rs[n - 1].role != rs[n].role;
    }
    forall x | x in rs[..n] ensures x.turn != rs[n].turn {
      var i :| 0 <= i < n && rs[i] == x;
      if x.turn == rs[n].turn {
        OneTurn(rs, i, n);
      }
    }
  }

  lemma {:induction false} CutAllowed(cfg: Settings, s: DiskState, user: RawRecord)
    requires ReadSegments(s.segments).Ok? && PendingOf(Log(s)) == Some(user) && DiscardableCheck(cfg, s, user).Ok?
    requires CompletePairs(Log(s)[..|Log(s)| - 1]) && forall x | x in Log(s)[..|Log(s)| - 1] :: x.turn != user.turn
    ensures DiscardPendingTrace(cfg, s, Some(user.turn)) == CutTrace(s, user.turn)
    ensures DiscardPendingTrace(cfg, s, None) == CutTrace(s, user.turn)
  {
  }

  /** Discarding the unanswered USER of a safe disk is never refused while the primary
      document loads: no reference, span or frontier of it can reach that record. */
  lemma {:induction false} DiscardIsNeverBlocked(cfg: Settings, s: DiskState, user: RawRecord)
    requires SafeDisk(cfg, s) && PendingOf(Log(s)) == Some(user)
    requires ParseFile(cfg, s.primary, ReadSegments(s.segments)).Ok?
    ensures DiscardPendingTrace(cfg, s, Some(user.turn)).outcome == Ok(Some(user.turn))
    ensures DiscardPendingTrace(cfg, s, None).outcome == Ok(Some(user.turn))
  {
    LogWellFormed(s);
    TailIsAlone(Log(s));
    PendingBeyondFrontiers(s);
    DropStep(cfg, s);
    CutAllowed(cfg, s, user);
  }

  lemma {:induction false} RejectResumedKeeps(cfg: Settings, s: DiskState, turn: string)
    requires SafeDisk(cfg, s) && s.journal.NoJournal?
    ensures TurnKeeps(cfg, AnsweredPart(Log(s)), s, RejectResumedTrace(cfg, s, turn))
  {
    var t := DiscardPendingTrace(cfg, s, Some(turn));
    DiscardSafe(cfg, s, Some(turn));
    KeepsThen(cfg, AnsweredPart(Log(s)), s, t, Trace([], Ok(Rejected)));
  }

  lemma {:induction false} ResumeAnswerKeeps(cfg: Settings, s: DiskState, input: TurnInput, user: RawRecord, text: string)
    requires ValidSettings(cfg) && Pending(cfg, s, user) && user.turn == input.turn
    requires forall r | r in Log(s) :: r.id != input.assistantId
    ensures TurnKeeps(cfg, AnsweredPart(Log(s)), s, Then(AppendTrace(cfg, s, AnswerRecord(input, text, 0)), Trace([], Ok(Shown(text)))))
  {
    var draft := AnswerRecord(input, text, 0);
    var t := AppendTrace(cfg, s, draft);
    var r := Renumbered(draft, |Log(s)| + 1);
    assert LogShape(Log(s) + [r]);
    AppendSafe(cfg, s, draft);
    if t.outcome.Ok? {
      assert r in Log(End(s, t));
      assert CompletePairs(Log(End(s, t)));
    }
    SafeLonger(cfg, AnsweredPart(Log(s)), Log(s), t);
    KeepsThen(cfg, AnsweredPart(Log(s)), s, t, Trace([], Ok(Shown(text))));
  }

  lemma {:induction false} ResumeChatKeeps(cfg: Settings, s: DiskState, input: TurnInput, user: RawRecord)
    requires ValidSettings(cfg) && Pending(cfg, s, user) && user.turn == input.turn
    requires forall r | r in Log(s) :: r.id != input.assistantId
    ensures TurnKeeps(cfg, AnsweredPart(Log(s)), s, ResumeChatTrace(cfg, s, input))
  {
    match input.chat
    case AssemblyFails(_) =>
    case Cancelled =>
    case ChatRejected => RejectResumedKeeps(cfg, s, input.turn);
    case ChatFails(_, _) =>
    case Replies(text) => ResumeAnswerKeeps(cfg, s, input, user, text);
  }

  lemma {:induction false} AnsweredResumeKeeps(cfg: Settings, s: DiskState, input: TurnInput, user: RawRecord)
    requires ValidSettings(cfg) && Pending(cfg, s, user) && user.turn == input.turn
    requires forall r | r in Log(s) :: r.id != input.assistantId
    ensures TurnKeeps(cfg, AnsweredPart(Log(s)), s, AnsweredResumeTrace(cfg, s, input, user))
  {
    var base := AnsweredPart(Log(s));
    var gate := GateTrace(cfg, s, user, input.now);
    PendingShape(cfg, s, user);
    GateSafe(cfg, base, s, user, input.now);
    var s1 := End(s, gate);
    ResumeChatKeeps(cfg, s1, input, user);
    KeepsThen(cfg, base, s, gate, ResumeChatTrace(cfg, s1, input));
  }

  lemma {:induction false} CommitAnswerKeeps(cfg: Settings, s: DiskState, input: TurnInput, user: RawRecord, d: Document,
                                             readOnly: bool, loadedHash: Option<DocumentFile>)
    requires ValidSettings(cfg) && Pending(cfg, s, user) && user.turn == input.turn && Coherent(d, Log(s))
    requires forall r | r in Log(s) :: r.id != input.assistantId
    ensures TurnKeeps(cfg, AnsweredPart(Log(s)), s, CommitAnswerTrace(cfg, s, input, user, d, readOnly, loadedHash))
  {
    var base := AnsweredPart(Log(s));
    var c := CommitTrace(cfg, s, d, readOnly, loadedHash);
    PendingShape(cfg, s, user);
    CommitSafe(cfg, base, s, d, readOnly, loadedHash);
    var s1 := End(s, c);
    if c.outcome.Ok? {
      SafeAfter(cfg, base, s, c, |c.writes|);
      AnsweredResumeKeeps(cfg, s1, input, user);
    }
    KeepsThen(cfg, base, s, c, AnsweredResumeTrace(cfg, s1, input, user));
  }

  lemma {:induction false} ResumedTurnKeeps(cfg: Settings, s: DiskState, input: TurnInput, user: RawRecord)
    requires ValidSettings(cfg) && Pending(cfg, s, user) && user.turn == input.turn
    requires forall r | r in Log(s) :: r.id != input.assistantId
    ensures TurnKeeps(cfg, AnsweredPart(Log(s)), s, ResumedTurnTrace(cfg, s, input, user))
  {
    var base := AnsweredPart(Log(s));
    var propose := ProposeTrace(cfg, s, input);
    PendingShape(cfg, s, user);
    ProposeSafe(cfg, base, s, input);
    var s1 := End(s, propose);
    assert Pending(cfg, s1, user) && Log(s1) == Log(s);
    var load := LoadTrace(cfg, s, input.now);
    var readOnly := load.outcome.Ok? && load.outcome.value.readOnly;
    var loadedHash := if load.outcome.Ok? then load.outcome.value.loadedHash else None;
    match propose.outcome.value {
      case ProposeRejected => RejectResumedKeeps(cfg, s1, input.turn);
      case ProposeFailed(_, _) =>
      case NoProposal => AnsweredResumeKeeps(cfg, s1, input, user);
      case Target(d) => CommitAnswerKeeps(cfg, s1, input, user, d, readOnly, loadedHash);
    }
    KeepsThen(cfg, base, s, propose, CuratedResumeTrace(cfg, s1, input, user, propose.outcome.value, readOnly, loadedHash));
  }

  // ---------------------------------------------------------------- dispatch

  lemma {:induction false} NoSuchTurn(rs: seq<RawRecord>, turn: string)
    requires forall r | r in rs :: r.turn != turn
    ensures GroupOf(rs, turn) == []
  {
    if rs != [] {
      NoSuchTurn(rs[..|rs| - 1], turn);
    }
  }

  lemma {:induction false} PendingIsAlone(rs: seq<RawRecord>, user: RawRecord)
    requires WellFormedLog(rs) && LogShape(rs) && PendingOf(rs) == Some(user)
    ensures GroupOf(rs, user.turn) == [user]
  {
    var n := |rs| - 1;
    forall r | r in rs[..n] ensures r.turn != user.turn {
      var i :| 0 <= i < n && rs[i] == r;
      if r.turn == user.turn {
        OneTurn(rs, i, n);
      }
    }
    NoSuchTurn(rs[..n], user.turn);
  }

  /** `run_turn` with fresh ids between turns. */
  lemma {:induction false} NewTurnKeeps(cfg: Settings, s: DiskState, input: TurnInput)
    requires ValidSettings(cfg) && Settled(cfg, s) && FreshTurnInput(Log(s), input)
    ensures TurnKeeps(cfg, Log(s), s, RunTurnTrace(cfg, s, input))
  {
    NoSuchTurn(Log(s), input.turn);
    FreshTurnKeeps(cfg, s, input);
  }

  /** `run_turn` resuming the pending turn. */
  lemma {:induction false} PendingTurnKeeps(cfg: Settings, s: DiskState, input: TurnInput, user: RawRecord)
    requires ValidSettings(cfg) && Pending(cfg, s, user) && input.resume && user.turn == input.turn
    requires forall r | r in Log(s) :: r.id != input.assistantId
    ensures TurnKeeps(cfg, AnsweredPart(Log(s)), s, RunTurnTrace(cfg, s, input))
  {
    LogWellFormed(s);
    PendingIsAlone(Log(s), user);
    ResumedTurnKeeps(cfg, s, input, user);
  }
}
