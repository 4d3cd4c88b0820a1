/** Places where a run can stop for good because a limit or a guard comes too late, each with
    its exact condition: the item limit, the record limit, the limits of a document, and the guard
    on bare texts. */
module Limits {
  import opened Outcomes
  import opened Models
  import opened Storage
  import opened RawArchive
  import opened LongTerm
  import opened Transaction
  import opened Safety
  import opened Session
  import opened Recovery

  // ---------------------------------------------------------------- an item count that only load checks

  lemma {:induction false} TooManyItems(cfg: Settings, s: DiskState, d: Document, now: int)
    requires s.primary == s.lastValid == Holds(d) && |d.memories| > cfg.maxItems
    ensures !LoadTrace(cfg, s, now).outcome.Ok? && LoadTrace(cfg, s, now).writes == []
  {
  }

  /** `commit` never counts the items: a document it has written loads again if and only if
      the count is within the limit that only `load` enforces. */
  lemma {:induction false} CommittedLoads(cfg: Settings, s: DiskState, d: Document, readOnly: bool, loadedHash: Option<DocumentFile>, now: int)
    requires var t := CommitTrace(cfg, s, d, readOnly, loadedHash); t.outcome.Ok?
    ensures var t := CommitTrace(cfg, s, d, readOnly, loadedHash);
            LoadTrace(cfg, End(s, t), now).outcome.Ok? <==> |d.memories| <= cfg.maxItems
  {
    var t := CommitTrace(cfg, s, d, readOnly, loadedHash);
    CommitCases(cfg, s, d, readOnly, loadedHash);
    var s1 := End(s, t);
    assert s1 == s.(primary := Holds(d), lastValid := Holds(d));
    if |d.memories| > cfg.maxItems {
      TooManyItems(cfg, s1, d, now);
    } else {
      CommittedParses(cfg, s, d, readOnly, loadedHash);
      CleanLoad(cfg, s1, d, now);
    }
  }

  lemma {:induction false} CommittedParses(cfg: Settings, s: DiskState, d: Document, readOnly: bool, loadedHash: Option<DocumentFile>)
    requires CommitTrace(cfg, s, d, readOnly, loadedHash).outcome.Ok? && |d.memories| <= cfg.maxItems
    ensures ParseFile(cfg, Holds(d), ReadSegments(s.segments)) == Ok(d)
  {
  }

  // ---------------------------------------------------------------- records that the journal does not check

  /** How many records of the decision get into the log before one is refused. */
  function StallsAfter(cfg: Settings, j: Journal): (n: nat)
    ensures n <= Halves(j)
  {
    if Refusal(cfg, j.user).Some? then 0
    else if j.assistant.Some? && Refusal(cfg, j.assistant.value).Some? then 1
    else Halves(j)
  }

  /** Publishing the records from any stage before the refused one stops at that one. */
  lemma {:induction false} RawStalls(cfg: Settings, segs: seq<Segment>, j: Journal, s: DiskState, n: nat)
    requires RecordsDecided(cfg, segs, j) && !RecordsFit(cfg, j) && n <= StallsAfter(cfg, j)
    requires s.segments == SegmentsAt(cfg, segs, j, n)
    ensures var t := PublishRawTrace(cfg, s, j);
            t.outcome.Err? && t.writes == if n < StallsAfter(cfg, j) then [s.(segments := SegmentsAt(cfg, segs, j, 1))] else []
  {
    var user := PublishUserTrace(cfg, s, j.user, j.checkpoint.rawIdentity);
    UserStep(cfg, segs, j, s, n);
    if j.state == ReadyPending {
      PendingOfStep(cfg, s, j);
    } else if user.outcome.Ok? {
      AnswerStep(cfg, segs, j, End(s, user), 1);
      TurnOfSteps(cfg, s, j, user, AppendAnswerTrace(cfg, End(s, user), j.user, j.assistant.value));
    } else {
      TurnOfSteps(cfg, s, j, user, user);
    }
  }

  lemma {:induction false} PublishedAsRaw(cfg: Settings, s: DiskState, j: Journal, now: int)
    requires j.state == ReadyToCommit ==> j.assistant.Some?
    requires PublishRawTrace(cfg, s, j).outcome.Err?
    ensures var raw := PublishRawTrace(cfg, s, j); PublishedTrace(cfg, s, j, now) == Trace(raw.writes, Err(raw.outcome.code))
  {
  }

  /** A decided journal that can be read, over one loadable document. */
  ghost predicate Opens(cfg: Settings, s: DiskState, d: Document, j: Journal) {
    && s.journal == JournalOf(j) && JournalSafe(cfg, j) && ValidJournal(j) && j.state != Prepared
    && s.primary == s.lastValid == Holds(d) && ParseFile(cfg, Holds(d), ReadSegments(s.segments)) == Ok(d)
  }

  /** A start-up over settled documents ends where publishing the decision ends. */
  lemma {:induction false} BootStops(cfg: Settings, s: DiskState, d: Document, j: Journal, writes: seq<DiskState>, code: string, now: int)
    requires Opens(cfg, s, d, j) && PublishedTrace(cfg, s, j, now) == Trace(writes, Err(code))
    ensures BootTrace(cfg, s, now) == RecoverTrace(cfg, s, now) == CommitJournalTrace(cfg, s, now) == Trace(writes, Err(code))
  {
    CleanLoad(cfg, s, d, now);
    LoadedJournal(cfg, s, j);
    AfterLoad(cfg, s, AsLoaded(d), writes, code, now);
  }

  /** A decided record that the archive refuses stops every later start-up: the records before
      it are published, and no more. */
  lemma {:induction false} RefusedStops(cfg: Settings, segs: seq<Segment>, j: Journal, s: DiskState, d: Document, n: nat, now: int)
    requires RecordsDecided(cfg, segs, j) && !RecordsFit(cfg, j) && n <= StallsAfter(cfg, j)
    requires s.segments == SegmentsAt(cfg, segs, j, n) && Opens(cfg, s, d, j)
    ensures var boot := BootTrace(cfg, s, now);
            && boot == CommitJournalTrace(cfg, s, now) && boot.outcome.Err?
            && boot.writes == if n < StallsAfter(cfg, j) then [s.(segments := SegmentsAt(cfg, segs, j, 1))] else []
  {
    var raw := PublishRawTrace(cfg, s, j);
    RawStalls(cfg, segs, j, s, n);
    PublishedAsRaw(cfg, s, j, now);
    BootStops(cfg, s, d, j, raw.writes, raw.outcome.code, now);
  }

  lemma {:induction false} StageOpens(cfg: Settings, segs: seq<Segment>, d: Document, j: Journal, n: nat)
    requires Undelivered(cfg, segs, d, j) && n <= Halves(j)
    ensures Opens(cfg, StageAt(cfg, segs, j, n, d, d), d, j)
  {
    var rs := ReadSegments(segs).value;
    LogsRead(cfg, segs, rs, j, n);
    StageAnchored(j, rs, n);
    Loadable(cfg, d, rs, LogAt(rs, j, n));
  }

  // ---------------------------------------------------------------- a target that the journal does not check

  lemma {:induction false} TargetRefused(cfg: Settings, segs: seq<Segment>, d: Document, j: Journal, s: DiskState, now: int)
    requires Undelivered(cfg, segs, d, j) && RecordsFit(cfg, j) && !Publishable(cfg, j)
    requires s.segments == SegmentsAt(cfg, segs, j, Halves(j)) && s.primary == s.lastValid == Holds(d)
    ensures PublishDocumentTrace(cfg, s, j, now) == Trace([], Err(CommitRefusal(cfg, j.target.value).value))
  {
    FinalLog(cfg, segs, j, s);
    TargetOf(cfg, segs, d, j);
    ResumesOver(cfg, s, d, j, ReadSegments(segs).value, now);
  }

  /** A target that `commit` refuses is journalled all the same, and its records are published. */
  lemma {:induction false} TargetStops(cfg: Settings, segs: seq<Segment>, d: Document, j: Journal, n: nat, now: int)
    requires Undelivered(cfg, segs, d, j) && RecordsFit(cfg, j) && !Publishable(cfg, j) && n <= Halves(j)
    ensures var s := StageAt(cfg, segs, j, n, d, d);
            BootTrace(cfg, s, now) == CommitJournalTrace(cfg, s, now)
            == Trace(MissingWrites(cfg, segs, j, s, n), Err(CommitRefusal(cfg, j.target.value).value))
  {
    var s := StageAt(cfg, segs, j, n, d, d);
    var raw, code := PublishRawTrace(cfg, s, j), CommitRefusal(cfg, j.target.value).value;
    RawResumes(cfg, segs, j, s, n);
    TargetRefused(cfg, segs, d, j, End(s, raw), now);
    PublishedStops(cfg, s, j, code, now);
    StageOpens(cfg, segs, d, j, n);
    BootStops(cfg, s, d, j, raw.writes, code, now);
  }

  // ---------------------------------------------------------------- an unpublishable decision

  /** From every stage before the refusal a start-up, like the commit itself, walks on to it
      and fails there. */
  lemma {:induction false} StallsOn(cfg: Settings, segs: seq<Segment>, d: Document, j: Journal, n: nat, now: int)
    requires Undelivered(cfg, segs, d, j) && !Publishable(cfg, j) && n <= StallsAfter(cfg, j)
    ensures var s := StageAt(cfg, segs, j, n, d, d);
            var boot := BootTrace(cfg, s, now);
            && boot == CommitJournalTrace(cfg, s, now) && boot.outcome.Err? && |boot.writes| == StallsAfter(cfg, j) - n
            && forall i | 0 <= i < |boot.writes| :: boot.writes[i] == StageAt(cfg, segs, j, n + 1 + i, d, d)
  {
    var s := StageAt(cfg, segs, j, n, d, d);
    if RecordsFit(cfg, j) {
      TargetStops(cfg, segs, d, j, n, now);
      MissingAre(cfg, segs, d, j, n);
    } else {
      StageOpens(cfg, segs, d, j, n);
      RefusedStops(cfg, segs, j, s, d, n, now);
    }
  }

  lemma {:induction false} MissingAre(cfg: Settings, segs: seq<Segment>, d: Document, j: Journal, n: nat)
    requires n <= Halves(j)
    ensures var missing := MissingWrites(cfg, segs, j, StageAt(cfg, segs, j, n, d, d), n);
            |missing| == Halves(j) - n && forall i | 0 <= i < |missing| :: missing[i] == StageAt(cfg, segs, j, n + 1 + i, d, d)
  {
  }

  /** Whatever the interruptions, such a decision is never done: the journal stays. */
  lemma {:induction false} NeverDone(cfg: Settings, segs: seq<Segment>, d: Document, j: Journal, n: nat, bs: seq<Boot>) returns (m: nat)
    requires Undelivered(cfg, segs, d, j) && !Publishable(cfg, j) && n <= StallsAfter(cfg, j)
    ensures n <= m <= StallsAfter(cfg, j) && Boots(cfg, StageAt(cfg, segs, j, n, d, d), bs) == StageAt(cfg, segs, j, m, d, d)
  {
    if bs == [] {
      m := n;
    } else {
      var b := bs[|bs| - 1];
      var before := NeverDone(cfg, segs, d, j, n, bs[..|bs| - 1]);
      StallsOn(cfg, segs, d, j, before, b.now);
      m := if b.crash.None? || before + b.crash.value > StallsAfter(cfg, j) then StallsAfter(cfg, j) else before + b.crash.value;
      StalledAt(StageAt(cfg, segs, j, before, d, d), BootTrace(cfg, StageAt(cfg, segs, j, before, d, d), b.now), b.crash, m - before);
    }
  }

  lemma {:induction false} StalledAt(s: DiskState, t: Trace<()>, crash: Option<nat>, reached: nat)
    requires reached == if crash.None? || crash.value > |t.writes| then |t.writes| else crash.value
    ensures Booted(s, t, crash) == if reached == 0 then s else t.writes[reached - 1]
  {
  }

  /** Journalling a decision checks neither the sizes nor the bare texts of what it will publish:
      the next start-up completes if and only if all of it can be published. */
  lemma {:induction false} StartsIffPublishable(cfg: Settings, segs: seq<Segment>, d: Document, j: Journal, now: int)
    requires Undelivered(cfg, segs, d, j)
    ensures BootTrace(cfg, StageAt(cfg, segs, j, 0, d, d), now).outcome.Ok? <==> Publishable(cfg, j)
  {
    if Publishable(cfg, j) {
      BootResumes(cfg, segs, d, j, 0, d, now);
    } else {
      StallsOn(cfg, segs, d, j, 0, now);
    }
  }
}
