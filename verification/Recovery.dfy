/** Convergence: a decided turn, interrupted at any atomic step and recovered any number of
    times, ends in exactly the state the journal decided. */
module Recovery {
  import opened Outcomes
  import opened Models
  import opened Storage
  import opened RawArchive
  import opened LongTerm
  import opened Transaction
  import opened Coherence
  import opened Safety
  import opened Session

  /** Why `append` refuses a record, if it does: neither `ready` nor `pending` asks. */
  function Refusal(cfg: Settings, r: RawRecord): Option<string> {
    if !cfg.safe(r.content) then Some("CREDENTIAL_REJECTED")
    else if cfg.lineBytes(r) > cfg.maxRecordBytes then Some("RAW_RECORD_TOO_LARGE")
    else None
  }

  predicate RecordsFit(cfg: Settings, j: Journal) {
    Refusal(cfg, j.user).None? && (j.assistant.Some? ==> Refusal(cfg, j.assistant.value).None?)
  }

  /** Why `commit` refuses a document that is valid and resolves, if it does: `ready` does not
      ask any of it. */
  function CommitRefusal(cfg: Settings, t: Document): Option<string> {
    if !SafeTexts(cfg, t) then Some("CREDENTIAL_REJECTED")
    else if |t.overview.text| > cfg.maxOverviewChars then Some("MEMORY_OVERVIEW_TOO_LARGE")
    else if cfg.documentBytes(t) > cfg.maxDocumentBytes then Some("MEMORY_DOCUMENT_TOO_LARGE")
    else None
  }

  predicate CommitFits(cfg: Settings, t: Document) {
    CommitRefusal(cfg, t).None?
  }

  /** Everything that is first checked when the decision is published. */
  predicate Publishable(cfg: Settings, j: Journal) {
    RecordsFit(cfg, j) && (j.target.Some? ==> CommitFits(cfg, j.target.value))
  }

  /** More items than `load` accepts; `commit` does not count them. */
  predicate Overfull(cfg: Settings, t: Document) {
    |t.memories| > cfg.maxItems
  }

  /** A decided journal over a log and over one settled document, whatever publishing it will refuse. */
  ghost predicate Undelivered(cfg: Settings, segs: seq<Segment>, d: Document, j: Journal) {
    && ReadSegments(segs).Ok? && Anchored(j, ReadSegments(segs).value, ReadSegments(segs).value)
    && JournalSafe(cfg, j) && ValidJournal(j) && j.state != Prepared && j.targetIdentity == j.target
    && j.checkpoint.longTermRevision == Some(d.revision) && j.checkpoint.longTermIdentity == Some(d)
    && Coherent(d, ReadSegments(segs).value) && WithinReadLimits(cfg, d)
    && (j.target.Some? ==> j.target.value.curation != d.curation)
  }

  ghost predicate Decision(cfg: Settings, segs: seq<Segment>, d: Document, j: Journal) {
    Undelivered(cfg, segs, d, j) && Publishable(cfg, j)
  }

  /** The part of a decision that publishing its records needs. */
  ghost predicate RecordsDecided(cfg: Settings, segs: seq<Segment>, j: Journal) {
    && ReadSegments(segs).Ok? && Anchored(j, ReadSegments(segs).value, ReadSegments(segs).value)
    && JournalSafe(cfg, j) && ValidJournal(j) && j.state != Prepared
  }

  // ---------------------------------------------------------------- the stages

  function SegmentsAt(cfg: Settings, segs: seq<Segment>, j: Journal, n: nat): seq<Segment> {
    if n == 0 then segs
    else if n == 1 || j.assistant.None? then AppendSegments(cfg, segs, j.user)
    else AppendSegments(cfg, AppendSegments(cfg, segs, j.user), j.assistant.value)
  }

  /** How many records the decision publishes. */
  function Halves(j: Journal): nat {
    if j.assistant.Some? then 2 else 1
  }

  /** The disk with `n` records published and the two document files `p` and `l`. */
  function StageAt(cfg: Settings, segs: seq<Segment>, j: Journal, n: nat, p: Document, l: Document): DiskState {
    DiskState(SegmentsAt(cfg, segs, j, n), Holds(p), Holds(l), JournalOf(j))
  }

  function FinalDocument(d: Document, j: Journal): Document {
    if j.target.Some? then j.target.value else d
  }

  function Done(cfg: Settings, segs: seq<Segment>, d: Document, j: Journal): DiskState {
    StageAt(cfg, segs, j, Halves(j), FinalDocument(d, j), FinalDocument(d, j)).(journal := NoJournal)
  }

  function RawStages(cfg: Settings, segs: seq<Segment>, d: Document, j: Journal): seq<DiskState> {
    [StageAt(cfg, segs, j, 0, d, d), StageAt(cfg, segs, j, 1, d, d)]
    + (if j.assistant.Some? then [StageAt(cfg, segs, j, 2, d, d)] else [])
  }

  function DocumentStages(cfg: Settings, segs: seq<Segment>, d: Document, j: Journal): seq<DiskState> {
    if j.target.None? then []
    else [StageAt(cfg, segs, j, Halves(j), j.target.value, d), StageAt(cfg, segs, j, Halves(j), j.target.value, j.target.value)]
  }

  /** Every disk the roll-forward passes through: the records, then the two document files,
      then the journal goes. */
  function Stages(cfg: Settings, segs: seq<Segment>, d: Document, j: Journal): seq<DiskState> {
    RawStages(cfg, segs, d, j) + DocumentStages(cfg, segs, d, j) + [Done(cfg, segs, d, j)]
  }

  /** Why a start-up from stage `i` stops, if it does. Between the two document writes the new
      primary file is not taken for a successor of its copy when the memories differ, and not
      even read when they are too many; once both files hold too many, neither is read. */
  function RefusedAt(cfg: Settings, d: Document, j: Journal, i: nat): Option<string> {
    if j.target.None? || i <= Halves(j) then None
    else if i > Halves(j) + 1 then if Overfull(cfg, j.target.value) then Some("MEMORY_DOCUMENT_TOO_LARGE") else None
    else if Overfull(cfg, j.target.value) then Some("MEMORY_READ_ONLY_FALLBACK")
    else if j.target.value.memories != d.memories then Some("MEMORY_DOCUMENT_INVALID")
    else None
  }

  /** The stages short of the last from which nothing continues. */
  predicate Blocked(cfg: Settings, d: Document, j: Journal, i: nat) {
    i <= Halves(j) + 2 && RefusedAt(cfg, d, j, i).Some?
  }

  /** What a start-up from a stage does, when `rest` are the stages after it. */
  function RestartTrace(refused: Option<string>, rest: seq<DiskState>): Trace<()> {
    if refused.Some? then Trace([], Err(refused.value)) else Trace(rest, Ok(()))
  }

  // ---------------------------------------------------------------- the log at a stage

  function LogAt(rs: seq<RawRecord>, j: Journal, n: nat): seq<RawRecord> {
    Full(j, rs)[..if |rs| + n <= |Full(j, rs)| then |rs| + n else |Full(j, rs)|]
  }

  /** The record that comes next is new to the log at its stage. */
  lemma {:induction false} NextIsFresh(j: Journal, rs: seq<RawRecord>, n: nat)
    requires Anchored(j, rs, rs) && n < Halves(j)
    ensures var before, r := LogAt(rs, j, n), Full(j, rs)[|rs| + n];
            && LogAt(rs, j, n + 1) == before + [r] && Fresh(before, r) && ValidRecord(r) && r.sequence == |before| + 1
  {
    var full := Full(j, rs);
    assert forall x | x in LogAt(rs, j, n) :: exists i :: 0 <= i < |rs| + n && full[i] == x;
  }

  lemma {:induction false} LogsRead(cfg: Settings, segs: seq<Segment>, rs: seq<RawRecord>, j: Journal, n: nat)
    requires ReadSegments(segs) == Ok(rs) && Anchored(j, rs, rs) && n <= Halves(j)
    ensures ReadSegments(SegmentsAt(cfg, segs, j, n)) == Ok(LogAt(rs, j, n))
  {
    if n == 0 {
      assert LogAt(rs, j, 0) == rs;
    } else {
      LogsRead(cfg, segs, rs, j, n - 1);
      NextIsFresh(j, rs, n - 1);
      AppendReads(cfg, SegmentsAt(cfg, segs, j, n - 1), LogAt(rs, j, n - 1), Full(j, rs)[|rs| + n - 1]);
    }
  }

  lemma {:induction false} StageAnchored(j: Journal, rs: seq<RawRecord>, n: nat)
    requires Anchored(j, rs, rs) && n <= Halves(j)
    ensures Anchored(j, rs, LogAt(rs, j, n)) && |LogAt(rs, j, n)| == |rs| + n && rs <= LogAt(rs, j, n)
    ensures LogAt(rs, j, Halves(j)) == Full(j, rs)
  {
    assert Full(j, rs)[..|rs|] == rs;
  }

  // ---------------------------------------------------------------- publishing the records

  /** What `append` makes of a record that continues the log. */
  function Tried(cfg: Settings, s: DiskState, r: RawRecord): Trace<RawRecord> {
    if Refusal(cfg, r).Some? then Trace([], Err(Refusal(cfg, r).value)) else Trace([Appended(cfg, s, r)], Ok(r))
  }

  lemma {:induction false} NextTried(cfg: Settings, s: DiskState, j: Journal, rs: seq<RawRecord>)
    requires ReadSegments(s.segments).Ok? && Anchored(j, rs, Log(s)) && |Log(s)| < |Full(j, rs)|
    ensures var r := Full(j, rs)[|Log(s)|]; AppendTrace(cfg, s, r) == Tried(cfg, s, r)
  {
    var r := Full(j, rs)[|Log(s)|];
    AnchoredNext(j, rs, Log(s));
    forall x | x in Log(s) ensures x.turn != r.turn || x.role != r.role {
      var i :| 0 <= i < |Log(s)| && Full(j, rs)[i] == x;
    }
  }

  /** Both publishing operations, before and after the USER record is in the log. */
  lemma {:induction false} UserPublished(cfg: Settings, s: DiskState, user: RawRecord, identity: seq<(string, Digest)>)
    requires ReadSegments(s.segments).Ok? && user.role == User
    requires user.id in ById(Log(s)) && ById(Log(s))[user.id] == user
    ensures PublishUserTrace(cfg, s, user, identity) == Trace([], Ok(user))
    ensures AppendPendingTrace(cfg, s, user, identity) == Trace([], Ok(user))
  {
  }

  lemma {:induction false} UserMissing(cfg: Settings, s: DiskState, user: RawRecord, identity: seq<(string, Digest)>)
    requires ReadSegments(s.segments).Ok? && user.role == User
    requires user.id !in ById(Log(s)) && Identity(Log(s)) == identity
    ensures PublishUserTrace(cfg, s, user, identity) == AppendTrace(cfg, s, user)
    ensures AppendPendingTrace(cfg, s, user, identity) == AppendTrace(cfg, s, user)
  {
    assert user.(role := User) == user;
  }

  lemma {:induction false} UserStep(cfg: Settings, segs: seq<Segment>, j: Journal, s: DiskState, n: nat)
    requires RecordsDecided(cfg, segs, j) && n <= Halves(j)
    requires s.segments == SegmentsAt(cfg, segs, j, n)
    ensures var id, all := j.checkpoint.rawIdentity, if n == 0 then Tried(cfg, s, j.user) else Trace([], Ok(j.user));
            PublishUserTrace(cfg, s, j.user, id) == all == AppendPendingTrace(cfg, s, j.user, id)
  {
    var rs := ReadSegments(segs).value;
    LogsRead(cfg, segs, rs, j, n);
    StageAnchored(j, rs, n);
    MissingUser(j, rs, LogAt(rs, j, n));
    if n == 0 {
      UserMissing(cfg, s, j.user, j.checkpoint.rawIdentity);
      assert Full(j, rs)[|rs|] == j.user;
      NextTried(cfg, s, j, rs);
    } else {
      UserPublished(cfg, s, j.user, j.checkpoint.rawIdentity);
    }
  }

  lemma {:induction false} AnswerStep(cfg: Settings, segs: seq<Segment>, j: Journal, s: DiskState, n: nat)
    requires RecordsDecided(cfg, segs, j) && j.assistant.Some? && 1 <= n <= 2
    requires s.segments == SegmentsAt(cfg, segs, j, n)
    ensures AppendAnswerTrace(cfg, s, j.user, j.assistant.value)
            == if n == 1 then Tried(cfg, s, j.assistant.value) else Trace([], Ok(j.assistant.value))
  {
    var rs := ReadSegments(segs).value;
    LogsRead(cfg, segs, rs, j, n);
    StageAnchored(j, rs, n);
    MissingUser(j, rs, LogAt(rs, j, n));
    if n == 1 {
      assert Full(j, rs)[|rs|] == j.user;
      NextTried(cfg, s, j, rs);
      assert j.assistant.value.(role := Assistant) == j.assistant.value;
    }
  }

  /** The writes that are still missing from the log at stage `n`, in order. */
  function MissingWrites(cfg: Settings, segs: seq<Segment>, j: Journal, s: DiskState, n: nat): seq<DiskState> {
    if n >= Halves(j) then []
    else if n == 0 && j.assistant.Some? then
      [s.(segments := SegmentsAt(cfg, segs, j, 1)), s.(segments := SegmentsAt(cfg, segs, j, 2))]
    else [s.(segments := SegmentsAt(cfg, segs, j, n + 1))]
  }

  lemma {:induction false} TurnOfSteps(cfg: Settings, s: DiskState, j: Journal, user: Trace<RawRecord>, answer: Trace<RawRecord>)
    requires j.state == ReadyToCommit && j.assistant.Some?
    requires user == PublishUserTrace(cfg, s, j.user, j.checkpoint.rawIdentity) && (user.outcome.Ok? ==> user.outcome.value == j.user)
    requires user.outcome.Ok? ==> answer == AppendAnswerTrace(cfg, End(s, user), j.user, j.assistant.value)
    ensures PublishRawTrace(cfg, s, j) == if user.outcome.Ok? then Then(user, answer) else user
  {
  }

  lemma {:induction false} PendingOfStep(cfg: Settings, s: DiskState, j: Journal)
    requires j.state == ReadyPending
    ensures PublishRawTrace(cfg, s, j) == AppendPendingTrace(cfg, s, j.user, j.checkpoint.rawIdentity)
  {
  }

  /** The USER step and the ASSISTANT step together write what is missing. */
  lemma {:induction false} StepsMissing(cfg: Settings, segs: seq<Segment>, j: Journal, s: DiskState, n: nat,
                                        user: Trace<RawRecord>, answer: Trace<RawRecord>)
    requires n <= Halves(j) && s.segments == SegmentsAt(cfg, segs, j, n)
    requires user == Trace(if n == 0 then [s.(segments := SegmentsAt(cfg, segs, j, 1))] else [], Ok(j.user))
    requires j.assistant.Some? ==>
               answer == Trace(if n <= 1 then [End(s, user).(segments := SegmentsAt(cfg, segs, j, 2))] else [], Ok(j.assistant.value))
    ensures var t := if j.assistant.Some? then Then(user, answer) else user;
            t.writes == MissingWrites(cfg, segs, j, s, n) && t.outcome.Ok?
            && End(s, t) == s.(segments := SegmentsAt(cfg, segs, j, Halves(j)))
  {
  }

  /** Publishing the records from any stage appends exactly those that are missing. */
  lemma {:induction false} RawResumes(cfg: Settings, segs: seq<Segment>, j: Journal, s: DiskState, n: nat)
    requires RecordsDecided(cfg, segs, j) && RecordsFit(cfg, j) && n <= Halves(j)
    requires s.segments == SegmentsAt(cfg, segs, j, n)
    ensures var t := PublishRawTrace(cfg, s, j);
            t.writes == MissingWrites(cfg, segs, j, s, n) && t.outcome.Ok?
            && End(s, t) == s.(segments := SegmentsAt(cfg, segs, j, Halves(j)))
  {
    var user := PublishUserTrace(cfg, s, j.user, j.checkpoint.rawIdentity);
    UserStep(cfg, segs, j, s, n);
    if j.state == ReadyToCommit {
      var answer := AppendAnswerTrace(cfg, End(s, user), j.user, j.assistant.value);
      AnswerStep(cfg, segs, j, End(s, user), if n == 2 then 2 else 1);
      TurnOfSteps(cfg, s, j, user, answer);
      StepsMissing(cfg, segs, j, s, n, user, answer);
    } else {
      PendingOfStep(cfg, s, j);
      StepsMissing(cfg, segs, j, s, n, user, user);
    }
  }

  // ---------------------------------------------------------------- publishing the document

  /** A coherent document within its limits can be loaded over any log that extends its own. */
  lemma {:induction false} Loadable(cfg: Settings, d: Document, rs: seq<RawRecord>, log: seq<RawRecord>)
    requires WellFormedLog(log) && Coherent(d, rs) && rs <= log && WithinReadLimits(cfg, d)
    ensures ParseFile(cfg, Holds(d), Ok(log)) == Ok(d)
  {
    Resolves(d, rs, log);
    ParsesAs(cfg, d, Ok(log));
  }

  lemma {:induction false} ParsesAs(cfg: Settings, d: Document, read: Outcome<seq<RawRecord>>)
    requires ValidDocument(d) && !read.Crashed? && SourcesCheck(d, read).Ok? && WithinReadLimits(cfg, d)
    ensures ParseFile(cfg, Holds(d), read) == Ok(d)
  {
  }

  lemma {:induction false} CleanLoad(cfg: Settings, s: DiskState, d: Document, now: int)
    requires s.primary == s.lastValid == Holds(d) && ParseFile(cfg, s.primary, ReadSegments(s.segments)) == Ok(d)
    ensures LoadTrace(cfg, s, now) == Trace([], Ok(AsLoaded(d)))
    ensures InitializeTrace(cfg, s, now) == Trace([], Ok(AsLoaded(d)))
  {
  }

  /** The window between the two document writes. */
  lemma {:induction false} TornLoad(cfg: Settings, s: DiskState, p: Document, l: Document, now: int)
    requires s.primary == Holds(p) && s.lastValid == Holds(l) && p.curation != l.curation
    requires ParseFile(cfg, Holds(p), ReadSegments(s.segments)) == Ok(p)
    requires ParseFile(cfg, Holds(l), ReadSegments(s.segments)) == Ok(l)
    ensures InitializeTrace(cfg, s, now) == LoadTrace(cfg, s, now)
    ensures LoadTrace(cfg, s, now) ==
              if p.memories == l.memories then Trace([s.(lastValid := Holds(p))], Ok(AsLoaded(p)))
              else Trace([], Err("MEMORY_DOCUMENT_INVALID"))
  {
  }

  /** What `commit` makes of a valid target over a settled pair of files. */
  function Replaced(cfg: Settings, s: DiskState, t: Document): Trace<Document> {
    if CommitFits(cfg, t) then Trace([s.(primary := Holds(t)), s.(primary := Holds(t), lastValid := Holds(t))], Ok(t))
    else Trace([], Err(CommitRefusal(cfg, t).value))
  }

  lemma {:induction false} TargetCommits(cfg: Settings, s: DiskState, d: Document, target: Document, rs: seq<RawRecord>)
    requires s.primary == s.lastValid == Holds(d) && ReadSegments(s.segments).Ok? && WellFormedLog(Log(s))
    requires Coherent(target, rs) && rs <= Log(s) && target != d
    ensures CommitTrace(cfg, s, target, false, Some(Holds(d))) == Replaced(cfg, s, target)
  {
    Resolves(target, rs, Log(s));
    CommitsAs(cfg, s, d, target);
  }

  lemma {:induction false} CommitsAs(cfg: Settings, s: DiskState, d: Document, target: Document)
    requires s.primary == s.lastValid == Holds(d) && target != d
    requires ValidDocument(target) && SourcesCheck(target, ReadSegments(s.segments)).Ok?
    ensures CommitTrace(cfg, s, target, false, Some(Holds(d))) == Replaced(cfg, s, target)
  {
  }

  lemma {:induction false} Resolves(d: Document, rs: seq<RawRecord>, log: seq<RawRecord>)
    requires WellFormedLog(log) && Coherent(d, rs) && rs <= log
    ensures ValidDocument(d) && SourcesCheck(d, Ok(log)).Ok?
  {
    CoherentGrows(d, rs, log);
    CoherentResolves(d, log);
    SourcesCheckIff(d, log);
  }

  lemma {:induction false} FinalLog(cfg: Settings, segs: seq<Segment>, j: Journal, s: DiskState)
    requires RecordsDecided(cfg, segs, j) && s.segments == SegmentsAt(cfg, segs, j, Halves(j))
    ensures ReadSegments(s.segments) == Ok(Full(j, ReadSegments(segs).value))
    ensures ReadSegments(segs).value <= Log(s) && WellFormedLog(Log(s))
  {
    LogsRead(cfg, segs, ReadSegments(segs).value, j, Halves(j));
    StageAnchored(j, ReadSegments(segs).value, Halves(j));
  }

  /** The two document writes, from a settled pair of files. */
  function DocumentWritesLeft(s: DiskState, d: Document, j: Journal): seq<DiskState> {
    if j.target.Some? && s.primary == Holds(d) then
      [s.(primary := Holds(j.target.value)), s.(primary := Holds(j.target.value), lastValid := Holds(j.target.value))]
    else []
  }

  /** A document that both files can hold between two steps of the decision and that reads back:
      the old one, or a target within the item limit. */
  predicate SettledOn(cfg: Settings, d: Document, j: Journal, p: Document) {
    p == d || (j.target == Some(p) && !Overfull(cfg, p))
  }

  /** What publishing a target over the document `d` needs, and a decision provides. */
  ghost predicate TargetOver(cfg: Settings, d: Document, j: Journal, rs: seq<RawRecord>) {
    && j.target.Some? && j.targetIdentity == j.target && j.state == ReadyToCommit && ValidDocument(j.target.value)
    && j.checkpoint.longTermRevision == Some(d.revision) && j.checkpoint.longTermIdentity == Some(d)
    && Coherent(d, rs) && WithinReadLimits(cfg, d) && Coherent(j.target.value, rs) && j.target.value != d
  }

  lemma {:induction false} PublishResumes(cfg: Settings, s: DiskState, j: Journal, d: Document, rs: seq<RawRecord>, now: int)
    requires s.primary == s.lastValid == Holds(d) && ReadSegments(s.segments).Ok? && WellFormedLog(Log(s)) && rs <= Log(s)
    requires TargetOver(cfg, d, j, rs)
    ensures PublishTrace(cfg, s, j.checkpoint, j.target.value, j.targetIdentity, now) == Replaced(cfg, s, j.target.value)
  {
    Loadable(cfg, d, rs, Log(s));
    CleanLoad(cfg, s, d, now);
    TargetCommits(cfg, s, d, j.target.value, rs);
    OverBaseline(cfg, s, j.checkpoint, d, j.target.value, now);
  }

  lemma {:induction false} OverBaseline(cfg: Settings, s: DiskState, baseline: PreTurnCheckpoint, d: Document, target: Document, now: int)
    requires LoadTrace(cfg, s, now) == Trace([], Ok(AsLoaded(d))) && target != d
    requires baseline.longTermRevision == Some(d.revision) && baseline.longTermIdentity == Some(d)
    ensures PublishTrace(cfg, s, baseline, target, Some(target), now) == CommitTrace(cfg, s, target, false, Some(Holds(d)))
  {
  }

  lemma {:induction false} PublishIsDone(cfg: Settings, s: DiskState, j: Journal, rs: seq<RawRecord>, now: int)
    requires j.target.Some? && j.targetIdentity == j.target
    requires s.primary == s.lastValid == Holds(j.target.value) && ReadSegments(s.segments).Ok? && WellFormedLog(Log(s)) && rs <= Log(s)
    requires Coherent(j.target.value, rs) && WithinReadLimits(cfg, j.target.value)
    ensures PublishTrace(cfg, s, j.checkpoint, j.target.value, j.targetIdentity, now) == Trace([], Ok(j.target.value))
  {
    Loadable(cfg, j.target.value, rs, Log(s));
    CleanLoad(cfg, s, j.target.value, now);
  }

  lemma {:induction false} DocumentPublished(cfg: Settings, s: DiskState, j: Journal, t: Trace<Document>, now: int)
    requires j.target.Some? && j.state == ReadyToCommit && ValidDocument(j.target.value)
    requires PublishTrace(cfg, s, j.checkpoint, j.target.value, j.targetIdentity, now) == t
    ensures PublishDocumentTrace(cfg, s, j, now) == Trace(t.writes, MapOk(t.outcome, _ => ()))
  {
  }

  lemma {:induction false} TargetOf(cfg: Settings, segs: seq<Segment>, d: Document, j: Journal)
    requires Undelivered(cfg, segs, d, j) && j.target.Some?
    ensures TargetOver(cfg, d, j, ReadSegments(segs).value)
  {
  }

  lemma {:induction false} NothingLeft(s: DiskState, d: Document, j: Journal, p: Document)
    requires s.primary == Holds(p) && (j.target.None? || p != d)
    ensures DocumentWritesLeft(s, d, j) == []
  {
  }

  lemma {:induction false} DocumentResumes(cfg: Settings, segs: seq<Segment>, d: Document, j: Journal, s: DiskState, p: Document, now: int,
                                           left: seq<DiskState>)
    requires Decision(cfg, segs, d, j) && s.segments == SegmentsAt(cfg, segs, j, Halves(j))
    requires s.primary == s.lastValid == Holds(p) && SettledOn(cfg, d, j, p)
    requires left == DocumentWritesLeft(s, d, j)
    ensures PublishDocumentTrace(cfg, s, j, now) == Trace(left, Ok(()))
  {
    if j.target.Some? {
      FinalLog(cfg, segs, j, s);
      TargetOf(cfg, segs, d, j);
      TargetResumes(cfg, s, d, j, ReadSegments(segs).value, p, now, left);
    }
  }

  lemma {:induction false} TargetResumes(cfg: Settings, s: DiskState, d: Document, j: Journal, rs: seq<RawRecord>, p: Document, now: int,
                                         left: seq<DiskState>)
    requires TargetOver(cfg, d, j, rs) && CommitFits(cfg, j.target.value)
    requires ReadSegments(s.segments).Ok? && WellFormedLog(Log(s)) && rs <= Log(s)
    requires s.primary == s.lastValid == Holds(p) && SettledOn(cfg, d, j, p)
    requires left == DocumentWritesLeft(s, d, j)
    ensures PublishDocumentTrace(cfg, s, j, now) == Trace(left, Ok(()))
  {
    if p == d {
      ResumesOver(cfg, s, d, j, rs, now);
    } else {
      ResumesAfter(cfg, s, j, rs, now);
      NothingLeft(s, d, j, p);
    }
  }

  /** Publishing the target over its baseline: both writes, or the refusal of `commit`. */
  lemma {:induction false} ResumesOver(cfg: Settings, s: DiskState, d: Document, j: Journal, rs: seq<RawRecord>, now: int)
    requires TargetOver(cfg, d, j, rs)
    requires ReadSegments(s.segments).Ok? && WellFormedLog(Log(s)) && rs <= Log(s)
    requires s.primary == s.lastValid == Holds(d)
    ensures PublishDocumentTrace(cfg, s, j, now)
            == if CommitFits(cfg, j.target.value) then Trace(DocumentWritesLeft(s, d, j), Ok(()))
               else Trace([], Err(CommitRefusal(cfg, j.target.value).value))
  {
    PublishResumes(cfg, s, j, d, rs, now);
    DocumentPublished(cfg, s, j, PublishTrace(cfg, s, j.checkpoint, j.target.value, j.targetIdentity, now), now);
  }

  lemma {:induction false} ResumesAfter(cfg: Settings, s: DiskState, j: Journal, rs: seq<RawRecord>, now: int)
    requires j.target.Some? && j.targetIdentity == j.target && j.state == ReadyToCommit
    requires ValidDocument(j.target.value) && Coherent(j.target.value, rs) && WithinReadLimits(cfg, j.target.value)
    requires ReadSegments(s.segments).Ok? && WellFormedLog(Log(s)) && rs <= Log(s)
    requires s.primary == s.lastValid == Holds(j.target.value)
    ensures PublishDocumentTrace(cfg, s, j, now) == Trace([], Ok(()))
  {
    PublishIsDone(cfg, s, j, rs, now);
    DocumentPublished(cfg, s, j, Trace([], Ok(j.target.value)), now);
  }

  /** What rolls forward from a disk with `n` records and settled documents. */
  function RollForward(cfg: Settings, segs: seq<Segment>, d: Document, j: Journal, s: DiskState, n: nat): seq<DiskState> {
    MissingWrites(cfg, segs, j, s, n)
    + DocumentWritesLeft(s.(segments := SegmentsAt(cfg, segs, j, Halves(j))), d, j)
    + [Done(cfg, segs, d, j)]
  }

  lemma {:induction false} LoadedJournal(cfg: Settings, s: DiskState, j: Journal)
    requires s.journal == JournalOf(j) && JournalSafe(cfg, j) && ValidJournal(j) && j.state != Prepared
    ensures forall now :: RecoverTrace(cfg, s, now) == CommitJournalTrace(cfg, s, now)
    ensures forall now :: CommitJournalTrace(cfg, s, now) ==
              var published := PublishedTrace(cfg, s, j, now);
              Then(published, Trace([End(s, published).(journal := NoJournal)], Ok(())))
  {
  }

  /** Records, then document: the writes of both, one after the other. */
  lemma {:induction false} PublishedFrom(cfg: Settings, s: DiskState, j: Journal, now: int, s1: DiskState, writes: seq<DiskState>)
    requires j.state == ReadyToCommit ==> j.assistant.Some?
    requires var raw := PublishRawTrace(cfg, s, j); raw.outcome.Ok? && End(s, raw) == s1
    requires PublishDocumentTrace(cfg, s1, j, now) == Trace(writes, Ok(()))
    ensures var t := PublishedTrace(cfg, s, j, now);
            && t == Trace(PublishRawTrace(cfg, s, j).writes + writes, Ok(()))
            && End(s, t) == End(s1, Trace(writes, Ok(())))
  {
    ThenEnd(s, PublishRawTrace(cfg, s, j), Trace(writes, Ok(())));
  }

  lemma {:induction false} LastStage(cfg: Settings, segs: seq<Segment>, d: Document, j: Journal, s: DiskState, p: Document)
    requires s == StageAt(cfg, segs, j, Halves(j), p, p) && (p == d || j.target == Some(p))
    ensures End(s, Trace(DocumentWritesLeft(s, d, j), Ok(()))).(journal := NoJournal) == Done(cfg, segs, d, j)
  {
  }

  lemma {:induction false} PublishedResumes(cfg: Settings, segs: seq<Segment>, d: Document, j: Journal, s: DiskState, n: nat, p: Document, now: int)
    requires Decision(cfg, segs, d, j) && n <= Halves(j) && s == StageAt(cfg, segs, j, n, p, p)
    requires SettledOn(cfg, d, j, p) && (p == d || n == Halves(j))
    ensures var t := PublishedTrace(cfg, s, j, now);
            && t.outcome.Ok?
            && t.writes == MissingWrites(cfg, segs, j, s, n) + DocumentWritesLeft(s.(segments := SegmentsAt(cfg, segs, j, Halves(j))), d, j)
            && End(s, t).(journal := NoJournal) == Done(cfg, segs, d, j)
  {
    RawResumes(cfg, segs, j, s, n);
    var s1 := s.(segments := SegmentsAt(cfg, segs, j, Halves(j)));
    DocumentResumes(cfg, segs, d, j, s1, p, now, DocumentWritesLeft(s1, d, j));
    PublishedFrom(cfg, s, j, now, s1, DocumentWritesLeft(s1, d, j));
    LastStage(cfg, segs, d, j, s1, p);
  }

  /** From such a disk `recover` performs exactly the missing steps and succeeds. */
  lemma {:induction false} RecoverResumes(cfg: Settings, segs: seq<Segment>, d: Document, j: Journal, n: nat, p: Document, now: int)
    requires Decision(cfg, segs, d, j) && n <= Halves(j)
    requires SettledOn(cfg, d, j, p) && (p == d || n == Halves(j))
    ensures var s := StageAt(cfg, segs, j, n, p, p);
            RecoverTrace(cfg, s, now) == CommitJournalTrace(cfg, s, now) == Trace(RollForward(cfg, segs, d, j, s, n), Ok(()))
  {
    var s := StageAt(cfg, segs, j, n, p, p);
    LoadedJournal(cfg, s, j);
    PublishedResumes(cfg, segs, d, j, s, n, p, now);
  }

  // ---------------------------------------------------------------- restarting at a stage

  lemma {:induction false} StageLog(cfg: Settings, segs: seq<Segment>, d: Document, j: Journal, n: nat)
    requires Decision(cfg, segs, d, j) && n <= Halves(j)
    ensures var log := LogAt(ReadSegments(segs).value, j, n);
            ReadSegments(SegmentsAt(cfg, segs, j, n)) == Ok(log) && WellFormedLog(log) && ReadSegments(segs).value <= log
  {
    LogsRead(cfg, segs, ReadSegments(segs).value, j, n);
    StageAnchored(j, ReadSegments(segs).value, n);
    ReadSegmentsSound(SegmentsAt(cfg, segs, j, n));
  }

  lemma {:induction false} DocumentFits(cfg: Settings, segs: seq<Segment>, d: Document, j: Journal, p: Document)
    requires Decision(cfg, segs, d, j) && SettledOn(cfg, d, j, p)
    ensures Coherent(p, ReadSegments(segs).value) && WithinReadLimits(cfg, p)
  {
  }

  lemma {:induction false} StageLoads(cfg: Settings, segs: seq<Segment>, d: Document, j: Journal, n: nat, p: Document)
    requires Decision(cfg, segs, d, j) && n <= Halves(j) && SettledOn(cfg, d, j, p)
    ensures ParseFile(cfg, Holds(p), ReadSegments(SegmentsAt(cfg, segs, j, n))) == Ok(p)
  {
    StageLog(cfg, segs, d, j, n);
    DocumentFits(cfg, segs, d, j, p);
    Loadable(cfg, p, ReadSegments(segs).value, LogAt(ReadSegments(segs).value, j, n));
  }

  /** Start-up from a settled stage. */
  lemma {:induction false} BootResumes(cfg: Settings, segs: seq<Segment>, d: Document, j: Journal, n: nat, p: Document, now: int)
    requires Decision(cfg, segs, d, j) && n <= Halves(j)
    requires SettledOn(cfg, d, j, p) && (p == d || n == Halves(j))
    ensures var s := StageAt(cfg, segs, j, n, p, p);
            BootTrace(cfg, s, now) == Trace(RollForward(cfg, segs, d, j, s, n), Ok(()))
  {
    var s := StageAt(cfg, segs, j, n, p, p);
    StageLoads(cfg, segs, d, j, n, p);
    CleanLoad(cfg, s, p, now);
    RecoverResumes(cfg, segs, d, j, n, p, now);
  }

  lemma {:induction false} BootWhenDone(cfg: Settings, segs: seq<Segment>, d: Document, j: Journal, now: int)
    requires Decision(cfg, segs, d, j) && SettledOn(cfg, d, j, FinalDocument(d, j))
    ensures BootTrace(cfg, Done(cfg, segs, d, j), now) == Trace([], Ok(()))
  {
    var p := FinalDocument(d, j);
    StageLoads(cfg, segs, d, j, Halves(j), p);
    CleanLoad(cfg, Done(cfg, segs, d, j), p, now);
  }

  /** After a refresh of the copy, the rest is a recovery from settled documents. */
  lemma {:induction false} BootOver(cfg: Settings, s: DiskState, s1: DiskState, l: Loaded, rest: seq<DiskState>, now: int)
    requires InitializeTrace(cfg, s, now) == Trace([s1], Ok(l)) && RecoverTrace(cfg, s1, now) == Trace(rest, Ok(()))
    ensures BootTrace(cfg, s, now) == Trace([s1] + rest, Ok(()))
  {
    BootIs(cfg, s, now, Trace([s1], Ok(l)), Trace(rest, Ok(())));
  }

  lemma {:induction false} BootRefused(cfg: Settings, s: DiskState, code: string, now: int)
    requires InitializeTrace(cfg, s, now) == Trace([], Err(code))
    ensures BootTrace(cfg, s, now) == Trace([], Err(code))
  {
    BootIs(cfg, s, now, Trace([], Err(code)), RecoverTrace(cfg, s, now));
  }

  lemma {:induction false} CurationsDiffer(cfg: Settings, segs: seq<Segment>, d: Document, j: Journal)
    requires Decision(cfg, segs, d, j) && j.target.Some?
    ensures j.target.value.curation != d.curation
  {
  }

  lemma {:induction false} BootWhenTorn(cfg: Settings, segs: seq<Segment>, d: Document, j: Journal, now: int)
    requires Decision(cfg, segs, d, j) && j.target.Some? && !Overfull(cfg, j.target.value) && j.target.value.memories != d.memories
    ensures BootTrace(cfg, StageAt(cfg, segs, j, Halves(j), j.target.value, d), now) == Trace([], Err("MEMORY_DOCUMENT_INVALID"))
  {
    var s := StageAt(cfg, segs, j, Halves(j), j.target.value, d);
    TornStageLoads(cfg, segs, d, j, s, now);
    BootRefused(cfg, s, "MEMORY_DOCUMENT_INVALID", now);
  }

  lemma {:induction false} TornStageLoads(cfg: Settings, segs: seq<Segment>, d: Document, j: Journal, s: DiskState, now: int)
    requires Decision(cfg, segs, d, j) && j.target.Some? && !Overfull(cfg, j.target.value)
    requires s == StageAt(cfg, segs, j, Halves(j), j.target.value, d)
    ensures InitializeTrace(cfg, s, now) ==
              if j.target.value.memories == d.memories then Trace([s.(lastValid := Holds(j.target.value))], Ok(AsLoaded(j.target.value)))
              else Trace([], Err("MEMORY_DOCUMENT_INVALID"))
  {
    StageLoads(cfg, segs, d, j, Halves(j), j.target.value);
    StageLoads(cfg, segs, d, j, Halves(j), d);
    CurationsDiffer(cfg, segs, d, j);
    TornLoad(cfg, s, j.target.value, d, now);
  }

  // ---------------------------------------------------------------- a target with too many items

  /** The target is written and cannot be read back. */
  ghost predicate Unread(cfg: Settings, segs: seq<Segment>, d: Document, j: Journal) {
    Decision(cfg, segs, d, j) && j.target.Some? && Overfull(cfg, j.target.value)
  }

  lemma {:induction false} OverfullParse(cfg: Settings, t: Document, read: Outcome<seq<RawRecord>>)
    requires CommitFits(cfg, t) && ValidDocument(t) && Overfull(cfg, t) && !read.Crashed?
    ensures ParseFile(cfg, Holds(t), read) == Err("MEMORY_DOCUMENT_TOO_LARGE")
  {
  }

  /** The copy is served, read-only. */
  lemma {:induction false} FallsBack(cfg: Settings, s: DiskState, t: Document, d: Document, now: int)
    requires CommitFits(cfg, t) && ValidDocument(t) && Overfull(cfg, t)
    requires s.primary == Holds(t) && s.lastValid == Holds(d) && ParseFile(cfg, Holds(d), ReadSegments(s.segments)) == Ok(d)
    ensures InitializeTrace(cfg, s, now) == LoadTrace(cfg, s, now) == Trace([], Ok(Loaded(d, true, None)))
  {
    OverfullParse(cfg, t, ReadSegments(s.segments));
  }

  lemma {:induction false} BothUnread(cfg: Settings, s: DiskState, t: Document, now: int)
    requires CommitFits(cfg, t) && ValidDocument(t) && Overfull(cfg, t) && s.primary == s.lastValid == Holds(t)
    ensures BootTrace(cfg, s, now) == Trace([], Err("MEMORY_DOCUMENT_TOO_LARGE"))
  {
    OverfullParse(cfg, t, ReadSegments(s.segments));
    BootRefused(cfg, s, "MEMORY_DOCUMENT_TOO_LARGE", now);
  }

  /** A store that serves its copy does not publish. */
  lemma {:induction false} ReadOnlyRefuses(cfg: Settings, s: DiskState, d: Document, j: Journal, rs: seq<RawRecord>, now: int)
    requires TargetOver(cfg, d, j, rs) && LoadTrace(cfg, s, now) == Trace([], Ok(Loaded(d, true, None)))
    ensures PublishDocumentTrace(cfg, s, j, now) == Trace([], Err("MEMORY_READ_ONLY_FALLBACK"))
  {
    DocumentPublished(cfg, s, j, PublishTrace(cfg, s, j.checkpoint, j.target.value, j.targetIdentity, now), now);
  }

  lemma {:induction false} PublishedStops(cfg: Settings, s: DiskState, j: Journal, code: string, now: int)
    requires j.state == ReadyToCommit ==> j.assistant.Some?
    requires var raw := PublishRawTrace(cfg, s, j); raw.outcome.Ok? && PublishDocumentTrace(cfg, End(s, raw), j, now) == Trace([], Err(code))
    ensures PublishedTrace(cfg, s, j, now) == Trace(PublishRawTrace(cfg, s, j).writes, Err(code))
  {
  }

  lemma {:induction false} AfterLoad(cfg: Settings, s: DiskState, l: Loaded, writes: seq<DiskState>, code: string, now: int)
    requires InitializeTrace(cfg, s, now) == Trace([], Ok(l)) && RecoverTrace(cfg, s, now) == Trace(writes, Err(code))
    ensures BootTrace(cfg, s, now) == Trace(writes, Err(code))
  {
    var init := Trace([], Ok(l));
    assert End(s, init) == s;
    var rest := Trace(writes, Err(code));
    assert Then(init, rest) == rest;
    BootIs(cfg, s, now, init, rest);
  }

  lemma {:induction false} RawIsDone(cfg: Settings, segs: seq<Segment>, j: Journal, s: DiskState)
    requires RecordsDecided(cfg, segs, j) && RecordsFit(cfg, j) && s.segments == SegmentsAt(cfg, segs, j, Halves(j))
    ensures var t := PublishRawTrace(cfg, s, j); t.writes == [] && t.outcome.Ok? && End(s, t) == s
  {
    RawResumes(cfg, segs, j, s, Halves(j));
  }

  lemma {:induction false} BootWhenUnread(cfg: Settings, segs: seq<Segment>, d: Document, j: Journal, now: int)
    requires Unread(cfg, segs, d, j)
    ensures BootTrace(cfg, StageAt(cfg, segs, j, Halves(j), j.target.value, d), now) == Trace([], Err("MEMORY_READ_ONLY_FALLBACK"))
  {
    var s := StageAt(cfg, segs, j, Halves(j), j.target.value, d);
    TargetOf(cfg, segs, d, j);
    StageLoads(cfg, segs, d, j, Halves(j), d);
    FallsBack(cfg, s, j.target.value, d, now);
    RawIsDone(cfg, segs, j, s);
    ReadOnlyRefuses(cfg, s, d, j, ReadSegments(segs).value, now);
    PublishedStops(cfg, s, j, "MEMORY_READ_ONLY_FALLBACK", now);
    LoadedJournal(cfg, s, j);
    AfterLoad(cfg, s, Loaded(d, true, None), [], "MEMORY_READ_ONLY_FALLBACK", now);
  }

  lemma {:induction false} BootWhenHealed(cfg: Settings, segs: seq<Segment>, d: Document, j: Journal, s: DiskState, s1: DiskState, now: int)
    requires Decision(cfg, segs, d, j) && j.target.Some? && !Overfull(cfg, j.target.value) && j.target.value.memories == d.memories
    requires s == StageAt(cfg, segs, j, Halves(j), j.target.value, d) && s1 == StageAt(cfg, segs, j, Halves(j), j.target.value, j.target.value)
    ensures BootTrace(cfg, s, now) == Trace([s1, Done(cfg, segs, d, j)], Ok(()))
  {
    TornStageLoads(cfg, segs, d, j, s, now);
    HealedRecovers(cfg, segs, d, j, now);
    HealedBoot(cfg, s, s1, j.target.value, Done(cfg, segs, d, j), now);
  }

  lemma {:induction false} HealedBoot(cfg: Settings, s: DiskState, s1: DiskState, target: Document, done: DiskState, now: int)
    requires InitializeTrace(cfg, s, now) == Trace([s.(lastValid := Holds(target))], Ok(AsLoaded(target))) && s1 == s.(lastValid := Holds(target))
    requires RecoverTrace(cfg, s1, now) == Trace([done], Ok(()))
    ensures BootTrace(cfg, s, now) == Trace([s1, done], Ok(()))
  {
    BootOver(cfg, s, s1, AsLoaded(target), [done], now);
  }

  lemma {:induction false} HealedRecovers(cfg: Settings, segs: seq<Segment>, d: Document, j: Journal, now: int)
    requires Decision(cfg, segs, d, j) && j.target.Some? && !Overfull(cfg, j.target.value)
    ensures RecoverTrace(cfg, StageAt(cfg, segs, j, Halves(j), j.target.value, j.target.value), now) == Trace([Done(cfg, segs, d, j)], Ok(()))
  {
    CurationsDiffer(cfg, segs, d, j);
    RecoverResumes(cfg, segs, d, j, Halves(j), j.target.value, now);
    NothingMissing(cfg, segs, d, j, StageAt(cfg, segs, j, Halves(j), j.target.value, j.target.value));
  }

  lemma {:induction false} NothingMissing(cfg: Settings, segs: seq<Segment>, d: Document, j: Journal, s: DiskState)
    requires j.target.Some? && j.target.value != d && s == StageAt(cfg, segs, j, Halves(j), j.target.value, j.target.value)
    ensures RollForward(cfg, segs, d, j, s, Halves(j)) == [Done(cfg, segs, d, j)]
  {
  }

  lemma {:induction false} RawStagesFrom(cfg: Settings, segs: seq<Segment>, d: Document, j: Journal, i: nat)
    requires i <= Halves(j)
    ensures var raw, s := RawStages(cfg, segs, d, j), StageAt(cfg, segs, j, i, d, d);
            |raw| == Halves(j) + 1 && raw[i] == s && raw[i + 1..] == MissingWrites(cfg, segs, j, s, i)
  {
  }

  lemma {:induction false} RawStage(cfg: Settings, segs: seq<Segment>, d: Document, j: Journal, i: nat)
    requires i <= Halves(j) && (j.target.Some? ==> j.target.value != d)
    ensures var all := Stages(cfg, segs, d, j);
            && i < |all| && all[i] == StageAt(cfg, segs, j, i, d, d)
            && all[i + 1..] == RollForward(cfg, segs, d, j, all[i], i)
  {
    RawStagesFrom(cfg, segs, d, j, i);
    var raw := RawStages(cfg, segs, d, j);
    assert (raw + DocumentStages(cfg, segs, d, j))[i + 1..] == raw[i + 1..] + DocumentStages(cfg, segs, d, j);
  }

  lemma {:induction false} DocumentStage(cfg: Settings, segs: seq<Segment>, d: Document, j: Journal)
    requires j.target.Some? && j.target.value != d
    ensures var all, i := Stages(cfg, segs, d, j), Halves(j) + 1;
            && |all| == i + 3
            && all[i] == StageAt(cfg, segs, j, Halves(j), j.target.value, d)
            && all[i + 1..] == [StageAt(cfg, segs, j, Halves(j), j.target.value, j.target.value), Done(cfg, segs, d, j)]
            && all[i + 1] == StageAt(cfg, segs, j, Halves(j), j.target.value, j.target.value)
            && all[i + 2..] == [Done(cfg, segs, d, j)]
  {
  }

  lemma {:induction false} LastOfStages(cfg: Settings, segs: seq<Segment>, d: Document, j: Journal)
    ensures var all := Stages(cfg, segs, d, j);
            && |all| == Halves(j) + (if j.target.Some? then 4 else 2)
            && all[|all| - 1] == Done(cfg, segs, d, j) && all[|all|..] == []
  {
  }

  /** The restart law: start-up from any stage of an interrupted roll-forward performs exactly
      the remaining steps, or is refused with the code of that stage. */
  lemma {:induction false} Restart(cfg: Settings, segs: seq<Segment>, d: Document, j: Journal, i: nat, now: int)
    requires Decision(cfg, segs, d, j) && i < |Stages(cfg, segs, d, j)|
    ensures BootTrace(cfg, Stages(cfg, segs, d, j)[i], now) == RestartTrace(RefusedAt(cfg, d, j, i), Stages(cfg, segs, d, j)[i + 1..])
  {
    if j.target.Some? {
      CurationsDiffer(cfg, segs, d, j);
    }
    LastOfStages(cfg, segs, d, j);
    if i <= Halves(j) {
      RawStage(cfg, segs, d, j, i);
      BootResumes(cfg, segs, d, j, i, d, now);
    } else if j.target.None? {
      BootWhenDone(cfg, segs, d, j, now);
    } else if Overfull(cfg, j.target.value) {
      UnreadRestart(cfg, segs, d, j, i, now);
    } else if i == Halves(j) + 3 {
      BootWhenDone(cfg, segs, d, j, now);
    } else {
      LateRestart(cfg, segs, d, j, i, now);
    }
  }

  lemma {:induction false} UnreadRestart(cfg: Settings, segs: seq<Segment>, d: Document, j: Journal, i: nat, now: int)
    requires Unread(cfg, segs, d, j) && j.target.value != d && Halves(j) < i < |Stages(cfg, segs, d, j)|
    ensures BootTrace(cfg, Stages(cfg, segs, d, j)[i], now) == Trace([], Err(if i == Halves(j) + 1 then "MEMORY_READ_ONLY_FALLBACK" else "MEMORY_DOCUMENT_TOO_LARGE"))
  {
    LastOfStages(cfg, segs, d, j);
    DocumentStage(cfg, segs, d, j);
    TargetOf(cfg, segs, d, j);
    if i == Halves(j) + 1 {
      BootWhenUnread(cfg, segs, d, j, now);
    } else {
      BothUnread(cfg, Stages(cfg, segs, d, j)[i], j.target.value, now);
    }
  }

  lemma {:induction false} LateRestart(cfg: Settings, segs: seq<Segment>, d: Document, j: Journal, i: nat, now: int)
    requires Decision(cfg, segs, d, j) && j.target.Some? && j.target.value != d && Halves(j) < i <= Halves(j) + 2
    requires !Overfull(cfg, j.target.value)
    ensures i < |Stages(cfg, segs, d, j)|
    ensures BootTrace(cfg, Stages(cfg, segs, d, j)[i], now) == RestartTrace(RefusedAt(cfg, d, j, i), Stages(cfg, segs, d, j)[i + 1..])
  {
    DocumentStage(cfg, segs, d, j);
    var settled := StageAt(cfg, segs, j, Halves(j), j.target.value, j.target.value);
    if i == Halves(j) + 2 {
      BootResumes(cfg, segs, d, j, Halves(j), j.target.value, now);
      NothingMissing(cfg, segs, d, j, settled);
    } else if j.target.value.memories != d.memories {
      BootWhenTorn(cfg, segs, d, j, now);
    } else {
      BootWhenHealed(cfg, segs, d, j, StageAt(cfg, segs, j, Halves(j), j.target.value, d), settled, now);
    }
  }

  // ---------------------------------------------------------------- any number of interrupted start-ups

  /** One start-up, and after how many of its steps it dies, if it does. */
  datatype Boot = Boot(now: int, crash: Option<nat>)

  /** The disk after one start-up whose steps are `t`. */
  function Booted(s: DiskState, t: Trace<()>, crash: Option<nat>): DiskState {
    if crash.Some? then After(s, t, crash.value) else End(s, t)
  }

  ghost function Boots(cfg: Settings, s: DiskState, bs: seq<Boot>): DiskState {
    if bs == [] then s
    else
      var before, b := Boots(cfg, s, bs[..|bs| - 1]), bs[|bs| - 1];
      Booted(before, BootTrace(cfg, before, b.now), b.crash)
  }

  /** The stage after one more start-up: every surviving step is one stage of progress, and
      nothing moves from a blocked stage. */
  function NextStage(cfg: Settings, d: Document, j: Journal, last: nat, i: nat, crash: Option<nat>): nat {
    if Blocked(cfg, d, j, i) then i else if crash.None? || i + crash.value > last then last else i + crash.value
  }

  function StageAfter(cfg: Settings, d: Document, j: Journal, last: nat, i: nat, bs: seq<Boot>): nat {
    if bs == [] then i else NextStage(cfg, d, j, last, StageAfter(cfg, d, j, last, i, bs[..|bs| - 1]), bs[|bs| - 1].crash)
  }

  /** The restart law for a whole list of stages. */
  ghost predicate Restarts(cfg: Settings, all: seq<DiskState>, d: Document, j: Journal) {
    forall i: nat, now: int | i < |all| :: BootTrace(cfg, all[i], now) == RestartTrace(RefusedAt(cfg, d, j, i), all[i + 1..])
  }

  lemma {:induction false} StagesRestart(cfg: Settings, segs: seq<Segment>, d: Document, j: Journal)
    requires Decision(cfg, segs, d, j)
    ensures Restarts(cfg, Stages(cfg, segs, d, j), d, j)
  {
    var all := Stages(cfg, segs, d, j);
    forall i: nat, now: int | i < |all|
      ensures BootTrace(cfg, all[i], now) == RestartTrace(RefusedAt(cfg, d, j, i), all[i + 1..])
    {
      Restart(cfg, segs, d, j, i, now);
    }
  }

  lemma {:induction false} OneBoot(cfg: Settings, d: Document, j: Journal, all: seq<DiskState>, i: nat, t: Trace<()>, crash: Option<nat>)
    requires i < |all| <= Halves(j) + 4 && (|all| == Halves(j) + 4 || j.target.None?)
    requires t == RestartTrace(RefusedAt(cfg, d, j, i), all[i + 1..])
    ensures var next := NextStage(cfg, d, j, |all| - 1, i, crash); next < |all| && Booted(all[i], t, crash) == all[next]
  {
  }

  /** Whatever the interruptions, the disk is always one of the stages. */
  lemma {:induction false} BootsFollow(cfg: Settings, all: seq<DiskState>, d: Document, j: Journal, i: nat, bs: seq<Boot>)
    requires Restarts(cfg, all, d, j) && i < |all| == Halves(j) + if j.target.Some? then 4 else 2
    ensures var next := StageAfter(cfg, d, j, |all| - 1, i, bs);
            next < |all| && Boots(cfg, all[i], bs) == all[next]
  {
    if bs != [] {
      var front, b := bs[..|bs| - 1], bs[|bs| - 1];
      var before := StageAfter(cfg, d, j, |all| - 1, i, front);
      BootsFollow(cfg, all, d, j, i, front);
      OneBoot(cfg, d, j, all, before, BootTrace(cfg, all[before], b.now), b.crash);
    }
  }

  lemma {:induction false} StagesDiffer(cfg: Settings, segs: seq<Segment>, d: Document, j: Journal)
    ensures forall i | 0 <= i < |Stages(cfg, segs, d, j)| ::
              Stages(cfg, segs, d, j)[i] == Done(cfg, segs, d, j) <==> i == |Stages(cfg, segs, d, j)| - 1
  {
    forall i | 0 <= i < |Stages(cfg, segs, d, j)| - 1 ensures Stages(cfg, segs, d, j)[i] != Done(cfg, segs, d, j) {
      assert Stages(cfg, segs, d, j)[i].journal.JournalOf?;
    }
  }

  /** Convergence: after any number of interrupted start-ups, one that is not interrupted
      ends in the decided state if and only if the disk was not at a blocked stage, and it
      completes if and only if the stage refuses nothing. */
  lemma {:induction false} Converges(cfg: Settings, segs: seq<Segment>, d: Document, j: Journal, i: nat, bs: seq<Boot>, now: int)
    requires Decision(cfg, segs, d, j) && i < |Stages(cfg, segs, d, j)|
    ensures var all := Stages(cfg, segs, d, j);
            var reached := StageAfter(cfg, d, j, |all| - 1, i, bs);
            && (Boots(cfg, all[i], bs + [Boot(now, None)]) == Done(cfg, segs, d, j) <==> !Blocked(cfg, d, j, reached))
            && (BootTrace(cfg, Boots(cfg, all[i], bs), now).outcome.Ok? <==> RefusedAt(cfg, d, j, reached).None?)
  {
    var all := Stages(cfg, segs, d, j);
    var full := bs + [Boot(now, None)];
    assert full[..|full| - 1] == bs;
    StagesRestart(cfg, segs, d, j);
    LastOfStages(cfg, segs, d, j);
    BootsFollow(cfg, all, d, j, i, full);
    BootsFollow(cfg, all, d, j, i, bs);
    StagesDiffer(cfg, segs, d, j);
  }

  /** What the decided state is: exactly the journalled records on the old log, and the
      target document or the old one. */
  lemma {:induction false} DoneMeans(cfg: Settings, segs: seq<Segment>, d: Document, j: Journal)
    requires Decision(cfg, segs, d, j)
    ensures var s := Done(cfg, segs, d, j);
            && Log(s) == ReadSegments(segs).value + [j.user] + (if j.assistant.Some? then [j.assistant.value] else [])
            && s.primary == s.lastValid == Holds(if j.target.Some? then j.target.value else d)
            && s.journal.NoJournal?
  {
    FinalLog(cfg, segs, j, Done(cfg, segs, d, j));
  }
}
