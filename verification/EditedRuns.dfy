/** `commit` as a run of single writes, with anything at all happening to the files between
    two of them. */
module EditedRuns {
  import opened Outcomes
  import opened Models
  import opened Storage
  import opened RawArchive
  import opened LongTerm
  import opened Transaction
  import opened Safety
  import opened Edits

  /** What comes after a document write and the copy that follows it. */
  datatype Next = Decide(loaded: Loaded) | Drop

  /** Where a commit is, with what it holds in memory: the published USER, the document it
      means to write and the file it took it from, the payload the copy is to get. */
  datatype Point =
    | PublishUser
    | PublishAnswer(user: RawRecord)
    | LoadDocument
    | WriteDocument(document: Document, hash: Option<DocumentFile>, next: Next)
    | RefreshCopy(payload: DocumentFile, next: Next)
    | DropJournal
    | Stopped(code: string)
    | Done

  predicate Final(at: Point) {
    at.Stopped? || at.Done?
  }

  /** After the load of `publish_target`. */
  function Decided(j: Journal, l: Loaded): Point
    requires j.target.Some?
  {
    if l.document == j.target.value then DropJournal
    else if Some(l.document.revision) != j.checkpoint.longTermRevision || Some(l.document) != j.checkpoint.longTermIdentity
      then Stopped("TURN_TRANSACTION_CONFLICT")
    else if l.readOnly then Stopped("MEMORY_READ_ONLY_FALLBACK")
    else WriteDocument(j.target.value, l.loadedHash, Drop)
  }

  function Following(j: Journal, next: Next): Point
    requires j.target.Some?
  {
    match next
    case Decide(l) => Decided(j, l)
    case Drop => DropJournal
  }

  ghost function UserTrace(cfg: Settings, s: DiskState, j: Journal): (t: Trace<RawRecord>)
    ensures !t.outcome.Crashed?
  {
    if j.state == ReadyPending then AppendPendingTrace(cfg, s, j.user, j.checkpoint.rawIdentity)
    else PublishUserTrace(cfg, s, j.user, j.checkpoint.rawIdentity)
  }

  /** `load` as far as its first write. */
  ghost function Loading(cfg: Settings, j: Journal, s: DiskState, now: int): Point
    requires j.target.Some?
  {
    var read := ReadSegments(s.segments);
    var parsed := ParseFile(cfg, s.primary, read);
    if !parsed.Ok? then
      if s.lastValid.Missing? then Stopped(parsed.code)
      else
        var fallback := ParseFile(cfg, s.lastValid, read);
        if fallback.Ok? then Decided(j, Loaded(fallback.value, true, None)) else Stopped(fallback.code)
    else Adopting(cfg, j, s, parsed.value, now)
  }

  ghost function Adopting(cfg: Settings, j: Journal, s: DiskState, d: Document, now: int): Point
    requires j.target.Some?
  {
    if s.lastValid.Missing? then RefreshCopy(s.primary, Decide(AsLoaded(d)))
    else if s.lastValid == s.primary then Decided(j, AsLoaded(d))
    else
      var previous := ParseFile(cfg, s.lastValid, ReadSegments(s.segments));
      if !previous.Ok? then Stopped(previous.code)
      else if d.memories == previous.value.memories then RefreshCopy(s.primary, Decide(AsLoaded(d)))
      else if d.curation != previous.value.curation || d.overview.spans != previous.value.overview.spans
        then Stopped("MEMORY_DOCUMENT_INVALID")
      else
        var marked := Reconciled(previous.value, d, now);
        WriteDocument(marked, Some(s.primary), Decide(AsLoaded(marked)))
  }

  /** One point of the commit, on whatever disk it finds: at most one write. */
  ghost function Advance(cfg: Settings, j: Journal, now: int, at: Point, s: DiskState): (Point, DiskState)
    requires ValidJournal(j) && j.state != Prepared
  {
    match at
    case PublishUser =>
      var t := UserTrace(cfg, s, j);
      (if !t.outcome.Ok? then Stopped(t.outcome.code)
       else if j.state == ReadyPending then DropJournal else PublishAnswer(t.outcome.value), End(s, t))
    case PublishAnswer(user) =>
      if j.assistant.None? then (Stopped(""), s)
      else
        var t := AppendAnswerTrace(cfg, s, user, j.assistant.value);
        (if !t.outcome.Ok? then Stopped(t.outcome.code) else if j.target.None? then DropJournal else LoadDocument, End(s, t))
    case LoadDocument =>
      if j.target.None? then (DropJournal, s)
      else if !ValidDocument(j.target.value) then (Stopped("VALIDATION_ERROR"), s)
      else if j.targetIdentity != j.target then (Stopped("TURN_TRANSACTION_INVALID"), s)
      else (Loading(cfg, j, s, now), s)
    case WriteDocument(document, hash, next) =>
      var c := CommitTrace(cfg, s, document, false, hash);
      if c.outcome.Ok? then (RefreshCopy(Holds(document), next), s.(primary := Holds(document))) else (Stopped(c.outcome.code), s)
    case RefreshCopy(payload, next) => (if j.target.None? then DropJournal else Following(j, next), s.(lastValid := payload))
    case DropJournal => (Done, s.(journal := NoJournal))
    case Stopped(_) => (at, s)
    case Done => (at, s)
  }

  // ---------------------------------------------------------------- left alone, it is `commit`

  function Rank(at: Point): nat {
    match at
    case PublishUser => 8
    case PublishAnswer(_) => 7
    case LoadDocument => 6
    case WriteDocument(_, _, next) => if next.Decide? then 5 else 3
    case RefreshCopy(_, next) => if next.Decide? then 4 else 2
    case DropJournal => 1
    case Stopped(_) => 0
    case Done => 0
  }

  lemma {:induction false} RankFalls(cfg: Settings, j: Journal, now: int, at: Point, s: DiskState)
    requires ValidJournal(j) && j.state != Prepared && !Final(at)
    ensures Rank(Advance(cfg, j, now, at, s).0) < Rank(at)
  {
    if at.LoadDocument? && j.target.Some? {
      LoadingFalls(cfg, j, s, now);
    }
  }

  lemma {:induction false} LoadingFalls(cfg: Settings, j: Journal, s: DiskState, now: int)
    requires j.target.Some?
    ensures Rank(Loading(cfg, j, s, now)) < 6
  {
  }

  /** The commit to its end with nobody else at the files. */
  ghost function Alone(cfg: Settings, j: Journal, now: int, at: Point, s: DiskState): (Point, DiskState)
    requires ValidJournal(j) && j.state != Prepared
    decreases Rank(at)
  {
    if Final(at) then (at, s)
    else
      RankFalls(cfg, j, now, at, s);
      var (next, after) := Advance(cfg, j, now, at, s);
      Alone(cfg, j, now, next, after)
  }

  function PointOf(o: Outcome<()>): Point
    requires !o.Crashed?
  {
    if o.Ok? then Done else Stopped(o.code)
  }

  lemma {:induction false} AloneDrops(cfg: Settings, j: Journal, now: int, s: DiskState)
    requires ValidJournal(j) && j.state != Prepared
    ensures Alone(cfg, j, now, DropJournal, s) == (Done, s.(journal := NoJournal))
  {
  }

  lemma {:induction false} AloneSteps(cfg: Settings, j: Journal, now: int, at: Point, s: DiskState)
    requires ValidJournal(j) && j.state != Prepared && !Final(at)
    ensures var next := Advance(cfg, j, now, at, s); Alone(cfg, j, now, at, s) == Alone(cfg, j, now, next.0, next.1)
  {
  }

  lemma {:induction false} AloneStopped(cfg: Settings, j: Journal, now: int, code: string, s: DiskState)
    requires ValidJournal(j) && j.state != Prepared
    ensures Alone(cfg, j, now, Stopped(code), s) == (Stopped(code), s)
  {
  }

  lemma {:induction false} CommitEndsAt(cfg: Settings, s: DiskState, d: Document, hash: Option<DocumentFile>)
    ensures var c := CommitTrace(cfg, s, d, false, hash);
            End(s, c) == if c.outcome.Ok? then s.(primary := Holds(d), lastValid := Holds(d)) else s
  {
  }

  lemma {:induction false} AloneWrites(cfg: Settings, j: Journal, now: int, d: Document, hash: Option<DocumentFile>, next: Next, s: DiskState)
    requires ValidJournal(j) && j.state != Prepared && j.target.Some?
    ensures var c := CommitTrace(cfg, s, d, false, hash);
            Alone(cfg, j, now, WriteDocument(d, hash, next), s)
            == if c.outcome.Ok? then Alone(cfg, j, now, Following(j, next), End(s, c)) else (Stopped(c.outcome.code), End(s, c))
  {
    var c := CommitTrace(cfg, s, d, false, hash);
    CommitEndsAt(cfg, s, d, hash);
    AloneSteps(cfg, j, now, WriteDocument(d, hash, next), s);
    if c.outcome.Ok? {
      AloneSteps(cfg, j, now, RefreshCopy(Holds(d), next), s.(primary := Holds(d)));
    } else {
      AloneStopped(cfg, j, now, c.outcome.code, s);
    }
  }

  /** What `publish_target` does once it has loaded `l`. */
  ghost function Publishing(cfg: Settings, s: DiskState, j: Journal, l: Loaded): (t: Trace<Document>)
    requires j.target.Some?
    ensures !t.outcome.Crashed?
  {
    var target := j.target.value;
    if l.document == target then Trace([], Ok(target))
    else if Some(l.document.revision) != j.checkpoint.longTermRevision || Some(l.document) != j.checkpoint.longTermIdentity
      then Trace([], Err("TURN_TRANSACTION_CONFLICT"))
    else CommitTrace(cfg, s, target, l.readOnly, l.loadedHash)
  }

  lemma {:induction false} AloneDecides(cfg: Settings, j: Journal, now: int, l: Loaded, s: DiskState)
    requires ValidJournal(j) && j.state != Prepared && j.target.Some?
    ensures var t := Publishing(cfg, s, j, l);
            Alone(cfg, j, now, Decided(j, l), s)
            == if t.outcome.Ok? then (Done, End(s, t).(journal := NoJournal)) else (Stopped(t.outcome.code), End(s, t))
  {
    var at := Decided(j, l);
    if at.DropJournal? {
      AloneDrops(cfg, j, now, s);
    } else if at.Stopped? {
      AloneStopped(cfg, j, now, at.code, s);
    } else {
      AloneWrites(cfg, j, now, j.target.value, l.loadedHash, Drop, s);
      AloneDrops(cfg, j, now, End(s, CommitTrace(cfg, s, j.target.value, false, l.loadedHash)));
    }
  }

  /** Where the first write of an adopted document leads. */
  lemma {:induction false} AdoptCases(cfg: Settings, j: Journal, now: int, d: Document, s: DiskState)
    requires j.target.Some? && s.primary == Holds(d)
    ensures var at, load := Adopting(cfg, j, s, d, now), AdoptTrace(cfg, s, d, now);
            if at.RefreshCopy? then
              load.outcome == Ok(AsLoaded(d)) && End(s, load) == s.(lastValid := s.primary) && at == RefreshCopy(s.primary, Decide(AsLoaded(d)))
            else if at.WriteDocument? && at.next.Decide? then
              var c := CommitTrace(cfg, s, at.document, false, at.hash);
              && at.next == Decide(AsLoaded(at.document)) && End(s, load) == End(s, c)
              && load.outcome == if c.outcome.Ok? then Ok(AsLoaded(at.document)) else c.outcome.PropagateFailure()
            else if load.outcome.Ok? then at == Decided(j, load.outcome.value) && End(s, load) == s
            else at == Stopped(load.outcome.code) && End(s, load) == s
  {
  }

  lemma {:induction false} AloneAdopts(cfg: Settings, j: Journal, now: int, d: Document, s: DiskState)
    requires ValidJournal(j) && j.state != Prepared && j.target.Some? && s.primary == Holds(d)
    ensures var load := AdoptTrace(cfg, s, d, now);
            Alone(cfg, j, now, Adopting(cfg, j, s, d, now), s)
            == if load.outcome.Ok? then Alone(cfg, j, now, Decided(j, load.outcome.value), End(s, load)) else (Stopped(load.outcome.code), End(s, load))
  {
    var at := Adopting(cfg, j, s, d, now);
    AdoptCases(cfg, j, now, d, s);
    if at.RefreshCopy? {
      AloneSteps(cfg, j, now, at, s);
    } else if at.WriteDocument? && at.next.Decide? {
      AloneWrites(cfg, j, now, at.document, at.hash, at.next, s);
    } else if at.Stopped? {
      AloneStopped(cfg, j, now, at.code, s);
    }
  }

  lemma {:induction false} AloneLoads(cfg: Settings, j: Journal, now: int, s: DiskState)
    requires ValidJournal(j) && j.state != Prepared && j.target.Some?
    ensures var load := LoadTrace(cfg, s, now);
            Alone(cfg, j, now, Loading(cfg, j, s, now), s)
            == if load.outcome.Ok? then Alone(cfg, j, now, Decided(j, load.outcome.value), End(s, load)) else (Stopped(load.outcome.code), End(s, load))
  {
    var parsed := ParseFile(cfg, s.primary, ReadSegments(s.segments));
    if parsed.Ok? {
      AloneAdopts(cfg, j, now, parsed.value, s);
    }
  }

  lemma {:induction false} PublishThen(cfg: Settings, s: DiskState, j: Journal, now: int, load: Trace<Loaded>, s1: DiskState)
    requires j.target.Some? && j.targetIdentity == j.target && load == LoadTrace(cfg, s, now) && s1 == End(s, load)
    ensures var t := PublishTrace(cfg, s, j.checkpoint, j.target.value, j.targetIdentity, now);
            if load.outcome.Ok? then t == Then(load, Publishing(cfg, s1, j, load.outcome.value))
            else t == Trace(load.writes, load.outcome.PropagateFailure())
  {
  }

  lemma {:induction false} PublishIs(cfg: Settings, s: DiskState, j: Journal, now: int)
    requires j.target.Some? && j.targetIdentity == j.target
    ensures var load := LoadTrace(cfg, s, now);
            var t := PublishTrace(cfg, s, j.checkpoint, j.target.value, j.targetIdentity, now);
            if !load.outcome.Ok? then t.outcome.Err? && t.outcome.code == load.outcome.code && End(s, t) == End(s, load)
            else
              var p := Publishing(cfg, End(s, load), j, load.outcome.value);
              t.outcome == p.outcome && End(s, t) == End(End(s, load), p)
  {
    var load := LoadTrace(cfg, s, now);
    var s1 := End(s, load);
    PublishThen(cfg, s, j, now, load, s1);
    if load.outcome.Ok? {
      ThenOf(s, load, Publishing(cfg, s1, j, load.outcome.value));
    }
  }

  lemma {:induction false} ThenOf<T, U>(s: DiskState, t: Trace<T>, u: Trace<U>)
    requires t.outcome.Ok?
    ensures Then(t, u).outcome == u.outcome && End(s, Then(t, u)) == End(End(s, t), u)
  {
    ThenEnd(s, t, u);
  }

  lemma {:induction false} AloneDocument(cfg: Settings, j: Journal, now: int, s: DiskState)
    requires ValidJournal(j) && j.state == ReadyToCommit && j.target.Some?
    ensures var t := PublishDocumentTrace(cfg, s, j, now);
            Alone(cfg, j, now, LoadDocument, s)
            == if t.outcome.Ok? then (Done, End(s, t).(journal := NoJournal)) else (Stopped(t.outcome.code), End(s, t))
  {
    AloneSteps(cfg, j, now, LoadDocument, s);
    if !ValidDocument(j.target.value) {
      AloneStopped(cfg, j, now, "VALIDATION_ERROR", s);
    } else if j.targetIdentity != j.target {
      AloneStopped(cfg, j, now, "TURN_TRANSACTION_INVALID", s);
    } else {
      var load := LoadTrace(cfg, s, now);
      AloneLoads(cfg, j, now, s);
      PublishIs(cfg, s, j, now);
      DocumentIs(cfg, s, j, now);
      if load.outcome.Ok? {
        AloneDecides(cfg, j, now, load.outcome.value, End(s, load));
      }
    }
  }

  lemma {:induction false} DocumentIs(cfg: Settings, s: DiskState, j: Journal, now: int)
    requires j.target.Some? && j.state == ReadyToCommit && ValidDocument(j.target.value)
    ensures var p := PublishTrace(cfg, s, j.checkpoint, j.target.value, j.targetIdentity, now);
            var t := PublishDocumentTrace(cfg, s, j, now);
            && t.writes == p.writes && End(s, t) == End(s, p) && (t.outcome.Ok? <==> p.outcome.Ok?)
            && (!t.outcome.Ok? ==> t.outcome.code == p.outcome.code)
  {
  }

  /** Both halves of the raw part, from the first to where the document part starts. */
  lemma {:induction false} AloneRaw(cfg: Settings, j: Journal, now: int, s: DiskState)
    requires ValidJournal(j) && j.state != Prepared
    ensures var raw := PublishRawTrace(cfg, s, j);
            Alone(cfg, j, now, PublishUser, s)
            == if !raw.outcome.Ok? then (Stopped(raw.outcome.code), End(s, raw))
               else Alone(cfg, j, now, if j.target.None? then DropJournal else LoadDocument, End(s, raw))
  {
    var first := UserTrace(cfg, s, j);
    AloneSteps(cfg, j, now, PublishUser, s);
    if !first.outcome.Ok? {
      AloneStopped(cfg, j, now, first.outcome.code, End(s, first));
    } else if j.state == ReadyToCommit {
      var s1, user := End(s, first), first.outcome.value;
      var second := AppendAnswerTrace(cfg, s1, user, j.assistant.value);
      AloneSteps(cfg, j, now, PublishAnswer(user), s1);
      ThenEnd(s, first, second);
      if !second.outcome.Ok? {
        AloneStopped(cfg, j, now, second.outcome.code, End(s1, second));
      }
    }
  }

  /** With nobody else at the files the points of this run are `commit`: the same end, the same disk. */
  lemma {:induction false} AloneIsCommit(cfg: Settings, j: Journal, now: int, s: DiskState)
    requires LoadJournal(cfg, s.journal) == Ok(Some(j)) && j.state != Prepared
    ensures var t := CommitJournalTrace(cfg, s, now); Alone(cfg, j, now, PublishUser, s) == (PointOf(t.outcome), End(s, t))
  {
    var raw := PublishRawTrace(cfg, s, j);
    var s1 := End(s, raw);
    var document := PublishDocumentTrace(cfg, s1, j, now);
    CommitEnds(cfg, s, j, now);
    AloneRaw(cfg, j, now, s);
    if raw.outcome.Ok? {
      ThenEnd(s, raw, document);
      if j.target.None? {
        AloneDrops(cfg, j, now, s1);
      } else {
        AloneDocument(cfg, j, now, s1);
      }
      CommitIs(cfg, s, j, now, raw, document);
    }
  }

  lemma {:induction false} CommitIs(cfg: Settings, s: DiskState, j: Journal, now: int, raw: Trace<RawRecord>, document: Trace<()>)
    requires LoadJournal(cfg, s.journal) == Ok(Some(j)) && ValidJournal(j) && raw == PublishRawTrace(cfg, s, j) && raw.outcome.Ok?
    requires document == PublishDocumentTrace(cfg, End(s, raw), j, now)
    ensures var t := CommitJournalTrace(cfg, s, now);
            if document.outcome.Ok? then t.outcome.Ok? && End(s, t) == End(End(s, raw), document).(journal := NoJournal)
            else t.outcome == document.outcome && End(s, t) == End(End(s, raw), document)
  {
    CommitEnds(cfg, s, j, now);
    ThenEnd(s, raw, document);
    var published := PublishedTrace(cfg, s, j, now);
    if published.outcome.Ok? {
      ThenEnd(s, published, Trace([End(s, published).(journal := NoJournal)], Ok(())));
    }
  }

  // ---------------------------------------------------------------- with anything between the writes

  /** Where the commit is after it has found the disks `worlds`, one for each point. */
  ghost function Along(cfg: Settings, j: Journal, now: int, worlds: seq<DiskState>): Point
    requires ValidJournal(j) && j.state != Prepared
  {
    if worlds == [] then PublishUser
    else Advance(cfg, j, now, Along(cfg, j, now, worlds[..|worlds| - 1]), worlds[|worlds| - 1]).0
  }

  /** The disk that point `i` leaves behind. */
  ghost function Left(cfg: Settings, j: Journal, now: int, worlds: seq<DiskState>, i: nat): DiskState
    requires ValidJournal(j) && j.state != Prepared && i < |worlds|
  {
    Advance(cfg, j, now, Along(cfg, j, now, worlds[..i]), worlds[i]).1
  }

  /** The primary file before and after a write: the edit in it is marked, or it held the
      recorded baseline and gets the target. A file that was deleted is written anew. */
  ghost predicate Replaces(before: DocumentFile, after: DocumentFile, j: Journal, now: int) {
    || before.Missing?
    || (before.Holds? && after.Holds? && exists previous :: KeepsEdit(previous, before.document, now, after.document))
    || (before.Holds? && j.checkpoint.longTermIdentity == Some(before.document) && j.target.Some? && after == Holds(j.target.value))
  }

  ghost predicate StepKeeps(s: DiskState, w: DiskState, j: Journal, now: int, at: Point) {
    && KeepsLog(s, w, j)
    && (w.primary == s.primary || (at.WriteDocument? && Replaces(s.primary, w.primary, j, now)))
    && (w.journal == s.journal || (at.DropJournal? && w.journal.NoJournal?))
  }

  /** What a commit holds in memory comes from a file it has read. */
  ghost predicate Remembers(j: Journal, now: int, at: Point) {
    match at
    case PublishAnswer(_) => j.assistant.Some?
    case WriteDocument(d, hash, Drop) =>
      j.target == Some(d) && j.checkpoint.longTermIdentity.Some? && hash == Some(Holds(j.checkpoint.longTermIdentity.value))
    case WriteDocument(d, hash, Decide(l)) =>
      l == AsLoaded(d) && hash.Some? && hash.value.Holds? && exists previous :: KeepsEdit(previous, hash.value.document, now, d)
    case RefreshCopy(_, Decide(l)) => l == AsLoaded(l.document)
    case _ => true
  }

  lemma {:induction false} DecidedRemembers(j: Journal, now: int, l: Loaded)
    requires j.target.Some? && (l == AsLoaded(l.document) || l.readOnly)
    ensures Remembers(j, now, Decided(j, l))
  {
  }

  lemma {:induction false} LoadingRemembers(cfg: Settings, j: Journal, now: int, s: DiskState)
    requires j.target.Some?
    ensures Remembers(j, now, Loading(cfg, j, s, now))
  {
    var parsed := ParseFile(cfg, s.primary, ReadSegments(s.segments));
    if parsed.Ok? {
      DecidedRemembers(j, now, AsLoaded(parsed.value));
      AdoptingRemembers(cfg, j, now, s, parsed.value);
    } else if s.lastValid.Holds? {
      DecidedRemembers(j, now, Loaded(s.lastValid.document, true, None));
    }
  }

  lemma {:induction false} AdoptingRemembers(cfg: Settings, j: Journal, now: int, s: DiskState, d: Document)
    requires j.target.Some? && s.primary == Holds(d) && Remembers(j, now, Decided(j, AsLoaded(d)))
    ensures Remembers(j, now, Adopting(cfg, j, s, d, now))
  {
    if s.lastValid.Holds? && d.curation == s.lastValid.document.curation && d.overview.spans == s.lastValid.document.overview.spans {
      ReconciledKeeps(s.lastValid.document, d, now);
    }
  }

  lemma {:induction false} AdvanceRemembers(cfg: Settings, j: Journal, now: int, at: Point, s: DiskState)
    requires ValidJournal(j) && j.state != Prepared && Remembers(j, now, at)
    ensures Remembers(j, now, Advance(cfg, j, now, at, s).0)
  {
    match at
    case PublishUser =>
    case PublishAnswer(_) =>
    case LoadDocument => if j.target.Some? { LoadingRemembers(cfg, j, now, s); }
    case WriteDocument(_, _, _) =>
    case RefreshCopy(_, next) => if j.target.Some? && next.Decide? { DecidedRemembers(j, now, next.loaded); }
    case DropJournal =>
    case Stopped(_) =>
    case Done =>
  }

  lemma {:induction false} OneWriteKeeps(s: DiskState, r: RawRecord, t: Trace<RawRecord>, j: Journal, now: int, at: Point)
    requires OnlyAdds(s, r, t) && (r == j.user || j.assistant == Some(r))
    ensures StepKeeps(s, End(s, t), j, now, at)
  {
    AddsKeeps(s, r, t, j);
    assert End(s, t) == s || End(s, t) in t.writes;
  }

  lemma {:induction false} WriteKeeps(cfg: Settings, j: Journal, now: int, d: Document, hash: Option<DocumentFile>, next: Next, s: DiskState)
    requires Remembers(j, now, WriteDocument(d, hash, next)) && CommitTrace(cfg, s, d, false, hash).outcome.Ok?
    ensures Replaces(s.primary, Holds(d), j, now)
  {
    assert s.primary.Missing? || hash == Some(s.primary);
    if !s.primary.Missing? && next.Decide? {
      var previous :| KeepsEdit(previous, hash.value.document, now, d);
    }
  }

  lemma {:induction false} AdvanceKeeps(cfg: Settings, j: Journal, now: int, at: Point, s: DiskState)
    requires ValidJournal(j) && j.state != Prepared && Remembers(j, now, at)
    ensures StepKeeps(s, Advance(cfg, j, now, at, s).1, j, now, at)
  {
    match at
    case PublishUser =>
      UserOnlyAdds(cfg, s, j.user, j.checkpoint.rawIdentity);
      OneWriteKeeps(s, j.user, UserTrace(cfg, s, j), j, now, at);
    case PublishAnswer(user) =>
      AnswerOnlyAdds(cfg, s, user, j.assistant.value);
      OneWriteKeeps(s, j.assistant.value, AppendAnswerTrace(cfg, s, user, j.assistant.value), j, now, at);
    case LoadDocument =>
    case WriteDocument(d, hash, next) =>
      if CommitTrace(cfg, s, d, false, hash).outcome.Ok? {
        WriteKeeps(cfg, j, now, d, hash, next, s);
      }
    case RefreshCopy(_, _) =>
    case DropJournal =>
    case Stopped(_) =>
    case Done =>
  }

  lemma {:induction false} AlongRemembers(cfg: Settings, j: Journal, now: int, worlds: seq<DiskState>)
    requires ValidJournal(j) && j.state != Prepared
    ensures Remembers(j, now, Along(cfg, j, now, worlds))
  {
    if worlds != [] {
      AlongRemembers(cfg, j, now, worlds[..|worlds| - 1]);
      AdvanceRemembers(cfg, j, now, Along(cfg, j, now, worlds[..|worlds| - 1]), worlds[|worlds| - 1]);
    }
  }

  lemma {:induction false} FinalStays(cfg: Settings, j: Journal, now: int, worlds: seq<DiskState>, i: nat)
    requires ValidJournal(j) && j.state != Prepared && i <= |worlds| && Final(Along(cfg, j, now, worlds[..i]))
    ensures Along(cfg, j, now, worlds) == Along(cfg, j, now, worlds[..i])
  {
    if i == |worlds| {
      assert worlds[..i] == worlds;
    } else {
      assert worlds[..|worlds| - 1][..i] == worlds[..i];
      FinalStays(cfg, j, now, worlds[..|worlds| - 1], i);
    }
  }

  /** Whatever happens to the files between two points, each write keeps every readable record,
      adds only journalled ones, and replaces no document but a marked edit or the recorded
      baseline. The journal goes only when the commit is done: if it stops, it is still there. */
  lemma {:induction false} EditedRunKeeps(cfg: Settings, j: Journal, now: int, worlds: seq<DiskState>, i: nat)
    requires ValidJournal(j) && j.state != Prepared && i < |worlds|
    ensures StepKeeps(worlds[i], Left(cfg, j, now, worlds, i), j, now, Along(cfg, j, now, worlds[..i]))
    ensures Left(cfg, j, now, worlds, i).journal == worlds[i].journal || Along(cfg, j, now, worlds).Done?
  {
    AlongRemembers(cfg, j, now, worlds[..i]);
    AdvanceKeeps(cfg, j, now, Along(cfg, j, now, worlds[..i]), worlds[i]);
    if Along(cfg, j, now, worlds[..i]).DropJournal? {
      assert worlds[..i + 1][..i] == worlds[..i];
      FinalStays(cfg, j, now, worlds, i + 1);
    }
  }

  /** Nobody else takes a record away. */
  ghost predicate NobodyTakes(cfg: Settings, j: Journal, now: int, worlds: seq<DiskState>)
    requires ValidJournal(j) && j.state != Prepared
  {
    && (forall i | 0 <= i < |worlds| :: ReadSegments(worlds[i].segments).Ok?)
    && (forall i | 0 <= i < |worlds| - 1 :: Log(Left(cfg, j, now, worlds, i)) <= Log(worlds[i + 1]))
  }

  /** While nobody else takes a record away, no record is lost from the first disk to the last. */
  lemma {:induction false} NothingIsLost(cfg: Settings, j: Journal, now: int, worlds: seq<DiskState>, n: nat)
    requires ValidJournal(j) && j.state != Prepared && n < |worlds| && NobodyTakes(cfg, j, now, worlds)
    ensures Log(worlds[0]) <= Log(Left(cfg, j, now, worlds, n))
  {
    PointLosesNothing(cfg, j, now, worlds, n);
    if n > 0 {
      NothingIsLost(cfg, j, now, worlds, n - 1);
      NobodyTook(cfg, j, now, worlds, n - 1);
    }
  }

  lemma {:induction false} PointLosesNothing(cfg: Settings, j: Journal, now: int, worlds: seq<DiskState>, n: nat)
    requires ValidJournal(j) && j.state != Prepared && n < |worlds| && ReadSegments(worlds[n].segments).Ok?
    ensures Log(worlds[n]) <= Log(Left(cfg, j, now, worlds, n))
  {
    EditedRunKeeps(cfg, j, now, worlds, n);
  }

  lemma {:induction false} NobodyTook(cfg: Settings, j: Journal, now: int, worlds: seq<DiskState>, n: nat)
    requires ValidJournal(j) && j.state != Prepared && n + 1 < |worlds| && NobodyTakes(cfg, j, now, worlds)
    ensures Log(Left(cfg, j, now, worlds, n)) <= Log(worlds[n + 1])
  {
  }
}
