/** What `load` gives, in every case, and exactly when it takes a hand edit over; what clearing
    the memories leaves of a document, and what a discarded record leaves of its sources. */
module HandEdits {
  import opened Outcomes
  import opened Models
  import opened Storage
  import opened RawArchive
  import opened LongTerm

  ghost function Read(cfg: Settings, s: DiskState, f: DocumentFile): (r: Outcome<Document>)
    ensures !r.Crashed?
  {
    ParseFile(cfg, f, ReadSegments(s.segments))
  }

  /** Both files can be read, and the user has changed the memories of `previous`. */
  ghost predicate Changed(cfg: Settings, s: DiskState, previous: Document, edited: Document) {
    Read(cfg, s, s.primary) == Ok(edited) && Read(cfg, s, s.lastValid) == Ok(previous) && edited.memories != previous.memories
  }

  // ---------------------------------------------------------------- the three cases

  /** The whole of a successful load: when the primary file cannot be read, the copy, read-only;
      when the memories are not those of the copy, the hand edit, taken over into both files;
      else the primary document, with the copy refreshed. */
  lemma {:induction false} LoadGives(cfg: Settings, s: DiskState, now: int)
    requires LoadTrace(cfg, s, now).outcome.Ok?
    ensures var t := LoadTrace(cfg, s, now);
            var l, primary, copy := t.outcome.value, Read(cfg, s, s.primary), Read(cfg, s, s.lastValid);
            if !primary.Ok? then copy.Ok? && l == Loaded(copy.value, true, None) && t.writes == []
            else
              && l == Loaded(l.document, false, Some(Holds(l.document)))
              && if copy.Ok? && primary.value.memories != copy.value.memories then
                   && KeepsEdit(copy.value, primary.value, now, l.document)
                   && End(s, t) == s.(primary := Holds(l.document), lastValid := Holds(l.document))
                 else l.document == primary.value && End(s, t) == s.(lastValid := s.primary)
  {
    var primary, copy := Read(cfg, s, s.primary), Read(cfg, s, s.lastValid);
    if primary.Ok? && copy.Ok? && primary.value.memories != copy.value.memories {
      TakesOver(cfg, s, now, copy.value, primary.value);
    } else if primary.Ok? {
      AdoptsPlain(cfg, s, now, primary.value);
    }
  }

  lemma {:induction false} AdoptsPlain(cfg: Settings, s: DiskState, now: int, d: Document)
    requires Read(cfg, s, s.primary) == Ok(d) && LoadTrace(cfg, s, now).outcome.Ok?
    requires Read(cfg, s, s.lastValid).Ok? ==> d.memories == Read(cfg, s, s.lastValid).value.memories
    ensures var t := LoadTrace(cfg, s, now); t.outcome == Ok(AsLoaded(d)) && End(s, t) == s.(lastValid := s.primary)
  {
    LoadIsAdopt(cfg, s, now, d);
    assert s.lastValid == s.primary ==> s.(lastValid := s.primary) == s;
  }

  lemma {:induction false} LoadIsAdopt(cfg: Settings, s: DiskState, now: int, d: Document)
    requires Read(cfg, s, s.primary) == Ok(d)
    ensures LoadTrace(cfg, s, now) == AdoptTrace(cfg, s, d, now) && s.primary == Holds(d)
  {
  }

  /** The reconciling branch, up to its commit. */
  lemma {:induction false} ReconcileIs(cfg: Settings, s: DiskState, now: int, previous: Document, edited: Document)
    requires Changed(cfg, s, previous, edited)
    ensures var t := LoadTrace(cfg, s, now);
            if edited.curation != previous.curation || edited.overview.spans != previous.overview.spans
            then t == Trace([], Err("MEMORY_DOCUMENT_INVALID"))
            else
              var d := Reconciled(previous, edited, now);
              var c := CommitTrace(cfg, s, d, false, Some(s.primary));
              KeepsEdit(previous, edited, now, d) && t.writes == c.writes && t.outcome == if c.outcome.Ok? then Ok(AsLoaded(d)) else c.outcome.PropagateFailure()
  {
    LoadIsAdopt(cfg, s, now, edited);
    if edited.curation == previous.curation && edited.overview.spans == previous.overview.spans {
      ReconciledKeeps(previous, edited, now);
    }
  }

  lemma {:induction false} CommitOver(cfg: Settings, s: DiskState, d: Document)
    requires !s.primary.Missing?
    ensures var c := CommitTrace(cfg, s, d, false, Some(s.primary));
            && (c.outcome.Ok? <==>
                  && ValidDocument(d) && SourcesCheck(d, ReadSegments(s.segments)).Ok? && SafeTexts(cfg, d)
                  && |d.overview.text| <= cfg.maxOverviewChars && cfg.documentBytes(d) <= cfg.maxDocumentBytes)
            && (if c.outcome.Ok? then End(s, c) == s.(primary := Holds(d), lastValid := Holds(d)) else c.writes == [])
  {
  }

  lemma {:induction false} TakesOver(cfg: Settings, s: DiskState, now: int, previous: Document, edited: Document)
    requires Changed(cfg, s, previous, edited) && LoadTrace(cfg, s, now).outcome.Ok?
    ensures var t := LoadTrace(cfg, s, now);
            var d := t.outcome.value.document;
            && KeepsEdit(previous, edited, now, d) && t.outcome.value == AsLoaded(d)
            && End(s, t) == s.(primary := Holds(d), lastValid := Holds(d))
  {
    ReconcileIs(cfg, s, now, previous, edited);
    CommitOver(cfg, s, Reconciled(previous, edited, now));
    SameWrites(s, LoadTrace(cfg, s, now), CommitTrace(cfg, s, Reconciled(previous, edited, now), false, Some(s.primary)));
  }

  lemma {:induction false} SameWrites<T, U>(s: DiskState, t: Trace<T>, u: Trace<U>)
    requires t.writes == u.writes
    ensures End(s, t) == End(s, u)
  {
  }

  // ---------------------------------------------------------------- when a hand edit is taken over

  lemma {:induction false} SameGraph(a: seq<MemoryItem>, b: seq<MemoryItem>)
    requires |a| == |b| && forall i | 0 <= i < |a| :: a[i].id == b[i].id && a[i].supersedes == b[i].supersedes
    ensures SupersedesOf(a) == SupersedesOf(b) && MemoryIds(a) == MemoryIds(b)
    ensures IdSet(a) == IdSet(b) && (TargetsKnown(a, IdSet(a)) ==> TargetsKnown(b, IdSet(b)))
  {
    if a != [] {
      SameGraph(a[..|a| - 1], b[..|b| - 1]);
    }
    SupersedesOfKeys(a);
    SupersedesOfKeys(b);
  }

  /** What stays of an item whoever keeps it. */
  lemma {:induction false} ItemsKept(previous: Document, edited: Document, now: int, d: Document, i: nat)
    requires KeepsEdit(previous, edited, now, d) && i < |d.memories|
    ensures var m, e := d.memories[i], edited.memories[i];
            && m == e.(createdBy := m.createdBy, updatedAt := m.updatedAt) && m.createdAt == e.createdAt
            && (m.updatedAt == e.updatedAt || m.updatedAt == now)
  {
    assert KeepsItem(previous, edited.memories[i], now, d.memories[i]);
  }

  /** No item that the user touched was created after the moment of the load. */
  predicate InTime(previous: Document, edited: Document, now: int) {
    forall i | 0 <= i < |edited.memories| :: edited.memories[i] in previous.memories || edited.memories[i].createdAt <= now
  }

  lemma {:induction false} KeptFields(previous: Document, edited: Document, now: int, d: Document)
    requires KeepsEdit(previous, edited, now, d) && ValidDocument(edited) && ValidDocument(previous)
    ensures ValidFields(d) <==> InTime(previous, edited, now)
  {
    assert MemoryIds(d.memories) == MemoryIds(edited.memories) by {
      forall i | 0 <= i < |d.memories| ensures d.memories[i].id == edited.memories[i].id {
        ItemsKept(previous, edited, now, d, i);
      }
    }
    forall i | 0 <= i < |d.memories|
      ensures ValidMemory(d.memories[i]) <==> edited.memories[i] in previous.memories || edited.memories[i].createdAt <= now
    {
      assert KeepsItem(previous, edited.memories[i], now, d.memories[i]);
      assert ValidMemory(edited.memories[i]);
    }
  }

  lemma {:induction false} KeptIsValid(previous: Document, edited: Document, now: int, d: Document)
    requires KeepsEdit(previous, edited, now, d) && ValidDocument(edited) && ValidDocument(previous)
    ensures ValidDocument(d) <==> InTime(previous, edited, now)
  {
    KeptFields(previous, edited, now, d);
    forall i | 0 <= i < |d.memories| ensures d.memories[i].id == edited.memories[i].id && d.memories[i].supersedes == edited.memories[i].supersedes {
      ItemsKept(previous, edited, now, d, i);
    }
    SameGraph(edited.memories, d.memories);
  }

  lemma {:induction false} SameErrors(raw: map<string, RawRecord>, a: seq<MemoryItem>, b: seq<MemoryItem>)
    requires |a| == |b| && forall i | 0 <= i < |a| :: a[i].sources == b[i].sources
    ensures MemoriesError(raw, a) == MemoriesError(raw, b)
  {
    if a != [] {
      SameErrors(raw, a[..|a| - 1], b[..|b| - 1]);
    }
  }

  lemma {:induction false} KeptResolves(previous: Document, edited: Document, now: int, d: Document, read: Outcome<seq<RawRecord>>)
    requires KeepsEdit(previous, edited, now, d) && ValidDocument(edited) && !read.Crashed? && SourcesCheck(edited, read).Ok?
    ensures SourcesCheck(d, read).Ok?
  {
    forall i | 0 <= i < |d.memories| ensures d.memories[i].sources == edited.memories[i].sources {
      ItemsKept(previous, edited, now, d, i);
    }
    if read.Ok? {
      SameErrors(ById(read.value), edited.memories, d.memories);
    }
  }

  lemma {:induction false} ReadIsValid(cfg: Settings, s: DiskState, f: DocumentFile, d: Document)
    requires Read(cfg, s, f) == Ok(d)
    ensures ValidDocument(d) && SourcesCheck(d, ReadSegments(s.segments)).Ok? && |d.overview.text| <= cfg.maxOverviewChars
  {
  }

  /** A hand edit of the memories is taken over if and only if it leaves the coverage alone, no
      touched item is from the future, and the result passes the guard and the size limit. */
  lemma {:induction false} TakenOverIff(cfg: Settings, s: DiskState, now: int, previous: Document, edited: Document)
    requires Changed(cfg, s, previous, edited)
    ensures var t := LoadTrace(cfg, s, now);
            && (t.outcome.Ok? <==> exists d :: KeepsEdit(previous, edited, now, d) && InTime(previous, edited, now)
                                               && SafeTexts(cfg, d) && cfg.documentBytes(d) <= cfg.maxDocumentBytes)
            && (!t.outcome.Ok? ==> t.writes == [])
  {
    ReconcileIs(cfg, s, now, previous, edited);
    if edited.curation == previous.curation && edited.overview.spans == previous.overview.spans {
      var d := Reconciled(previous, edited, now);
      OnlyOneKeeps(previous, edited, now, d);
      ReadIsValid(cfg, s, s.primary, edited);
      ReadIsValid(cfg, s, s.lastValid, previous);
      KeptIsValid(previous, edited, now, d);
      KeptResolves(previous, edited, now, d, ReadSegments(s.segments));
      CommitOver(cfg, s, d);
    }
  }

  lemma {:induction false} OnlyOneKeeps(previous: Document, edited: Document, now: int, d: Document)
    requires KeepsEdit(previous, edited, now, d)
    ensures forall e | KeepsEdit(previous, edited, now, e) :: e == d
  {
    forall e | KeepsEdit(previous, edited, now, e) ensures e == d {
      OneKeepsEdit(previous, edited, now, e, d);
    }
  }

  // ---------------------------------------------------------------- clearing the memories

  /** A cleared document: no memories, the coverage as it was, a text that says so, the next
      revision, in both files. */
  lemma {:induction false} ClearedHasNone(cfg: Settings, s: DiskState, now: int)
    requires ClearMemoriesTrace(cfg, s, now).outcome.Ok?
    ensures var init, t := InitializeTrace(cfg, s, now), ClearMemoriesTrace(cfg, s, now);
            init.outcome.Ok? &&
            var before, d := init.outcome.value.document, t.outcome.value;
            && d.memories == [] && d.curation == before.curation && d.overview.spans == before.overview.spans
            && d.revision == d.overview.revision == before.revision + 1
            && End(s, t) == End(s, init).(primary := Holds(d), lastValid := Holds(d))
  {
    var init := InitializeTrace(cfg, s, now);
    var l := init.outcome.value;
    var c := CommitTrace(cfg, End(s, init), Cleared(l.document), l.readOnly, l.loadedHash);
    assert c.outcome.Ok? && ClearMemoriesTrace(cfg, s, now) == Then(init, c);
    ThenEnd(s, init, c);
    CommitEndsOver(cfg, End(s, init), Cleared(l.document), l.readOnly, l.loadedHash);
  }

  lemma {:induction false} CommitEndsOver(cfg: Settings, s: DiskState, d: Document, readOnly: bool, hash: Option<DocumentFile>)
    requires CommitTrace(cfg, s, d, readOnly, hash).outcome.Ok?
    ensures var c := CommitTrace(cfg, s, d, readOnly, hash);
            c.outcome.value == d && End(s, c) == s.(primary := Holds(d), lastValid := Holds(d))
  {
  }

  // ---------------------------------------------------------------- discarding the last record

  lemma {:induction false} SourceElsewhere(rs: seq<RawRecord>, src: SourceReference)
    requires rs != [] && HasRecord(rs, src) && src.recordId != rs[|rs| - 1].id
    ensures HasRecord(rs[..|rs| - 1], src)
  {
    var r :| r in rs && r.id == src.recordId && r.sha == src.sha;
    var i :| 0 <= i < |rs| && rs[i] == r;
    assert rs[..|rs| - 1][i] == r;
  }

  lemma {:induction false} SpanElsewhere(rs: seq<RawRecord>, sp: CoverageSpan)
    requires rs != [] && ValidSpan(sp) && SpanResolves(rs, sp) && rs[|rs| - 1].id !in sp.ids
    ensures SpanResolves(rs[..|rs| - 1], sp)
  {
    assert rs[sp.start - 1 + (|sp.ids| - 1)].id == sp.ids[|sp.ids| - 1];
  }

  /** Whatever is in the files: a record whose discard is allowed can go, and every reference of
      the document still has its record. */
  lemma {:induction false} DiscardLeavesNoDangling(cfg: Settings, s: DiskState, rs: seq<RawRecord>, d: Document)
    requires ReadSegments(s.segments) == Ok(rs) && WellFormedLog(rs) && rs != []
    requires Read(cfg, s, s.primary) == Ok(d) && DiscardableCheck(cfg, s, rs[|rs| - 1]).Ok?
    ensures SourcesResolve(d, rs[..|rs| - 1]) && d.curation.frontier <= |rs| - 1 && rs[|rs| - 1].id !in d.curation.coveredIds
  {
    var r, front := rs[|rs| - 1], rs[..|rs| - 1];
    ReadIsValid(cfg, s, s.primary, d);
    SourcesCheckIff(d, rs);
    forall i, j | 0 <= i < |d.memories| && 0 <= j < |d.memories[i].sources| ensures HasRecord(front, d.memories[i].sources[j]) {
      SourceElsewhere(rs, d.memories[i].sources[j]);
    }
    forall i | 0 <= i < |d.overview.spans| ensures ValidSpan(d.overview.spans[i]) && SpanResolves(front, d.overview.spans[i]) {
      SpanElsewhere(rs, d.overview.spans[i]);
    }
  }
}
