/** What curation keeps true of the document and the log together, over every batch. */
module Coherence {
  import opened Outcomes
  import opened SupersedesGraph
  import opened Models
  import opened Storage
  import opened RawArchive
  import opened LongTerm
  import opened Curation

  /** The document is valid, stands exactly on the records up to its frontier, and every
      derived memory id and every span names a batch of those records. */
  ghost predicate CoherentOver(d: Document, covered: seq<RawRecord>) {
    && ValidDocument(d)
    && |covered| == d.curation.frontier
    && SourcesResolve(d, covered)
    && (forall id | id in d.curation.coveredIds :: id in IdsOf(covered))
    && (forall i | 0 <= i < |d.overview.spans| ::
          d.overview.spans[i].batch == BatchId(Identity(covered[d.overview.spans[i].start - 1..d.overview.spans[i].end])))
    && (forall i | 0 <= i < |d.memories| && d.memories[i].id.Derived? ::
          exists k :: 0 <= k < |d.overview.spans| && d.overview.spans[k].batch == d.memories[i].id.batch)
  }

  ghost predicate Coherent(d: Document, rs: seq<RawRecord>) {
    && AtTurnBoundary(rs, d.curation.frontier)
    && CoherentOver(d, rs[..d.curation.frontier])
  }

  lemma {:induction false} EmptyIsCoherent(rs: seq<RawRecord>)
    ensures Coherent(EMPTY_DOCUMENT, rs)
  {
    assert SupersedesOf([]) == map[];
    FinishedIsAcyclic(SupersedesOf([]), []);
  }

  lemma {:induction false} CoherentFrame(d: Document, rs: seq<RawRecord>, other: seq<RawRecord>)
    requires Coherent(d, rs) && d.curation.frontier <= |other|
    requires rs[..d.curation.frontier] == other[..d.curation.frontier]
    ensures Coherent(d, other)
  {
    if d.curation.frontier > 0 {
      assert rs[..d.curation.frontier][d.curation.frontier - 1] == other[..d.curation.frontier][d.curation.frontier - 1];
    }
  }

  lemma {:induction false} CoherentGrows(d: Document, rs: seq<RawRecord>, more: seq<RawRecord>)
    requires Coherent(d, rs) && rs <= more
    ensures Coherent(d, more)
  {
    CoherentFrame(d, rs, more);
  }

  lemma {:induction false} CoherentResolves(d: Document, rs: seq<RawRecord>)
    requires Coherent(d, rs)
    ensures SourcesResolve(d, rs)
  {
    SourcesResolveMono(d, rs[..d.curation.frontier], rs);
  }

  lemma {:induction false} SpanWithin(spans: seq<CoverageSpan>, i: nat)
    requires Contiguous(spans) && i < |spans| && forall k | 0 <= k < |spans| :: ValidSpan(spans[k])
    ensures 1 <= spans[i].start <= spans[i].end <= LastEnd(spans)
    decreases |spans| - i
  {
    if i + 1 < |spans| {
      SpanWithin(spans, i + 1);
    }
  }

  /** Later records make a different batch: its identity starts with another record. */
  lemma {:induction false} BatchesDiffer(rs: seq<RawRecord>, a: nat, b: nat, c: nat, e: nat)
    requires UniqueIds(rs) && a < b <= c < e <= |rs|
    ensures Identity(rs[a..b]) != Identity(rs[c..e])
  {
    assert Identity(rs[a..b])[0].0 == rs[a].id && Identity(rs[c..e])[0].0 == rs[c].id;
  }

  lemma {:induction false} AdditionsAre(cfg: Settings, existing: set<string>, batch: CurationBatch, byId: map<string, RawRecord>,
                                        now: int, cs: seq<Candidate>, n: nat)
    requires n <= |cs| && SourcesKnown(cs, byId)
    ensures forall m | m in Additions(cfg, existing, batch, byId, now, cs, n).0 ::
              exists i :: 0 <= i < n && m == NewMemory(batch, byId, now, i, cs[i])
    ensures forall i, j | 0 <= i < j < |Additions(cfg, existing, batch, byId, now, cs, n).0| ::
              Additions(cfg, existing, batch, byId, now, cs, n).0[i].id != Additions(cfg, existing, batch, byId, now, cs, n).0[j].id
  {
    if n > 0 {
      AdditionsAre(cfg, existing, batch, byId, now, cs, n - 1);
      var front := Additions(cfg, existing, batch, byId, now, cs, n - 1).0;
      forall i | 0 <= i < |front| ensures front[i].id != Derived(batch.id, n - 1, cs[n - 1].text) {
        assert front[i] in front;
      }
    }
  }

  lemma {:induction false} IdsDistinct(ms: seq<MemoryItem>, i: nat, j: nat)
    requires Unique(MemoryIds(ms)) && i < j < |ms|
    ensures ms[i].id != ms[j].id
  {
    assert MemoryIds(ms)[i] != MemoryIds(ms)[j];
  }

  /** New items that supersede nothing cannot close a cycle. */
  lemma {:induction false} FreshItemsStayAcyclic(old_: seq<MemoryItem>, added: seq<MemoryItem>)
    requires Unique(MemoryIds(old_ + added))
    requires TargetsKnown(old_, IdSet(old_)) && Acyclic(SupersedesOf(old_))
    requires forall m | m in added :: m.supersedes == []
    ensures TargetsKnown(old_ + added, IdSet(old_ + added)) && Acyclic(SupersedesOf(old_ + added))
  {
    var g, g' := SupersedesOf(old_), SupersedesOf(old_ + added);
    UniquePrefix(old_, added);
    SupersedesOfKeys(old_);
    SupersedesOfKeys(old_ + added);
    forall n | n in g' ensures if n in g then g'[n] == g[n] else g'[n] == [] {
      var i :| 0 <= i < |old_ + added| && (old_ + added)[i].id == n;
      if i < |old_| {
        assert old_[i].id == n;
      } else {
        assert added[i - |old_|] in added;
        if n in g {
          var k :| 0 <= k < |old_| && old_[k].id == n;
          IdsDistinct(old_ + added, k, i);
        }
      }
    }
    forall n, t | n in g && t in g[n] ensures t in g {
      var i :| 0 <= i < |old_| && old_[i].id == n;
      assert g[n] == old_[i].supersedes;
    }
    forall p: seq<MemoryId> ensures !IsCycle(g', p) {
      if IsCycle(g', p) {
        CycleIsOld(g, g', p);
      }
    }
  }

  lemma {:induction false} CycleIsOld(g: Graph<MemoryId>, g': Graph<MemoryId>, p: seq<MemoryId>)
    requires IsCycle(g', p) && Closed(g)
    requires forall n | n in g' :: if n in g then g'[n] == g[n] else g'[n] == []
    ensures IsCycle(g, p)
  {
    forall i | 0 <= i < |p| - 1 ensures p[i] in g && p[i + 1] in g[p[i]] {
      assert p[i + 1] in g'[p[i]];
    }
    assert p[|p| - 1] == p[0];
  }

  lemma {:induction false} UniquePrefix(a: seq<MemoryItem>, b: seq<MemoryItem>)
    requires Unique(MemoryIds(a + b))
    ensures Unique(MemoryIds(a))
  {
    forall i, j | 0 <= i < j < |a| ensures MemoryIds(a)[i] != MemoryIds(a)[j] {
      assert MemoryIds(a + b)[i] != MemoryIds(a + b)[j];
    }
  }

  /** A validated proposal, as `_validate_response` leaves it for this batch. */
  predicate ProposalFor(p: Proposal, batch: CurationBatch) {
    && p.overview != ""
    && forall i | 0 <= i < |p.candidates| ::
         && 1 <= |p.candidates[i].text| <= 8192 && p.candidates[i].sourceIds != []
         && forall j | 0 <= j < |p.candidates[i].sourceIds| :: p.candidates[i].sourceIds[j] in batch.recordIds
  }

  lemma {:induction false} SourcesAreKnown(records: seq<RawRecord>, p: Proposal, batch: CurationBatch)
    requires IdsOf(records) == batch.recordIds && ProposalFor(p, batch)
    ensures SourcesKnown(p.candidates, ById(records))
    ensures forall i | 0 <= i < |p.candidates| :: forall j | 0 <= j < |p.candidates[i].sourceIds| ::
              var id := p.candidates[i].sourceIds[j];
              id in ById(records) && ById(records)[id] in records && ById(records)[id].id == id
  {
    forall i | 0 <= i < |p.candidates|
      ensures forall j | 0 <= j < |p.candidates[i].sourceIds| ::
                var id := p.candidates[i].sourceIds[j];
                id in ById(records) && ById(records)[id] in records && ById(records)[id].id == id
    {
      forall j | 0 <= j < |p.candidates[i].sourceIds|
        ensures var id := p.candidates[i].sourceIds[j];
                id in ById(records) && ById(records)[id] in records && ById(records)[id].id == id
      {
        var id := p.candidates[i].sourceIds[j];
        var k :| 0 <= k < |records| && IdsOf(records)[k] == id;
        assert records[k].id == id;
        ByIdLookup(records, id);
      }
    }
  }

  lemma {:induction false} MergedMemories(cfg: Settings, d: Document, rs: seq<RawRecord>, batch: CurationBatch, p: Proposal)
    requires UniqueIds(rs) && Coherent(d, rs)
    requires 0 <= d.curation.frontier < batch.newFrontier <= |rs|
    requires var records := rs[d.curation.frontier..batch.newFrontier];
             IdsOf(records) == batch.recordIds && batch.id == BatchId(Identity(records))
    requires ProposalFor(p, batch)
    ensures var records := rs[d.curation.frontier..batch.newFrontier];
            SourcesKnown(p.candidates, ById(records)) &&
            var added := Additions(cfg, ActiveKeys(cfg, d.memories), batch, ById(records), MaxCreated(records), p.candidates, |p.candidates|).0;
            && Unique(MemoryIds(d.memories + added))
            && (forall m | m in added :: ValidMemory(m) && m.supersedes == [] && m.id.Derived? && m.id.batch == batch.id)
            && (forall m | m in added :: forall j | 0 <= j < |m.sources| :: HasRecord(rs[..batch.newFrontier], m.sources[j]))
  {
    var f := d.curation.frontier;
    var records := rs[f..batch.newFrontier];
    SourcesAreKnown(records, p, batch);
    var byId, now := ById(records), MaxCreated(records);
    var added := Additions(cfg, ActiveKeys(cfg, d.memories), batch, byId, now, p.candidates, |p.candidates|).0;
    AdditionsAre(cfg, ActiveKeys(cfg, d.memories), batch, byId, now, p.candidates, |p.candidates|);
    forall m | m in added
      ensures ValidMemory(m) && m.supersedes == [] && m.id.Derived? && m.id.batch == batch.id
      ensures forall j | 0 <= j < |m.sources| :: HasRecord(rs[..batch.newFrontier], m.sources[j])
    {
      var i :| 0 <= i < |p.candidates| && m == NewMemory(batch, byId, now, i, p.candidates[i]);
      forall j | 0 <= j < |m.sources| ensures HasRecord(rs[..batch.newFrontier], m.sources[j]) {
        var r := byId[p.candidates[i].sourceIds[j]];
        assert r in records;
        var k :| 0 <= k < |records| && records[k] == r;
        assert rs[..batch.newFrontier][f + k] == r;
      }
    }
    OldIdsDiffer(d, rs, batch);
    var all := MemoryIds(d.memories + added);
    forall i, j | 0 <= i < j < |all| ensures all[i] != all[j] {
      if j < |d.memories| {
        assert all[i] == MemoryIds(d.memories)[i] && all[j] == MemoryIds(d.memories)[j];
      } else {
        assert all[j] == added[j - |d.memories|].id && added[j - |d.memories|] in added;
        if i < |d.memories| {
          assert all[i] == d.memories[i].id;
        } else {
          assert all[i] == added[i - |d.memories|].id;
        }
      }
    }
  }

  lemma {:induction false} OldIdsDiffer(d: Document, rs: seq<RawRecord>, batch: CurationBatch)
    requires UniqueIds(rs) && Coherent(d, rs)
    requires 0 <= d.curation.frontier < batch.newFrontier <= |rs|
    requires batch.id == BatchId(Identity(rs[d.curation.frontier..batch.newFrontier]))
    ensures forall i | 0 <= i < |d.memories| :: d.memories[i].id.Derived? ==> d.memories[i].id.batch != batch.id
  {
    var f := d.curation.frontier;
    var spans := d.overview.spans;
    forall i | 0 <= i < |d.memories| && d.memories[i].id.Derived? ensures d.memories[i].id.batch != batch.id {
      var k :| 0 <= k < |spans| && spans[k].batch == d.memories[i].id.batch;
      SpanWithin(spans, k);
      assert rs[..f][spans[k].start - 1..spans[k].end] == rs[spans[k].start - 1..spans[k].end];
      BatchesDiffer(rs, spans[k].start - 1, spans[k].end, f, batch.newFrontier);
    }
  }

  /** A span that stands on the log, batch included. */
  predicate SpanStands(sp: CoverageSpan, rs: seq<RawRecord>) {
    ValidSpan(sp) && SpanResolves(rs, sp) && sp.batch == BatchId(Identity(rs[sp.start - 1..sp.end]))
  }

  lemma {:induction false} SpanStandsOn(sp: CoverageSpan, rs: seq<RawRecord>, m: nat, n: nat)
    requires m <= n <= |rs| && SpanStands(sp, rs[..m])
    ensures SpanStands(sp, rs[..n])
  {
    assert rs[..m][sp.start - 1..sp.end] == rs[..n][sp.start - 1..sp.end];
  }

  function NewSpan(rs: seq<RawRecord>, f: nat, nf: nat): CoverageSpan
    requires f < nf <= |rs|
  {
    CoverageSpan(f + 1, nf, BatchId(Identity(rs[f..nf])), IdsOf(rs[f..nf]), HashesOf(rs[f..nf]))
  }

  lemma {:induction false} NewSpanStands(rs: seq<RawRecord>, f: nat, nf: nat)
    requires UniqueIds(rs) && f < nf <= |rs|
    ensures SpanStands(NewSpan(rs, f, nf), rs[..nf])
  {
    var records := rs[f..nf];
    assert rs[..nf][f..nf] == records;
    forall i, j | 0 <= i < j < |records| ensures IdsOf(records)[i] != IdsOf(records)[j] {
      assert rs[f + i].id != rs[f + j].id;
    }
  }

  lemma {:induction false} SpansStand(d: Document, rs: seq<RawRecord>, i: nat)
    requires Coherent(d, rs) && i < |d.overview.spans|
    ensures SpanStands(d.overview.spans[i], rs[..d.curation.frontier])
  {
    SpanWithin(d.overview.spans, i);
  }

  lemma {:induction false} ContiguousPush(spans: seq<CoverageSpan>, sp: CoverageSpan)
    requires Contiguous(spans) && sp.start == LastEnd(spans) + 1
    ensures Contiguous(spans + [sp]) && LastEnd(spans + [sp]) == sp.end
  {
  }

  lemma {:induction false} MergedSpans(d: Document, rs: seq<RawRecord>, nf: nat)
    requires UniqueIds(rs) && Coherent(d, rs) && d.curation.frontier < nf <= |rs|
    ensures var spans := d.overview.spans + [NewSpan(rs, d.curation.frontier, nf)];
            && (forall i | 0 <= i < |spans| :: SpanStands(spans[i], rs[..nf]))
            && Contiguous(spans) && LastEnd(spans) == nf
  {
    var f := d.curation.frontier;
    ContiguousPush(d.overview.spans, NewSpan(rs, f, nf));
    NewSpanStands(rs, f, nf);
    forall i | 0 <= i < |d.overview.spans| ensures SpanStands(d.overview.spans[i], rs[..nf]) {
      SpansStand(d, rs, i);
      SpanStandsOn(d.overview.spans[i], rs, f, nf);
    }
  }

  /** Curation keeps the document coherent with the log and strictly advances its frontier. */
  lemma {:induction false} MergeKeepsCoherence(cfg: Settings, d: Document, rs: seq<RawRecord>, batch: CurationBatch, p: Proposal)
    requires ValidSettings(cfg) && WellFormedLog(rs) && LogShape(rs) && Coherent(d, rs)
    requires NextBatch(cfg, rs, d.curation.frontier, false) == Some(batch) && ProposalFor(p, batch)
    ensures d.curation.frontier < batch.newFrontier <= |rs|
    ensures var records := rs[d.curation.frontier..batch.newFrontier];
            && IdsOf(records) == batch.recordIds && SourcesKnown(p.candidates, ById(records))
            && Coherent(MergedDocument(cfg, d, batch, records, p), rs)
  {
    NextBatchExact(cfg, rs, d.curation.frontier, false);
    BatchEndsATurn(cfg, rs, d.curation.frontier, batch);
    MergeIsCoherent(cfg, d, rs, batch, p);
  }

  lemma {:induction false} BatchEndsATurn(cfg: Settings, rs: seq<RawRecord>, f: nat, batch: CurationBatch)
    requires LogShape(rs) && AtTurnBoundary(rs, f) && f < batch.newFrontier <= |rs| && (batch.newFrontier - f) % 2 == 0
    ensures AtTurnBoundary(rs, batch.newFrontier)
  {
    var u := rs[f..];
    assert LogShape(u) by {
      assert f > 0 ==> rs[f - 1].role != rs[f].role;
    }
    var size := batch.newFrontier - f;
    TurnAt(u, size / 2 - 1);
    assert u[size - 1] == rs[batch.newFrontier - 1];
  }

  lemma {:induction false} MergeIsCoherent(cfg: Settings, d: Document, rs: seq<RawRecord>, batch: CurationBatch, p: Proposal)
    requires UniqueIds(rs) && Coherent(d, rs)
    requires d.curation.frontier < batch.newFrontier <= |rs| && AtTurnBoundary(rs, batch.newFrontier)
    requires var records := rs[d.curation.frontier..batch.newFrontier];
             batch == CurationBatch(BatchId(Identity(records)), d.curation.frontier, batch.newFrontier, IdsOf(records))
    requires ProposalFor(p, batch)
    ensures var records := rs[d.curation.frontier..batch.newFrontier];
            SourcesKnown(p.candidates, ById(records)) && Coherent(MergedDocument(cfg, d, batch, records, p), rs)
  {
    var f, nf := d.curation.frontier, batch.newFrontier;
    var records := rs[f..nf];
    MergedMemories(cfg, d, rs, batch, p);
    IdsAreKeys(records);
    var merged := MergedDocument(cfg, d, batch, records, p);
    var added := Additions(cfg, ActiveKeys(cfg, d.memories), batch, ById(records), MaxCreated(records), p.candidates, |p.candidates|).0;
    assert merged.overview.spans == d.overview.spans + [NewSpan(rs, f, nf)];
    ExtendedIsCoherent(d, rs, nf, merged, added);
  }

  /** A document extended by one span and by items of its batch. */
  lemma {:induction false} ExtendedIsCoherent(d: Document, rs: seq<RawRecord>, nf: nat, merged: Document, added: seq<MemoryItem>)
    requires UniqueIds(rs) && Coherent(d, rs) && d.curation.frontier < nf <= |rs| && AtTurnBoundary(rs, nf)
    requires merged.memories == d.memories + added
    requires merged.overview.spans == d.overview.spans + [NewSpan(rs, d.curation.frontier, nf)]
    requires merged.revision == merged.overview.revision == d.revision + 1 && merged.overview.text != ""
    requires merged.curation.frontier == nf && merged.curation.coveredIds == IdsOf(rs[d.curation.frontier..nf])
    requires Unique(MemoryIds(merged.memories))
    requires forall m | m in added :: ValidMemory(m) && m.supersedes == []
               && m.id.Derived? && m.id.batch == BatchId(Identity(rs[d.curation.frontier..nf]))
    requires forall m | m in added :: forall j | 0 <= j < |m.sources| :: HasRecord(rs[..nf], m.sources[j])
    ensures Coherent(merged, rs)
  {
    MergedSpans(d, rs, nf);
    ExtendedIsValid(d, rs, nf, merged, added);
    assert forall i | 0 <= i < |merged.overview.spans| :: SpanStands(merged.overview.spans[i], rs[..nf]);
    MergedResolves(d, rs, nf, merged, added);
    CoveredIdsNamed(rs, d.curation.frontier, nf);
    DerivedNamed(d, rs, merged, added, NewSpan(rs, d.curation.frontier, nf));
  }

  lemma {:induction false} ExtendedIsValid(d: Document, rs: seq<RawRecord>, nf: nat, merged: Document, added: seq<MemoryItem>)
    requires ValidDocument(d) && merged.memories == d.memories + added
    requires merged.revision == merged.overview.revision == d.revision + 1 && merged.overview.text != ""
    requires merged.curation.frontier == nf == LastEnd(merged.overview.spans) && Contiguous(merged.overview.spans)
    requires forall i | 0 <= i < |merged.overview.spans| :: ValidSpan(merged.overview.spans[i])
    requires Unique(MemoryIds(merged.memories)) && forall m | m in added :: ValidMemory(m) && m.supersedes == []
    ensures ValidDocument(merged)
  {
    FreshItemsStayAcyclic(d.memories, added);
    forall i | 0 <= i < |merged.memories| ensures ValidMemory(merged.memories[i]) {
      assert i >= |d.memories| ==> merged.memories[i] in added;
    }
  }

  lemma {:induction false} CoveredIdsNamed(rs: seq<RawRecord>, f: nat, nf: nat)
    requires f <= nf <= |rs|
    ensures forall id | id in IdsOf(rs[f..nf]) :: id in IdsOf(rs[..nf])
  {
    forall id | id in IdsOf(rs[f..nf]) ensures id in IdsOf(rs[..nf]) {
      var k :| 0 <= k < nf - f && IdsOf(rs[f..nf])[k] == id;
      assert IdsOf(rs[..nf])[f + k] == id;
    }
  }

  lemma {:induction false} DerivedNamed(d: Document, rs: seq<RawRecord>, merged: Document, added: seq<MemoryItem>, sp: CoverageSpan)
    requires Coherent(d, rs) && merged.memories == d.memories + added && merged.overview.spans == d.overview.spans + [sp]
    requires forall m | m in added :: m.id.Derived? && m.id.batch == sp.batch
    ensures forall i | 0 <= i < |merged.memories| && merged.memories[i].id.Derived? ::
              exists k :: 0 <= k < |merged.overview.spans| && merged.overview.spans[k].batch == merged.memories[i].id.batch
  {
    forall i | 0 <= i < |merged.memories| && merged.memories[i].id.Derived?
      ensures exists k :: 0 <= k < |merged.overview.spans| && merged.overview.spans[k].batch == merged.memories[i].id.batch
    {
      if i < |d.memories| {
        var k :| 0 <= k < |d.overview.spans| && d.overview.spans[k].batch == d.memories[i].id.batch;
        assert merged.overview.spans[k] == d.overview.spans[k];
      } else {
        assert merged.memories[i] in added;
        assert merged.overview.spans[|d.overview.spans|] == sp;
      }
    }
  }

  lemma {:induction false} MergedResolves(d: Document, rs: seq<RawRecord>, nf: nat, merged: Document, added: seq<MemoryItem>)
    requires Coherent(d, rs) && d.curation.frontier <= nf <= |rs|
    requires merged.memories == d.memories + added
    requires forall m | m in added :: forall j | 0 <= j < |m.sources| :: HasRecord(rs[..nf], m.sources[j])
    requires forall i | 0 <= i < |merged.overview.spans| :: ValidSpan(merged.overview.spans[i]) && SpanResolves(rs[..nf], merged.overview.spans[i])
    ensures SourcesResolve(merged, rs[..nf])
  {
    SourcesResolveMono(d, rs[..d.curation.frontier], rs[..nf]);
    forall i, j | 0 <= i < |merged.memories| && 0 <= j < |merged.memories[i].sources|
      ensures HasRecord(rs[..nf], merged.memories[i].sources[j])
    {
      if i >= |d.memories| {
        assert merged.memories[i] in added;
      }
    }
  }

  /** A pending USER is never blocked from being discarded. */
  lemma {:induction false} PendingUnreferenced(d: Document, rs: seq<RawRecord>)
    requires WellFormedLog(rs) && LogShape(rs) && Coherent(d, rs)
    requires PendingOf(rs).Some?
    ensures d.curation.frontier < |rs| && !ReferencesRecord(d, rs[|rs| - 1])
  {
    var n, f := |rs| - 1, d.curation.frontier;
    var r := rs[n];
    assert forall i | 0 <= i < f :: rs[..f][i] == rs[i] && rs[i].id != r.id;
    assert r.id !in IdsOf(rs[..f]);
    forall i | 0 <= i < |d.overview.spans| ensures r.id !in d.overview.spans[i].ids {
      var sp := d.overview.spans[i];
      assert SpanResolves(rs[..f], sp);
    }
    forall i, j | 0 <= i < |d.memories| && 0 <= j < |d.memories[i].sources| ensures d.memories[i].sources[j].recordId != r.id {
      assert HasRecord(rs[..f], d.memories[i].sources[j]);
    }
  }
}
