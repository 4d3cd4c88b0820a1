/** What the curator's answer becomes: which record an alias names, which candidates are kept,
    and what the memories made of them cite. */
module Proposals {
  import opened Outcomes
  import opened Models
  import opened Text
  import opened Storage
  import opened RawArchive
  import opened Curation
  import opened Coherence
  import opened Controller
  import opened Turns

  // ---------------------------------------------------------------- the order of a batch

  /** By event time, and by place in the log at the same time. */
  ghost predicate TimeOrdered(rs: seq<RawRecord>) {
    forall i, j | 0 <= i < j < |rs| ::
      rs[i].createdAt < rs[j].createdAt || (rs[i].createdAt == rs[j].createdAt && rs[i].sequence <= rs[j].sequence)
  }

  predicate NotAfter(a: RawRecord, b: RawRecord) {
    a.createdAt < b.createdAt || (a.createdAt == b.createdAt && a.sequence <= b.sequence)
  }

  lemma {:induction false} PushFirst(r: RawRecord, sorted: seq<RawRecord>)
    requires TimeOrdered(sorted) && forall e | e in sorted :: NotAfter(r, e)
    ensures TimeOrdered([r] + sorted)
  {
    var all := [r] + sorted;
    forall i, j | 0 <= i < j < |all| ensures NotAfter(all[i], all[j]) {
      assert all[j] == sorted[j - 1];
    }
  }

  lemma {:induction false} InsertHolds(r: RawRecord, sorted: seq<RawRecord>)
    ensures forall e :: e in InsertByTime(r, sorted) <==> e in sorted || e == r
  {
    if sorted != [] && !EarlierRecord(r, sorted[0]) {
      InsertHolds(r, sorted[1..]);
    }
  }

  lemma {:induction false} InsertOrders(r: RawRecord, sorted: seq<RawRecord>)
    requires TimeOrdered(sorted)
    ensures TimeOrdered(InsertByTime(r, sorted))
  {
    if sorted != [] {
      forall e | e in sorted ensures NotAfter(sorted[0], e) {
        var k :| 0 <= k < |sorted| && sorted[k] == e;
      }
      if EarlierRecord(r, sorted[0]) {
        PushFirst(r, sorted);
      } else {
        InsertOrders(r, sorted[1..]);
        InsertHolds(r, sorted[1..]);
        PushFirst(sorted[0], InsertByTime(r, sorted[1..]));
      }
    }
  }

  /** The batch in event-time order holds its records and no others, each as often. */
  lemma {:induction false} SortOrders(rs: seq<RawRecord>)
    ensures TimeOrdered(SortByTime(rs)) && multiset(SortByTime(rs)) == multiset(rs) && |SortByTime(rs)| == |rs|
  {
    if rs != [] {
      SortOrders(rs[1..]);
      InsertOrders(rs[0], SortByTime(rs[1..]));
    }
    SortKeeps(rs);
    assert |multiset(SortByTime(rs))| == |multiset(rs)|;
  }

  // ---------------------------------------------------------------- the aliases

  function Alias(k: nat): string {
    "r" + Decimal(k)
  }

  lemma {:induction false} AliasIsItsNumber(j: nat, k: nat)
    requires Alias(j) == Alias(k)
    ensures j == k
  {
    assert Alias(j)[1..] == Decimal(j) && Alias(k)[1..] == Decimal(k);
    DecimalInjective(j, k);
  }

  /** `r1` is the first record in event-time order, `r2` the second, and there are no others. */
  lemma {:induction false} AliasesAre(ordered: seq<RawRecord>)
    ensures forall k | 1 <= k <= |ordered| :: Alias(k) in SourceAliases(ordered) && SourceAliases(ordered)[Alias(k)] == ordered[k - 1].id
    ensures forall a | a in SourceAliases(ordered) :: exists k :: 1 <= k <= |ordered| && Alias(k) == a
  {
    if ordered != [] {
      var n := |ordered|;
      AliasesAre(ordered[..n - 1]);
      forall k | 1 <= k <= n ensures Alias(k) in SourceAliases(ordered) && SourceAliases(ordered)[Alias(k)] == ordered[k - 1].id {
        if k < n && Alias(k) == Alias(n) {
          AliasIsItsNumber(k, n);
        }
      }
    }
  }

  /** The record that an alias names. */
  ghost predicate Names(ordered: seq<RawRecord>, alias: string, r: RawRecord) {
    exists k :: 1 <= k <= |ordered| && Alias(k) == alias && ordered[k - 1] == r
  }

  /** An alias names at most one record, and the dictionary knows it. */
  lemma {:induction false} NamesAre(ordered: seq<RawRecord>, alias: string)
    ensures alias in SourceAliases(ordered) <==> exists r :: Names(ordered, alias, r)
    ensures forall r | Names(ordered, alias, r) :: SourceAliases(ordered)[alias] == r.id
    ensures forall r, q | Names(ordered, alias, r) && Names(ordered, alias, q) :: r == q
  {
    AliasesAre(ordered);
    if alias in SourceAliases(ordered) {
      var k :| 1 <= k <= |ordered| && Alias(k) == alias;
      assert Names(ordered, alias, ordered[k - 1]);
    }
    forall r, q | Names(ordered, alias, r) && Names(ordered, alias, q) ensures r == q {
      var j :| 1 <= j <= |ordered| && Alias(j) == alias && ordered[j - 1] == r;
      var k :| 1 <= k <= |ordered| && Alias(k) == alias && ordered[k - 1] == q;
      AliasIsItsNumber(j, k);
    }
  }

  /** Every source of the candidate is an alias of the batch. */
  ghost predicate CitesBatch(ordered: seq<RawRecord>, c: ModelCandidate) {
    forall a | a in c.sources :: exists r :: Names(ordered, a, r)
  }

  lemma {:induction false} CitesIff(ordered: seq<RawRecord>, c: ModelCandidate)
    ensures CitesBatch(ordered, c) <==> forall a | a in c.sources :: a in SourceAliases(ordered)
  {
    forall a | a in c.sources ensures a in SourceAliases(ordered) <==> exists r :: Names(ordered, a, r) {
      NamesAre(ordered, a);
    }
  }

  // ---------------------------------------------------------------- the accepted candidates

  /** The candidate of the model with its aliases resolved. */
  ghost predicate Resolves(ordered: seq<RawRecord>, c: ModelCandidate, r: Candidate) {
    && r.kind == c.kind && r.text == c.text && |r.sourceIds| == |c.sources|
    && forall j | 0 <= j < |c.sources| :: NamesId(ordered, c.sources[j], r.sourceIds[j])
  }

  ghost predicate NamesId(ordered: seq<RawRecord>, alias: string, id: string) {
    exists r :: Names(ordered, alias, r) && r.id == id
  }

  function Looked(c: ModelCandidate, aliases: map<string, string>): Candidate
    requires forall a | a in c.sources :: a in aliases
  {
    Candidate(c.kind, c.text, seq(|c.sources|, i requires 0 <= i < |c.sources| => aliases[c.sources[i]]))
  }

  lemma {:induction false} OneResolves(ordered: seq<RawRecord>, c: ModelCandidate)
    requires CitesBatch(ordered, c) && forall a | a in c.sources :: a in SourceAliases(ordered)
    ensures Resolves(ordered, c, Looked(c, SourceAliases(ordered)))
  {
    forall j | 0 <= j < |c.sources| ensures NamesId(ordered, c.sources[j], SourceAliases(ordered)[c.sources[j]]) {
      NamesAre(ordered, c.sources[j]);
      var r :| Names(ordered, c.sources[j], r);
    }
  }

  /** The candidates come through if and only if they cite the batch and pass the guard; then
      each is what the model said, with the records that its aliases name. */
  lemma {:induction false} CandidatesAre(cfg: Settings, cs: seq<ModelCandidate>, ordered: seq<RawRecord>)
    ensures var r := ResolveCandidates(cfg, cs, SourceAliases(ordered));
            && (r.Ok? <==> forall i | 0 <= i < |cs| :: CitesBatch(ordered, cs[i]) && cfg.safe(cs[i].text))
            && (r.Ok? ==> |r.value| == |cs| && forall i | 0 <= i < |cs| :: Resolves(ordered, cs[i], r.value[i]))
            && (r.Err? ==> r.code == "CURATION_SOURCE_INVALID" || r.code == "CREDENTIAL_REJECTED")
  {
    if cs != [] {
      var n := |cs| - 1;
      CandidatesAre(cfg, cs[..n], ordered);
      CitesIff(ordered, cs[n]);
      LastCandidate(cfg, cs, SourceAliases(ordered));
      if CitesBatch(ordered, cs[n]) {
        OneResolves(ordered, cs[n]);
      }
    }
  }

  lemma {:induction false} LastCandidate(cfg: Settings, cs: seq<ModelCandidate>, aliases: map<string, string>)
    requires cs != []
    ensures var c := cs[|cs| - 1];
            var front, r := ResolveCandidates(cfg, cs[..|cs| - 1], aliases), ResolveCandidates(cfg, cs, aliases);
            var known := forall a | a in c.sources :: a in aliases;
            && (r.Ok? <==> front.Ok? && known && cfg.safe(c.text))
            && (r.Ok? ==> r.value == front.value + [Looked(c, aliases)])
            && (r.Err? ==> r == front || r.code == "CURATION_SOURCE_INVALID" || r.code == "CREDENTIAL_REJECTED")
  {
    var r, front := ResolveCandidates(cfg, cs, aliases), ResolveCandidates(cfg, cs[..|cs| - 1], aliases);
    if r.Ok? {
      var c := cs[|cs| - 1];
      assert r.value[..|front.value|] == front.value;
      assert r.value[|front.value|].sourceIds == Looked(c, aliases).sourceIds;
    }
  }

  // ---------------------------------------------------------------- the memories that are added

  /** No active memory and no earlier candidate has this text. */
  predicate NewText(cfg: Settings, d: Document, cs: seq<ModelCandidate>, i: nat)
    requires i < |cs|
  {
    && (forall m | m in d.memories && m.status == Active :: cfg.textKey(m.text) != cfg.textKey(cs[i].text))
    && (forall h | 0 <= h < i :: cfg.textKey(cs[h].text) != cfg.textKey(cs[i].text))
  }

  /** The memory made of a candidate: its kind and text, exactly the records that its aliases
      name with their digests, and nothing else. */
  ghost predicate MemoryOf(ordered: seq<RawRecord>, c: ModelCandidate, m: MemoryItem, now: int) {
    && m.kind == c.kind && m.text == c.text && m.status == Active && m.createdBy == MemoryCurator
    && m.createdAt == m.updatedAt == now && m.supersedes == [] && m.tags == []
    && |m.sources| == |c.sources|
    && forall j | 0 <= j < |c.sources| :: CitesRecord(ordered, c.sources[j], m.sources[j])
  }

  ghost predicate CitesRecord(ordered: seq<RawRecord>, alias: string, ref: SourceReference) {
    exists r :: Names(ordered, alias, r) && ref == SourceReference(r.id, Supports, r.sha)
  }

  /** The added memories are those of the candidates with a new text, in their order. */
  ghost predicate AddedFrom(cfg: Settings, d: Document, ordered: seq<RawRecord>, cs: seq<ModelCandidate>, n: nat, now: int,
                            added: seq<MemoryItem>, kept: seq<nat>)
    requires n <= |cs|
  {
    && |added| == |kept|
    && (forall k | 0 <= k < |kept| :: kept[k] < n && MemoryOf(ordered, cs[kept[k]], added[k], now))
    && (forall k, l | 0 <= k < l < |kept| :: kept[k] < kept[l])
    && (forall i: nat | i < n :: i in kept <==> NewText(cfg, d, cs, i))
  }

  lemma {:induction false} RefsCite(records: seq<RawRecord>, ordered: seq<RawRecord>, c: ModelCandidate, r: Candidate, batch: CurationBatch, now: int, index: nat)
    requires UniqueIds(records) && multiset(ordered) == multiset(records) && Resolves(ordered, c, r)
    requires forall j | 0 <= j < |r.sourceIds| :: r.sourceIds[j] in ById(records)
    ensures MemoryOf(ordered, c, NewMemory(batch, ById(records), now, index, r), now)
  {
    var m := NewMemory(batch, ById(records), now, index, r);
    forall j | 0 <= j < |c.sources| ensures CitesRecord(ordered, c.sources[j], m.sources[j]) {
      assert NamesId(ordered, c.sources[j], r.sourceIds[j]);
      var q :| Names(ordered, c.sources[j], q) && q.id == r.sourceIds[j];
      NamedIsHeld(ordered, c.sources[j], q);
      assert q in multiset(records);
      var i :| 0 <= i < |records| && records[i] == q;
      ByIdAt(records, i);
      assert m.sources[j] == SourceReference(q.id, Supports, q.sha);
    }
    assert m.text == r.text && |m.sources| == |r.sourceIds|;
  }

  lemma {:induction false} NamedIsHeld(ordered: seq<RawRecord>, alias: string, r: RawRecord)
    requires Names(ordered, alias, r)
    ensures r in ordered && r in multiset(ordered)
  {
  }

  predicate Taken(cfg: Settings, rs: seq<Candidate>, key: string, n: nat)
    requires n <= |rs|
  {
    exists h :: 0 <= h < n && cfg.textKey(rs[h].text) == key
  }

  /** The keys taken by the first `n` candidates. */
  lemma {:induction false} KeyTaken(cfg: Settings, existing: set<string>, batch: CurationBatch, byId: map<string, RawRecord>, now: int,
                                    rs: seq<Candidate>, n: nat, key: string)
    requires n <= |rs| && SourcesKnown(rs, byId)
    ensures key in Additions(cfg, existing, batch, byId, now, rs, n).1 <==> key in existing || Taken(cfg, rs, key, n)
  {
    if n > 0 {
      KeyTaken(cfg, existing, batch, byId, now, rs, n - 1, key);
      if cfg.textKey(rs[n - 1].text) == key {
        assert Taken(cfg, rs, key, n);
      }
    }
  }

  lemma {:induction false} NewTextIff(cfg: Settings, d: Document, cs: seq<ModelCandidate>, rs: seq<Candidate>, batch: CurationBatch,
                                      byId: map<string, RawRecord>, now: int, i: nat)
    requires i < |cs| == |rs| && SourcesKnown(rs, byId) && forall h | 0 <= h < |cs| :: rs[h].text == cs[h].text
    ensures cfg.textKey(rs[i].text) in Additions(cfg, ActiveKeys(cfg, d.memories), batch, byId, now, rs, i).1 <==> !NewText(cfg, d, cs, i)
  {
    var key := cfg.textKey(cs[i].text);
    KeyTaken(cfg, ActiveKeys(cfg, d.memories), batch, byId, now, rs, i, key);
    assert Taken(cfg, rs, key, i) <==> exists h :: 0 <= h < i && cfg.textKey(cs[h].text) == key by {
      if h :| 0 <= h < i && cfg.textKey(cs[h].text) == key {
        assert cfg.textKey(rs[h].text) == key;
      }
    }
  }

  lemma {:induction false} KeepOne(cfg: Settings, d: Document, ordered: seq<RawRecord>, cs: seq<ModelCandidate>, n: nat, now: int,
                                   added: seq<MemoryItem>, kept: seq<nat>, m: MemoryItem)
    requires n < |cs| && AddedFrom(cfg, d, ordered, cs, n, now, added, kept) && MemoryOf(ordered, cs[n], m, now) && NewText(cfg, d, cs, n)
    ensures AddedFrom(cfg, d, ordered, cs, n + 1, now, added + [m], kept + [n])
  {
    forall i: nat | i < n + 1 ensures i in kept + [n] <==> NewText(cfg, d, cs, i) {
      if i == n {
        assert (kept + [n])[|kept|] == n;
      }
    }
  }

  lemma {:induction false} SkipOne(cfg: Settings, d: Document, ordered: seq<RawRecord>, cs: seq<ModelCandidate>, n: nat, now: int,
                                   added: seq<MemoryItem>, kept: seq<nat>)
    requires n < |cs| && AddedFrom(cfg, d, ordered, cs, n, now, added, kept) && !NewText(cfg, d, cs, n)
    ensures AddedFrom(cfg, d, ordered, cs, n + 1, now, added, kept)
  {
  }

  /** The merge loop keeps exactly the candidates with a new text. */
  lemma {:induction false} AdditionsAre(cfg: Settings, d: Document, batch: CurationBatch, records: seq<RawRecord>, ordered: seq<RawRecord>,
                                        cs: seq<ModelCandidate>, rs: seq<Candidate>, now: int, n: nat) returns (kept: seq<nat>)
    requires n <= |cs| == |rs| && UniqueIds(records) && multiset(ordered) == multiset(records) && SourcesKnown(rs, ById(records))
    requires forall i | 0 <= i < |cs| :: Resolves(ordered, cs[i], rs[i])
    ensures AddedFrom(cfg, d, ordered, cs, n, now, Additions(cfg, ActiveKeys(cfg, d.memories), batch, ById(records), now, rs, n).0, kept)
  {
    if n == 0 {
      kept := [];
    } else {
      var front := AdditionsAre(cfg, d, batch, records, ordered, cs, rs, now, n - 1);
      var added := Additions(cfg, ActiveKeys(cfg, d.memories), batch, ById(records), now, rs, n - 1).0;
      NewTextIff(cfg, d, cs, rs, batch, ById(records), now, n - 1);
      if NewText(cfg, d, cs, n - 1) {
        RefsCite(records, ordered, cs[n - 1], rs[n - 1], batch, now, n - 1);
        KeepOne(cfg, d, ordered, cs, n - 1, now, added, front, NewMemory(batch, ById(records), now, n - 1, rs[n - 1]));
        kept := front + [n - 1];
      } else {
        SkipOne(cfg, d, ordered, cs, n - 1, now, added, front);
        kept := front;
      }
    }
  }

  // ---------------------------------------------------------------- the target

  /** The batch the curator was asked about. */
  ghost predicate Due(cfg: Settings, rs: seq<RawRecord>, d: Document, batch: CurationBatch) {
    && ValidSettings(cfg) && WellFormedLog(rs) && LogShape(rs) && Coherent(d, rs)
    && NextBatch(cfg, rs, d.curation.frontier, false) == Some(batch)
  }

  lemma {:induction false} Boundary(d: Document, rs: seq<RawRecord>)
    requires Coherent(d, rs)
    ensures 0 <= d.curation.frontier <= |rs| && AtTurnBoundary(rs, d.curation.frontier)
  {
  }

  lemma {:induction false} DueIs(cfg: Settings, rs: seq<RawRecord>, f: nat, batch: CurationBatch)
    requires ValidSettings(cfg) && WellFormedLog(rs) && LogShape(rs) && AtTurnBoundary(rs, f) && NextBatch(cfg, rs, f, false) == Some(batch)
    ensures f < batch.newFrontier <= |rs|
    ensures var records := rs[f..batch.newFrontier];
            batch == CurationBatch(BatchId(Identity(records)), f, f + |records|, IdsOf(records))
  {
    NextBatchExact(cfg, rs, f, false);
  }

  lemma {:induction false} DueRecords(cfg: Settings, rs: seq<RawRecord>, d: Document, batch: CurationBatch)
    requires Due(cfg, rs, d, batch)
    ensures 0 <= d.curation.frontier < batch.newFrontier <= |rs|
    ensures var records := rs[d.curation.frontier..batch.newFrontier];
            && BatchRecords(rs, batch) == records && records != [] && UniqueIds(records)
            && batch == CurationBatch(BatchId(Identity(records)), d.curation.frontier, d.curation.frontier + |records|, IdsOf(records))
  {
    Boundary(d, rs);
    DueIs(cfg, rs, d.curation.frontier, batch);
    BatchRecordsAre(rs, d.curation.frontier, batch.newFrontier, batch);
  }

  /** The whole answer is acceptable. */
  ghost predicate Acceptable(cfg: Settings, ordered: seq<RawRecord>, response: ModelProposal) {
    && ValidProposal(response) && cfg.safe(response.overview)
    && forall i | 0 <= i < |response.candidates| :: CitesBatch(ordered, response.candidates[i]) && cfg.safe(response.candidates[i].text)
  }

  lemma {:induction false} ValidatedIff(cfg: Settings, ordered: seq<RawRecord>, response: ModelProposal)
    ensures var v := ValidateResponse(cfg, Some(response), SourceAliases(ordered));
            && (v.Ok? <==> Acceptable(cfg, ordered, response))
            && (v.Ok? ==> v.value.overview == response.overview && |v.value.candidates| == |response.candidates|
                          && forall i | 0 <= i < |response.candidates| :: Resolves(ordered, response.candidates[i], v.value.candidates[i]))
  {
    CandidatesAre(cfg, response.candidates, ordered);
  }

  lemma {:induction false} ResolvedInBatch(ordered: seq<RawRecord>, records: seq<RawRecord>, batch: CurationBatch, response: ModelProposal, p: Proposal)
    requires multiset(ordered) == multiset(records) && IdsOf(records) == batch.recordIds && ValidProposal(response)
    requires p.overview == response.overview && |p.candidates| == |response.candidates|
    requires forall i | 0 <= i < |response.candidates| :: Resolves(ordered, response.candidates[i], p.candidates[i])
    ensures ProposalFor(p, batch)
  {
    forall i, j | 0 <= i < |p.candidates| && 0 <= j < |p.candidates[i].sourceIds| ensures p.candidates[i].sourceIds[j] in batch.recordIds {
      assert NamesId(ordered, response.candidates[i].sources[j], p.candidates[i].sourceIds[j]);
      var r :| Names(ordered, response.candidates[i].sources[j], r) && r.id == p.candidates[i].sourceIds[j];
      NamedIsHeld(ordered, response.candidates[i].sources[j], r);
      assert r in multiset(records);
      var h :| 0 <= h < |records| && records[h] == r;
      assert IdsOf(records)[h] == r.id;
    }
    forall i | 0 <= i < |p.candidates| ensures 1 <= |p.candidates[i].text| <= 8192 && p.candidates[i].sourceIds != [] {
      assert Resolves(ordered, response.candidates[i], p.candidates[i]);
    }
  }

  lemma {:induction false} ProposalOf(cfg: Settings, rs: seq<RawRecord>, d: Document, batch: CurationBatch, records: seq<RawRecord>, response: ModelProposal)
    requires Due(cfg, rs, d, batch) && records == BatchRecords(rs, batch) && records != [] && IdsOf(records) == batch.recordIds
    ensures var v := ValidateResponse(cfg, Some(response), SourceAliases(SortByTime(records)));
            var p := ProposalFrom(cfg, rs, d, Responds(Some(response)));
            if !v.Ok? then p == ProposeFailed(v.code, false)
            else if !SourcesKnown(v.value.candidates, ById(records)) then p.ProposeFailed?
            else if ValidDocument(MergedDocument(cfg, d, batch, records, v.value)) then p == Target(MergedDocument(cfg, d, batch, records, v.value))
            else p.ProposeFailed?
  {
  }

  /** When the answer becomes a document: if and only if it keeps the schema, cites nothing but
      the batch, and passes the guard. */
  lemma {:induction false} TargetIff(cfg: Settings, rs: seq<RawRecord>, d: Document, batch: CurationBatch, response: ModelProposal)
    requires Due(cfg, rs, d, batch)
    ensures 0 <= d.curation.frontier < batch.newFrontier <= |rs|
    ensures var records := rs[d.curation.frontier..batch.newFrontier];
            var p := ProposalFrom(cfg, rs, d, Responds(Some(response)));
            && (p.Target? <==> Acceptable(cfg, SortByTime(records), response)) && (p.Target? || (p.ProposeFailed? && !p.retryable))
            && (p.Target? ==>
                  var v := ValidateResponse(cfg, Some(response), SourceAliases(SortByTime(records)));
                  v.Ok? && records != [] && IdsOf(records) == batch.recordIds && SourcesKnown(v.value.candidates, ById(records))
                  && p.document == MergedDocument(cfg, d, batch, records, v.value))
  {
    DueRecords(cfg, rs, d, batch);
    var records := rs[d.curation.frontier..batch.newFrontier];
    var ordered := SortByTime(records);
    SortOrders(records);
    ValidatedIff(cfg, ordered, response);
    ProposalOf(cfg, rs, d, batch, records, response);
    var v := ValidateResponse(cfg, Some(response), SourceAliases(ordered));
    if v.Ok? {
      ResolvedInBatch(ordered, records, batch, response, v.value);
      MergeKeepsCoherence(cfg, d, rs, batch, v.value);
    }
  }

  ghost predicate Latest(records: seq<RawRecord>, now: int) {
    (forall r | r in records :: r.createdAt <= now) && exists r :: r in records && r.createdAt == now
  }

  lemma {:induction false} LatestIs(records: seq<RawRecord>)
    requires records != []
    ensures Latest(records, MaxCreated(records))
  {
    var n := |records| - 1;
    if n > 0 {
      LatestIs(records[..n]);
      var r :| r in records[..n] && r.createdAt == MaxCreated(records[..n]);
      assert r in records && records[n] in records;
      assert forall e | e in records :: e in records[..n] || e == records[n];
    } else {
      assert records[0] in records;
    }
  }

  /** The memories stay, one is added for each candidate with a new text, the overview is the
      model's, and the coverage grows by the records of the batch. */
  ghost predicate Grown(cfg: Settings, d: Document, records: seq<RawRecord>, ordered: seq<RawRecord>, response: ModelProposal, t: Document, now: int, kept: seq<nat>) {
    && |t.memories| >= |d.memories| && t.memories[..|d.memories|] == d.memories
    && AddedFrom(cfg, d, ordered, response.candidates, |response.candidates|, now, t.memories[|d.memories|..], kept)
    && t.revision == t.overview.revision == d.revision + 1 && t.overview.text == response.overview
    && Covers(d, records, t, now)
  }

  ghost predicate Covers(d: Document, records: seq<RawRecord>, t: Document, now: int) {
    var f, id := d.curation.frontier, BatchId(Identity(records));
    && t.curation == Checkpoint(f + |records|, Some(id), Some(now), IdsOf(records))
    && t.overview.spans == d.overview.spans + [CoverageSpan(f + 1, f + |records|, id, IdsOf(records), HashesOf(records))]
  }

  lemma {:induction false} MergedCovers(cfg: Settings, d: Document, batch: CurationBatch, records: seq<RawRecord>, p: Proposal)
    requires records != [] && UniqueIds(records) && SourcesKnown(p.candidates, ById(records))
    requires batch == CurationBatch(BatchId(Identity(records)), d.curation.frontier, d.curation.frontier + |records|, IdsOf(records))
    ensures Covers(d, records, MergedDocument(cfg, d, batch, records, p), MaxCreated(records))
  {
    IdsAreKeys(records);
  }

  lemma {:induction false} MergedMemories(cfg: Settings, d: Document, batch: CurationBatch, records: seq<RawRecord>, p: Proposal)
    requires records != [] && IdsOf(records) == batch.recordIds && SourcesKnown(p.candidates, ById(records))
    ensures var t := MergedDocument(cfg, d, batch, records, p);
            var added := Additions(cfg, ActiveKeys(cfg, d.memories), batch, ById(records), MaxCreated(records), p.candidates, |p.candidates|).0;
            && |t.memories| >= |d.memories| && t.memories[..|d.memories|] == d.memories && t.memories[|d.memories|..] == added
            && t.revision == t.overview.revision == d.revision + 1 && t.overview.text == p.overview
  {
  }

  /** What an accepted answer makes of the document. */
  lemma {:induction false} TargetMeans(cfg: Settings, rs: seq<RawRecord>, d: Document, batch: CurationBatch, response: ModelProposal, t: Document)
    returns (now: int, kept: seq<nat>)
    requires Due(cfg, rs, d, batch) && ProposalFrom(cfg, rs, d, Responds(Some(response))) == Target(t)
    ensures 0 <= d.curation.frontier < batch.newFrontier <= |rs|
    ensures var records := rs[d.curation.frontier..batch.newFrontier];
            Latest(records, now) && Grown(cfg, d, records, SortByTime(records), response, t, now, kept)
  {
    DueRecords(cfg, rs, d, batch);
    TargetIff(cfg, rs, d, batch, response);
    var records := rs[d.curation.frontier..batch.newFrontier];
    var ordered := SortByTime(records);
    var p := ValidateResponse(cfg, Some(response), SourceAliases(ordered)).value;
    SortOrders(records);
    ValidatedIff(cfg, ordered, response);
    now := MaxCreated(records);
    LatestIs(records);
    kept := AdditionsAre(cfg, d, batch, records, ordered, response.candidates, p.candidates, now, |p.candidates|);
    MergedCovers(cfg, d, batch, records, p);
    MergedMemories(cfg, d, batch, records, p);
  }

  /** The other answers of the curator, and a log with no batch due. */
  lemma {:induction false} OtherAnswers(cfg: Settings, rs: seq<RawRecord>, d: Document, curator: CuratorAnswer)
    ensures var p, due := ProposalFrom(cfg, rs, d, curator), NextBatch(cfg, rs, d.curation.frontier, false).Some?;
            && (p.NoProposal? <==> !due)
            && (p.ProposeRejected? <==> due && curator.CuratorRejected?)
            && (due && curator.CuratorFails? ==> p == ProposeFailed(curator.code, curator.retryable))
            && (due && curator == Responds(None) ==> p == ProposeFailed("CURATION_SCHEMA_INVALID", true))
  {
  }
}
