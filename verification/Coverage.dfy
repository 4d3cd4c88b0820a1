/** `validate_complete_coverage` of `memory/selection.py`, and the split the controller hands it. */
module Coverage {
  import opened Outcomes
  import opened Models
  import opened RawArchive
  import opened LongTerm
  import opened Curation
  import opened Coherence

  type Range = Option<(int, int)>
  datatype CoverageResult = CoverageResult(covered: Range, direct: Range)

  /** The dictionary `{item.global_sequence: item for item in records}`. */
  function BySequence(rs: seq<RawRecord>): map<int, RawRecord> {
    if rs == [] then map[] else BySequence(rs[..|rs| - 1])[rs[|rs| - 1].sequence := rs[|rs| - 1]]
  }

  predicate PositionMatches(bySeq: map<int, RawRecord>, sp: CoverageSpan, k: nat)
    requires ValidSpan(sp) && k < |sp.ids|
  {
    sp.start + k in bySeq && bySeq[sp.start + k].id == sp.ids[k] && bySeq[sp.start + k].sha == sp.hashes[k]
  }

  predicate SpanMatches(bySeq: map<int, RawRecord>, sp: CoverageSpan)
    requires ValidSpan(sp)
  {
    forall k | 0 <= k < |sp.ids| :: PositionMatches(bySeq, sp, k)
  }

  function NotNamed(r: RawRecord, id: Option<string>): bool {
    id != Some(r.id)
  }

  /** The records after the frontier other than the current input. */
  function DirectRecords(rs: seq<RawRecord>, frontier: int, currentId: Option<string>): seq<RawRecord> {
    if rs == [] then []
    else
      var front := DirectRecords(rs[..|rs| - 1], frontier, currentId);
      var r := rs[|rs| - 1];
      if r.sequence > frontier && NotNamed(r, currentId) then front + [r] else front
  }

  function MinSequence(rs: seq<RawRecord>): int
    requires rs != []
  {
    if |rs| == 1 then rs[0].sequence
    else
      var m := MinSequence(rs[..|rs| - 1]);
      if rs[|rs| - 1].sequence < m then rs[|rs| - 1].sequence else m
  }

  function MaxSequence(rs: seq<RawRecord>): int
    requires rs != []
  {
    if |rs| == 1 then rs[0].sequence else Max(MaxSequence(rs[..|rs| - 1]), rs[|rs| - 1].sequence)
  }

  function CoverageCheck(rs: seq<RawRecord>, spans: seq<CoverageSpan>, frontier: int, recent: seq<RawRecord>,
                         current: Option<RawRecord>): Outcome<CoverageResult>
    requires forall i | 0 <= i < |spans| :: ValidSpan(spans[i])
  {
    var currentId := if current.Some? then Some(current.value.id) else None;
    if frontier < 0 || frontier > |rs| || LastEnd(spans) != frontier then Err("MEMORY_COVERAGE_GAP")
    else if exists i | 0 <= i < |spans| :: !SpanMatches(BySequence(rs), spans[i]) then Err("MEMORY_COVERAGE_GAP")
    else if IdsOf(recent) != IdsOf(DirectRecords(rs, frontier, currentId)) then Err("MEMORY_COVERAGE_GAP")
    else
      var direct := recent + (if current.Some? && exists r | r in rs :: r.id == current.value.id then [current.value] else []);
      Ok(CoverageResult(if frontier > 0 then Some((1, frontier)) else None,
                        if direct == [] then None else Some((MinSequence(direct), MaxSequence(direct)))))
  }

  method ValidateCompleteCoverage(rs: seq<RawRecord>, spans: seq<CoverageSpan>, frontier: int, recent: seq<RawRecord>,
                                  current: Option<RawRecord>) returns (r: Outcome<CoverageResult>)
    requires forall i | 0 <= i < |spans| :: ValidSpan(spans[i])
    ensures r == CoverageCheck(rs, spans, frontier, recent, current)
  {
    if frontier < 0 || frontier > |rs| || LastEnd(spans) != frontier {
      return Err("MEMORY_COVERAGE_GAP");
    }
    var bySeq := BySequence(rs);
    for i := 0 to |spans|
      invariant forall j | 0 <= j < i :: SpanMatches(bySeq, spans[j])
    {
      for k := 0 to |spans[i].ids|
        invariant forall j | 0 <= j < k :: PositionMatches(bySeq, spans[i], j)
      {
        if !PositionMatches(bySeq, spans[i], k) {
          assert !SpanMatches(bySeq, spans[i]);
          return Err("MEMORY_COVERAGE_GAP");
        }
      }
    }
    var currentId := if current.Some? then Some(current.value.id) else None;
    if IdsOf(recent) != IdsOf(DirectRecords(rs, frontier, currentId)) {
      return Err("MEMORY_COVERAGE_GAP");
    }
    var direct := recent + (if current.Some? && exists x | x in rs :: x.id == current.value.id then [current.value] else []);
    return Ok(CoverageResult(if frontier > 0 then Some((1, frontier)) else None,
                             if direct == [] then None else Some((MinSequence(direct), MaxSequence(direct)))));
  }

  // ---------------------------------------------------------------- exactly once

  /** How many span positions stand for sequence `i`. */
  function SpanCount(spans: seq<CoverageSpan>, i: int): nat {
    if spans == [] then 0
    else SpanCount(spans[..|spans| - 1], i)
         + (if spans[|spans| - 1].start <= i <= spans[|spans| - 1].end then 1 else 0)
  }

  function IdCount(rs: seq<RawRecord>, id: string): nat {
    if rs == [] then 0 else IdCount(rs[..|rs| - 1], id) + (if rs[|rs| - 1].id == id then 1 else 0)
  }

  /** How often a record of the log is represented in one prompt. */
  function Represented(rs: seq<RawRecord>, i: int, spans: seq<CoverageSpan>, recent: seq<RawRecord>, current: Option<RawRecord>): nat
    requires 1 <= i <= |rs|
  {
    SpanCount(spans, i) + IdCount(recent, rs[i - 1].id) + (if current.Some? && current.value.id == rs[i - 1].id then 1 else 0)
  }

  lemma {:induction false} SpansPartition(spans: seq<CoverageSpan>, i: int)
    requires Contiguous(spans) && forall k | 0 <= k < |spans| :: ValidSpan(spans[k])
    ensures SpanCount(spans, i) == if 1 <= i <= LastEnd(spans) then 1 else 0
  {
    if spans != [] {
      var front := spans[..|spans| - 1];
      SpansPartition(front, i);
      assert |spans| > 1 ==> spans[|spans| - 1].start == LastEnd(front) + 1;
    }
  }

  lemma {:induction false} SameIdsSameCount(a: seq<RawRecord>, b: seq<RawRecord>, id: string)
    requires IdsOf(a) == IdsOf(b)
    ensures IdCount(a, id) == IdCount(b, id)
  {
    assert |IdsOf(a)| == |a| && |IdsOf(b)| == |b|;
    if a != [] {
      var n := |a| - 1;
      assert IdsOf(a)[n] == IdsOf(b)[n];
      assert IdsOf(a[..n]) == IdsOf(a)[..n] == IdsOf(b)[..n] == IdsOf(b[..n]);
      SameIdsSameCount(a[..n], b[..n], id);
    }
  }

  lemma {:induction false} DirectCount(rs: seq<RawRecord>, frontier: int, currentId: Option<string>, i: int, n: nat)
    requires WellFormedLog(rs) && 1 <= i <= |rs| && n <= |rs|
    ensures IdCount(DirectRecords(rs[..n], frontier, currentId), rs[i - 1].id) ==
            if i <= n && i > frontier && NotNamed(rs[i - 1], currentId) then 1 else 0
  {
    if n > 0 {
      assert rs[..n][..n - 1] == rs[..n - 1];
      DirectCount(rs, frontier, currentId, i, n - 1);
      var front := DirectRecords(rs[..n - 1], frontier, currentId);
      var all := DirectRecords(rs[..n], frontier, currentId);
      assert all != front ==> all[..|all| - 1] == front;
      assert i != n ==> rs[n - 1].id != rs[i - 1].id;
    }
  }

  /** Acceptance means that every record 1..n is represented; and each exactly once, if and
      only if the current input is not itself one of the records the overview covers. */
  lemma {:induction false} AcceptedMeansExactlyOnce(rs: seq<RawRecord>, spans: seq<CoverageSpan>, frontier: int, recent: seq<RawRecord>, current: Option<RawRecord>)
    requires WellFormedLog(rs) && Contiguous(spans) && forall k | 0 <= k < |spans| :: ValidSpan(spans[k])
    requires CoverageCheck(rs, spans, frontier, recent, current).Ok?
    ensures forall i | 1 <= i <= |rs| :: Represented(rs, i, spans, recent, current) >= 1
    ensures (forall i | 1 <= i <= |rs| :: Represented(rs, i, spans, recent, current) == 1)
            <==> (current.None? || current.value.id !in IdsOf(rs[..frontier]))
  {
    var currentId := if current.Some? then Some(current.value.id) else None;
    forall i | 1 <= i <= |rs|
      ensures Represented(rs, i, spans, recent, current)
              == if i <= frontier && !NotNamed(rs[i - 1], currentId) then 2 else 1
    {
      SpansPartition(spans, i);
      assert rs[..|rs|] == rs;
      DirectCount(rs, frontier, currentId, i, |rs|);
      SameIdsSameCount(recent, DirectRecords(rs, frontier, currentId), rs[i - 1].id);
    }
    if current.Some? && current.value.id in IdsOf(rs[..frontier]) {
      var k :| 0 <= k < frontier && IdsOf(rs[..frontier])[k] == current.value.id;
      assert !NotNamed(rs[k], currentId);
      assert Represented(rs, k + 1, spans, recent, current) == 2;
    } else {
      forall k | 0 <= k < frontier ensures NotNamed(rs[k], currentId) {
        assert IdsOf(rs[..frontier])[k] == rs[k].id;
      }
    }
  }

  /** A covered record that is also the current input is accepted, and represented twice. */
  lemma {:induction false} CoveredCurrentIsDoubled()
    ensures exists rs, spans, current ::
              && WellFormedLog(rs) && |rs| == 1 && (forall k | 0 <= k < |spans| :: ValidSpan(spans[k]))
              && CoverageCheck(rs, spans, 1, [], current).Ok?
              && Represented(rs, 1, spans, [], current) == 2
  {
    var r := CreateRecord("rec", 1, "turn", User, "text", 0, "default", "rev");
    var sp := CoverageSpan(1, 1, BatchId([("rec", r.sha)]), ["rec"], [r.sha]);
    assert BySequence([r][..0]) == map[];
    assert BySequence([r]) == map[1 := r];
    assert PositionMatches(BySequence([r]), sp, 0);
    assert DirectRecords([r][..0], 1, Some("rec")) == [];
    assert DirectRecords([r], 1, Some("rec")) == [];
    assert LastEnd([sp]) == 1;
    assert CoverageCheck([r], [sp], 1, [], Some(r)).Ok?;
    assert SpanCount([sp][..0], 1) == 0;
    assert SpanCount([sp], 1) == 1;
    assert Represented([r], 1, [sp], [], Some(r)) == 2;
  }

  lemma {:induction false} BySequenceAt(rs: seq<RawRecord>, n: nat)
    requires WellFormedLog(rs) && n <= |rs|
    ensures forall i | 1 <= i <= n :: i in BySequence(rs[..n]) && BySequence(rs[..n])[i] == rs[i - 1]
  {
    if n > 0 {
      assert rs[..n][..n - 1] == rs[..n - 1];
      BySequenceAt(rs, n - 1);
    }
  }

  lemma {:induction false} SpansMatchLog(d: Document, rs: seq<RawRecord>)
    requires WellFormedLog(rs) && Coherent(d, rs)
    ensures forall i | 0 <= i < |d.overview.spans| :: SpanMatches(BySequence(rs), d.overview.spans[i])
  {
    CoherentResolves(d, rs);
    assert rs[..|rs|] == rs;
    BySequenceAt(rs, |rs|);
    forall i | 0 <= i < |d.overview.spans| ensures SpanMatches(BySequence(rs), d.overview.spans[i]) {
      assert SpanResolves(rs, d.overview.spans[i]);
    }
  }

  lemma {:induction false} CurrentNotCovered(d: Document, rs: seq<RawRecord>, user: RawRecord)
    requires WellFormedLog(rs) && LogShape(rs) && Coherent(d, rs)
    requires user.id !in IdsOf(rs) || PendingOf(rs) == Some(user)
    ensures user.id !in IdsOf(rs[..d.curation.frontier])
  {
    var f := d.curation.frontier;
    if PendingOf(rs) == Some(user) {
      PendingUnreferenced(d, rs);
    }
    forall k | 0 <= k < f ensures IdsOf(rs[..f])[k] != user.id {
      if PendingOf(rs) == Some(user) {
        assert rs[k].id != rs[|rs| - 1].id;
      } else {
        assert IdsOf(rs)[k] == rs[k].id;
      }
    }
  }

  lemma {:induction false} SplitAccepted(rs: seq<RawRecord>, spans: seq<CoverageSpan>, f: nat, user: RawRecord)
    requires WellFormedLog(rs) && f <= |rs| && LastEnd(spans) == f
    requires Contiguous(spans) && forall k | 0 <= k < |spans| :: ValidSpan(spans[k])
    requires forall i | 0 <= i < |spans| :: SpanMatches(BySequence(rs), spans[i])
    requires user.id !in IdsOf(rs[..f])
    ensures var recent := DirectRecords(rs, f, Some(user.id));
            && CoverageCheck(rs, spans, f, recent, Some(user)).Ok?
            && forall i | 1 <= i <= |rs| :: Represented(rs, i, spans, recent, Some(user)) == 1
  {
    AcceptedMeansExactlyOnce(rs, spans, f, DirectRecords(rs, f, Some(user.id)), Some(user));
  }

  /** The controller's own split is always accepted, for a fresh input and for a resumed one. */
  lemma {:induction false} ControllerSplitAccepted(d: Document, rs: seq<RawRecord>, user: RawRecord)
    requires WellFormedLog(rs) && LogShape(rs) && Coherent(d, rs)
    requires user.id !in IdsOf(rs) || PendingOf(rs) == Some(user)
    ensures var recent := DirectRecords(rs, d.curation.frontier, Some(user.id));
            && CoverageCheck(rs, d.overview.spans, d.curation.frontier, recent, Some(user)).Ok?
            && forall i | 1 <= i <= |rs| :: Represented(rs, i, d.overview.spans, recent, Some(user)) == 1
  {
    SpansMatchLog(d, rs);
    CurrentNotCovered(d, rs, user);
    SplitAccepted(rs, d.overview.spans, d.curation.frontier, user);
  }
}
