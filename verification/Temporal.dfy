/** `prompting/temporal.py`: one pass over a history that sets a time marker where the time
    line breaks, and the declarative meaning of that pass. */
module Temporal {
  import opened Outcomes
  import opened Boundaries

  datatype SpanKind = Event | SourceRange | Recorded

  /** Instants are integers; the time zone is the policy's `localDate` and `stamp`. */
  datatype TimeSpan = TimeSpan(start: int, end: int, kind: SpanKind)

  predicate ValidTimeSpan(s: TimeSpan) {
    s.start <= s.end && (!s.kind.SourceRange? ==> s.start == s.end)
  }

  datatype Entry = Entry(id: string, body: string, span: TimeSpan, sources: seq<Source>, trust: Trust)

  predicate ValidEntry(e: Entry) {
    e.id != "" && ValidTimeSpan(e.span) && e.sources != []
  }

  datatype Policy = Policy(
    longGap: int, refresh: int, splitOnDate: bool, localDate: int -> int, stamp: int -> string, config: Source)

  predicate ValidPolicy(p: Policy) {
    0 < p.longGap <= p.refresh
  }

  datatype Reason = First | LongGap | DateChange | Reversal | Refresh

  datatype TimeMarker = TimeMarker(before: string, text: string, reasons: set<Reason>, span: TimeSpan, sources: seq<Source>)

  datatype History = History(text: string, entries: seq<Entry>, fragments: seq<Fragment>, markers: seq<TimeMarker>)

  function FormatMarker(span: TimeSpan, policy: Policy): string {
    match span.kind
    case Event => "[时间：" + policy.stamp(span.start) + "]"
    case Recorded => "[记录时间：" + policy.stamp(span.start) + "]"
    case SourceRange => "[时间范围：" + policy.stamp(span.start) + " 至 " + policy.stamp(span.end) + "]"
  }

  /** The sources without repeats, first occurrences kept. */
  function Distinct(sources: seq<Source>): seq<Source> {
    if sources == [] then []
    else
      var front := Distinct(sources[..|sources| - 1]);
      if sources[|sources| - 1] in front then front else front + [sources[|sources| - 1]]
  }

  function MarkerSources(policy: Policy, e: Entry): seq<Source> {
    Distinct([policy.config] + e.sources)
  }

  /** Breaks of the time line between two neighbours. */
  predicate GapBefore(policy: Policy, a: Entry, b: Entry) {
    (if b.span.start - a.span.end > 0 then b.span.start - a.span.end else 0) >= policy.longGap
  }

  predicate DateChanges(policy: Policy, a: Entry, b: Entry) {
    policy.splitOnDate && policy.localDate(a.span.end) != policy.localDate(b.span.start)
  }

  predicate Breaks(policy: Policy, a: Entry, b: Entry) {
    GapBefore(policy, a, b) || DateChanges(policy, a, b) || b.span.start < a.span.start
  }

  function Reasons(policy: Policy, previous: Option<Entry>, lastMarked: Option<Entry>, e: Entry): set<Reason> {
    if previous.None? then {First}
    else
      (if GapBefore(policy, previous.value, e) then {LongGap} else {})
      + (if DateChanges(policy, previous.value, e) then {DateChange} else {})
      + (if e.span.start < previous.value.span.start then {Reversal} else {})
      + (if lastMarked.Some? && e.span.start - lastMarked.value.span.start >= policy.refresh then {Refresh} else {})
  }

  function Last(es: seq<Entry>): Option<Entry> {
    if es == [] then None else Some(es[|es| - 1])
  }

  /** The entry of the latest marker of the scan. */
  function LastMarked(policy: Policy, es: seq<Entry>): Option<Entry> {
    if es == [] then None
    else
      var front, e := es[..|es| - 1], es[|es| - 1];
      if Reasons(policy, Last(front), LastMarked(policy, front), e) != {} then Some(e) else LastMarked(policy, front)
  }

  /** Which entries the scan marks. */
  function Marks(policy: Policy, es: seq<Entry>): seq<bool> {
    if es == [] then []
    else
      var front, e := es[..|es| - 1], es[|es| - 1];
      Marks(policy, front) + [Reasons(policy, Last(front), LastMarked(policy, front), e) != {}]
  }

  function MarkerFor(policy: Policy, reasons: set<Reason>, e: Entry): TimeMarker {
    TimeMarker(e.id, FormatMarker(e.span, policy), reasons, e.span, MarkerSources(policy, e))
  }

  function Markers(policy: Policy, es: seq<Entry>): seq<TimeMarker> {
    if es == [] then []
    else
      var front, e := es[..|es| - 1], es[|es| - 1];
      var reasons := Reasons(policy, Last(front), LastMarked(policy, front), e);
      Markers(policy, front) + (if reasons == {} then [] else [MarkerFor(policy, reasons, e)])
  }

  // ---------------------------------------------------------------- the pieces of an annotated history

  function SeparatorPiece(e: Entry, separator: string): Piece {
    Piece(e.id + ":entry-separator", separator, e.sources, e.trust, Some(e.id), Separator)
  }

  function MarkerPieces(policy: Policy, e: Entry): seq<Piece> {
    [Piece(e.id + ":marker", FormatMarker(e.span, policy), MarkerSources(policy, e), UntrustedData, Some(e.id), Marker)]
    + (if e.body == "" then []
       else [Piece(e.id + ":marker-separator", "\n", MarkerSources(policy, e), UntrustedData, Some(e.id), Separator)])
  }

  function BodyPiece(e: Entry): Piece {
    Piece(e.id + ":body", e.body, e.sources, e.trust, Some(e.id), Body)
  }

  function EntryPieces(policy: Policy, first: bool, marked: bool, e: Entry, separator: string): seq<Piece> {
    (if first then [] else [SeparatorPiece(e, separator)])
    + (if marked then MarkerPieces(policy, e) else [])
    + [BodyPiece(e)]
  }

  function HistoryPieces(policy: Policy, es: seq<Entry>, separator: string): seq<Piece> {
    if es == [] then []
    else
      var front, e := es[..|es| - 1], es[|es| - 1];
      HistoryPieces(policy, front, separator)
      + EntryPieces(policy, front == [], Reasons(policy, Last(front), LastMarked(policy, front), e) != {}, e, separator)
  }

  function EntryIds(es: seq<Entry>): seq<string> {
    seq(|es|, i requires 0 <= i < |es| => es[i].id)
  }

  /** `annotate_history`; repeated entry ids are refused by the validator of the result. */
  function Annotated(policy: Policy, es: seq<Entry>, separator: string): Outcome<History> {
    if !Unique(EntryIds(es)) then Err("VALUE_ERROR")
    else
      var rendered := Position(HistoryPieces(policy, es, separator));
      Ok(History(rendered.text, es, rendered.fragments, Markers(policy, es)))
  }

  /** The text and the fragments as the scan grows them. */
  class HistoryScan {
    var text: string
    var fragments: seq<Fragment>
    ghost var pieces: seq<Piece>

    ghost predicate Valid()
      reads this
    {
      text == TextOf(pieces) && fragments == FragmentsOf(pieces)
    }

    constructor ()
      ensures Valid() && pieces == []
    {
      text, fragments, pieces := "", [], [];
    }

    /** `append_fragment`: an empty content leaves no fragment. */
    method AppendFragment(p: Piece)
      requires Valid()
      modifies this
      ensures Valid() && pieces == old(pieces) + [p]
    {
      ghost var before := pieces;
      pieces := pieces + [p];
      assert pieces[..|pieces| - 1] == before;
      if p.content != "" {
        fragments := fragments + [Placed(p, |text|)];
        text := text + p.content;
      }
    }
  }

  method AppendFragments(scan: HistoryScan, pieces: seq<Piece>)
    requires scan.Valid()
    modifies scan
    ensures scan.Valid() && scan.pieces == old(scan.pieces) + pieces
  {
    for k := 0 to |pieces|
      invariant scan.Valid() && scan.pieces == old(scan.pieces) + pieces[..k]
    {
      scan.AppendFragment(pieces[k]);
    }
  }

  method AnnotateHistory(policy: Policy, es: seq<Entry>, separator: string) returns (r: Outcome<History>)
    ensures r == Annotated(policy, es, separator)
  {
    if !Unique(EntryIds(es)) {
      return Err("VALUE_ERROR");
    }
    var scan := new HistoryScan();
    var markers: seq<TimeMarker> := [];
    var previous: Option<Entry>, lastMarked: Option<Entry> := None, None;
    for i := 0 to |es|
      invariant scan.Valid() && scan.pieces == HistoryPieces(policy, es[..i], separator)
      invariant markers == Markers(policy, es[..i])
      invariant previous == Last(es[..i]) && lastMarked == LastMarked(policy, es[..i])
    {
      assert es[..i + 1][..i] == es[..i];
      var e := es[i];
      var reasons := Reasons(policy, previous, lastMarked, e);
      AppendFragments(scan, EntryPieces(policy, i == 0, reasons != {}, e, separator));
      if reasons != {} {
        markers := markers + [MarkerFor(policy, reasons, e)];
        lastMarked := Some(e);
      }
      previous := Some(e);
    }
    assert es[..|es|] == es;
    return Ok(History(scan.text, es, scan.fragments, markers));
  }

  // ---------------------------------------------------------------- where markers stand

  predicate NearestMark(marks: seq<bool>, m: nat, i: nat)
    requires i <= |marks|
  {
    m < i && marks[m] && forall k | m < k < i :: !marks[k]
  }

  /** The whole-list condition for a marker before entry `i`. */
  ghost predicate Due(policy: Policy, es: seq<Entry>, marks: seq<bool>, i: nat)
    requires |marks| == |es| && i < |es|
  {
    || i == 0
    || Breaks(policy, es[i - 1], es[i])
    || exists m: nat :: NearestMark(marks, m, i) && es[i].span.start - es[m].span.start >= policy.refresh
  }

  ghost predicate IsMarking(policy: Policy, es: seq<Entry>, marks: seq<bool>) {
    |marks| == |es| && forall i | 0 <= i < |es| :: marks[i] <==> Due(policy, es, marks, i)
  }

  lemma {:induction false} MarksLength(policy: Policy, es: seq<Entry>)
    ensures |Marks(policy, es)| == |es|
  {
    if es != [] {
      MarksLength(policy, es[..|es| - 1]);
    }
  }

  /** The scan's variable `last_marker_entry` is the nearest earlier mark. */
  lemma {:induction false} LastMarkedIsNearest(policy: Policy, es: seq<Entry>)
    ensures |Marks(policy, es)| == |es|
    ensures if es == [] then LastMarked(policy, es).None?
            else exists m: nat :: NearestMark(Marks(policy, es), m, |es|) && LastMarked(policy, es) == Some(es[m])
  {
    MarksLength(policy, es);
    if es != [] {
      var n := |es| - 1;
      var front, marks := es[..n], Marks(policy, es);
      MarksLength(policy, front);
      assert marks[..n] == Marks(policy, front);
      if marks[n] {
        assert NearestMark(marks, n, |es|) && LastMarked(policy, es) == Some(es[n]);
      } else {
        LastMarkedIsNearest(policy, front);
        assert n > 0;
        var m: nat :| NearestMark(Marks(policy, front), m, n) && LastMarked(policy, front) == Some(front[m]);
        assert NearestMark(marks, m, |es|);
      }
    }
  }

  lemma {:induction false} NearestIsOne(marks: seq<bool>, a: nat, b: nat, i: nat)
    requires i <= |marks| && NearestMark(marks, a, i) && NearestMark(marks, b, i)
    ensures a == b
  {
  }

  lemma {:induction false} ReasonsWhen(policy: Policy, previous: Entry, lastMarked: Entry, e: Entry)
    ensures Reasons(policy, Some(previous), Some(lastMarked), e) != {}
            <==> Breaks(policy, previous, e) || e.span.start - lastMarked.span.start >= policy.refresh
  {
    var all := Reasons(policy, Some(previous), Some(lastMarked), e);
    if GapBefore(policy, previous, e) {
      assert LongGap in all;
    }
    if DateChanges(policy, previous, e) {
      assert DateChange in all;
    }
    if e.span.start < previous.span.start {
      assert Reversal in all;
    }
    if e.span.start - lastMarked.span.start >= policy.refresh {
      assert Refresh in all;
    }
  }

  lemma {:induction false} LastMarkIsDue(policy: Policy, es: seq<Entry>)
    requires es != []
    ensures |Marks(policy, es)| == |es| && (Marks(policy, es)[|es| - 1] <==> Due(policy, es, Marks(policy, es), |es| - 1))
  {
    var n := |es| - 1;
    var front, marks := es[..n], Marks(policy, es);
    MarksLength(policy, es);
    MarksLength(policy, front);
    assert marks[..n] == Marks(policy, front);
    if n > 0 {
      LastMarkedIsNearest(policy, front);
      var m: nat :| NearestMark(Marks(policy, front), m, n) && LastMarked(policy, front) == Some(front[m]);
      assert NearestMark(marks, m, n);
      ReasonsWhen(policy, es[n - 1], es[m], es[n]);
      forall k: nat | NearestMark(marks, k, n) ensures k == m {
        NearestIsOne(marks, k, m, n);
      }
    }
  }

  /** The one-pass scan marks exactly the entries that the whole-list condition marks. */
  lemma {:induction false} ScanIsMarking(policy: Policy, es: seq<Entry>)
    ensures IsMarking(policy, es, Marks(policy, es))
  {
    MarksLength(policy, es);
    if es != [] {
      var n := |es| - 1;
      var front, marks := es[..n], Marks(policy, es);
      ScanIsMarking(policy, front);
      LastMarkIsDue(policy, es);
      assert marks[..n] == Marks(policy, front);
      forall i | 0 <= i < n ensures marks[i] <==> Due(policy, es, marks, i) {
        DueLocally(policy, front, es, Marks(policy, front), marks, i);
      }
    }
  }

  lemma {:induction false} DueLocally(policy: Policy, es: seq<Entry>, more: seq<Entry>, marks: seq<bool>, moreMarks: seq<bool>, i: nat)
    requires |marks| == |es| <= |more| == |moreMarks| && i < |es|
    requires es == more[..|es|] && marks == moreMarks[..|es|]
    ensures Due(policy, es, marks, i) <==> Due(policy, more, moreMarks, i)
  {
    forall m: nat | m < i ensures NearestMark(marks, m, i) <==> NearestMark(moreMarks, m, i) {
      assert forall k | m <= k < i :: marks[k] == moreMarks[k];
    }
  }

  /** There is only one such marking, so the condition defines the markers. */
  lemma {:induction false} MarkingIsUnique(policy: Policy, es: seq<Entry>, a: seq<bool>, b: seq<bool>, n: nat)
    requires IsMarking(policy, es, a) && IsMarking(policy, es, b) && n <= |es|
    ensures forall k | 0 <= k < n :: a[k] == b[k]
  {
    if n > 0 {
      MarkingIsUnique(policy, es, a, b, n - 1);
      DueByPrefix(policy, es, a, b, n - 1);
    }
  }

  lemma {:induction false} DueByPrefix(policy: Policy, es: seq<Entry>, a: seq<bool>, b: seq<bool>, i: nat)
    requires |a| == |b| == |es| && i < |es| && forall k | 0 <= k < i :: a[k] == b[k]
    ensures Due(policy, es, a, i) <==> Due(policy, es, b, i)
  {
    forall m: nat | m < i ensures NearestMark(a, m, i) <==> NearestMark(b, m, i) {
    }
  }

  // ---------------------------------------------------------------- what an unmarked run means

  predicate QuietRun(marks: seq<bool>, m: nat, j: nat)
    requires j < |marks|
  {
    m <= j && marks[m] && forall k | m < k <= j :: !marks[k]
  }

  lemma {:induction false} QuietStep(policy: Policy, es: seq<Entry>, marks: seq<bool>, m: nat, j: nat)
    requires IsMarking(policy, es, marks) && j < |es| && QuietRun(marks, m, j) && m < j
    ensures !Breaks(policy, es[j - 1], es[j]) && es[j].span.start - es[m].span.start < policy.refresh
  {
    assert NearestMark(marks, m, j);
    assert !Due(policy, es, marks, j);
  }

  /** In the run after a marker the starts never go back, every start is within the refresh
      interval of the marked one, and every gap is shorter than the long gap. */
  lemma {:induction false} QuietRunIsTight(policy: Policy, es: seq<Entry>, marks: seq<bool>, m: nat, i: nat, j: nat)
    requires ValidPolicy(policy) && IsMarking(policy, es, marks) && j < |es| && QuietRun(marks, m, j) && m <= i <= j
    ensures es[m].span.start <= es[i].span.start <= es[j].span.start < es[m].span.start + policy.refresh
    ensures i < j ==> es[i + 1].span.start - es[i].span.end < policy.longGap
    decreases j
  {
    if m < j {
      QuietStep(policy, es, marks, m, j);
      QuietRunIsTight(policy, es, marks, m, if i < j then i else j - 1, j - 1);
    }
  }

  /** With date splitting on, the point events of one run share one local date. */
  lemma {:induction false} QuietRunIsOneDay(policy: Policy, es: seq<Entry>, marks: seq<bool>, m: nat, i: nat, j: nat)
    requires IsMarking(policy, es, marks) && j < |es| && QuietRun(marks, m, j) && m <= i <= j && policy.splitOnDate
    requires forall k | m <= k <= j :: es[k].span.start == es[k].span.end
    ensures policy.localDate(es[i].span.start) == policy.localDate(es[j].span.start)
    decreases j
  {
    if i < j {
      QuietStep(policy, es, marks, m, j);
      QuietRunIsOneDay(policy, es, marks, m, i, j - 1);
    }
  }

  // ---------------------------------------------------------------- the validator of the result

  predicate ReadsBack(text: string, fragments: seq<Fragment>) {
    && (fragments == [] ==> text == "")
    && (fragments != [] ==> fragments[0].start == 0 && fragments[|fragments| - 1].end == |text|)
    && (forall i, j | 0 <= i < |fragments| && 0 <= j < |fragments| && j == i + 1 :: fragments[j].start == fragments[i].end)
    && (forall i | 0 <= i < |fragments| ::
          0 <= fragments[i].start <= fragments[i].end <= |text|
          && text[fragments[i].start..fragments[i].end] == fragments[i].content)
  }

  function MarkerIds(markers: seq<TimeMarker>): seq<string> {
    seq(|markers|, i requires 0 <= i < |markers| => markers[i].before)
  }

  function FragmentIds(fragments: seq<Fragment>): seq<string> {
    seq(|fragments|, i requires 0 <= i < |fragments| => fragments[i].id)
  }

  /** `AnnotatedHistory`, with the validators of its fragments and markers. */
  predicate ValidHistory(h: History) {
    && Unique(EntryIds(h.entries))
    && Unique(MarkerIds(h.markers)) && (forall id | id in MarkerIds(h.markers) :: id in EntryIds(h.entries))
    && (forall i | 0 <= i < |h.markers| :: h.markers[i].text != "" && h.markers[i].reasons != {} && h.markers[i].sources != [])
    && Unique(FragmentIds(h.fragments)) && (forall i | 0 <= i < |h.fragments| :: ValidFragment(h.fragments[i]))
    && ReadsBack(h.text, h.fragments)
    && (h.entries == [] ==> h.text == "" && h.fragments == [] && h.markers == [])
  }

  /** The cursor loop of the validator decides `ReadsBack`. */
  method ReadBack(text: string, fragments: seq<Fragment>) returns (ok: bool)
    requires forall i | 0 <= i < |fragments| :: ValidFragment(fragments[i])
    ensures ok <==> ReadsBack(text, fragments)
  {
    var cursor := 0;
    for i := 0 to |fragments|
      invariant cursor == if i == 0 then 0 else fragments[i - 1].end
      invariant cursor <= |text| && (i > 0 ==> fragments[0].start == 0)
      invariant forall k, j | 0 <= k < i && 0 <= j < i && j == k + 1 :: fragments[j].start == fragments[k].end
      invariant forall k | 0 <= k < i ::
        0 <= fragments[k].start <= fragments[k].end <= |text| && text[fragments[k].start..fragments[k].end] == fragments[k].content
    {
      var f := fragments[i];
      if f.start != cursor || f.end > |text| {
        return false;
      }
      if text[f.start..f.end] != f.content {
        return false;
      }
      cursor := f.end;
    }
    return cursor == |text|;
  }

  function SuffixOf(n: nat): string {
    if n == 0 then ":entry-separator" else if n == 1 then ":marker" else if n == 2 then ":marker-separator" else ":body"
  }

  lemma {:induction false} FromTheEnd(s: string, a: string, t: string, i: nat)
    requires s == a + t && 1 <= i <= |t|
    ensures i <= |s| && s[|s| - i] == t[|t| - i]
  {
  }

  /** The last, the one before it and the eleventh character from the end tell the suffixes apart. */
  lemma {:induction false} SuffixSignature(s: string, a: string, n: nat)
    requires n < 4 && s == a + SuffixOf(n)
    ensures |s| >= 5 && (n == 3 <==> s[|s| - 1] == 'y')
    ensures n == 1 <==> s[|s| - 1] == 'r' && s[|s| - 2] == 'e'
    ensures n == 0 ==> |s| >= 11 && s[|s| - 11] == 'y'
    ensures n == 2 ==> |s| >= 11 && s[|s| - 11] == 'r'
  {
    FromTheEnd(s, a, SuffixOf(n), 1);
    FromTheEnd(s, a, SuffixOf(n), 2);
    if n == 0 || n == 2 {
      FromTheEnd(s, a, SuffixOf(n), 11);
    }
  }

  /** The four kinds of fragment id cannot be confused, whatever the entry ids are. */
  lemma {:induction false} SuffixesDecide(a: string, b: string, m: nat, n: nat)
    requires m < 4 && n < 4 && a + SuffixOf(m) == b + SuffixOf(n)
    ensures a == b && m == n
  {
    var s := a + SuffixOf(m);
    SuffixSignature(s, a, m);
    SuffixSignature(s, b, n);
    SamePrefix(s, a, b, SuffixOf(m));
  }

  lemma {:induction false} SamePrefix(s: string, a: string, b: string, t: string)
    requires s == a + t == b + t
    ensures a == b
  {
    assert a == s[..|s| - |t|] == b;
  }

  ghost predicate Labelled(p: Piece, ids: seq<string>) {
    p.entryId.Some? && p.entryId.value in ids && exists n: nat :: n < 4 && p.id == p.entryId.value + SuffixOf(n)
  }

  lemma {:induction false} EntryPieceLabels(policy: Policy, first: bool, marked: bool, e: Entry, separator: string, k: nat) returns (n: nat)
    requires k < |EntryPieces(policy, first, marked, e, separator)|
    ensures var p := EntryPieces(policy, first, marked, e, separator)[k];
            p.entryId == Some(e.id) && n < 4 && p.id == e.id + SuffixOf(n)
            && n == (if k == |EntryPieces(policy, first, marked, e, separator)| - 1 then 3 else if first then k + 1 else k)
  {
    n := if k == |EntryPieces(policy, first, marked, e, separator)| - 1 then 3 else if first then k + 1 else k;
  }

  lemma {:induction false} EntryPieceIdsDiffer(policy: Policy, first: bool, marked: bool, e: Entry, separator: string, i: nat, j: nat)
    requires i < j < |EntryPieces(policy, first, marked, e, separator)|
    ensures EntryPieces(policy, first, marked, e, separator)[i].id != EntryPieces(policy, first, marked, e, separator)[j].id
  {
    var m := EntryPieceLabels(policy, first, marked, e, separator, i);
    var n := EntryPieceLabels(policy, first, marked, e, separator, j);
    if e.id + SuffixOf(m) == e.id + SuffixOf(n) {
      SuffixesDecide(e.id, e.id, m, n);
    }
  }

  lemma {:induction false} LabelledGrows(p: Piece, es: seq<Entry>)
    requires es != [] && Labelled(p, EntryIds(es[..|es| - 1]))
    ensures Labelled(p, EntryIds(es))
  {
    var i :| 0 <= i < |es| - 1 && EntryIds(es[..|es| - 1])[i] == p.entryId.value;
    assert EntryIds(es)[i] == p.entryId.value;
  }

  /** The pieces that the last entry adds, each with its label. */
  lemma {:induction false} AddedPieces(policy: Policy, es: seq<Entry>, separator: string) returns (added: seq<Piece>)
    requires es != []
    ensures HistoryPieces(policy, es, separator) == HistoryPieces(policy, es[..|es| - 1], separator) + added
    ensures forall k | 0 <= k < |added| :: added[k].entryId == Some(es[|es| - 1].id) && Labelled(added[k], EntryIds(es))
    ensures forall i, j | 0 <= i < j < |added| :: added[i].id != added[j].id
  {
    var n := |es| - 1;
    var first, marked := es[..n] == [], Reasons(policy, Last(es[..n]), LastMarked(policy, es[..n]), es[n]) != {};
    added := EntryPieces(policy, first, marked, es[n], separator);
    assert EntryIds(es)[n] == es[n].id;
    forall k | 0 <= k < |added| ensures added[k].entryId == Some(es[n].id) && Labelled(added[k], EntryIds(es)) {
      var tag := EntryPieceLabels(policy, first, marked, es[n], separator, k);
    }
    forall i, j | 0 <= i < j < |added| ensures added[i].id != added[j].id {
      EntryPieceIdsDiffer(policy, first, marked, es[n], separator, i, j);
    }
  }

  lemma {:induction false} NewId(es: seq<Entry>, p: Piece, q: Piece)
    requires es != [] && Unique(EntryIds(es)) && Labelled(p, EntryIds(es[..|es| - 1]))
    requires Labelled(q, EntryIds(es)) && q.entryId == Some(es[|es| - 1].id)
    ensures p.id != q.id
  {
    UniqueFront(es);
    var m: nat :| m < 4 && p.id == p.entryId.value + SuffixOf(m);
    var n: nat :| n < 4 && q.id == q.entryId.value + SuffixOf(n);
    if p.id == q.id {
      SuffixesDecide(p.entryId.value, q.entryId.value, m, n);
    }
  }

  lemma {:induction false} PieceIdsDiffer(policy: Policy, es: seq<Entry>, separator: string, pieces: seq<Piece>)
    requires Unique(EntryIds(es)) && pieces == HistoryPieces(policy, es, separator)
    ensures forall k | 0 <= k < |pieces| :: Labelled(pieces[k], EntryIds(es))
    ensures forall i, j | 0 <= i < j < |pieces| :: pieces[i].id != pieces[j].id
  {
    if es != [] {
      var front := HistoryPieces(policy, es[..|es| - 1], separator);
      var added := AddedPieces(policy, es, separator);
      UniqueFront(es);
      PieceIdsDiffer(policy, es[..|es| - 1], separator, front);
      PiecesTogether(es, front, added);
    }
  }

  lemma {:induction false} PiecesTogether(es: seq<Entry>, front: seq<Piece>, added: seq<Piece>)
    requires es != [] && Unique(EntryIds(es))
    requires forall k | 0 <= k < |front| :: Labelled(front[k], EntryIds(es[..|es| - 1]))
    requires forall i, j | 0 <= i < j < |front| :: front[i].id != front[j].id
    requires forall k | 0 <= k < |added| :: added[k].entryId == Some(es[|es| - 1].id) && Labelled(added[k], EntryIds(es))
    requires forall i, j | 0 <= i < j < |added| :: added[i].id != added[j].id
    ensures forall k | 0 <= k < |front + added| :: Labelled((front + added)[k], EntryIds(es))
    ensures forall i, j | 0 <= i < j < |front + added| :: (front + added)[i].id != (front + added)[j].id
  {
    var pieces := front + added;
    forall k | 0 <= k < |pieces| ensures Labelled(pieces[k], EntryIds(es)) {
      if k < |front| {
        LabelledGrows(front[k], es);
      }
    }
    forall i, j | 0 <= i < j < |pieces| ensures pieces[i].id != pieces[j].id {
      if i < |front| <= j {
        NewId(es, front[i], added[j - |front|]);
      }
    }
  }

  lemma {:induction false} UniqueFront(es: seq<Entry>)
    requires es != [] && Unique(EntryIds(es))
    ensures Unique(EntryIds(es[..|es| - 1])) && es[|es| - 1].id !in EntryIds(es[..|es| - 1])
  {
    var n := |es| - 1;
    forall i, j | 0 <= i < j < n ensures EntryIds(es[..n])[i] != EntryIds(es[..n])[j] {
      assert EntryIds(es)[i] != EntryIds(es)[j];
    }
    forall i | 0 <= i < n ensures EntryIds(es[..n])[i] != es[n].id {
      assert EntryIds(es)[i] != EntryIds(es)[n];
    }
  }

  lemma {:induction false} FragmentIdsUnique(pieces: seq<Piece>)
    requires forall i, j | 0 <= i < j < |pieces| :: pieces[i].id != pieces[j].id
    ensures Unique(FragmentIds(FragmentsOf(pieces)))
    ensures forall k | 0 <= k < |FragmentsOf(pieces)| :: exists i :: 0 <= i < |pieces| && pieces[i].id == FragmentsOf(pieces)[k].id
  {
    if pieces != [] {
      var n := |pieces| - 1;
      var front, before := pieces[..n], FragmentsOf(pieces[..n]);
      FragmentIdsUnique(front);
      var all := FragmentsOf(pieces);
      forall k | 0 <= k < |all| ensures exists i :: 0 <= i < |pieces| && pieces[i].id == all[k].id {
        if k < |before| {
          var i :| 0 <= i < n && front[i].id == before[k].id;
          assert pieces[i].id == all[k].id;
        } else {
          assert pieces[n].id == all[k].id;
        }
      }
      forall i, j | 0 <= i < j < |all| ensures FragmentIds(all)[i] != FragmentIds(all)[j] {
        if j < |before| {
          assert FragmentIds(before)[i] != FragmentIds(before)[j];
        } else {
          var k :| 0 <= k < n && front[k].id == before[i].id;
          assert pieces[k].id != pieces[n].id;
        }
      }
    }
  }

  lemma {:induction false} MarkersAreOfEntries(policy: Policy, es: seq<Entry>)
    requires Unique(EntryIds(es))
    ensures Unique(MarkerIds(Markers(policy, es)))
    ensures forall i | 0 <= i < |Markers(policy, es)| :: MarkerIds(Markers(policy, es))[i] in EntryIds(es)
    ensures forall i | 0 <= i < |Markers(policy, es)| ::
              var m := Markers(policy, es)[i]; m.text != "" && m.reasons != {} && m.sources != []
  {
    if es != [] {
      var n := |es| - 1;
      var front, all := es[..n], Markers(policy, es);
      UniqueFront(es);
      MarkersAreOfEntries(policy, front);
      var before := Markers(policy, front);
      DistinctKeepsSome([policy.config] + es[n].sources);
      forall i | 0 <= i < |all| ensures MarkerIds(all)[i] in EntryIds(es) {
        if i < |before| {
          assert MarkerIds(before)[i] in EntryIds(front);
          var k :| 0 <= k < n && EntryIds(front)[k] == MarkerIds(before)[i];
          assert EntryIds(es)[k] == MarkerIds(all)[i];
        } else {
          assert EntryIds(es)[n] == MarkerIds(all)[i];
        }
      }
      forall i, j | 0 <= i < j < |all| ensures MarkerIds(all)[i] != MarkerIds(all)[j] {
        if j < |before| {
          assert MarkerIds(before)[i] != MarkerIds(before)[j];
        } else {
          assert MarkerIds(before)[i] in EntryIds(front);
        }
      }
    }
  }

  lemma {:induction false} DistinctKeepsSome(sources: seq<Source>)
    requires sources != []
    ensures Distinct(sources) != []
  {
  }

  lemma {:induction false} HistoryPiecesValid(policy: Policy, es: seq<Entry>, separator: string)
    requires forall i | 0 <= i < |es| :: ValidEntry(es[i])
    ensures forall k | 0 <= k < |HistoryPieces(policy, es, separator)| :: ValidPiece(HistoryPieces(policy, es, separator)[k])
  {
    if es != [] {
      var n := |es| - 1;
      HistoryPiecesValid(policy, es[..n], separator);
      DistinctKeepsSome([policy.config] + es[n].sources);
    }
  }

  lemma {:induction false} TilesReadsBack(text: string, fragments: seq<Fragment>)
    requires Tiles(text, fragments)
    ensures ReadsBack(text, fragments)
  {
  }

  /** For distinct entries the annotated history always passes its own validator. */
  lemma {:induction false} AnnotatedIsValid(policy: Policy, es: seq<Entry>, separator: string)
    requires Unique(EntryIds(es)) && forall i | 0 <= i < |es| :: ValidEntry(es[i])
    ensures Annotated(policy, es, separator).Ok? && ValidHistory(Annotated(policy, es, separator).value)
    ensures Tiles(Annotated(policy, es, separator).value.text, Annotated(policy, es, separator).value.fragments)
  {
    var pieces := HistoryPieces(policy, es, separator);
    PositionTiles(pieces);
    TilesReadsBack(TextOf(pieces), FragmentsOf(pieces));
    MarkersAreOfEntries(policy, es);
    HistoryPiecesValid(policy, es, separator);
    PositionValid(pieces);
    PieceIdsDiffer(policy, es, separator, pieces);
    FragmentIdsUnique(pieces);
  }

  // ---------------------------------------------------------------- the bodies come back

  /** A body with where it came from and how far it is trusted. */
  datatype Credit = Credit(text: string, sources: seq<Source>, trust: Trust)

  function CreditOf(f: Fragment): Credit {
    Credit(f.content, f.sources, f.trust)
  }

  function BodiesOf(fragments: seq<Fragment>): seq<Credit> {
    if fragments == [] then []
    else BodiesOf(fragments[..|fragments| - 1]) + (if fragments[|fragments| - 1].kind.Body? then [CreditOf(fragments[|fragments| - 1])] else [])
  }

  function BodyTexts(pieces: seq<Piece>): seq<Credit> {
    if pieces == [] then []
    else
      var p := pieces[|pieces| - 1];
      BodyTexts(pieces[..|pieces| - 1]) + (if p.kind.Body? && p.content != "" then [Credit(p.content, p.sources, p.trust)] else [])
  }

  function NonEmptyBodies(es: seq<Entry>): seq<Credit> {
    if es == [] then []
    else
      var e := es[|es| - 1];
      NonEmptyBodies(es[..|es| - 1]) + (if e.body == "" then [] else [Credit(e.body, e.sources, e.trust)])
  }

  lemma {:induction false} BodiesOfPieces(pieces: seq<Piece>)
    ensures BodiesOf(FragmentsOf(pieces)) == BodyTexts(pieces)
  {
    if pieces != [] {
      BodiesOfPieces(pieces[..|pieces| - 1]);
      var all := FragmentsOf(pieces);
      var before := FragmentsOf(pieces[..|pieces| - 1]);
      if pieces[|pieces| - 1].content == "" {
        assert all == before;
      } else {
        assert all[..|all| - 1] == before;
      }
    }
  }

  lemma {:induction false} BodyTextsConcat(a: seq<Piece>, b: seq<Piece>)
    ensures BodyTexts(a + b) == BodyTexts(a) + BodyTexts(b)
  {
    if b == [] {
      assert a + b == a;
    } else {
      assert (a + b)[..|a + b| - 1] == a + b[..|b| - 1];
      BodyTextsConcat(a, b[..|b| - 1]);
    }
  }

  lemma {:induction false} OneBody(policy: Policy, first: bool, marked: bool, e: Entry, separator: string)
    ensures BodyTexts(EntryPieces(policy, first, marked, e, separator)) == if e.body == "" then [] else [Credit(e.body, e.sources, e.trust)]
  {
    var head := (if first then [] else [SeparatorPiece(e, separator)]) + (if marked then MarkerPieces(policy, e) else []);
    NoBodies(head);
    LastBody(head, BodyPiece(e));
  }

  lemma {:induction false} LastBody(head: seq<Piece>, body: Piece)
    requires BodyTexts(head) == [] && body.kind.Body?
    ensures BodyTexts(head + [body]) == if body.content == "" then [] else [Credit(body.content, body.sources, body.trust)]
  {
    assert (head + [body])[..|head|] == head;
  }

  lemma {:induction false} NoBodies(pieces: seq<Piece>)
    requires forall i | 0 <= i < |pieces| :: !pieces[i].kind.Body?
    ensures BodyTexts(pieces) == []
  {
    if pieces != [] {
      NoBodies(pieces[..|pieces| - 1]);
    }
  }

  /** The BODY fragments are the non-empty bodies of the entries, in order, each with the sources
      and the trust of its own entry. */
  lemma {:induction false} BodiesComeBack(policy: Policy, es: seq<Entry>, separator: string)
    ensures BodiesOf(FragmentsOf(HistoryPieces(policy, es, separator))) == NonEmptyBodies(es)
  {
    BodiesOfPieces(HistoryPieces(policy, es, separator));
    BodyTextsOfHistory(policy, es, separator);
  }

  lemma {:induction false} BodyTextsOfHistory(policy: Policy, es: seq<Entry>, separator: string)
    ensures BodyTexts(HistoryPieces(policy, es, separator)) == NonEmptyBodies(es)
  {
    if es != [] {
      var n := |es| - 1;
      var front, e := es[..n], es[n];
      var marked := Reasons(policy, Last(front), LastMarked(policy, front), e) != {};
      BodyTextsOfHistory(policy, front, separator);
      OneBody(policy, front == [], marked, e, separator);
      BodyTextsConcat(HistoryPieces(policy, front, separator), EntryPieces(policy, front == [], marked, e, separator));
    }
  }
}
