/** `memory/archive.py`: the segmented, append-only raw log. */
module RawArchive {
  import opened Outcomes
  import opened Models
  import opened Storage

  // ---------------------------------------------------------------- reading

  /** One line of `read_all`, after the lines before it gave `acc`. */
  function ScanLine(acc: Outcome<seq<RawRecord>>, line: Line): (r: Outcome<seq<RawRecord>>)
    ensures !acc.Crashed? ==> !r.Crashed?
  {
    if !acc.Ok? then acc
    else if line.Garbage? || !ValidRecord(line.record) then Err("RAW_SEGMENT_INVALID")
    else if line.record.sequence != |acc.value| + 1 then Err("RAW_SEQUENCE_GAP")
    else if exists r | r in acc.value ::
              r.id == line.record.id || (r.turn == line.record.turn && r.role == line.record.role)
      then Err("RAW_SEGMENT_INVALID")
    else Ok(acc.value + [line.record])
  }

  function ScanLines(acc: Outcome<seq<RawRecord>>, lines: seq<Line>): (r: Outcome<seq<RawRecord>>)
    ensures !acc.Crashed? ==> !r.Crashed?
  {
    if lines == [] then acc
    else ScanLine(ScanLines(acc, lines[..|lines| - 1]), lines[|lines| - 1])
  }

  function ScanSegment(acc: Outcome<seq<RawRecord>>, expected: nat, s: Segment): Outcome<seq<RawRecord>> {
    if !acc.Ok? then acc
    else if s.number != expected || !s.terminated then Err("RAW_SEGMENT_INVALID")
    else ScanLines(acc, s.lines)
  }

  /** `read_all` over the segment files in name order. */
  function ReadSegments(segs: seq<Segment>): (r: Outcome<seq<RawRecord>>)
    ensures !r.Crashed?
  {
    if segs == [] then Ok([])
    else ScanSegment(ReadSegments(segs[..|segs| - 1]), |segs|, segs[|segs| - 1])
  }

  function FlatLines(segs: seq<Segment>): seq<Line> {
    if segs == [] then [] else FlatLines(segs[..|segs| - 1]) + segs[|segs| - 1].lines
  }

  function StoredLines(rs: seq<RawRecord>): seq<Line> {
    seq(|rs|, i requires 0 <= i < |rs| => Stored(rs[i]))
  }

  lemma {:induction false} ScanLinesSound(rs: seq<RawRecord>, lines: seq<Line>)
    requires WellFormedLog(rs)
    ensures var r := ScanLines(Ok(rs), lines);
            if r.Ok? then rs <= r.value && WellFormedLog(r.value)
                          && StoredLines(r.value) == StoredLines(rs) + lines
            else r.Err?
  {
    if lines != [] {
      var n := |lines| - 1;
      ScanLinesSound(rs, lines[..n]);
      assert lines == lines[..n] + [lines[n]];
      var front := ScanLines(Ok(rs), lines[..n]);
      var all := ScanLines(Ok(rs), lines);
      if all.Ok? {
        assert all.value == front.value + [lines[n].record];
        assert StoredLines(all.value) == StoredLines(front.value) + [lines[n]];
      }
    }
  }

  lemma {:induction false} ScanLinesComplete(all: seq<RawRecord>, k: nat, lines: seq<Line>)
    requires WellFormedLog(all) && k <= |all|
    requires lines == StoredLines(all)[k..]
    ensures ScanLines(Ok(all[..k]), lines) == Ok(all)
  {
    if lines == [] {
      assert all[..k] == all;
    } else {
      var n := |all| - 1;
      var init := all[..n];
      assert all == init + [all[n]];
      assert StoredLines(init)[k..] == lines[..|lines| - 1];
      assert all[..k] == init[..k];
      ScanLinesComplete(init, k, lines[..|lines| - 1]);
    }
  }

  ghost predicate GoodSegments(segs: seq<Segment>) {
    forall i | 0 <= i < |segs| :: segs[i].number == i + 1 && segs[i].terminated
  }

  /** The log a directory holds, declaratively: every segment in place and complete, and
      the concatenated lines are the lines of one well-formed log. */
  ghost predicate HoldsLog(segs: seq<Segment>, rs: seq<RawRecord>) {
    GoodSegments(segs) && WellFormedLog(rs) && FlatLines(segs) == StoredLines(rs)
  }

  lemma {:induction false} ReadSegmentsSound(segs: seq<Segment>)
    ensures var r := ReadSegments(segs); if r.Ok? then HoldsLog(segs, r.value) else r.Err?
  {
    if segs != [] {
      ReadSegmentsSound(segs[..|segs| - 1]);
      var front := ReadSegments(segs[..|segs| - 1]);
      if front.Ok? {
        ScanLinesSound(front.value, segs[|segs| - 1].lines);
      }
    }
  }

  lemma {:induction false} ReadSegmentsComplete(segs: seq<Segment>, rs: seq<RawRecord>)
    requires HoldsLog(segs, rs)
    ensures ReadSegments(segs) == Ok(rs)
  {
    if segs != [] {
      var n := |segs| - 1;
      var k := |FlatLines(segs[..n])|;
      assert StoredLines(rs[..k]) == StoredLines(rs)[..k] == FlatLines(segs[..n]);
      ReadSegmentsComplete(segs[..n], rs[..k]);
      assert segs[n].lines == StoredLines(rs)[k..];
      ScanLinesComplete(rs, k, segs[n].lines);
    }
  }

  /** `read_all` accepts exactly the directories that hold a well-formed log, and
      returns that log. */
  lemma {:induction false} ReadAllIff(segs: seq<Segment>, rs: seq<RawRecord>)
    ensures ReadSegments(segs) == Ok(rs) <==> HoldsLog(segs, rs)
  {
    ReadSegmentsSound(segs);
    if HoldsLog(segs, rs) {
      ReadSegmentsComplete(segs, rs);
    }
  }

  // ---------------------------------------------------------------- appending

  function SegmentBytes(cfg: Settings, lines: seq<Line>): nat {
    if lines == [] then 0
    else SegmentBytes(cfg, lines[..|lines| - 1])
         + (if lines[|lines| - 1].Stored? then cfg.lineBytes(lines[|lines| - 1].record) else 0)
  }

  /** The segment files after one more line: the last file, or a new one when it is full. */
  function AppendSegments(cfg: Settings, segs: seq<Segment>, r: RawRecord): seq<Segment> {
    if segs == [] then [Segment(1, [Stored(r)], true)]
    else
      var last := segs[|segs| - 1];
      if |last.lines| >= cfg.segmentMaxRecords
         || SegmentBytes(cfg, last.lines) + cfg.lineBytes(r) > cfg.segmentMaxBytes
      then segs + [Segment(|segs| + 1, [Stored(r)], true)]
      else segs[..|segs| - 1] + [last.(lines := last.lines + [Stored(r)])]
  }

  predicate WithinLimits(cfg: Settings, segs: seq<Segment>) {
    forall i | 0 <= i < |segs| ::
      |segs[i].lines| <= cfg.segmentMaxRecords && SegmentBytes(cfg, segs[i].lines) <= cfg.segmentMaxBytes
  }

  predicate OnlyLastEmpty(segs: seq<Segment>) {
    forall i | 0 <= i < |segs| - 1 :: segs[i].lines != []
  }

  predicate Fresh(rs: seq<RawRecord>, r: RawRecord) {
    forall x | x in rs :: x.id != r.id && (x.turn != r.turn || x.role != r.role)
  }

  lemma {:induction false} AppendReads(cfg: Settings, segs: seq<Segment>, rs: seq<RawRecord>, r: RawRecord)
    requires ReadSegments(segs) == Ok(rs)
    requires ValidRecord(r) && r.sequence == |rs| + 1 && Fresh(rs, r)
    ensures ReadSegments(AppendSegments(cfg, segs, r)) == Ok(rs + [r])
  {
    var next := AppendSegments(cfg, segs, r);
    var n := |next| - 1;
    if n < |segs| {
      assert next[..n] == segs[..n];
      assert next[n].lines[..|next[n].lines| - 1] == segs[n].lines;
    } else {
      assert next[..n] == segs;
      assert ScanLines(Ok(rs), []) == Ok(rs);
      assert next[n].lines[..0] == [];
    }
  }

  /** Appending keeps every file within the configured limits and keeps empty files at the end. */
  lemma {:induction false} AppendKeepsLimits(cfg: Settings, segs: seq<Segment>, r: RawRecord)
    requires ValidSettings(cfg) && cfg.lineBytes(r) <= cfg.maxRecordBytes
    requires WithinLimits(cfg, segs) && OnlyLastEmpty(segs)
    ensures var next := AppendSegments(cfg, segs, r);
            WithinLimits(cfg, next) && OnlyLastEmpty(next) && next[|next| - 1].lines != []
  {
    var next := AppendSegments(cfg, segs, r);
    var n := |next| - 1;
    var lines := next[n].lines;
    assert lines[..|lines| - 1] == if n < |segs| then segs[n].lines else [];
    forall i | 0 <= i < n ensures next[i] == segs[i] {}
  }

  /** `discard_pending_tail`'s write: the last line of the last file goes, the file stays. */
  function DropLastLine(segs: seq<Segment>): seq<Segment>
    requires segs != [] && segs[|segs| - 1].lines != []
  {
    var last := segs[|segs| - 1];
    segs[..|segs| - 1] + [last.(lines := last.lines[..|last.lines| - 1])]
  }

  lemma {:induction false} DropLastLineReads(segs: seq<Segment>, rs: seq<RawRecord>)
    requires ReadSegments(segs) == Ok(rs) && segs != [] && segs[|segs| - 1].lines != []
    ensures rs != [] && segs[|segs| - 1].lines[|segs[|segs| - 1].lines| - 1] == Stored(rs[|rs| - 1])
    ensures ReadSegments(DropLastLine(segs)) == Ok(rs[..|rs| - 1])
  {
    var n := |segs| - 1;
    var next, front := DropLastLine(segs), ReadSegments(segs[..n]);
    assert front.Ok? && ReadSegments(segs) == ScanLines(front, segs[n].lines);
    LastLine(front, segs[n].lines, rs);
    assert next[..n] == segs[..n] && next[n].lines == segs[n].lines[..|segs[n].lines| - 1];
  }

  lemma {:induction false} LastLine(acc: Outcome<seq<RawRecord>>, lines: seq<Line>, rs: seq<RawRecord>)
    requires lines != [] && ScanLines(acc, lines) == Ok(rs)
    ensures rs != [] && lines[|lines| - 1] == Stored(rs[|rs| - 1])
    ensures ScanLines(acc, lines[..|lines| - 1]) == Ok(rs[..|rs| - 1])
  {
    var before := ScanLines(acc, lines[..|lines| - 1]);
    assert ScanLine(before, lines[|lines| - 1]) == Ok(rs);
  }

  lemma {:induction false} DropLastLineKeepsLimits(cfg: Settings, segs: seq<Segment>)
    requires segs != [] && segs[|segs| - 1].lines != []
    ensures WithinLimits(cfg, segs) ==> WithinLimits(cfg, DropLastLine(segs))
    ensures OnlyLastEmpty(segs) ==> OnlyLastEmpty(DropLastLine(segs))
  {
    var lines := segs[|segs| - 1].lines;
    assert SegmentBytes(cfg, lines[..|lines| - 1]) <= SegmentBytes(cfg, lines);
  }

  /** Discarding a just appended record gives back the flat log. */
  lemma {:induction false} DiscardUndoesAppend(cfg: Settings, segs: seq<Segment>, rs: seq<RawRecord>, r: RawRecord)
    requires ReadSegments(segs) == Ok(rs)
    requires ValidRecord(r) && r.sequence == |rs| + 1 && Fresh(rs, r)
    ensures var next := AppendSegments(cfg, segs, r);
            next[|next| - 1].lines != [] && ReadSegments(DropLastLine(next)) == Ok(rs)
  {
    AppendReads(cfg, segs, rs, r);
    DropLastLineReads(AppendSegments(cfg, segs, r), rs + [r]);
    assert (rs + [r])[..|rs|] == rs;
  }

  /** `clear` deletes from the newest file back, so whatever is left is a readable prefix. */
  lemma {:induction false} PrefixReads(segs: seq<Segment>, rs: seq<RawRecord>, k: nat)
    requires ReadSegments(segs) == Ok(rs) && k <= |segs|
    ensures ReadSegments(segs[..k]).Ok? && ReadSegments(segs[..k]).value <= rs
  {
    if k == |segs| {
      assert segs[..k] == segs;
    } else {
      var n := |segs| - 1;
      var front := ReadSegments(segs[..n]);
      ReadSegmentsSound(segs[..n]);
      ScanLinesSound(front.value, segs[n].lines);
      PrefixReads(segs[..n], front.value, k);
      assert segs[..n][..k] == segs[..k];
    }
  }

  // ---------------------------------------------------------------- operations

  /** The records `identity_hash` digests. */
  function Identity(rs: seq<RawRecord>): seq<(string, Digest)> {
    seq(|rs|, i requires 0 <= i < |rs| => (rs[i].id, rs[i].sha))
  }

  function Renumbered(r: RawRecord, sequence: int): RawRecord {
    CreateRecord(r.id, sequence, r.turn, r.role, r.content, r.createdAt, r.stateId, r.configRevision)
  }

  function AppendTrace(cfg: Settings, s: DiskState, draft: RawRecord): (t: Trace<RawRecord>)
    ensures !t.outcome.Crashed?
  {
    if !cfg.safe(draft.content) then Trace([], Err("CREDENTIAL_REJECTED")) else
    var read := ReadSegments(s.segments);
    if !read.Ok? then Trace([], read.PropagateFailure()) else
    if exists x | x in read.value :: x.turn == draft.turn && x.role == draft.role
      then Trace([], Err("TURN_ROLE_DUPLICATE")) else
    var r := Renumbered(draft, |read.value| + 1);
    if !ValidRecord(r) then Trace([], Err("VALIDATION_ERROR")) else
    if cfg.lineBytes(r) > cfg.maxRecordBytes then Trace([], Err("RAW_RECORD_TOO_LARGE")) else
    Trace([s.(segments := AppendSegments(cfg, s.segments, r))], Ok(r))
  }

  /** A log starts with a USER, roles alternate, and an ASSISTANT answers the turn of the
      USER before it: whole turns and at most one unanswered USER at the end. */
  predicate LogShape(rs: seq<RawRecord>) {
    && (rs != [] ==> rs[0].role == User)
    && (forall i, j | 0 <= i < |rs| && 0 <= j < |rs| && j == i + 1 ::
          rs[i].role != rs[j].role && (rs[i].role == User ==> rs[i].turn == rs[j].turn))
  }

  /** Position `f` lies between two whole turns. */
  predicate AtTurnBoundary(rs: seq<RawRecord>, f: int) {
    0 <= f <= |rs| && (f == 0 || rs[f - 1].role == Assistant)
  }

  predicate CompletePairs(rs: seq<RawRecord>) {
    LogShape(rs) && AtTurnBoundary(rs, |rs|)
  }

  /** Records 2k and 2k+1 of a turn-shaped log are the halves of one turn. */
  lemma {:induction false} TurnAt(rs: seq<RawRecord>, k: nat)
    requires LogShape(rs) && 2 * k < |rs|
    ensures rs[2 * k].role == User
    ensures 2 * k + 1 < |rs| ==> rs[2 * k + 1].role == Assistant && rs[2 * k].turn == rs[2 * k + 1].turn
  {
    if k > 0 {
      TurnAt(rs, k - 1);
    }
  }

  /** The pairwise reading of the check in `discard_pending_tail`. */
  lemma {:induction false} PairsIff(rs: seq<RawRecord>)
    ensures CompletePairs(rs) <==>
            |rs| % 2 == 0 && forall k | 0 <= k < |rs| / 2 ::
              rs[2 * k].role == User && rs[2 * k + 1].role == Assistant && rs[2 * k].turn == rs[2 * k + 1].turn
  {
    if CompletePairs(rs) {
      if |rs| % 2 == 1 {
        TurnAt(rs, |rs| / 2);
      }
      forall k | 0 <= k < |rs| / 2
        ensures rs[2 * k].role == User && rs[2 * k + 1].role == Assistant && rs[2 * k].turn == rs[2 * k + 1].turn
      {
        TurnAt(rs, k);
      }
    } else if |rs| % 2 == 0 && forall k | 0 <= k < |rs| / 2 ::
      rs[2 * k].role == User && rs[2 * k + 1].role == Assistant && rs[2 * k].turn == rs[2 * k + 1].turn
    {
      forall i | 0 <= i < |rs| ensures rs[i].role == (if i % 2 == 0 then User else Assistant) {
        assert rs[2 * (i / 2)].role == User && rs[2 * (i / 2) + 1].role == Assistant;
      }
      forall i, j | 0 <= i < |rs| && 0 <= j < |rs| && j == i + 1 && rs[i].role == User ensures rs[i].turn == rs[j].turn {
        assert rs[2 * (i / 2)].turn == rs[2 * (i / 2) + 1].turn;
      }
      assert false;
    }
  }

  function PendingOf(rs: seq<RawRecord>): Option<RawRecord> {
    if rs != [] && rs[|rs| - 1].role == User then Some(rs[|rs| - 1]) else None
  }

  function DiscardTrace(s: DiskState, expected: Option<string>): Trace<Option<string>> {
    var read := ReadSegments(s.segments);
    if !read.Ok? then Trace([], read.PropagateFailure()) else
    var rs := read.value;
    if rs == [] || rs[|rs| - 1].role != User then
      Trace([], if expected.Some? then Err("RAW_PENDING_CONFLICT") else Ok(None))
    else
    var pending := rs[|rs| - 1];
    var prefix := rs[..|rs| - 1];
    if expected.Some? && expected.value != pending.turn then Trace([], Err("RAW_PENDING_CONFLICT")) else
    if !CompletePairs(prefix) then Trace([], Err("RAW_PENDING_INVALID")) else
    if exists x | x in prefix :: x.turn == pending.turn then Trace([], Err("RAW_PENDING_INVALID")) else
    CutTrace(s, pending.turn)
  }

  function CutTrace(s: DiskState, turn: string): Trace<Option<string>> {
    if s.segments == [] || s.segments[|s.segments| - 1].lines == [] then Trace([], Err("RAW_PENDING_INVALID"))
    else Trace([s.(segments := DropLastLine(s.segments))], Ok(Some(turn)))
  }

  function AppendPendingTrace(cfg: Settings, s: DiskState, user: RawRecord, baseline: seq<(string, Digest)>): (t: Trace<RawRecord>)
    ensures !t.outcome.Crashed?
  {
    var read := ReadSegments(s.segments);
    if !read.Ok? then Trace([], read.PropagateFailure()) else
    var byId := ById(read.value);
    if user.id in byId then
      var existing := byId[user.id];
      Trace([], if existing.role != User || existing.turn != user.turn || existing.sha != user.sha
                then Err("TURN_TRANSACTION_CONFLICT") else Ok(existing))
    else if Identity(read.value) != baseline then Trace([], Err("TURN_TRANSACTION_CONFLICT"))
    else AppendTrace(cfg, s, user.(role := User))
  }

  /** The ASSISTANT half of `append_complete_turn`, once its USER is published. */
  function AppendAnswerTrace(cfg: Settings, s: DiskState, user: RawRecord, assistant: RawRecord): (t: Trace<RawRecord>)
    ensures !t.outcome.Crashed?
  {
    var read := ReadSegments(s.segments);
    if !read.Ok? then Trace([], read.PropagateFailure()) else
    var rs := read.value;
    if assistant.id in ById(rs) then
      var existing := ById(rs)[assistant.id];
      Trace([], if existing.role != Assistant || existing.sha != assistant.sha
                then Err("TURN_TRANSACTION_CONFLICT") else Ok(existing))
    else if rs == [] || rs[|rs| - 1].id != user.id then Trace([], Err("TURN_TRANSACTION_CONFLICT"))
    else AppendTrace(cfg, s, assistant.(role := Assistant))
  }

  function PublishUserTrace(cfg: Settings, s: DiskState, user: RawRecord, baseline: seq<(string, Digest)>): (t: Trace<RawRecord>)
    ensures !t.outcome.Crashed?
  {
    var read := ReadSegments(s.segments);
    if !read.Ok? then Trace([], read.PropagateFailure()) else
    if user.id in ById(read.value) then
      var existing := ById(read.value)[user.id];
      Trace([], if existing.role != User || existing.sha != user.sha
                then Err("TURN_TRANSACTION_CONFLICT") else Ok(existing))
    else if Identity(read.value) != baseline then Trace([], Err("TURN_TRANSACTION_CONFLICT"))
    else AppendTrace(cfg, s, user.(role := User))
  }

  function AppendTurnTrace(cfg: Settings, s: DiskState, user: RawRecord, assistant: RawRecord,
                           baseline: seq<(string, Digest)>): (t: Trace<RawRecord>)
    ensures !t.outcome.Crashed?
  {
    var first := PublishUserTrace(cfg, s, user, baseline);
    if !first.outcome.Ok? then first
    else Then(first, AppendAnswerTrace(cfg, End(s, first), first.outcome.value, assistant))
  }

  /** `clear`: one unlink per segment file, newest first. */
  function ClearTrace(s: DiskState): Trace<()> {
    Trace(seq(|s.segments|, i requires 0 <= i < |s.segments| => s.(segments := s.segments[..|s.segments| - 1 - i])), Ok(()))
  }

  function SeenIds(rs: seq<RawRecord>): set<string> {
    set x | x in rs :: x.id
  }

  function SeenRoles(rs: seq<RawRecord>): set<(string, Role)> {
    set x | x in rs :: (x.turn, x.role)
  }

  /** The three checks `read_all` makes of one line, with its counter and its sets. */
  function LineError(line: Line, expectedSequence: int, seenIds: set<string>, turnRoles: set<(string, Role)>): string {
    if line.Garbage? || !ValidRecord(line.record) then "RAW_SEGMENT_INVALID"
    else if line.record.sequence != expectedSequence then "RAW_SEQUENCE_GAP"
    else if line.record.id in seenIds || (line.record.turn, line.record.role) in turnRoles then "RAW_SEGMENT_INVALID"
    else ""
  }

  class RawRecordArchive {
    const cfg: Settings
    const disk: Disk

    constructor (cfg: Settings, disk: Disk)
      ensures this.cfg == cfg && this.disk == disk
    {
      this.cfg := cfg;
      this.disk := disk;
    }

    /** The loops of `read_all` with their counter and their two sets. */
    method ReadAll() returns (r: Outcome<seq<RawRecord>>)
      ensures r == ReadSegments(disk.segments)
    {
      var segs := disk.segments;
      var records: seq<RawRecord> := [];
      var seenIds: set<string> := {};
      var turnRoles: set<(string, Role)> := {};
      for i := 0 to |segs|
        invariant ReadSegments(segs[..i]) == Ok(records)
        invariant seenIds == SeenIds(records) && turnRoles == SeenRoles(records)
      {
        assert segs[..i + 1][..i] == segs[..i];
        ghost var before := records;
        if segs[i].number != i + 1 || !segs[i].terminated {
          r := Err("RAW_SEGMENT_INVALID");
        } else {
          r, seenIds, turnRoles := ReadLines(records, segs[i].lines, seenIds, turnRoles);
        }
        if !r.Ok? {
          assert r == ScanSegment(Ok(before), i + 1, segs[i]);
          ReadPrefixFails(segs, i + 1);
          return;
        }
        records := r.value;
      }
      assert segs[..|segs|] == segs;
      return Ok(records);
    }

    /** The lines of one segment file, after the records before it. */
    static method ReadLines(before: seq<RawRecord>, lines: seq<Line>, ids: set<string>, roles: set<(string, Role)>)
      returns (r: Outcome<seq<RawRecord>>, seenIds: set<string>, turnRoles: set<(string, Role)>)
      requires ids == SeenIds(before) && roles == SeenRoles(before)
      ensures r == ScanLines(Ok(before), lines)
      ensures r.Ok? ==> seenIds == SeenIds(r.value) && turnRoles == SeenRoles(r.value)
    {
      seenIds, turnRoles := ids, roles;
      var records := before;
      var expectedSequence := |before| + 1;
      for j := 0 to |lines|
        invariant ScanLines(Ok(before), lines[..j]) == Ok(records)
        invariant expectedSequence == |records| + 1
        invariant seenIds == SeenIds(records) && turnRoles == SeenRoles(records)
      {
        assert lines[..j + 1][..j] == lines[..j];
        var e := LineError(lines[j], expectedSequence, seenIds, turnRoles);
        if e != "" {
          ScanPrefixFails(Ok(before), lines, j + 1);
          return Err(e), seenIds, turnRoles;
        }
        var record := lines[j].record;
        seenIds := seenIds + {record.id};
        turnRoles := turnRoles + {(record.turn, record.role)};
        records := records + [record];
        expectedSequence := expectedSequence + 1;
      }
      assert lines[..|lines|] == lines;
      return Ok(records), seenIds, turnRoles;
    }

    method Append(draft: RawRecord) returns (r: Outcome<RawRecord>)
      modifies disk
      ensures Follows(old(disk.State()), old(disk.fuse), AppendTrace(cfg, old(disk.State()), draft), disk.State(), disk.fuse, r)
    {
      if !cfg.safe(draft.content) {
        return Err("CREDENTIAL_REJECTED");
      }
      var records :- ReadAll();
      if exists x | x in records :: x.turn == draft.turn && x.role == draft.role {
        return Err("TURN_ROLE_DUPLICATE");
      }
      var record := Renumbered(draft, |records| + 1);
      if !ValidRecord(record) {
        return Err("VALIDATION_ERROR");
      }
      if cfg.lineBytes(record) > cfg.maxRecordBytes {
        return Err("RAW_RECORD_TOO_LARGE");
      }
      var _ :- disk.Step(disk.State().(segments := AppendSegments(cfg, disk.segments, record)));
      return Ok(record);
    }

    static method CheckPairs(prefix: seq<RawRecord>) returns (ok: bool)
      ensures ok <==> CompletePairs(prefix)
    {
      PairsIff(prefix);
      if |prefix| % 2 != 0 {
        return false;
      }
      var k := 0;
      while k < |prefix| / 2
        invariant 0 <= k <= |prefix| / 2
        invariant forall i | 0 <= i < k ::
          prefix[2 * i].role == User && prefix[2 * i + 1].role == Assistant && prefix[2 * i].turn == prefix[2 * i + 1].turn
      {
        var user, assistant := prefix[2 * k], prefix[2 * k + 1];
        if user.role != User || assistant.role != Assistant || user.turn != assistant.turn {
          return false;
        }
        k := k + 1;
      }
      return true;
    }

    method DiscardPendingTail(expected: Option<string>) returns (r: Outcome<Option<string>>)
      modifies disk
      ensures Follows(old(disk.State()), old(disk.fuse), DiscardTrace(old(disk.State()), expected), disk.State(), disk.fuse, r)
    {
      var records :- ReadAll();
      if records == [] || records[|records| - 1].role != User {
        return if expected.Some? then Err("RAW_PENDING_CONFLICT") else Ok(None);
      }
      var pending := records[|records| - 1];
      if expected.Some? && expected.value != pending.turn {
        return Err("RAW_PENDING_CONFLICT");
      }
      var prefix := records[..|records| - 1];
      var paired := CheckPairs(prefix);
      if !paired {
        return Err("RAW_PENDING_INVALID");
      }
      if exists x | x in prefix :: x.turn == pending.turn {
        return Err("RAW_PENDING_INVALID");
      }
      r := CutTail(pending);
    }

    /** The write of `discard_pending_tail`, with its re-reading of the last stored line. */
    method CutTail(pending: RawRecord) returns (r: Outcome<Option<string>>)
      requires ReadSegments(disk.segments).Ok? && PendingOf(ReadSegments(disk.segments).value) == Some(pending)
      modifies disk
      ensures Follows(old(disk.State()), old(disk.fuse), CutTrace(old(disk.State()), pending.turn), disk.State(), disk.fuse, r)
    {
      var segs := disk.segments;
      if segs == [] || segs[|segs| - 1].lines == [] {
        return Err("RAW_PENDING_INVALID");
      }
      var lines := segs[|segs| - 1].lines;
      if lines[|lines| - 1] != Stored(pending) {
        DropLastLineReads(segs, ReadSegments(segs).value);
        assert false;
      }
      var _ :- disk.Step(disk.State().(segments := DropLastLine(segs)));
      return Ok(Some(pending.turn));
    }

    method AppendPendingUser(user: RawRecord, baseline: seq<(string, Digest)>) returns (r: Outcome<RawRecord>)
      modifies disk
      ensures Follows(old(disk.State()), old(disk.fuse), AppendPendingTrace(cfg, old(disk.State()), user, baseline), disk.State(), disk.fuse, r)
    {
      var records :- ReadAll();
      var byId := ById(records);
      if user.id in byId {
        var existing := byId[user.id];
        if existing.role != User || existing.turn != user.turn || existing.sha != user.sha {
          return Err("TURN_TRANSACTION_CONFLICT");
        }
        return Ok(existing);
      }
      if Identity(records) != baseline {
        return Err("TURN_TRANSACTION_CONFLICT");
      }
      r := Append(user.(role := User));
    }

    method AppendCompleteTurn(user: RawRecord, assistant: RawRecord, baseline: seq<(string, Digest)>) returns (r: Outcome<RawRecord>)
      modifies disk
      ensures Follows(old(disk.State()), old(disk.fuse), AppendTurnTrace(cfg, old(disk.State()), user, assistant, baseline), disk.State(), disk.fuse, r)
    {
      ghost var s, fuse := disk.State(), disk.fuse;
      ghost var first := PublishUserTrace(cfg, s, user, baseline);
      var records :- ReadAll();
      var byId := ById(records);
      var published: Outcome<RawRecord>;
      if user.id !in byId {
        if Identity(records) != baseline {
          return Err("TURN_TRANSACTION_CONFLICT");
        }
        published := Append(user.(role := User));
      } else if byId[user.id].role != User || byId[user.id].sha != user.sha {
        return Err("TURN_TRANSACTION_CONFLICT");
      } else {
        published := Ok(byId[user.id]);
      }
      ghost var s1, fuse1 := disk.State(), disk.fuse;
      assert Follows(s, fuse, first, s1, fuse1, published);
      var publishedUser :- published;
      r := AppendAnswer(publishedUser, assistant);
      FollowsThen(s, fuse, first, s1, fuse1, published,
                  AppendAnswerTrace(cfg, s1, publishedUser, assistant), disk.State(), disk.fuse, r);
    }

    method AppendAnswer(user: RawRecord, assistant: RawRecord) returns (r: Outcome<RawRecord>)
      modifies disk
      ensures Follows(old(disk.State()), old(disk.fuse), AppendAnswerTrace(cfg, old(disk.State()), user, assistant), disk.State(), disk.fuse, r)
    {
      var records :- ReadAll();
      var byId := ById(records);
      if assistant.id in byId {
        var existing := byId[assistant.id];
        if existing.role != Assistant || existing.sha != assistant.sha {
          return Err("TURN_TRANSACTION_CONFLICT");
        }
        return Ok(existing);
      }
      if records == [] || records[|records| - 1].id != user.id {
        return Err("TURN_TRANSACTION_CONFLICT");
      }
      r := Append(assistant.(role := Assistant));
    }

    method Clear() returns (r: Outcome<()>)
      modifies disk
      ensures Follows(old(disk.State()), old(disk.fuse), ClearTrace(old(disk.State())), disk.State(), disk.fuse, r)
    {
      ghost var s, fuse := disk.State(), disk.fuse;
      ghost var t := ClearTrace(s);
      var segs := disk.segments;
      for i := 0 to |segs|
        invariant i <= fuse && disk.fuse == fuse - i
        invariant disk.State() == s.(segments := segs[..|segs| - i])
      {
        assert segs[..|segs| - i][..|segs| - i - 1] == segs[..|segs| - i - 1];
        var step := disk.Step(disk.State().(segments := segs[..|segs| - i - 1]));
        if !step.Ok? {
          assert disk.State() == After(s, t, i);
          return step;
        }
      }
      assert segs[..0] == [];
      return Ok(());
    }
  }

  lemma {:induction false} ScanPrefixFails(acc: Outcome<seq<RawRecord>>, lines: seq<Line>, k: nat)
    requires k <= |lines| && !ScanLines(acc, lines[..k]).Ok?
    ensures ScanLines(acc, lines) == ScanLines(acc, lines[..k])
  {
    if k == |lines| {
      assert lines[..k] == lines;
    } else {
      assert lines[..|lines| - 1][..k] == lines[..k];
      ScanPrefixFails(acc, lines[..|lines| - 1], k);
    }
  }

  lemma {:induction false} ReadPrefixFails(segs: seq<Segment>, k: nat)
    requires k <= |segs| && !ReadSegments(segs[..k]).Ok?
    ensures ReadSegments(segs) == ReadSegments(segs[..k])
  {
    if k == |segs| {
      assert segs[..k] == segs;
    } else {
      assert segs[..|segs| - 1][..k] == segs[..k];
      ReadPrefixFails(segs[..|segs| - 1], k);
    }
  }
}
