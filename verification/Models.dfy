/** The frozen domain values of `domain/models.py` and their validators. */
module Models {
  import opened Outcomes
  import opened SupersedesGraph

  /** SHA-256 is taken to be injective, so a digest carries the text it digests. */
  datatype Digest = Digest(text: string)

  datatype Role = User | Assistant

  datatype RawRecord = RawRecord(
    id: string, sequence: int, turn: string, role: Role, content: string, createdAt: int,
    stateId: string, configRevision: string, sha: Digest)

  predicate ValidRecord(r: RawRecord) {
    && r.sequence >= 1 && r.content != "" && r.stateId != ""
    && r.sha == Digest(r.content)
  }

  /** `RawRecord.create`: the digest is computed, every other value is the caller's. */
  function CreateRecord(id: string, sequence: int, turn: string, role: Role, content: string,
                        createdAt: int, stateId: string, configRevision: string): RawRecord {
    RawRecord(id, sequence, turn, role, content, createdAt, stateId, configRevision, Digest(content))
  }

  predicate UniqueIds(rs: seq<RawRecord>) {
    forall i, j | 0 <= i < j < |rs| :: rs[i].id != rs[j].id
  }

  /** What `read_all` demands of a whole log. */
  ghost predicate WellFormedLog(rs: seq<RawRecord>) {
    && (forall i | 0 <= i < |rs| :: ValidRecord(rs[i]) && rs[i].sequence == i + 1)
    && UniqueIds(rs)
    && (forall i, j | 0 <= i < j < |rs| :: rs[i].turn != rs[j].turn || rs[i].role != rs[j].role)
  }

  /** The dictionary `{item.record_id: item for item in records}`. */
  function ById(rs: seq<RawRecord>): map<string, RawRecord> {
    if rs == [] then map[] else ById(rs[..|rs| - 1])[rs[|rs| - 1].id := rs[|rs| - 1]]
  }

  lemma {:induction false} ByIdLookup(rs: seq<RawRecord>, id: string)
    ensures id in ById(rs) <==> exists i :: 0 <= i < |rs| && rs[i].id == id
    ensures id in ById(rs) ==> ById(rs)[id] in rs && ById(rs)[id].id == id
  {
    if rs != [] {
      var front := rs[..|rs| - 1];
      ByIdLookup(front, id);
      assert rs == front + [rs[|rs| - 1]];
      if i :| 0 <= i < |front| && front[i].id == id {
        assert rs[i].id == id;
      }
    }
  }

  lemma {:induction false} ByIdAt(rs: seq<RawRecord>, i: nat)
    requires UniqueIds(rs) && i < |rs|
    ensures rs[i].id in ById(rs) && ById(rs)[rs[i].id] == rs[i]
  {
    ByIdLookup(rs, rs[i].id);
  }

  /** uuid5 over the batch records is taken to be injective, as is uuid5 over a candidate. */
  datatype BatchId = BatchId(identity: seq<(string, Digest)>)
  datatype MemoryId = Assigned(name: string) | Derived(batch: BatchId, index: nat, text: string)

  datatype MemoryKind = UserKind | RuleKind | SelfKind | EventKind | ElseKind
  datatype MemoryStatus = Active | Superseded | Retracted
  datatype Relation = Supports | Corrects | Supersedes | ManualBasis
  datatype CreatedBy = MemoryCurator | Manual

  datatype SourceReference = SourceReference(recordId: string, relation: Relation, sha: Digest)

  datatype MemoryItem = MemoryItem(
    id: MemoryId, kind: MemoryKind, text: string, status: MemoryStatus,
    sources: seq<SourceReference>, createdBy: CreatedBy, createdAt: int, updatedAt: int,
    supersedes: seq<MemoryId>, tags: seq<string>)

  datatype CoverageSpan = CoverageSpan(
    start: int, end: int, batch: BatchId, ids: seq<string>, hashes: seq<Digest>)

  datatype Checkpoint = Checkpoint(
    frontier: int, lastBatch: Option<BatchId>, updatedAt: Option<int>, coveredIds: seq<string>)

  datatype Overview = Overview(revision: int, text: string, spans: seq<CoverageSpan>)

  datatype Document = Document(
    revision: int, curation: Checkpoint, overview: Overview, memories: seq<MemoryItem>)

  const EMPTY_DOCUMENT := Document(0, Checkpoint(0, None, None, []), Overview(0, "尚无已整理记录。", []), [])

  predicate ValidMemory(m: MemoryItem) {
    && 1 <= |m.text| <= 8192 && m.sources != []
    && m.createdAt <= m.updatedAt
    && m.id !in m.supersedes && Unique(m.supersedes) && Unique(m.tags)
  }

  predicate ValidSpan(s: CoverageSpan) {
    && 1 <= s.start <= s.end
    && |s.ids| == |s.hashes| == s.end - s.start + 1
    && Unique(s.ids)
  }

  predicate Contiguous(spans: seq<CoverageSpan>) {
    && (spans != [] ==> spans[0].start == 1)
    && (forall i, j | 0 <= i < |spans| && 0 <= j < |spans| && j == i + 1 :: spans[j].start == spans[i].end + 1)
  }

  function LastEnd(spans: seq<CoverageSpan>): int {
    if spans == [] then 0 else spans[|spans| - 1].end
  }

  function MemoryIds(ms: seq<MemoryItem>): seq<MemoryId> {
    seq(|ms|, i requires 0 <= i < |ms| => ms[i].id)
  }

  function IdSet(ms: seq<MemoryItem>): set<MemoryId> {
    set m | m in ms :: m.id
  }

  /** The dictionary filled by `graph[item.memory_id] = item.supersedes`. */
  function SupersedesOf(ms: seq<MemoryItem>): Graph<MemoryId> {
    if ms == [] then map[]
    else SupersedesOf(ms[..|ms| - 1])[ms[|ms| - 1].id := ms[|ms| - 1].supersedes]
  }

  lemma {:induction false} SupersedesOfKeys(ms: seq<MemoryItem>)
    ensures SupersedesOf(ms).Keys == IdSet(ms)
    ensures Unique(MemoryIds(ms)) ==>
              forall i | 0 <= i < |ms| :: SupersedesOf(ms)[ms[i].id] == ms[i].supersedes
  {
    if ms != [] {
      var n := |ms| - 1;
      SupersedesOfKeys(ms[..n]);
      assert ms == ms[..n] + [ms[n]];
      assert IdSet(ms) == IdSet(ms[..n]) + {ms[n].id};
      assert forall i | 0 <= i < n :: ms[..n][i] == ms[i];
      if Unique(MemoryIds(ms)) {
        forall i, j | 0 <= i < j < n ensures MemoryIds(ms[..n])[i] != MemoryIds(ms[..n])[j] {
          assert MemoryIds(ms)[i] != MemoryIds(ms)[j];
        }
        forall i | 0 <= i < n ensures ms[i].id != ms[n].id {
          assert MemoryIds(ms)[i] != MemoryIds(ms)[n];
        }
      }
    }
  }

  lemma {:induction false} NodesAreIds(ms: seq<MemoryItem>)
    ensures forall n :: n in SupersedesOf(ms) <==> n in MemoryIds(ms)
  {
    SupersedesOfKeys(ms);
    forall n ensures n in IdSet(ms) <==> n in MemoryIds(ms) {
      if n in IdSet(ms) {
        var i :| 0 <= i < |ms| && ms[i].id == n;
        assert MemoryIds(ms)[i] == n;
      }
    }
  }

  predicate TargetsKnown(ms: seq<MemoryItem>, ids: set<MemoryId>) {
    forall i | 0 <= i < |ms| :: forall t | t in ms[i].supersedes :: t in ids
  }

  lemma {:induction false} GraphIsClosed(ms: seq<MemoryItem>)
    requires Unique(MemoryIds(ms)) && TargetsKnown(ms, IdSet(ms))
    ensures Closed(SupersedesOf(ms))
  {
    SupersedesOfKeys(ms);
  }

  /** Everything `LongTermMemoryDocument.model_validate` checks except the graph. */
  predicate ValidFields(d: Document) {
    && d.revision >= 0 && d.curation.frontier >= 0
    && d.overview.revision == d.revision && d.overview.text != ""
    && (forall i | 0 <= i < |d.overview.spans| :: ValidSpan(d.overview.spans[i]))
    && Contiguous(d.overview.spans)
    && LastEnd(d.overview.spans) == d.curation.frontier
    && (forall i | 0 <= i < |d.memories| :: ValidMemory(d.memories[i]))
    && Unique(MemoryIds(d.memories))
  }

  ghost predicate ValidDocument(d: Document) {
    && ValidFields(d)
    && TargetsKnown(d.memories, IdSet(d.memories))
    && Acyclic(SupersedesOf(d.memories))
  }

  /** `validate_document`: for any items in any order, acceptance is exactly the
      declarative validity, with acyclicity decided by the walk of SupersedesGraph. */
  method ValidateDocument(d: Document) returns (ok: bool)
    ensures ok <==> ValidDocument(d)
  {
    if !ValidFields(d) {
      return false;
    }
    var ids := IdSet(d.memories);
    var graph: Graph<MemoryId> := map[];
    for i := 0 to |d.memories|
      invariant graph == SupersedesOf(d.memories[..i])
      invariant TargetsKnown(d.memories[..i], ids)
    {
      var m := d.memories[i];
      if exists t | t in m.supersedes :: t !in ids {
        return false;
      }
      graph := graph[m.id := m.supersedes];
      assert d.memories[..i + 1] == d.memories[..i] + [m];
    }
    assert d.memories[..|d.memories|] == d.memories;
    GraphIsClosed(d.memories);
    NodesAreIds(d.memories);
    ok := NoCycle(graph, MemoryIds(d.memories));
  }
}
