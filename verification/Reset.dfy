/** `memory/reset.py`: the order in which a reset touches the two stores. */
module Reset {
  import opened Outcomes
  import opened Models
  import opened Storage
  import opened RawArchive
  import opened LongTerm

  function Ignoring<T>(t: Trace<T>): Trace<()> {
    Trace(t.writes, Ok(()))
  }

  function DocumentDone(t: Trace<Document>): Trace<()> {
    Trace(t.writes, MapOk(t.outcome, _ => ()))
  }

  /** The empty document first, then the segment files from the newest back. */
  ghost function EmptyTrace(cfg: Settings, s: DiskState): Trace<()> {
    var factory := FactoryTrace(cfg, s);
    Then(factory, ClearTrace(End(s, factory)))
  }

  /** `reset all`: a failed load of the old document is ignored. */
  ghost function ResetAllTrace(cfg: Settings, s: DiskState, now: int): Trace<()> {
    var init := Ignoring(InitializeTrace(cfg, s, now));
    Then(init, EmptyTrace(cfg, End(s, init)))
  }

  ghost function ResetLongTermTrace(cfg: Settings, s: DiskState, now: int): Trace<()> {
    var read := ReadSegments(s.segments);
    if !read.Ok? then Trace([], Err(read.code))
    else
      var init := InitializeTrace(cfg, s, now);
      Then(init, DocumentDone(ClearMemoriesTrace(cfg, End(s, init), now)))
  }

  class MemoryResetService {
    const cfg: Settings
    const disk: Disk
    const archive: RawRecordArchive
    const store: LongTermStore

    ghost predicate Valid() {
      archive.disk == disk && archive.cfg == cfg && store.disk == disk && store.cfg == cfg && store.archive == archive && store.Valid()
    }

    constructor (cfg: Settings, disk: Disk)
      ensures Valid() && this.cfg == cfg && this.disk == disk && fresh(store) && fresh(archive)
    {
      var a := new RawRecordArchive(cfg, disk);
      var l := new LongTermStore(cfg, disk, a);
      this.cfg, this.disk, archive, store := cfg, disk, a, l;
    }

    /** Scope `all`: whatever loading gives, the empty document is committed, then the log goes. */
    method ResetAll(now: int) returns (r: Outcome<()>)
      requires Valid()
      modifies disk, store
      ensures Follows(old(disk.State()), old(disk.fuse), ResetAllTrace(cfg, old(disk.State()), now), disk.State(), disk.fuse, r)
    {
      ghost var s, fuse := disk.State(), disk.fuse;
      var before := store.Initialize(now);
      ghost var s1, fuse1 := disk.State(), disk.fuse;
      if before.Crashed? {
        return Crashed;
      }
      r := EmptyStores();
      FollowsThen(s, fuse, Ignoring(InitializeTrace(cfg, s, now)), s1, fuse1, Ok(()), EmptyTrace(cfg, s1), disk.State(), disk.fuse, r);
    }

    method EmptyStores() returns (r: Outcome<()>)
      requires Valid()
      modifies disk, store
      ensures Follows(old(disk.State()), old(disk.fuse), EmptyTrace(cfg, old(disk.State())), disk.State(), disk.fuse, r)
    {
      ghost var s, fuse := disk.State(), disk.fuse;
      var document := store.ResetToFactoryState();
      ghost var s1, fuse1 := disk.State(), disk.fuse;
      if document.Ok? {
        r := archive.Clear();
      } else {
        r := document.PropagateFailure();
      }
      FollowsThen(s, fuse, FactoryTrace(cfg, s), s1, fuse1, document, ClearTrace(s1), disk.State(), disk.fuse, r);
    }

    /** Scope `long-term`: the memories go, the coverage stays. */
    method ResetLongTerm(now: int) returns (r: Outcome<()>)
      requires Valid()
      modifies disk, store
      ensures Follows(old(disk.State()), old(disk.fuse), ResetLongTermTrace(cfg, old(disk.State()), now), disk.State(), disk.fuse, r)
    {
      var _ :- archive.ReadAll();
      ghost var s, fuse := disk.State(), disk.fuse;
      ghost var init := InitializeTrace(cfg, s, now);
      var before := store.Initialize(now);
      ghost var s1, fuse1 := disk.State(), disk.fuse;
      if before.Ok? {
        var cleared := store.ClearLongTermMemories(now);
        r := MapOk(cleared, _ => ());
      } else {
        r := before.PropagateFailure();
      }
      FollowsThen(s, fuse, Trace(init.writes, MapOk(init.outcome, DocumentOf)), s1, fuse1, before,
                  DocumentDone(ClearMemoriesTrace(cfg, s1, now)), disk.State(), disk.fuse, r);
    }
  }
}
