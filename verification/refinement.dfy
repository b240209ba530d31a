/** What the store does on disk is a step of the database as runs see it. */
module StoreRefinesRuns {
  import opened Codec
  import opened Entries
  import opened Levels
  import opened Compaction
  import opened Compactor
  import opened Flushing
  import opened LayerOrder
  import opened Splitters
  import opened Tables
  import opened DatabaseRuns

  /** Every table that the run has on disk is there, in a file that holds its entries. */
  ghost predicate Represents(env: Env, files: map<u32, Bytes>, disk: map<nat, seq<Entry>>) {
    forall id: nat :: id in disk ==> id < 0x1_0000_0000 && id in files && Holds(env, files[id], disk[id])
  }

  /** Files written under the ids from first on. */
  lemma {:induction false} WritesRepresent(env: Env, before: map<u32, Bytes>, after: map<u32, Bytes>,
                                           disk: map<nat, seq<Entry>>, first: nat, out: Levels.Files)
    requires Represents(env, before, disk) && OnlyNew(before, after, first, first + |out|)
    requires Numbered(out, first, first + |out|) && Backed(env, after, out)
    ensures Represents(env, after, Overwritten(disk, first, out))
  {
    hide Holds, Overwritten;
    forall id: nat | id in Overwritten(disk, first, out)
      ensures id < 0x1_0000_0000 && id in after && Holds(env, after[id], Overwritten(disk, first, out)[id])
    {
      OverwrittenAt(disk, first, out, id);
      if first <= id < first + |out| {
        assert out[id - first] in out && FileOk(env, after, out[id - first]);
      }
    }
  }

  /** A flush on disk is the run's flush, whatever ids are live. */
  lemma FlushRefines(env: Env, before: map<u32, Bytes>, mems: seq<seq<Entry>>, after: map<u32, Bytes>, next: nat,
                     out: Levels.Files, s: State) returns (s': State)
    requires env.Valid() && Represents(env, before, s.disk) && Flushable(mems)
    requires FlushOf(env, before, s.nextId, mems, after, next, out)
    requires |mems| <= |s.db.frozen| && forall i :: 0 <= i < |mems| ==> mems[i] == s.db.frozen[i]
    ensures Step(s, Flush(out), s') && s'.nextId == next && Represents(env, after, s'.disk)
    ensures s'.db.levels == WithL0(s.db.levels, out) && s'.db.frozen == s.db.frozen[|mems|..]
  {
    hide Flushable, Backed, AllExact, OnlyNew, Represents, WithL0, Overwritten;
    FlushedBacked(env, before, s.nextId, mems, after, next, out);
    WritesRepresent(env, before, after, s.disk, s.nextId, out);
    s' := s.(db := Flushed(s.db, |out|, out), nextId := next, disk := Overwritten(s.disk, s.nextId, out));
    assert FlushesOldest(s.db, out);
    assert FlushStep(s, out, s');
  }

  /** A compaction that succeeds and damaged no input is the run's compaction. */
  lemma CompactionRefines(env: Env, before: map<u32, Bytes>, after: map<u32, Bytes>, levels': DbLevels, n: nat,
                          next: nat, target: nat, s: State) returns (merged: seq<Entry>, out: Levels.Files, s': State)
    requires Represents(env, before, s.disk) && WellFormed(s.db.levels) && UniqueKeys(Total(s.db.levels))
    requires Pick(s.db.levels, n).Plan? && OnlyNew(before, after, s.nextId, next)
    requires MergedBy(env, after, s.db.levels, n, levels', s.nextId, next, target)
    requires var p := Pick(s.db.levels, n);
             !Compactor.Damaged(env.crc, p.source + p.target, s.nextId, next, target)
    ensures Step(s, Compact(n, merged, out), s') && s'.nextId == next && Represents(env, after, s'.disk)
    ensures s'.db == s.db.(levels := levels') && s'.log == s.log
  {
    hide *;
    merged, out := TheMerge(env, after, s.db.levels, n, levels', s.nextId, next, target);
    assert next == s.nextId + |out| by { Counted(out, s.nextId, next); }
    WritesRepresent(env, before, after, s.disk, s.nextId, out);
    UndamagedIsSafe(env, s.db.levels, n, merged, out, s.nextId, target);
    s' := Compacts(s, n, merged, out);
  }

  lemma Counted(out: Levels.Files, first: nat, next: nat)
    requires Numbered(out, first, next)
    ensures next == first + |out|
  {}

  lemma TheMerge(env: Env, disk: map<u32, Bytes>, levels: DbLevels, n: nat, levels': DbLevels, first: nat, next: nat,
                 target: nat) returns (merged: seq<Entry>, out: Levels.Files)
    requires Pick(levels, n).Plan? && MergedBy(env, disk, levels, n, levels', first, next, target)
    ensures Merges(levels, n, merged, out) && levels' == Install(levels, n, Pick(levels, n), out)
    ensures Numbered(out, first, next) && Backed(env, disk, out) && HoldPieces(out, PiecesOf(env.crc, merged, target))
  {
    hide Pick, Merges, Install, Numbered, Backed, HoldPieces, PiecesOf;
    merged, out :| && Merges(levels, n, merged, out) && levels' == Install(levels, n, Pick(levels, n), out)
                   && Numbered(out, first, next) && Backed(env, disk, out)
                   && HoldPieces(out, PiecesOf(env.crc, merged, target));
  }

  lemma Compacts(s: State, n: nat, merged: seq<Entry>, out: Levels.Files) returns (s': State)
    requires Pick(s.db.levels, n).Plan? && Merges(s.db.levels, n, merged, out)
    requires Numbered(out, s.nextId, s.nextId + |out|)
    requires SafeOutput(Pick(s.db.levels, n).source + Pick(s.db.levels, n).target, out)
    ensures Step(s, Compact(n, merged, out), s') && s'.nextId == s.nextId + |out| && s'.log == s.log
    ensures s'.db == s.db.(levels := Install(s.db.levels, n, Pick(s.db.levels, n), out))
    ensures s'.disk == Overwritten(s.disk, s.nextId, out)
  {
    hide *;
    InstalledLevels(s.db, n, out);
    s' := s.(db := Installed(s.db, n, out), nextId := s.nextId + |out|, disk := Overwritten(s.disk, s.nextId, out));
    IsCompact(s, n, merged, out, s');
  }

  lemma IsCompact(s: State, n: nat, merged: seq<Entry>, out: Levels.Files, s': State)
    requires Pick(s.db.levels, n).Plan? && Merges(s.db.levels, n, merged, out)
    requires Numbered(out, s.nextId, s.nextId + |out|)
    requires SafeOutput(Pick(s.db.levels, n).source + Pick(s.db.levels, n).target, out)
    requires s' == s.(db := Installed(s.db, n, out), nextId := s.nextId + |out|,
                      disk := Overwritten(s.disk, s.nextId, out))
    ensures Step(s, Compact(n, merged, out), s')
  {
    hide Pick, Merges, Numbered, SafeOutput, Installed, Overwritten;
    assert CompactStep(s, n, merged, out, s');
  }

  lemma UndamagedIsSafe(env: Env, levels: DbLevels, n: nat, merged: seq<Entry>, out: Levels.Files, first: nat,
                        target: nat)
    requires WellFormed(levels) && UniqueKeys(Total(levels)) && Merges(levels, n, merged, out)
    requires Numbered(out, first, first + |out|) && HoldPieces(out, PiecesOf(env.crc, merged, target))
    requires !Compactor.Damaged(env.crc, Pick(levels, n).source + Pick(levels, n).target, first, first + |out|, target)
    ensures SafeOutput(Pick(levels, n).source + Pick(levels, n).target, out)
  {
    hide Pick, WellFormed, UniqueKeys, Total, PiecesOf, Compactor.Damaged, Bag, Sorted, OutputOf, ReadUpTo, Exact;
    var files := Pick(levels, n).source + Pick(levels, n).target;
    PlanUnique(levels, n);
    DamagedIff(env.crc, files, first, target, merged);
    forall f, k | f in files && 0 <= k < |out| && out[k].meta.fileId == f.meta.fileId && out[k].entries != []
      ensures ReadUpTo(f.entries, out[k].entries[0].key)
    {
      assert PiecesOf(env.crc, merged, target)[k] == out[k].entries;
    }
  }

  lemma PlanUnique(levels: DbLevels, n: nat)
    requires WellFormed(levels) && UniqueKeys(Total(levels)) && Pick(levels, n).Plan?
    ensures var p := Pick(levels, n);
            && UniqueKeys(Bag(p.source + p.target)) && Bag(p.source + p.target) == Bag(p.source) + Bag(p.target)
            && forall f :: f in p.source + p.target ==> Exact(f)
  {
    hide Exact, UniqueKeys, Total, LeastMin, GreatestMax, Bag;
    var p := Pick(levels, n);
    MergedIsPart(levels, n);
    BagAppend(p.source, p.target);
    UniquePart(Total(levels), Bag(p.source + p.target));
    assert LevelOk(LevelAt(levels, n), n) && LevelOk(LevelAt(levels, n + 1), n + 1);
    forall f | f in p.source + p.target ensures Exact(f) {
      if f in p.source {
        assert f in LevelAt(levels, n);
        ExactMember(LevelAt(levels, n), f);
      } else {
        ExactMember(LevelAt(levels, n + 1), f);
      }
    }
  }

  /** A failed one is a failed attempt, which takes the ids and leaves nothing readable under them. */
  lemma FailureRefines(env: Env, before: map<u32, Bytes>, after: map<u32, Bytes>, next: nat, s: State)
    returns (s': State)
    requires Represents(env, before, s.disk) && OnlyNew(before, after, s.nextId, next) && s.nextId <= next
    ensures Step(s, Fails(next - s.nextId, next - s.nextId, map[]), s') && s'.nextId == next && s'.db == s.db
    ensures Represents(env, after, s'.disk)
  {
    hide Holds;
    s' := s.(nextId := next, disk := map id | id in s.disk && !(s.nextId <= id < next) :: s.disk[id]);
    assert FailStep(s, next - s.nextId, next - s.nextId, map[], s');
  }
}
