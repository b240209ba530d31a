/** Cutting a merged stream into files: a writer that is replaced once it has written enough. */
module Splitters {
  import opened Codec
  import opened Entries
  import opened SstableFormat
  import opened SstableWriters
  import opened Blooms
  import opened Manifests
  import opened Tables
  import Keys

  /** The files finished so far and what has gone into the current one. */
  datatype Pieces = Pieces(closed: seq<seq<Entry>>, open: seq<Entry>)

  /** A writer's stream position: the blocks already flushed. */
  function WrittenSize(crc: Crc, es: seq<Entry>): nat { |DataImage(crc, Fill(es).flushed)| }

  /** Before each entry, a writer that has reached the target size makes way for a new one. */
  function Chop(crc: Crc, es: seq<Entry>, target: nat): (p: Pieces)
    ensures p.open == [] <==> es == []
    decreases |es|
  {
    if es == [] then Pieces([], [])
    else
      var p, e := Chop(crc, es[..|es| - 1], target), es[|es| - 1];
      if p.open == [] then Pieces(p.closed, [e])
      else if WrittenSize(crc, p.open) >= target then Pieces(p.closed + [p.open], [e])
      else Pieces(p.closed, p.open + [e])
  }

  function PiecesOf(crc: Crc, es: seq<Entry>, target: nat): seq<seq<Entry>> {
    var p := Chop(crc, es, target);
    if p.open == [] then p.closed else p.closed + [p.open]
  }

  lemma ChopSnoc(crc: Crc, es: seq<Entry>, e: Entry, target: nat)
    ensures var p := Chop(crc, es, target);
            Chop(crc, es + [e], target) == (if p.open == [] then Pieces(p.closed, [e])
                                            else if WrittenSize(crc, p.open) >= target then
                                              Pieces(p.closed + [p.open], [e])
                                            else Pieces(p.closed, p.open + [e]))
  {
    hide WrittenSize;
    assert (es + [e])[..|es|] == es;
  }

  /** Every finished file is non-empty and had reached the target; one entry earlier it had not. */
  predicate WellCut(crc: Crc, piece: seq<Entry>, target: nat) {
    && piece != [] && WrittenSize(crc, piece) >= target
    && (|piece| > 1 ==> WrittenSize(crc, piece[..|piece| - 1]) < target)
  }

  /** Cutting keeps every entry in its place, and no file is empty or cut too early or too late. */
  lemma {:induction false} ChopKeepsAll(crc: Crc, es: seq<Entry>, target: nat)
    ensures var p := Chop(crc, es, target);
            && Flatten(p.closed) + p.open == es
            && (forall i :: 0 <= i < |p.closed| ==> WellCut(crc, p.closed[i], target))
            && (|p.open| > 1 ==> WrittenSize(crc, p.open[..|p.open| - 1]) < target)
    decreases |es|
  {
    hide WrittenSize, Flatten;
    if es == [] {
      FlattenNone();
    } else {
      var init, e := es[..|es| - 1], es[|es| - 1];
      var p := Chop(crc, init, target);
      assert es == init + [e];
      ChopKeepsAll(crc, init, target);
      ChopSnoc(crc, init, e, target);
      FlattenSnoc(p.closed, p.open);
      assert (p.open + [e])[..|p.open|] == p.open;
      assert Flatten(p.closed) + [] == Flatten(p.closed);
      assert Flatten(p.closed) + (p.open + [e]) == (Flatten(p.closed) + p.open) + [e];
    }
  }

  lemma FlattenNone()
    ensures Flatten<Entry>([]) == []
  {}

  /** A user key's versions can end up in different files: the cut looks at sizes only. */
  lemma VersionsMaySplit(crc: Crc, newer: Entry, older: Entry)
    requires newer.key.bytes == older.key.bytes && newer.key.lsn > older.key.lsn
    ensures Sorted([newer, older]) && PiecesOf(crc, [newer, older], 0) == [[newer], [older]]
  {
    ChopSnoc(crc, [], newer, 0);
    ChopSnoc(crc, [newer], older, 0);
    assert [] + [newer] == [newer] && [newer] + [older] == [newer, older];
  }

  /** On disk from id `first` on: a table of each piece, described truthfully. */
  ghost predicate Stored(env: Env, disk: map<u32, Bytes>, metas: seq<FileMeta>, first: nat, pieces: seq<seq<Entry>>) {
    && |metas| == |pieces| && first + |metas| <= 0x1_0000_0000
    && forall i :: 0 <= i < |metas| ==>
         && metas[i].fileId == first + i && metas[i].fileId in disk
         && metas[i] == MetaOf(first + i, |disk[metas[i].fileId]|, pieces[i])
         && TableOf(env, disk[metas[i].fileId], pieces[i])
  }

  /** Only files with ids in this range differ from before. */
  predicate OnlyNew(before: map<u32, Bytes>, disk: map<u32, Bytes>, first: nat, next: nat) {
    forall id :: id in before && !(first <= id < next) ==> id in disk && disk[id] == before[id]
  }

  lemma StoredSnoc(env: Env, disk: map<u32, Bytes>, metas: seq<FileMeta>, first: nat, pieces: seq<seq<Entry>>,
                   piece: seq<Entry>, file: Bytes)
    requires Stored(env, disk, metas, first, pieces) && first + |metas| < 0x1_0000_0000 && TableOf(env, file, piece)
    ensures var id := first + |metas|;
            Stored(env, disk[id := file], metas + [MetaOf(id, |file|, piece)], first, pieces + [piece])
  {
    hide TableOf;
  }

  lemma MetaId(id: u32, size: nat, es: seq<Entry>)
    ensures MetaOf(0, size, es).(fileId := id) == MetaOf(id, size, es)
  {}

  lemma OnlyNewGrows(before: map<u32, Bytes>, disk: map<u32, Bytes>, first: nat, next: nat)
    requires OnlyNew(before, disk, first, next)
    ensures OnlyNew(before, disk, first, next + 1)
  {}

  /** The file being written is none of the finished ones. */
  lemma WrittenOpen(env: Env, before: map<u32, Bytes>, disk: map<u32, Bytes>, metas: seq<FileMeta>, first: nat,
                    closed: seq<seq<Entry>>, id: u32, bytes: Bytes)
    requires Stored(env, disk, metas, first, closed) && id == first + |metas| && OnlyNew(before, disk, first, id + 1)
    ensures Stored(env, disk[id := bytes], metas, first, closed) && OnlyNew(before, disk[id := bytes], first, id + 1)
  {
    hide TableOf;
  }

  /** The number of files begun. */
  lemma PiecesGrow(crc: Crc, es: seq<Entry>, e: Entry, target: nat)
    ensures var was, now := PiecesOf(crc, es, target), PiecesOf(crc, es + [e], target);
            && (|now| == |was| || |now| == |was| + 1)
            && (|now| > |was| ==> now == was + [[e]])
            && forall k :: 0 <= k < |was| ==> was[k] != [] && now[k] != [] && now[k][0] == was[k][0]
  {
    ChopSnoc(crc, es, e, target);
    ChopKeepsAll(crc, es, target);
    hide WrittenSize, Chop, Flatten;
  }

  /** A writer with an empty filter of the configured shape. */
  method NewWriter(env: Env) returns (w: SstableWriter)
    requires env.Valid()
    ensures fresh(w.Repr()) && w.Valid() && w.written == [] && w.crc == env.crc
    ensures w.bloom.sip == env.sip && env.Made(w.bloom.Contents())
  {
    hide Fill, SstableWriter.Covered, SstableWriter.Layout;
    var bloom := new BloomFilter(env.sip, env.bits, env.k, env.keys);
    w := new SstableWriter(env.crc, bloom);
  }

  class Splitter {
    const env: Env
    const target: nat
    const first: nat
    ghost const before: map<u32, Bytes>
    var writer: SstableWriter?
    var id: u32
    var nextId: nat
    var metas: seq<FileMeta>
    var disk: map<u32, Bytes>
    ghost var given: seq<Entry>

    ghost function Repr(): set<object>
      reads this, writer
    {
      {this} + if writer == null then {} else writer.Repr()
    }

    /** Pieces p: the closed ones are on disk, the open one is in the writer. */
    ghost predicate At(p: Pieces)
      reads this, Repr()
    {
      && env.Valid()
      && (writer == null ==> p.open == [] && nextId == first + |metas|)
      && (writer != null ==>
            && this !in writer.Repr() && writer.Valid() && writer.written == p.open
            && writer.crc == env.crc && writer.bloom.sip == env.sip && env.Made(writer.bloom.Contents())
            && id == first + |metas| && nextId == id + 1)
      && Stored(env, disk, metas, first, p.closed)
      && OnlyNew(before, disk, first, nextId) && first <= nextId <= 0x1_0000_0000
    }

    ghost predicate Valid()
      reads this, Repr()
    {
      var p := Chop(env.crc, given, target);
      At(p) && (writer == null <==> p.open == [])
    }

    constructor (env: Env, target: nat, nextId: nat, disk: map<u32, Bytes>)
      requires env.Valid() && nextId <= 0x1_0000_0000
      ensures Valid() && given == [] && this.env == env && this.target == target && first == nextId == this.nextId
              && before == disk
      ensures fresh(Repr())
    {
      this.env, this.target, this.nextId, this.disk := env, target, nextId, disk;
      first, before, metas, given, writer, id := nextId, disk, [], [], null, 0;
    }

    /** Ids are handed out one for each file begun. */
    lemma Counted()
      requires Valid()
      ensures nextId == first + |PiecesOf(env.crc, given, target)|
      ensures OnlyNew(before, disk, first, nextId) && first <= nextId <= 0x1_0000_0000
    {
      hide Chop, OnlyNew, SstableWriter.Valid, TableOf;
    }

    /** Finalizes the current file and records its metadata. */
    method Close(ghost p: Pieces)
      requires At(p) && writer != null
      modifies this`writer, this`disk, this`metas, writer`file, writer`index, writer.block
      ensures writer == null && At(Pieces(p.closed + [p.open], [])) && nextId == old(nextId)
    {
      hide TableOf, Stored, MetaOf, SstableWriter.Valid, SstableWriter.Covered, SstableWriter.Layout;
      StoredBound(env, disk, metas, first, p.closed);
      var file, meta := FinishTable(env, writer);
      StoredSnoc(env, disk, metas, first, p.closed, p.open, file);
      MetaId(id, |file|, p.open);
      disk := disk[id := file];
      metas := metas + [meta.(fileId := id)];
      writer := null;
    }

    /** Takes the next id and creates its file, truncating any there is; fails when the ids run out. */
    method Start(ghost closed: seq<seq<Entry>>) returns (ok: bool)
      requires writer == null && At(Pieces(closed, []))
      modifies this`writer, this`id, this`nextId, this`disk
      ensures At(Pieces(closed, [])) && (ok <==> writer != null)
      ensures ok <==> old(nextId) < 0x1_0000_0000
      ensures ok ==> fresh(writer.Repr())
    {
      hide Stored, TableOf, SstableWriter.Valid, OnlyNew, Env.Made;
      if nextId >= 0x1_0000_0000 { return false; }
      OnlyNewGrows(before, disk, first, nextId);
      id, nextId := nextId, nextId + 1;
      WrittenOpen(env, before, disk, metas, first, closed, id, []);
      disk := disk[id := []];
      writer := NewWriter(env);
      ok := true;
    }

    /** Writes one entry; of what the writer has written, some beginning has reached the file. */
    method Put(e: Entry, ghost p: Pieces)
      requires writer != null && At(p)
      modifies Repr()
      ensures writer == old(writer) && Repr() == old(Repr()) && At(Pieces(p.closed, p.open + [e]))
      ensures given == old(given) + [e]
    {
      hide Stored, TableOf, Fill, SstableWriter.Valid, SstableWriter.Covered, SstableWriter.Layout, OnlyNew;
      writer.Write(e);
      given := given + [e];
      var reached: int, bytes := *, writer.file;
      if 0 <= reached <= |bytes| {
        WrittenOpen(env, before, disk, metas, first, p.closed, id, bytes[..reached]);
        disk := disk[id := bytes[..reached]];
      }
    }

    /** One merged entry: closes the current file if it is big enough, starts the next if there is none. */
    method Accept(e: Entry) returns (ok: bool)
      requires Valid()
      modifies Repr()
      ensures ok ==> Valid() && given == old(given) + [e]
      ensures !ok ==> nextId == 0x1_0000_0000
      ensures OnlyNew(before, disk, first, nextId) && first <= nextId <= 0x1_0000_0000
      ensures fresh(Repr() - old(Repr()))
    {
      hide Chop, WrittenSize, Stored, TableOf, Fill, SstableWriter.Valid, SstableWriter.Covered, SstableWriter.Layout;
      ghost var p := Chop(env.crc, given, target);
      ChopSnoc(env.crc, given, e, target);
      var rotate := true;
      if writer != null {
        var size := CurrentSize(p);
        rotate := size >= target;
      }
      if rotate {
        if writer != null {
          Close(p);
          p := Pieces(p.closed + [p.open], []);
        }
        var started := Start(p.closed);
        if !started { return false; }
      }
      Put(e, p);
      ok := true;
    }

    method CurrentSize(ghost p: Pieces) returns (size: nat)
      requires writer != null && At(p)
      ensures size == WrittenSize(env.crc, p.open)
    {
      hide Stored, TableOf, Fill, SstableWriter.Covered, SstableWriter.Layout;
      size := writer.CurrentSize();
    }

    /** After the last entry. */
    method Finish()
      requires Valid()
      modifies Repr()
      ensures Stored(env, disk, metas, first, PiecesOf(env.crc, given, target)) && given == old(given)
      ensures nextId == first + |metas| == old(nextId) && OnlyNew(before, disk, first, nextId)
    {
      hide Chop, Stored, SstableWriter.Valid, SstableWriter.Covered, SstableWriter.Layout;
      if writer != null {
        Close(Chop(env.crc, given, target));
      }
    }
  }

  lemma StoredBound(env: Env, disk: map<u32, Bytes>, metas: seq<FileMeta>, first: nat, pieces: seq<seq<Entry>>)
    requires Stored(env, disk, metas, first, pieces)
    ensures |metas| == |pieces| && first + |metas| <= 0x1_0000_0000
  {
    hide TableOf;
  }

}
