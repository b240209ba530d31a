/** The write-ahead log: a self-delimiting record stream with a torn-tail rule, and its replay. */
module Wals {
  import opened Codec
  import opened Entries
  import opened Memtables
  import Keys
  import Values

  /** Any checksum function; nothing below depends on which one. */
  type Crc = Bytes -> u32

  const MAGIC: u32 := 0xCAFE_BABE
  const MAGIC_SIZE: nat := 4

  function Record(crc: Crc, e: Entry): (r: Bytes)
    ensures |r| == 4 + |Encode(e)|
  {
    Le(crc(Encode(e)), 4) + Encode(e)
  }

  function Records(crc: Crc, es: seq<Entry>): Bytes {
    if es == [] then [] else Record(crc, es[0]) + Records(crc, es[1..])
  }

  function File(crc: Crc, es: seq<Entry>): Bytes {
    Le(MAGIC, MAGIC_SIZE) + Records(crc, es)
  }

  /** One call of the iterator: a clean end, an entry, or an error. */
  datatype Next = End | Item(entry: Entry, rest: Bytes) | Bad

  function ReadOne(crc: Crc, bs: Bytes): (r: Next)
    ensures r.Item? ==> |r.rest| < |bs|
  {
    var c := ParseU32(bs);
    if c.IsFailure() then End
    else
      match Entries.Parse(c.rest)
      case Eof => End
      case Corrupt => Bad
      case Ok(e, rest) =>
        if crc(c.rest[..|c.rest| - |rest|]) == c.value then Item(e, rest) else Bad
  }

  function ReadAll(crc: Crc, bs: Bytes): Log
    decreases |bs|
  {
    match ReadOne(crc, bs)
    case End => Log([], true)
    case Bad => Log([], false)
    case Item(e, rest) => var l := ReadAll(crc, rest); Log([e] + l.entries, l.clean)
  }

  /** How many leading records lie wholly within the first `room` bytes. */
  function Survivors(es: seq<Entry>, room: nat): (n: nat)
    ensures n <= |es|
  {
    if es == [] || 4 + |Encode(es[0])| > room then 0
    else 1 + Survivors(es[1..], room - (4 + |Encode(es[0])|))
  }

  /** Survivors(es, room) is the largest prefix that fits. */
  lemma {:induction false} SurvivorsIsMaximal(crc: Crc, es: seq<Entry>, room: nat, n: nat)
    requires n <= |es|
    ensures |Records(crc, es[..n])| <= room <==> n <= Survivors(es, room)
  {
    if n > 0 {
      assert es[..n][1..] == es[1..][..n - 1];
      var size := 4 + |Encode(es[0])|;
      if size <= room {
        SurvivorsIsMaximal(crc, es[1..], room - size, n - 1);
      }
    }
  }

  /** On disk: the checksum of what follows in four bytes, the key, the value. */
  lemma Layout(crc: Crc, e: Entry)
    ensures var bs := Record(crc, e);
            && FromLe(bs[..4]) == crc(bs[4..]) && bs[4..] == Keys.Encode(e.key) + Values.Encode(e.value)
  {
    hide Keys.Encode, Values.Encode, Le, FromLe;
    Widths();
    LeRoundTrip(crc(Encode(e)), 4);
    assert Record(crc, e)[..4] == Le(crc(Encode(e)), 4) && Record(crc, e)[4..] == Encode(e);
  }

  lemma ReadRecord(crc: Crc, e: Entry, tail: Bytes)
    requires Entries.Encodable(e)
    ensures ReadOne(crc, Record(crc, e) + tail) == Item(e, tail)
  {
    var body := Encode(e) + tail;
    assert Record(crc, e) + tail == Le(crc(Encode(e)), 4) + body;
    ParseLe(crc(Encode(e)), body);
    Entries.RoundTrip(e, tail);
    assert body[..|body| - |tail|] == Encode(e);
  }

  // --- Damage ---

  /** A record with any other checksum than that of its entry is an error, whatever follows. */
  lemma ReadDamaged(crc: Crc, e: Entry, sum: u32, rest: Bytes)
    requires Entries.Encodable(e) && sum != crc(Encode(e))
    ensures ReadOne(crc, Le(sum, 4) + (Encode(e) + rest)).Bad?
  {
    hide Le, ParseU32, Entries.Encode, Entries.Parse, Entries.Encodable;
    var body := Encode(e) + rest;
    ParseLe(sum, body);
    Entries.RoundTrip(e, rest);
    assert body[..|body| - |rest|] == Encode(e);
  }

  /** After whole records it ends the log with an error, and what they held is all that is read. */
  lemma {:induction false} DamagedRecordFails(crc: Crc, es: seq<Entry>, e: Entry, sum: u32, rest: Bytes)
    requires AllEncodable(es) && Entries.Encodable(e) && sum != crc(Encode(e))
    ensures ReadAll(crc, Records(crc, es) + (Le(sum, 4) + (Encode(e) + rest))) == Log(es, false)
  {
    hide Le, Record, ReadOne, ReadAll, Entries.Encode, Entries.Encodable;
    var bad := Le(sum, 4) + (Encode(e) + rest);
    if es == [] {
      assert Records(crc, es) + bad == bad;
      ReadDamaged(crc, e, sum, rest);
      ReadAllBad(crc, bad);
    } else {
      var tail := Records(crc, es[1..]) + bad;
      Associative(Record(crc, es[0]), Records(crc, es[1..]), bad);
      ReadRecord(crc, es[0], tail);
      ReadAllItem(crc, Records(crc, es) + bad, es[0], tail);
      DamagedRecordFails(crc, es[1..], e, sum, rest);
      assert [es[0]] + es[1..] == es;
    }
  }

  lemma ReadAllBad(crc: Crc, bs: Bytes)
    requires ReadOne(crc, bs).Bad?
    ensures ReadAll(crc, bs) == Log([], false)
  {
    hide ReadOne;
  }

  /** An entry is read only if the first four bytes are the checksum of the bytes it was decoded from. */
  lemma ReadIsChecked(crc: Crc, bs: Bytes)
    requires ReadOne(crc, bs).Item?
    ensures var r := ReadOne(crc, bs);
            && |bs| >= 4 + |r.rest| && r.rest == bs[|bs| - |r.rest|..]
            && FromLe(bs[..4]) == crc(bs[4..|bs| - |r.rest|]) && Entries.Parse(bs[4..]) == Ok(r.entry, r.rest)
  {
    hide FromLe, Entries.Parse;
    var body, r := bs[4..], ReadOne(crc, bs);
    Entries.ParsePrefix(body);
    assert body[..|body| - |r.rest|] == bs[4..|bs| - |r.rest|];
    assert body[|body| - |r.rest|..] == bs[|bs| - |r.rest|..];
  }

  /** So every entry that any log yields was decoded from a stretch of it that the four bytes before it check. */
  lemma {:induction false} AllIsChecked(crc: Crc, bs: Bytes, i: nat) returns (at: nat, end: nat)
    requires i < |ReadAll(crc, bs).entries|
    ensures at + 4 <= end <= |bs| && FromLe(bs[at..at + 4]) == crc(bs[at + 4..end])
    ensures Entries.Parse(bs[at + 4..]) == Ok(ReadAll(crc, bs).entries[i], bs[end..])
    decreases |bs|
  {
    hide FromLe, Entries.Parse, ReadOne;
    ReadAllFirst(crc, bs);
    assert ReadOne(crc, bs).Item?;
    ReadIsChecked(crc, bs);
    var rest := ReadOne(crc, bs).rest;
    var skip := |bs| - |rest|;
    if i == 0 {
      at, end := 0, skip;
      assert bs[0..4] == bs[..4];
    } else {
      at, end := AllIsChecked(crc, rest, i - 1);
      assert rest[at..at + 4] == bs[skip + at..skip + at + 4];
      assert rest[at + 4..end] == bs[skip + at + 4..skip + end];
      assert rest[at + 4..] == bs[skip + at + 4..] && rest[end..] == bs[skip + end..];
      at, end := skip + at, skip + end;
    }
  }

  lemma ReadTorn(crc: Crc, e: Entry, cut: nat)
    requires Entries.Encodable(e) && cut < |Record(crc, e)|
    ensures ReadOne(crc, Record(crc, e)[..cut]).End?
  {
    hide Le, Entries.Encode, Entries.Parse, Entries.Encodable;
    if cut >= 4 {
      var p := Record(crc, e)[..cut];
      var body := Encode(e)[..cut - 4];
      assert p == Le(crc(Encode(e)), 4) + body;
      ParseLe(crc(Encode(e)), body);
      Entries.Torn(e, cut - 4);
    }
  }

  lemma CutAfterFirst(crc: Crc, es: seq<Entry>, room: nat)
    requires es != [] && |Record(crc, es[0])| <= room <= |Records(crc, es)|
    ensures Records(crc, es)[..room] == Record(crc, es[0]) + Records(crc, es[1..])[..room - |Record(crc, es[0])|]
  {
    hide Record;
  }

  lemma ReadAllItem(crc: Crc, bs: Bytes, e: Entry, rest: Bytes)
    requires ReadOne(crc, bs) == Item(e, rest)
    ensures ReadAll(crc, bs) == Log([e] + ReadAll(crc, rest).entries, ReadAll(crc, rest).clean)
  {
    hide ReadOne;
  }

  /** Crash prefix: whatever the cut, iteration yields exactly the records wholly before it and ends cleanly. */
  lemma {:induction false} CrashPrefix(crc: Crc, es: seq<Entry>, room: nat)
    requires AllEncodable(es) && room <= |Records(crc, es)|
    ensures ReadAll(crc, Records(crc, es)[..room]) == Log(es[..Survivors(es, room)], true)
  {
    hide Record, ReadOne, ReadAll, Entries.Encode, Entries.Encodable;
    var bs := Records(crc, es)[..room];
    if es == [] {
      assert bs == [];
      ReadNothing(crc);
    } else if room < |Record(crc, es[0])| {
      assert bs == Record(crc, es[0])[..room];
      ReadTorn(crc, es[0], room);
      ReadAllEnd(crc, bs);
      assert es[..0] == [];
    } else {
      var left := room - |Record(crc, es[0])|;
      var tail := Records(crc, es[1..])[..left];
      CutAfterFirst(crc, es, room);
      ReadRecord(crc, es[0], tail);
      ReadAllItem(crc, bs, es[0], tail);
      CrashPrefix(crc, es[1..], left);
      var n := Survivors(es[1..], left);
      assert [es[0]] + es[1..][..n] == es[..n + 1];
    }
  }

  lemma ReadAllEnd(crc: Crc, bs: Bytes)
    requires ReadOne(crc, bs).End?
    ensures ReadAll(crc, bs) == Log([], true)
  {
    hide ReadOne;
  }

  lemma ReadNothing(crc: Crc)
    ensures ReadAll(crc, []) == Log([], true)
  {}

  lemma {:induction false} RecordsAppend(crc: Crc, a: seq<Entry>, b: seq<Entry>)
    ensures Records(crc, a + b) == Records(crc, a) + Records(crc, b)
  {
    if a == [] {
      assert a + b == b;
    } else {
      assert (a + b)[0] == a[0] && (a + b)[1..] == a[1..] + b;
      RecordsAppend(crc, a[1..], b);
      Associative(Record(crc, a[0]), Records(crc, a[1..]), Records(crc, b));
    }
  }

  /** Durability: entries whose records were synced before the cut are all recovered, in order. */
  lemma SyncedEntriesSurvive(crc: Crc, synced: seq<Entry>, later: seq<Entry>, cut: nat)
    requires AllEncodable(synced + later)
    requires |File(crc, synced)| <= cut <= |File(crc, synced + later)|
    ensures var l := ReadAll(crc, File(crc, synced + later)[..cut][MAGIC_SIZE..]);
            l.clean && synced <= l.entries <= synced + later
  {
    hide Record, ReadOne, ReadAll, Entries.Encode, Entries.Encodable, Survivors, Records;
    var es := synced + later;
    var room := cut - MAGIC_SIZE;
    assert File(crc, es)[..cut][MAGIC_SIZE..] == Records(crc, es)[..room];
    CrashPrefix(crc, es, room);
    assert es[..|synced|] == synced;
    SurvivorsIsMaximal(crc, es, room, |synced|);
  }

  lemma ReadAllFirst(crc: Crc, bs: Bytes)
    ensures ReadAll(crc, bs).entries == [] <==> !ReadOne(crc, bs).Item?
    ensures ReadOne(crc, bs).Item? ==> ReadAll(crc, bs).entries[0] == ReadOne(crc, bs).entry
  {
    hide ReadOne;
  }

  /** A record that is read carries the LSN and the key found at fixed places after its checksum. */
  lemma ReadOneFields(crc: Crc, bs: Bytes)
    requires ReadOne(crc, bs).Item?
    ensures var e := ReadOne(crc, bs).entry;
            |bs| >= 14 + |e.key.bytes| && e.key.lsn == FromLe(bs[4..12]) && e.key.bytes == bs[14..14 + |e.key.bytes|]
  {
    hide Values.Parse, FromLe;
    var r0 := bs[4..];
    assert r0[..8] == bs[4..12] && r0[8..][2..] == bs[14..];
  }

  lemma SecondLsn(e: Entry)
    ensures FromLe(Encode(e)[..8]) == e.key.lsn
  {
    hide Le, FromLe, Values.Encode;
    assert Encode(e)[..8] == Le(e.key.lsn, 8);
    Widths();
    LeRoundTrip(e.key.lsn, 8);
  }

  /** A torn tail that includes the LSN lends that LSN to whatever is read first. */
  lemma LongTailMisreads(crc: Crc, torn: Entry, cut: nat) returns (a: seq<Entry>)
    requires Entries.Encodable(torn) && 12 <= cut < |Record(crc, torn)|
    ensures AllEncodable(a) && ReadAll(crc, Record(crc, torn)[..cut] + Records(crc, a)) != Log(a, true)
  {
    hide Le, FromLe, ReadOne, ReadAll, Records, Entries.Encode;
    var other: u64 := if torn.key.lsn == 0 then 1 else 0;
    a := [Entry(Keys.Key([], other), Values.Tombstone)];
    var bs := Record(crc, torn)[..cut] + Records(crc, a);
    assert bs[4..12] == Encode(torn)[..8];
    SecondLsn(torn);
    ReadAllFirst(crc, bs);
    if ReadOne(crc, bs).Item? {
      ReadOneFields(crc, bs);
    }
  }

  /** A shorter one shifts the stream by less than a header, and a key that is not periodic shows it. */
  lemma ShortTailMisreads(crc: Crc, tail: Bytes) returns (a: seq<Entry>)
    requires 0 < |tail| < 12
    ensures AllEncodable(a) && ReadAll(crc, tail + Records(crc, a)) != Log(a, true)
  {
    hide Le, FromLe, ReadOne, ReadAll, Values.Encode, Values.Encodable;
    var cut := |tail|;
    var key: Bytes := seq(cut, _ => 0) + [1];
    var e := Entry(Keys.Key(key, 0), Values.Tombstone);
    TombstoneEncodable(e);
    a := [e];
    var bs := tail + Records(crc, a);
    OneRecord(crc, e);
    KeyInRecord(crc, e);
    ReadAllFirst(crc, bs);
    assert bs[14 + cut] == Record(crc, e)[14] == 0;
    if ReadOne(crc, bs).Item? {
      ReadOneFields(crc, bs);
      var read := ReadOne(crc, bs).entry.key.bytes;
      assert |read| > cut ==> read[cut] == bs[14 + cut];
    }
  }

  lemma TombstoneEncodable(e: Entry)
    requires e.value.Tombstone? && |e.key.bytes| < 0x1_0000
    ensures Entries.Encodable(e)
  {}

  lemma OneRecord(crc: Crc, e: Entry)
    ensures Records(crc, [e]) == Record(crc, e)
  {
    hide Record;
    assert Records(crc, [e]) == Record(crc, e) + Records(crc, []);
  }

  lemma KeyInRecord(crc: Crc, e: Entry)
    requires e.key.bytes != []
    ensures |Record(crc, e)| > 14 && Record(crc, e)[14] == e.key.bytes[0]
  {
    hide Le, Values.Encode;
    var head := Le(crc(Encode(e)), 4) + (Le(e.key.lsn, 8) + Le(|e.key.bytes|, 2));
    assert Record(crc, e) == head + (e.key.bytes + Values.Encode(e.value));
  }

  /** The log is reopened for appending without dropping a torn tail: what is appended is read back, whatever
      it is, exactly when there is no torn tail. */
  lemma TornTailIsHarmlessIff(crc: Crc, torn: Entry, cut: nat)
    requires Entries.Encodable(torn) && cut < |Record(crc, torn)|
    ensures (forall a | AllEncodable(a) :: ReadAll(crc, Record(crc, torn)[..cut] + Records(crc, a)) == Log(a, true))
            <==> cut == 0
  {
    hide Record, Records, ReadAll, Entries.Encodable;
    var tail := Record(crc, torn)[..cut];
    if cut == 0 {
      forall a | AllEncodable(a) ensures ReadAll(crc, tail + Records(crc, a)) == Log(a, true) {
        AppendAfterCleanCut(crc, [], a);
        NoRecords(crc);
        assert tail + Records(crc, a) == [] + Records(crc, a) && [] + a == a;
      }
    } else if cut < 12 {
      var a := ShortTailMisreads(crc, tail);
    } else {
      var a := LongTailMisreads(crc, torn, cut);
    }
  }

  lemma NoRecords(crc: Crc)
    ensures Records(crc, []) == []
  {}

  /** When the crash fell on a record boundary, appending after recovery is safe. */
  lemma AppendAfterCleanCut(crc: Crc, survivors: seq<Entry>, appended: seq<Entry>)
    requires AllEncodable(survivors + appended)
    ensures ReadAll(crc, Records(crc, survivors) + Records(crc, appended)) == Log(survivors + appended, true)
  {
    hide Record, Records, ReadOne, ReadAll, Entries.Encode, Entries.Encodable, Survivors;
    var es := survivors + appended;
    RecordsAppend(crc, survivors, appended);
    var all := Records(crc, es);
    CrashPrefix(crc, es, |all|);
    assert all[..|all|] == all;
    SurvivorsIsMaximal(crc, es, |all|, |es|);
    assert es[..|es|] == es;
  }

  /** Whole records before anything are read first. */
  lemma {:induction false} ReadRecords(crc: Crc, es: seq<Entry>, rest: Bytes)
    requires AllEncodable(es)
    ensures ReadAll(crc, Records(crc, es) + rest) == Log(es + ReadAll(crc, rest).entries, ReadAll(crc, rest).clean)
  {
    hide Record, ReadOne, ReadAll, Entries.Encode, Entries.Encodable;
    if es == [] {
      assert Records(crc, es) + rest == rest && es + ReadAll(crc, rest).entries == ReadAll(crc, rest).entries;
    } else {
      var tail := Records(crc, es[1..]) + rest;
      Associative(Record(crc, es[0]), Records(crc, es[1..]), rest);
      ReadRecord(crc, es[0], tail);
      ReadAllItem(crc, Records(crc, es) + rest, es[0], tail);
      ReadRecords(crc, es[1..], rest);
      Associative([es[0]], es[1..], ReadAll(crc, rest).entries);
      assert [es[0]] + es[1..] == es;
    }
  }

  /** A crash leaves the whole records before it and a torn part of the next. */
  lemma {:induction false} CutIsTornTail(crc: Crc, es: seq<Entry>, room: nat)
    requires room <= |Records(crc, es)|
    ensures var n := Survivors(es, room);
            var whole := Records(crc, es[..n]);
            && |whole| <= room
            && (n == |es| ==> Records(crc, es)[..room] == whole)
            && (n < |es| ==> room - |whole| < |Record(crc, es[n])|
                             && Records(crc, es)[..room] == whole + Record(crc, es[n])[..room - |whole|])
  {
    hide Record, Entries.Encode;
    if es == [] {
      assert es[..0] == [];
    } else if |Record(crc, es[0])| <= room {
      CutAfterFirst(crc, es, room);
      var left := room - |Record(crc, es[0])|;
      CutIsTornTail(crc, es[1..], left);
      var n := Survivors(es[1..], left);
      assert Survivors(es, room) == n + 1;
      assert es[..n + 1][0] == es[0] && es[..n + 1][1..] == es[1..][..n];
      assert Records(crc, es[..n + 1]) == Record(crc, es[0]) + Records(crc, es[1..][..n]);
      hide Records, Survivors;
    } else {
      assert es[..0] == [];
      assert Records(crc, es)[..room] == Record(crc, es[0])[..room];
    }
  }

  /** Crash, recovery, reopening, appending: the survivors and everything appended are recovered next time,
      whatever is appended, exactly when the crash fell on a record boundary. */
  lemma AppendAfterCrashIff(crc: Crc, log: seq<Entry>, room: nat)
    requires AllEncodable(log) && room <= |Records(crc, log)|
    ensures var n := Survivors(log, room);
            (forall a | AllEncodable(a) ::
               ReadAll(crc, Records(crc, log)[..room] + Records(crc, a)) == Log(log[..n] + a, true))
            <==> room == |Records(crc, log[..n])|
  {
    hide Record, Records, ReadAll, Entries.Encodable, Survivors;
    var n := Survivors(log, room);
    var survivors := log[..n];
    CutIsTornTail(crc, log, room);
    var cut := room - |Records(crc, survivors)|;
    if cut == 0 {
      forall a | AllEncodable(a)
        ensures ReadAll(crc, Records(crc, log)[..room] + Records(crc, a)) == Log(survivors + a, true)
      {
        assert Records(crc, log)[..room] == Records(crc, survivors);
        AppendAfterCleanCut(crc, survivors, a);
      }
    } else {
      var a := AppendAfterTear(crc, survivors, log[n], cut);
      assert AllEncodable(a);
    }
  }

  /** After a tear something appended is not read back. */
  lemma AppendAfterTear(crc: Crc, survivors: seq<Entry>, torn: Entry, cut: nat) returns (a: seq<Entry>)
    requires AllEncodable(survivors) && Entries.Encodable(torn) && 0 < cut < |Record(crc, torn)|
    ensures AllEncodable(a)
    ensures ReadAll(crc, (Records(crc, survivors) + Record(crc, torn)[..cut]) + Records(crc, a))
            != Log(survivors + a, true)
  {
    hide Record, Records, ReadAll, Entries.Encodable;
    var tail, n := Record(crc, torn)[..cut], |survivors|;
    TornTailIsHarmlessIff(crc, torn, cut);
    a :| AllEncodable(a) && ReadAll(crc, tail + Records(crc, a)) != Log(a, true);
    Associative(Records(crc, survivors), tail, Records(crc, a));
    ReadRecords(crc, survivors, tail + Records(crc, a));
    var l := ReadAll(crc, tail + Records(crc, a));
    if survivors + l.entries == survivors + a {
      assert l.entries == (survivors + l.entries)[n..] == (survivors + a)[n..] == a;
    }
  }

  // --- The imperative reader and writer ---

  /** crc32fast::Hasher: its digest is the checksum of everything fed so far. */
  class Hasher {
    const crc: Crc
    var fed: Bytes

    constructor (crc: Crc)
      ensures this.crc == crc && fed == []
    {
      this.crc, fed := crc, [];
    }

    method Update(bs: Bytes)
      modifies this
      ensures fed == old(fed) + bs
    {
      fed := fed + bs;
    }

    method Finalize() returns (digest: u32)
      ensures digest == crc(fed)
    {
      digest := crc(fed);
    }
  }

  /** Appends one record to the batch buffer; the checksum is streamed over key and value. */
  method EncodeEntry(crc: Crc, writer: Bytes, e: Entry) returns (out: Bytes)
    ensures out == writer + Record(crc, e)
  {
    hide Keys.Encode, Values.Encode, Le;
    var hasher := new Hasher(crc);
    hasher.Update(Keys.Encode(e.key));
    hasher.Update(Values.Encode(e.value));
    var digest := hasher.Finalize();
    assert hasher.fed == Encode(e);
    out := writer + Le(digest, 4);
    out := out + Keys.Encode(e.key);
    out := out + Values.Encode(e.value);
  }

  /** The leader's serialization loop: the whole group in one buffer. */
  method EncodeBatch(crc: Crc, batch: seq<Entry>) returns (bytes: Bytes)
    ensures bytes == Records(crc, batch)
  {
    hide Record, Entries.Encode;
    bytes := [];
    for i := 0 to |batch|
      invariant bytes == Records(crc, batch[..i])
    {
      bytes := EncodeEntry(crc, bytes, batch[i]);
      assert batch[..i + 1] == batch[..i] + [batch[i]];
      RecordsAppend(crc, batch[..i], [batch[i]]);
      assert Records(crc, [batch[i]]) == Record(crc, batch[i]) + Records(crc, []);
    }
    assert batch[..|batch|] == batch;
  }

  class WalFile {
    var bytes: Bytes

    /** Opening for append: an empty file gets the magic number, another must start with it. */
    method Open() returns (ok: bool)
      modifies this
      ensures old(bytes) == [] ==> ok && bytes == Le(MAGIC, MAGIC_SIZE)
      ensures old(bytes) != [] ==>
                bytes == old(bytes) && (ok <==> ParseU32(bytes).Ok? && ParseU32(bytes).value == MAGIC)
    {
      if bytes == [] {
        bytes := Le(MAGIC, MAGIC_SIZE);
        ok := true;
      } else {
        var magic := ParseU32(bytes);
        ok := magic.Ok? && magic.value == MAGIC;
      }
    }

    method Append(batch: Bytes)
      modifies this
      ensures bytes == old(bytes) + batch
    {
      bytes := bytes + batch;
    }
  }

  class WalIterator {
    const crc: Crc
    var rest: Bytes

    constructor (crc: Crc, bytes: Bytes)
      ensures this.crc == crc && rest == bytes
    {
      this.crc, rest := crc, bytes;
    }

    method Next() returns (r: Yield)
      modifies this
      ensures match ReadOne(crc, old(rest))
              case End => r == Finished
              case Bad => r == Failed
              case Item(e, tail) => r == Yielded(e) && rest == tail
    {
      hide Keys.Parse, Values.Parse, ParseU32;
      var stored := ParseU32(rest);
      if stored.IsFailure() { return Finished; }
      var hasher := new Hasher(crc);
      var key := Keys.Parse(stored.rest);
      if key.Eof? { return Finished; }
      if key.Corrupt? { return Failed; }
      hasher.Update(stored.rest[..|stored.rest| - |key.rest|]);
      var value := Values.Parse(key.rest);
      if value.Eof? { return Finished; }
      if value.Corrupt? { return Failed; }
      hasher.Update(key.rest[..|key.rest| - |value.rest|]);
      Keys.ParsePrefix(stored.rest);
      assert hasher.fed == stored.rest[..|stored.rest| - |value.rest|];
      var digest := hasher.Finalize();
      rest := value.rest;
      if digest != stored.value { return Failed; }
      return Yielded(Entry(key.value, value.value));
    }
  }

  predicate HasMagic(bytes: Bytes)
    ensures HasMagic(bytes) ==> |bytes| >= MAGIC_SIZE
  {
    ParseU32(bytes).Ok? && ParseU32(bytes).value == MAGIC
  }

  /** The LSN of the last entry, 0 for an empty log. */
  function LastLsn(es: seq<Entry>): u64 {
    if es == [] then 0 else es[|es| - 1].key.lsn
  }

  lemma NothingLogged()
    ensures InsertAll([], []) == [] && EncodeAll([]) == []
  {}

  /** Replays a log into a fresh memtable; no memtable is produced when the magic number
      is wrong or an entry is damaged. */
  method ReplayMutable(crc: Crc, bytes: Bytes) returns (ok: bool, mem: Memtable, lastLsn: u64)
    ensures fresh(mem) && mem.Valid()
    ensures ok <==> HasMagic(bytes) && ReadAll(crc, bytes[MAGIC_SIZE..]).clean
    ensures ok ==> var es := ReadAll(crc, bytes[MAGIC_SIZE..]).entries;
                   && mem.store == InsertAll([], es)
                   && mem.sizeBytes == |EncodeAll(es)|
                   && lastLsn == LastLsn(es)
  {
    hide ReadOne, Insert, InsertAll, Entries.Encode, EncodeAll, HasMagic;
    mem := new Memtable();
    lastLsn := 0;
    if !HasMagic(bytes) { return false, mem, 0; }
    var it := new WalIterator(crc, bytes[MAGIC_SIZE..]);
    ghost var done: seq<Entry> := [];
    NothingLogged();
    ghost var all := ReadAll(crc, bytes[MAGIC_SIZE..]);
    var finished := false;
    ok := true;
    while !finished
      invariant mem.Valid() && fresh(mem) && fresh(it) && it.crc == crc
      invariant mem.store == InsertAll([], done)
      invariant mem.sizeBytes == |EncodeAll(done)|
      invariant lastLsn == LastLsn(done)
      invariant !finished ==> all == Log(done + ReadAll(crc, it.rest).entries, ReadAll(crc, it.rest).clean)
      invariant finished ==> all == Log(done, true)
      decreases !finished, |it.rest|
    {
      var next := it.Next();
      match next
      case Finished =>
        finished := true;
        assert done + [] == done;
      case Failed => return false, mem, lastLsn;
      case Yielded(e) =>
        lastLsn := e.key.lsn;
        mem.Recover(e);
        InsertAllSnoc([], done, e);
        EncodeAllAppend(done, [e]);
        EncodeOne(e);
        Associative(done, [e], ReadAll(crc, it.rest).entries);
        done := done + [e];
    }
  }
}
