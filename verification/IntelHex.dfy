/** The Intel HEX loader for EZ-USB devices: records are merged into chunks, and the chunks are written in one
    or two passes. */
module IntelHex {
  newtype byte = x: int | 0 <= x < 256

  /** A record gives at most 255 bytes: its length field has two hexadecimal digits. (The fields are read with
      strtoul, which also takes a sign; the model is of files in which they are digits.) */
  type Bytes = s: seq<byte> | |s| <= 255 witness []

  const BUFFER_SIZE := 1023

  const EOF_RECORD := 1
  const DATA_RECORD := 0
  const NOT_A_RECORD := -2
  const UNSUPPORTED_TYPE := -3
  const TOO_SHORT := -4

  /** One line of the file. `short` is set when the line ends before its data does. */
  datatype Line = Comment | Garbage | Record(kind: int, offset: nat, data: Bytes, short: bool)

  datatype Data = Data(offset: nat, bytes: Bytes)

  datatype Chunk = Chunk(addr: nat, bytes: seq<byte>)

  /** One byte of memory written. */
  datatype Poke = Poke(addr: nat, value: byte)

  /** How the file ends for the parser: with 0 at the end record or at the end of the file, or with an error. */
  function Status(lines: seq<Line>): int {
    if lines == [] then 0 else
    match lines[0]
    case Comment => Status(lines[1..])
    case Garbage => NOT_A_RECORD
    case Record(kind, _, _, short) =>
      if kind == EOF_RECORD then 0 else
      if kind != DATA_RECORD then UNSUPPORTED_TYPE else
      if short then TOO_SHORT else Status(lines[1..])
  }

  /** The data records up to that point. */
  function Records(lines: seq<Line>): seq<Data> {
    if lines == [] then [] else
    match lines[0]
    case Comment => Records(lines[1..])
    case Garbage => []
    case Record(kind, offset, data, short) =>
      if kind != DATA_RECORD || short then [] else [Data(offset, data)] + Records(lines[1..])
  }

  /** A line that the parser reads over or takes data from. */
  predicate GoodLine(line: Line) {
    line.Comment? || (line.Record? && line.kind == DATA_RECORD && !line.short)
  }

  /** The data of some good lines. */
  function Given(lines: seq<Line>): seq<Data>
    requires forall line :: line in lines ==> GoodLine(line)
  {
    if lines == [] then [] else
    match lines[0]
    case Record(_, offset, data, _) => [Data(offset, data)] + Given(lines[1..])
    case _ => Given(lines[1..])
  }

  /** The parser's verdict is that of the first line that is not good, and the records are those of the lines before. */
  lemma {:induction false} FirstBadLine(lines: seq<Line>, k: nat)
    requires k <= |lines| && (forall j :: 0 <= j < k ==> GoodLine(lines[j])) && (k < |lines| ==> !GoodLine(lines[k]))
    ensures Status(lines) ==
            if k == |lines| || (lines[k].Record? && lines[k].kind == EOF_RECORD) then 0
            else if lines[k].Garbage? then NOT_A_RECORD
            else if lines[k].kind != DATA_RECORD then UNSUPPORTED_TYPE
            else TOO_SHORT
    ensures Records(lines) == Given(lines[..k])
  {
    if k > 0 {
      FirstBadLine(lines[1..], k - 1);
      assert lines[..k][1..] == lines[1..][..k - 1];
    }
  }

  /** The merge buffer of parse_ihex: `anchor` is data_addr. */
  datatype Buffer = Buffer(started: bool, anchor: nat, bytes: seq<byte>)

  const EMPTY := Buffer(false, 0, [])

  function Anchored(b: Buffer, r: Data): Buffer {
    if b.started then b else b.(started := true, anchor := r.offset)
  }

  predicate Flushes(b: Buffer, r: Data) {
    b.bytes != [] && (r.offset != b.anchor + |b.bytes| || |b.bytes| + |r.bytes| > BUFFER_SIZE)
  }

  function Take(b0: Buffer, r: Data): Buffer {
    var b := Anchored(b0, r);
    if Flushes(b, r) then Buffer(true, r.offset, r.bytes) else b.(bytes := b.bytes + r.bytes)
  }

  function Flushed(b: Buffer): seq<Chunk> {
    if b.bytes == [] then [] else [Chunk(b.anchor, b.bytes)]
  }

  /** The buffer after the records, and the chunks flushed on the way. */
  function After(rs: seq<Data>): Buffer {
    if rs == [] then EMPTY else Take(After(rs[..|rs| - 1]), rs[|rs| - 1])
  }

  function Emitted(rs: seq<Data>): seq<Chunk> {
    if rs == [] then [] else
    var b, r := After(rs[..|rs| - 1]), rs[|rs| - 1];
    Emitted(rs[..|rs| - 1]) + if Flushes(Anchored(b, r), r) then Flushed(b) else []
  }

  /** All the chunks of a file: what is left in the buffer counts only when no line was wrong. */
  function Chunks(lines: seq<Line>): seq<Chunk> {
    Emitted(Records(lines)) + if Status(lines) == 0 then Flushed(After(Records(lines))) else []
  }

  lemma {:induction false} AfterMore(rs: seq<Data>, r: Data)
    ensures After(rs + [r]) == Take(After(rs), r)
    ensures Emitted(rs + [r]) ==
            if Flushes(Anchored(After(rs), r), r) then Emitted(rs) + Flushed(After(rs)) else Emitted(rs)
  {
    assert (rs + [r])[..|rs|] == rs;
  }

  lemma {:induction false} NotStarted(rs: seq<Data>)
    ensures !After(rs).started <==> rs == []
    ensures rs == [] ==> After(rs).bytes == []
  {
    if rs != [] {
      NotStarted(rs[..|rs| - 1]);
    }
  }

  lemma {:induction false} Taking(rs: seq<Data>, r: Data, addr: nat, bytes: seq<byte>)
    requires Anchored(After(rs), r) == Buffer(true, addr, bytes)
    ensures if bytes != [] && (r.offset != addr + |bytes| || |bytes| + |r.bytes| > BUFFER_SIZE)
      then After(rs + [r]) == Buffer(true, r.offset, r.bytes) && Emitted(rs + [r]) == Emitted(rs) + [Chunk(addr, bytes)]
      else After(rs + [r]) == Buffer(true, addr, bytes + r.bytes) && Emitted(rs + [r]) == Emitted(rs)
  {
    AfterMore(rs, r);
    NotStarted(rs);
    hide After, Emitted;
  }

  /** Every chunk has at least one byte and at most what the buffer holds. */
  lemma {:induction false} ChunkSizes(rs: seq<Data>)
    ensures |After(rs).bytes| <= BUFFER_SIZE
    ensures forall c :: c in Emitted(rs) ==> 1 <= |c.bytes| <= BUFFER_SIZE
  {
    if rs != [] {
      ChunkSizes(rs[..|rs| - 1]);
    }
  }

  lemma {:induction false} AllChunkSizes(lines: seq<Line>)
    ensures forall c :: c in Chunks(lines) ==> 1 <= |c.bytes| <= BUFFER_SIZE
  {
    ChunkSizes(Records(lines));
  }

  ghost function Place(addr: nat, bytes: seq<byte>): (w: seq<Poke>)
    ensures |w| == |bytes| && forall i :: 0 <= i < |w| ==> w[i] == Poke(addr + i, bytes[i])
  {
    seq(|bytes|, i requires 0 <= i < |bytes| => Poke(addr + i, bytes[i]))
  }

  /** The bytes of chunks, and of records, each at its address, in order. */
  ghost function Flat(chunks: seq<Chunk>): seq<Poke> {
    if chunks == [] then []
      else Flat(chunks[..|chunks| - 1]) + Place(chunks[|chunks| - 1].addr, chunks[|chunks| - 1].bytes)
  }

  ghost function Meant(rs: seq<Data>): seq<Poke> {
    if rs == [] then [] else Meant(rs[..|rs| - 1]) + Place(rs[|rs| - 1].offset, rs[|rs| - 1].bytes)
  }

  lemma {:induction false} FlatMore(chunks: seq<Chunk>, c: Chunk)
    ensures Flat(chunks + [c]) == Flat(chunks) + Place(c.addr, c.bytes)
  {
    assert (chunks + [c])[..|chunks|] == chunks;
  }

  /** Where the merger puts the data of a record that finds the buffer `b`. */
  function Spot(b: Buffer, r: Data): nat {
    if b.bytes == [] && b.started then b.anchor else r.offset
  }

  ghost function Placed(rs: seq<Data>): seq<Poke> {
    if rs == [] then [] else
    Placed(rs[..|rs| - 1]) + Place(Spot(After(rs[..|rs| - 1]), rs[|rs| - 1]), rs[|rs| - 1].bytes)
  }

  lemma {:induction false} PlaceOn(before: seq<Poke>, a: nat, x: seq<byte>, y: seq<byte>)
    ensures before + Place(a, x + y) == before + Place(a, x) + Place(a + |x|, y)
  {
  }

  /** What has been flushed and what is in the buffer are the data so far, where the merger puts them. */
  lemma {:induction false} MergedIsPlaced(rs: seq<Data>)
    ensures Flat(Emitted(rs)) + Place(After(rs).anchor, After(rs).bytes) == Placed(rs)
  {
    if rs != [] {
      var rs', r := rs[..|rs| - 1], rs[|rs| - 1];
      MergedIsPlaced(rs');
      var b0 := After(rs');
      var b := Anchored(b0, r);
      NotStarted(rs');
      if Flushes(b, r) {
        FlatMore(Emitted(rs'), Chunk(b.anchor, b.bytes));
      } else {
        assert Emitted(rs) == Emitted(rs');
        PlaceOn(Flat(Emitted(rs')), b.anchor, b.bytes, r.bytes);
        assert Place(b0.anchor, b0.bytes) == Place(b.anchor, b.bytes);
      }
    }
  }

  lemma {:induction false} PlaceInjective(a: nat, b: nat, bytes: seq<byte>)
    ensures Place(a, bytes) == Place(b, bytes) <==> bytes == [] || a == b
  {
    if bytes != [] && a != b {
      assert Place(a, bytes)[0] != Place(b, bytes)[0];
    }
  }

  lemma {:induction false} SameLengths(rs: seq<Data>)
    ensures |Placed(rs)| == |Meant(rs)|
  {
    if rs != [] {
      SameLengths(rs[..|rs| - 1]);
    }
  }

  /** Record i is put where it says. */
  ghost predicate RightAt(rs: seq<Data>, i: nat)
    requires i < |rs|
  {
    rs[i].bytes == [] || Spot(After(rs[..i]), rs[i]) == rs[i].offset
  }

  lemma {:induction false} Split(a: seq<Poke>, b: seq<Poke>, c: seq<Poke>, d: seq<Poke>)
    requires |a| == |c|
    ensures a + b == c + d <==> a == c && b == d
  {
    assert (a + b)[..|a|] == a && (c + d)[..|c|] == c;
    assert (a + b)[|a|..] == b && (c + d)[|c|..] == d;
  }

  /** The whole image comes out as meant just when every record is put where it says. */
  lemma {:induction false} PlacedIff(rs: seq<Data>)
    ensures Placed(rs) == Meant(rs) <==> forall i :: 0 <= i < |rs| ==> RightAt(rs, i)
  {
    if rs != [] {
      var rs', r := rs[..|rs| - 1], rs[|rs| - 1];
      PlacedIff(rs');
      SameLengths(rs');
      var spot := Spot(After(rs'), r);
      PlaceInjective(spot, r.offset, r.bytes);
      Split(Placed(rs'), Place(spot, r.bytes), Meant(rs'), Place(r.offset, r.bytes));
      forall i | 0 <= i < |rs'| ensures RightAt(rs, i) <==> RightAt(rs', i) {
        assert rs'[..i] == rs[..i];
      }
      assert RightAt(rs, |rs'|) <==> r.bytes == [] || spot == r.offset;
    }
  }

  function End(r: Data): nat {
    r.offset + |r.bytes|
  }

  /** The records strictly between p and i are empty. */
  ghost predicate EmptyBetween(rs: seq<Data>, p: int, i: nat)
    requires -1 <= p && i <= |rs|
  {
    forall k :: p < k < i ==> rs[k].bytes == []
  }

  ghost predicate OpensAfter(rs: seq<Data>, p: nat, e: nat)
    requires p < e < |rs|
  {
    && rs[p].bytes != [] && EmptyBetween(rs, p, e) && rs[e].offset != End(rs[p])
    && forall k :: p < k < e ==> rs[k].offset == End(rs[p])
  }

  /** An empty record that the merger takes for the beginning of a new chunk: the first record of all, or the
      first of several empty ones whose offset is not the end of the data before them. */
  ghost predicate Opens(rs: seq<Data>, e: nat)
    requires e < |rs|
  {
    rs[e].bytes == [] && (e == 0 || exists p :: 0 <= p < e && OpensAfter(rs, p, e))
  }

  /** No such record is followed, empty records aside, by data for another place. */
  ghost predicate Sound(rs: seq<Data>) {
    forall e, i :: 0 <= e < i < |rs| && Opens(rs, e) && EmptyBetween(rs, e, i) && rs[i].bytes != [] ==>
      rs[i].offset == rs[e].offset
  }

  /** Before record i the buffer is empty, and set to the place of the empty record e. */
  ghost predicate AtOpen(rs: seq<Data>, i: nat, e: nat)
    requires e < i <= |rs|
  {
    Opens(rs, e) && EmptyBetween(rs, e, i) && After(rs[..i]) == Buffer(true, rs[e].offset, [])
  }

  /** Before record i the buffer ends with the data of record p. */
  ghost predicate InData(rs: seq<Data>, i: nat, p: nat)
    requires p < i <= |rs|
  {
    && rs[p].bytes != [] && EmptyBetween(rs, p, i) && (forall k :: p < k < i ==> rs[k].offset == End(rs[p]))
    && After(rs[..i]).started && After(rs[..i]).bytes != []
    && After(rs[..i]).anchor + |After(rs[..i]).bytes| == End(rs[p])
  }

  ghost predicate Described(rs: seq<Data>, i: nat)
    requires i <= |rs|
  {
    i == 0 || (exists e :: 0 <= e < i && AtOpen(rs, i, e)) || (exists p :: 0 <= p < i && InData(rs, i, p))
  }

  lemma {:induction false} FromOpen(rs: seq<Data>, i: nat, e: nat)
    requires e < i < |rs| && AtOpen(rs, i, e) && RightAt(rs, i)
    ensures if rs[i].bytes == [] then AtOpen(rs, i + 1, e) else InData(rs, i + 1, i)
  {
    AfterMore(rs[..i], rs[i]);
    assert rs[..i + 1] == rs[..i] + [rs[i]];
  }

  lemma {:induction false} FromData(rs: seq<Data>, i: nat, p: nat)
    requires p < i < |rs| && InData(rs, i, p)
    ensures if rs[i].bytes != [] then InData(rs, i + 1, i) else
      if rs[i].offset == End(rs[p]) then InData(rs, i + 1, p) else AtOpen(rs, i + 1, i)
  {
    AfterMore(rs[..i], rs[i]);
    assert rs[..i + 1] == rs[..i] + [rs[i]];
    ChunkSizes(rs[..i]);
    assert rs[i].bytes == [] && rs[i].offset != End(rs[p]) ==> OpensAfter(rs, p, i);
  }

  lemma {:induction false} FromStart(rs: seq<Data>)
    requires rs != []
    ensures if rs[0].bytes == [] then AtOpen(rs, 1, 0) else InData(rs, 1, 0)
  {
    assert rs[..1] == [rs[0]] && rs[..1][..0] == [];
    assert After(rs[..1]) == Take(EMPTY, rs[0]);
  }

  lemma {:induction false} DescribedOn(rs: seq<Data>, i: nat)
    requires i < |rs| && Described(rs, i) && RightAt(rs, i)
    ensures Described(rs, i + 1)
  {
    hide After, AtOpen, InData, RightAt;
    if i == 0 {
      FromStart(rs);
    } else if e :| 0 <= e < i && AtOpen(rs, i, e) {
      FromOpen(rs, i, e);
    } else {
      var p :| 0 <= p < i && InData(rs, i, p);
      FromData(rs, i, p);
    }
  }

  lemma {:induction false} DescribedGoesRight(rs: seq<Data>, i: nat)
    requires i < |rs| && Sound(rs) && Described(rs, i)
    ensures RightAt(rs, i)
  {
    hide Opens;
    NotStarted(rs[..i]);
  }

  lemma {:induction false} NothingYet(rs: seq<Data>)
    ensures Described(rs, 0)
  {
  }

  lemma {:induction false} SoundGoesRight(rs: seq<Data>, i: nat)
    requires Sound(rs) && i <= |rs|
    ensures Described(rs, i) && forall j :: 0 <= j < i ==> RightAt(rs, j)
  {
    hide Sound, Described, RightAt;
    if i == 0 {
      NothingYet(rs);
    } else {
      SoundGoesRight(rs, i - 1);
      DescribedGoesRight(rs, i - 1);
      DescribedOn(rs, i - 1);
    }
  }

  lemma {:induction false} RightIsDescribed(rs: seq<Data>, i: nat)
    requires i <= |rs| && forall j :: 0 <= j < i ==> RightAt(rs, j)
    ensures Described(rs, i)
  {
    if i > 0 {
      RightIsDescribed(rs, i - 1);
      DescribedOn(rs, i - 1);
    }
  }

  lemma {:induction false} OpensAfterLast(rs: seq<Data>, p: nat, e: nat)
    requires p < e < |rs| && Opens(rs, e) && rs[p].bytes != [] && EmptyBetween(rs, p, e)
    ensures OpensAfter(rs, p, e)
  {
    var q :| 0 <= q < e && OpensAfter(rs, q, e);
    assert q == p;
  }

  lemma {:induction false} NoneInData(rs: seq<Data>, e: nat, i: nat, p: nat)
    requires e < i < |rs| && EmptyBetween(rs, e, i) && rs[e].bytes == [] && p < i && InData(rs, i, p)
    ensures !Opens(rs, e)
  {
    if Opens(rs, e) {
      OpensAfterLast(rs, p, e);
    }
  }

  lemma {:induction false} SameOpen(rs: seq<Data>, e: nat, e': nat)
    requires e <= e' < |rs| && rs[e].bytes == [] && Opens(rs, e') && EmptyBetween(rs, e, e')
    ensures e == e' || !Opens(rs, e)
  {
    if e < e' {
      var q :| 0 <= q < e' && OpensAfter(rs, q, e');
      if Opens(rs, e) {
        OpensAfterLast(rs, q, e);
      }
    }
  }

  /** In one run of empty records at most one opens a place, and none when they all lie at the end of the data. */
  lemma {:induction false} OpensOnce(rs: seq<Data>, e: nat, i: nat)
    requires e < i < |rs| && Opens(rs, e) && EmptyBetween(rs, e, i) && rs[i].bytes != [] && RightAt(rs, i)
    requires Described(rs, i)
    ensures rs[i].offset == rs[e].offset
  {
    if e' :| 0 <= e' < i && AtOpen(rs, i, e') {
      SameOpen(rs, if e < e' then e else e', if e < e' then e' else e);
    } else {
      var p :| 0 <= p < i && InData(rs, i, p);
      NoneInData(rs, e, i, p);
    }
  }

  /** Merging keeps the meaning of the file exactly when no empty record misleads the merger. */
  lemma {:induction false} MeaningKeptIff(rs: seq<Data>)
    ensures Flat(Emitted(rs) + Flushed(After(rs))) == Meant(rs) <==> Sound(rs)
  {
    MergedIsPlaced(rs);
    if After(rs).bytes != [] {
      FlatMore(Emitted(rs), Chunk(After(rs).anchor, After(rs).bytes));
    } else {
      assert Emitted(rs) + [] == Emitted(rs);
      assert Placed(rs) == Flat(Emitted(rs));
    }
    PlacedIff(rs);
    if Sound(rs) {
      SoundGoesRight(rs, |rs|);
    } else if forall i :: 0 <= i < |rs| ==> RightAt(rs, i) {
      forall e, i | 0 <= e < i < |rs| && Opens(rs, e) && EmptyBetween(rs, e, i) && rs[i].bytes != []
        ensures rs[i].offset == rs[e].offset
      {
        RightIsDescribed(rs, i);
        OpensOnce(rs, e, i);
      }
    }
  }

  /** So it always does when the file has no empty data record. */
  lemma {:induction false} NoEmptyRecords(rs: seq<Data>)
    requires forall r :: r in rs ==> r.bytes != []
    ensures Flat(Emitted(rs) + Flushed(After(rs))) == Meant(rs)
  {
    MeaningKeptIff(rs);
  }

  /** An empty record at the start of a file sends the data after it to the wrong place. */
  lemma {:induction false} EmptyFirstRecordMisplaces(b: byte)
    ensures var rs := [Data(0, []), Data(0x100, [b])];
      Emitted(rs) + Flushed(After(rs)) == [Chunk(0, [b])] && Meant(rs) == [Poke(0x100, b)]
  {
    var rs := [Data(0, []), Data(0x100, [b])];
    assert rs[..1] == [Data(0, [])] && rs[..1][..0] == [];
    assert After(rs[..1]) == Buffer(true, 0, []);
    assert After(rs) == Buffer(true, 0, [b]);
    assert Emitted(rs[..1]) == [] && Emitted(rs) == [];
    assert Meant(rs[..1]) == [];
  }

  datatype Chip = FX | FX2 | FX2LP

  /** fx_is_external, fx2_is_external and fx2lp_is_external. */
  predicate IsExternal(chip: Chip, addr: nat, len: nat) {
    match chip
    case FX => if addr <= 0x1b3f then addr + len > 0x1b40 else true
    case FX2 =>
      if addr <= 0x1fff then addr + len > 0x2000
      else if 0xe000 <= addr <= 0xe1ff then addr + len > 0xe200
      else true
    case FX2LP =>
      if addr <= 0x3fff then addr + len > 0x4000
      else if 0xe000 <= addr <= 0xe1ff then addr + len > 0xe200
      else true
  }

  /** The on-chip memory of each device. */
  predicate OnChip(chip: Chip, a: nat) {
    match chip
    case FX => a < 0x1b40
    case FX2 => a < 0x2000 || 0xe000 <= a < 0xe200
    case FX2LP => a < 0x4000 || 0xe000 <= a < 0xe200
  }

  /** A chunk is external just when one of its bytes is not in on-chip memory. */
  lemma {:induction false} ExternalIff(chip: Chip, addr: nat, len: nat)
    requires len > 0
    ensures IsExternal(chip, addr, len) <==> exists a :: addr <= a < addr + len && !OnChip(chip, a)
  {
    var edge := match chip
      case FX => 0x1b40
      case FX2 => if addr <= 0x1fff then 0x2000 else 0xe200
      case FX2LP => if addr <= 0x3fff then 0x4000 else 0xe200;
    var a := if addr <= edge < addr + len then edge else addr;
    assert addr <= a < addr + len && (IsExternal(chip, addr, len) ==> !OnChip(chip, a));
  }

  predicate External(chip: Chip, c: Chunk) {
    IsExternal(chip, c.addr, |c.bytes|)
  }

  datatype Mode = InternalOnly | SkipInternal | SkipExternal

  /** What reaches the device: control transfers that write memory, and the CPU being stopped and reset. */
  datatype Event = Write(c: Chunk) | StopCpu | ResetCpu

  predicate Skips(mode: Mode, external: bool) {
    mode == if external then SkipExternal else SkipInternal
  }

  /** The writes of one pass over the chunks. */
  function Pass(mode: Mode, chip: Chip, chunks: seq<Chunk>): seq<Event> {
    if chunks == [] then [] else
    Pass(mode, chip, chunks[..|chunks| - 1]) +
    (if Skips(mode, External(chip, chunks[|chunks| - 1])) then [] else [Write(chunks[|chunks| - 1])])
  }

  lemma {:induction false} PassMore(mode: Mode, chip: Chip, chunks: seq<Chunk>, c: Chunk)
    ensures Pass(mode, chip, chunks + [c]) ==
            Pass(mode, chip, chunks) + (if Skips(mode, External(chip, c)) then [] else [Write(c)])
  {
    assert (chunks + [c])[..|chunks|] == chunks;
  }

  /** The two passes of a second-stage load write every chunk once, all the external ones before the others. */
  lemma {:induction false} EachInOnePass(chip: Chip, chunks: seq<Chunk>)
    ensures forall c :: multiset(Pass(SkipInternal, chip, chunks))[Write(c)]
                        == if External(chip, c) then multiset(chunks)[c] else 0
    ensures forall c :: multiset(Pass(SkipExternal, chip, chunks))[Write(c)]
                        == if External(chip, c) then 0 else multiset(chunks)[c]
  {
    if chunks != [] {
      EachInOnePass(chip, chunks[..|chunks| - 1]);
      assert chunks == chunks[..|chunks| - 1] + [chunks[|chunks| - 1]];
    }
  }

  lemma {:induction false} StatusSign(lines: seq<Line>)
    ensures Status(lines) <= 0
  {
    if lines != [] {
      StatusSign(lines[1..]);
    }
  }

  /** The lines before the one at i have given the records `rs`, and no verdict. */
  ghost predicate Read(lines: seq<Line>, i: nat, rs: seq<Data>)
    requires i <= |lines|
  {
    rs + Records(lines[i..]) == Records(lines) && Status(lines) == Status(lines[i..])
  }

  lemma {:induction false} AtStart(lines: seq<Line>)
    ensures Read(lines, 0, [])
  {
    assert lines[0..] == lines;
  }

  lemma {:induction false} AtEnd(lines: seq<Line>, i: nat, rs: seq<Data>)
    requires i <= |lines| && Read(lines, i, rs) && (i < |lines| ==> lines[i].Record? && lines[i].kind == EOF_RECORD)
    ensures Records(lines) == rs && Status(lines) == 0
  {
    assert rs + [] == rs;
  }

  /** The chunks emitted for some records come first among those of the file. */
  lemma {:induction false} EmittedFirst(rs: seq<Data>, more: seq<Data>)
    ensures Emitted(rs) <= Emitted(rs + more)
  {
    if more == [] {
      assert rs + [] == rs;
    } else {
      var front, last := more[..|more| - 1], more[|more| - 1];
      EmittedFirst(rs, front);
      AfterMore(rs + front, last);
      assert rs + more == rs + front + [last];
    }
  }

  lemma {:induction false} ChunksFirst(lines: seq<Line>, rs: seq<Data>, more: seq<Data>)
    requires Records(lines) == rs + more
    ensures |Emitted(rs)| <= |Chunks(lines)| && Chunks(lines)[..|Emitted(rs)|] == Emitted(rs)
    ensures more == [] && Status(lines) != 0 ==> Chunks(lines) == Emitted(rs)
  {
    EmittedFirst(rs, more);
    assert rs + [] == rs;
  }

  lemma {:induction false} LineAt(lines: seq<Line>, i: nat, rs: seq<Data>)
    requires i < |lines| && Read(lines, i, rs)
    ensures match lines[i]
      case Comment => Read(lines, i + 1, rs)
      case Garbage => Status(lines) == NOT_A_RECORD && Chunks(lines) == Emitted(rs) == Chunks(lines)[..|Emitted(rs)|]
      case Record(kind, off, bytes, short) =>
        if kind == EOF_RECORD then true else
        if kind != DATA_RECORD || short then
          && Status(lines) == (if kind != DATA_RECORD then UNSUPPORTED_TYPE else TOO_SHORT)
          && Chunks(lines) == Emitted(rs) == Chunks(lines)[..|Emitted(rs)|]
        else
          var rs' := rs + [Data(off, bytes)];
          && Read(lines, i + 1, rs')
          && |Emitted(rs')| <= |Chunks(lines)| && Chunks(lines)[..|Emitted(rs')|] == Emitted(rs')
  {
    hide Chunks;
    assert lines[i..][1..] == lines[i + 1..];
    if Records(lines[i..]) == [] {
      assert rs + [] == rs;
      ChunksFirst(lines, rs, []);
    } else if lines[i].Record? {
      var r := Data(lines[i].offset, lines[i].data);
      assert rs + ([r] + Records(lines[i + 1..])) == rs + [r] + Records(lines[i + 1..]);
      ChunksFirst(lines, rs + [r], Records(lines[i + 1..]));
    }
  }

  /** What the kinds of lines mean, one by one. */
  lemma {:induction false} CommentAt(lines: seq<Line>, i: nat, rs: seq<Data>)
    requires i < |lines| && Read(lines, i, rs) && lines[i].Comment?
    ensures Read(lines, i + 1, rs)
  {
    hide *;
    LineAt(lines, i, rs);
  }

  lemma {:induction false} BadAt(lines: seq<Line>, i: nat, rs: seq<Data>, verdict: int)
    requires i < |lines| && Read(lines, i, rs)
    requires match lines[i]
      case Comment => false
      case Garbage => verdict == NOT_A_RECORD
      case Record(kind, _, _, short) =>
        kind != EOF_RECORD && (kind != DATA_RECORD || short)
        && verdict == if kind != DATA_RECORD then UNSUPPORTED_TYPE else TOO_SHORT
    ensures Status(lines) == verdict && |Emitted(rs)| == |Chunks(lines)| && Chunks(lines) == Emitted(rs)
    ensures Chunks(lines)[..|Emitted(rs)|] == Emitted(rs)
  {
    hide *;
    LineAt(lines, i, rs);
  }

  lemma {:induction false} DataAt(lines: seq<Line>, i: nat, rs: seq<Data>, offset: nat, data: Bytes)
    requires i < |lines| && Read(lines, i, rs) && lines[i] == Record(DATA_RECORD, offset, data, false)
    ensures Read(lines, i + 1, rs + [Data(offset, data)])
    ensures var done := Emitted(rs + [Data(offset, data)]);
      |done| <= |Chunks(lines)| && Chunks(lines)[..|done|] == done
  {
    assert DATA_RECORD != EOF_RECORD;
    hide *;
    LineAt(lines, i, rs);
  }

  /** Everything sent to the device, and how many of the transfers failed. */
  datatype Trace = Trace(events: seq<Event>, failures: nat) {
    function Then(e: Event, ok: bool): Trace {
      Trace(events + [e], failures + if ok then 0 else 1)
    }
  }

  /** What a whole load sends. */
  function Load(stage: bool, chip: Chip, chunks: seq<Chunk>): seq<Event> {
    if stage then Pass(SkipInternal, chip, chunks) + [StopCpu] + Pass(SkipExternal, chip, chunks) + [ResetCpu]
      else [StopCpu] + Pass(InternalOnly, chip, chunks) + [ResetCpu]
  }

  /** What has been sent when a load is in its first pass, or its second, and at the end. */
  lemma {:induction false} InFirst(stage: bool, chip: Chip, chunks: seq<Chunk>, before: seq<Event>, now: seq<Event>)
    requires now <= if stage then before + Pass(SkipInternal, chip, chunks)
                    else before + [StopCpu] + Pass(InternalOnly, chip, chunks)
    ensures now <= before + Load(stage, chip, chunks)
  {
    hide Pass;
  }

  lemma {:induction false} InSecond(chip: Chip, chunks: seq<Chunk>, before: seq<Event>, now: seq<Event>)
    requires now <= before + Pass(SkipInternal, chip, chunks) + [StopCpu] + Pass(SkipExternal, chip, chunks)
    ensures now <= before + Load(true, chip, chunks)
  {
    hide Pass;
  }

  lemma {:induction false} LoadEnds(stage: bool, chip: Chip, chunks: seq<Chunk>, before: seq<Event>)
    ensures before + Load(stage, chip, chunks) ==
            if stage then before + Pass(SkipInternal, chip, chunks) + [StopCpu] + Pass(SkipExternal, chip, chunks)
                          + [ResetCpu]
            else before + [StopCpu] + Pass(InternalOnly, chip, chunks) + [ResetCpu]
  {
    hide Pass;
  }

  lemma {:induction false} PassFirst(mode: Mode, chip: Chip, chunks: seq<Chunk>, n: nat)
    requires n <= |chunks|
    ensures Pass(mode, chip, chunks[..n]) <= Pass(mode, chip, chunks)
  {
    if n < |chunks| {
      var front := chunks[..|chunks| - 1];
      PassFirst(mode, chip, front, n);
      assert front[..n] == chunks[..n];
    } else {
      assert chunks[..n] == chunks;
    }
  }

  /** struct ram_poke_context, with what has reached the device. */
  class RamPokeContext {
    const chip: Chip
    var mode: Mode
    var total: nat
    var count: nat
    ghost var trace: Trace
    // the chunks ram_poke was called with
    ghost var offered: seq<Chunk>

    constructor (chip: Chip)
      ensures this.chip == chip && total == 0 && count == 0 && trace == Trace([], 0) && offered == []
    {
      this.chip := chip;
      mode, total, count, trace, offered := InternalOnly, 0, 0, Trace([], 0), [];
    }

    /** ezusb_write: its only results are 0 and -1. */
    method EzusbWrite(c: Chunk) returns (rc: int)
      modifies `trace
      ensures (rc == 0 || rc == -1) && trace == old(trace).Then(Write(c), rc == 0)
    {
      if * {
        rc := 0;
      } else {
        rc := -1;
      }
      trace := trace.Then(Write(c), rc == 0);
    }

    /** ram_poke. Its loop repeats a write that timed out, but ezusb_write never reports a timeout: a chunk is
        sent at most once. */
    method RamPoke(c: Chunk, external: bool) returns (rc: int)
      modifies `total, `count, `trace, `offered
      ensures offered == old(offered) + [c] && (rc == 0 || rc == -1)
      ensures mode == InternalOnly && external ==> rc == -1 && trace == old(trace)
      ensures Skips(mode, external) ==> rc == 0 && trace == old(trace)
      ensures !(mode == InternalOnly && external) && !Skips(mode, external) ==>
              trace == old(trace).Then(Write(c), rc == 0)
      ensures count - old(count) == |trace.events| - |old(trace).events|
      ensures total == old(total) + (count - old(count)) * |c.bytes|
    {
      offered := offered + [c];
      if mode == InternalOnly {
        if external {
          return -1;
        }
      } else if Skips(mode, external) {
        return 0;
      }
      total, count := total + |c.bytes|, count + 1;
      rc := EzusbWrite(c);
    }

    /** The pokes of the chunks `done` have all succeeded; this is what they have sent. */
    ghost predicate Sent(before: Trace, done: seq<Chunk>)
      reads this
    {
      && trace == Trace(before.events + Pass(mode, chip, done), before.failures)
      && (mode == InternalOnly ==> forall c :: c in done ==> !External(chip, c))
    }

    /** The poke of the last of `done` failed: it was refused, or tried. */
    ghost predicate Stopped(before: Trace, done: seq<Chunk>)
      reads this
    {
      done != [] &&
      var refused := mode == InternalOnly && External(chip, done[|done| - 1]);
      if refused then trace == Trace(before.events + Pass(mode, chip, done[..|done| - 1]), before.failures)
        else trace == Trace(before.events + Pass(mode, chip, done), before.failures + 1)
    }

    /** The flush of parse_ihex: one chunk is poked. */
    method Flush(anchor: nat, data: array<byte>, len: nat, ghost before: Trace, ghost done: seq<Chunk>)
      returns (rc: int)
      requires len <= data.Length && Sent(before, done)
      modifies `total, `count, `trace, `offered
      ensures offered == old(offered) + [Chunk(anchor, data[..len])]
      ensures rc == 0 || rc == -1
      ensures rc == 0 ==> Sent(before, done + [Chunk(anchor, data[..len])])
      ensures rc < 0 ==> Stopped(before, done + [Chunk(anchor, data[..len])])
    {
      assert (done + [Chunk(anchor, data[..len])])[..|done|] == done;
      var c := Chunk(anchor, data[..len]);
      PassMore(mode, chip, done, c);
      rc := RamPoke(c, IsExternal(chip, anchor, len));
    }

    /** The copying of a record's data behind what the buffer holds. */
    method Append(data: array<byte>, len: nat, bytes: Bytes)
      requires len + |bytes| <= data.Length
      modifies data
      ensures data[..len + |bytes|] == old(data[..len]) + bytes
    {
      for idx := 0 to |bytes|
        invariant data[..len + idx] == old(data[..len]) + bytes[..idx]
      {
        data[len + idx] := bytes[idx];
      }
    }

    /** One data record of parse_ihex: what is saved is flushed if the record does not fit on, then its data is
        appended. */
    method TakeRecord(r: Data, dataAddr: nat, data: array<byte>, dataLen: nat, ghost rs: seq<Data>, ghost before: Trace,
          ghost already: seq<Chunk>)
      returns (rc: int, addr: nat, len: nat)
      requires data.Length == BUFFER_SIZE && dataLen <= BUFFER_SIZE
      requires Sent(before, Emitted(rs)) && offered == already + Emitted(rs)
      requires Anchored(After(rs), r) == Buffer(true, dataAddr, data[..dataLen])
      modifies `total, `count, `trace, `offered, data
      ensures rc >= 0 ==> len <= BUFFER_SIZE && After(rs + [r]) == Buffer(true, addr, data[..len])
      ensures offered == already + Emitted(rs + [r])
      ensures rc >= 0 ==> Sent(before, Emitted(rs + [r]))
      ensures rc < 0 ==> Stopped(before, Emitted(rs + [r]))
    {
      Taking(rs, r, dataAddr, data[..dataLen]);
      assert BUFFER_SIZE == 1023 && [] + r.bytes == r.bytes;
      hide *;
      addr, len, rc := dataAddr, dataLen, 0;
      if len != 0 && (r.offset != addr + len || len + |r.bytes| > data.Length) {
        rc := Flush(addr, data, len, before, Emitted(rs));
        if rc < 0 {
          return;
        }
        addr, len := r.offset, 0;
        assert data[..0] == [];
      }
      Append(data, len, r.bytes);
      len := len + |r.bytes|;
    }

    /** The end of parse_ihex: what is left in the buffer is poked. */
    method Finish(lines: seq<Line>, ghost rs: seq<Data>, dataAddr: nat, data: array<byte>, dataLen: nat,
          ghost before: Trace, ghost already: seq<Chunk>) returns (status: int, ghost n: nat)
      requires Records(lines) == rs && Status(lines) == 0 && Sent(before, Emitted(rs))
      requires offered == already + Emitted(rs)
      requires dataLen <= data.Length && After(rs).bytes == data[..dataLen]
      requires dataLen > 0 ==> After(rs).anchor == dataAddr
      modifies `total, `count, `trace, `offered
      ensures n == |Chunks(lines)| && offered == already + Chunks(lines)[..n]
      ensures status == 0 ==> Sent(before, Chunks(lines))
      ensures status == 0 || (status == -1 && Stopped(before, Chunks(lines)[..n]))
    {
      status, n := 0, |Chunks(lines)|;
      assert Chunks(lines) == if dataLen == 0 then Emitted(rs) else Emitted(rs) + [Chunk(dataAddr, data[..dataLen])];
      assert Chunks(lines)[..n] == Chunks(lines);
      hide Records, Status, After, Emitted, Sent, Stopped, Chunks;
      if dataLen != 0 {
        var rc := Flush(dataAddr, data, dataLen, before, Emitted(rs));
        if rc < 0 {
          status := -1;
        }
      }
    }

    /** parse_ihex. `n` is the number of chunks poked; they are those of the whole file unless a poke fails, and
        the last poke is then the failing one. */
    method ParseIhex(lines: seq<Line>) returns (status: int, ghost n: nat)
      modifies `total, `count, `trace, `offered
      ensures n <= |Chunks(lines)| && offered == old(offered) + Chunks(lines)[..n]
      ensures status == -1 || (status == Status(lines) && n == |Chunks(lines)| && Sent(old(trace), Chunks(lines)))
      ensures status == -1 ==> Stopped(old(trace), Chunks(lines)[..n])
    {
      var data := new byte[BUFFER_SIZE];
      var dataAddr: nat, dataLen: nat, firstLine, i := 0, 0, true, 0;
      ghost var rs: seq<Data> := [];
      status := 0;
      assert After([]) == Buffer(false, 0, data[..0]);
      assert offered == old(offered) + Emitted([]) && Sent(old(trace), Emitted([]));
      assert NOT_A_RECORD != -1 && UNSUPPORTED_TYPE != -1 && TOO_SHORT != -1;
      AtStart(lines);
      hide *;
      while i < |lines|
        invariant i <= |lines| && dataLen <= BUFFER_SIZE && Read(lines, i, rs)
        invariant After(rs) == Buffer(!firstLine, dataAddr, data[..dataLen])
        invariant offered == old(offered) + Emitted(rs) && Sent(old(trace), Emitted(rs))
      {
        match lines[i]
        case Comment =>
          CommentAt(lines, i, rs);
          i := i + 1;
        case Garbage =>
          BadAt(lines, i, rs, NOT_A_RECORD);
          return NOT_A_RECORD, |Emitted(rs)|;
        case Record(kind, off, bytes, short) =>
          if firstLine {
            dataAddr, firstLine := off, false;
          }
          if kind == EOF_RECORD {
            break;
          }
          if kind != DATA_RECORD {
            BadAt(lines, i, rs, UNSUPPORTED_TYPE);
            return UNSUPPORTED_TYPE, |Emitted(rs)|;
          }
          if short {
            BadAt(lines, i, rs, TOO_SHORT);
            return TOO_SHORT, |Emitted(rs)|;
          }
          DataAt(lines, i, rs, off, bytes);
          var rc;
          rc, dataAddr, dataLen := TakeRecord(Data(off, bytes), dataAddr, data, dataLen, rs, old(trace), old(offered));
          rs := rs + [Data(off, bytes)];
          if rc < 0 {
            return -1, |Emitted(rs)|;
          }
          i := i + 1;
      }
      AtEnd(lines, i, rs);
      status, n := Finish(lines, rs, dataAddr, data, dataLen, old(trace), old(offered));
    }

    /** ezusb_cpucs. */
    method Cpucs(doRun: bool) returns (ok: bool)
      modifies `trace
      ensures trace == old(trace).Then(if doRun then ResetCpu else StopCpu, ok)
    {
      ok := *;
      trace := trace.Then(if doRun then ResetCpu else StopCpu, ok);
    }

    lemma {:induction false} StoppedWithin(before: Trace, chunks: seq<Chunk>, n: nat)
      requires n <= |chunks| && Stopped(before, chunks[..n])
      ensures before.events <= trace.events <= before.events + Pass(mode, chip, chunks)
      ensures trace.failures > before.failures || (mode == InternalOnly && exists c :: c in chunks && External(chip, c))
    {
      hide Pass, External;
      assert chunks[..n][..n - 1] == chunks[..n - 1];
      assert chunks[n - 1] in chunks;
      PassFirst(mode, chip, chunks, n);
      PassFirst(mode, chip, chunks, n - 1);
    }

    /** What a pass over the file comes to. */
    lemma {:induction false} PassEnds(before: Trace, lines: seq<Line>, status: int, n: nat)
      requires n <= |Chunks(lines)| && (status == -1 ==> Stopped(before, Chunks(lines)[..n]))
      requires status == -1 || (status == Status(lines) && Sent(before, Chunks(lines)))
      ensures status <= 0 && before.failures <= trace.failures
      ensures before.events <= trace.events <= before.events + Pass(mode, chip, Chunks(lines))
      ensures status == 0 <==>
              && Status(lines) == 0 && trace.failures == before.failures
              && (mode == InternalOnly ==> forall c :: c in Chunks(lines) ==> !External(chip, c))
      ensures status == 0 ==> trace.events == before.events + Pass(mode, chip, Chunks(lines))
    {
      StatusSign(lines);
      if status == -1 {
        StoppedWithin(before, Chunks(lines), n);
      }
      hide Pass, External, Chunks, Status, Stopped;
    }

    /** ezusb_load_ram for an Intel HEX file. On-chip memory is only written while the CPU is stopped, and the
        second stage writes external memory before. Whatever happens, what reaches the device is a beginning of that;
        the load succeeds exactly when the file is good, no chunk is refused and no transfer fails. */
    method LoadRam(lines: seq<Line>, stage: bool) returns (ret: int)
      modifies this
      ensures ret == 0 <==>
              && Status(lines) == 0 && trace.failures == old(trace.failures)
              && (!stage ==> forall c :: c in Chunks(lines) ==> !External(chip, c))
      ensures ret == 0 || ret == -1 || ret == Status(lines)
      ensures old(trace.events) <= trace.events <= old(trace.events) + Load(stage, chip, Chunks(lines))
      ensures ret == 0 ==> trace.events == old(trace.events) + Load(stage, chip, Chunks(lines))
    {
      hide Status, Chunks, Pass, External, Stopped, Sent, Load;
      var ok, status;
      ghost var n;
      mode := if stage then SkipInternal else InternalOnly;
      if !stage {
        ok := Cpucs(false);
        if !ok {
          InFirst(stage, chip, Chunks(lines), old(trace.events), trace.events);
          return -1;
        }
      }
      total, count := 0, 0;
      ghost var before := trace;
      status, n := ParseIhex(lines);
      PassEnds(before, lines, status, n);
      InFirst(stage, chip, Chunks(lines), old(trace.events), trace.events);
      if status < 0 {
        return status;
      }
      if stage {
        mode := SkipExternal;
        ok := Cpucs(false);
        InSecond(chip, Chunks(lines), old(trace.events), trace.events);
        if !ok {
          return -1;
        }
        before := trace;
        status, n := ParseIhex(lines);
        PassEnds(before, lines, status, n);
        InSecond(chip, Chunks(lines), old(trace.events), trace.events);
        if status < 0 {
          return status;
        }
      }
      LoadEnds(stage, chip, Chunks(lines), old(trace.events));
      ok := Cpucs(true);
      ret := if ok then 0 else -1;
    }
  }

  /** The chunks that were written. */
  ghost function Written(events: seq<Event>): seq<Chunk> {
    if events == [] then [] else
    Written(events[..|events| - 1]) + (if events[|events| - 1].Write? then [events[|events| - 1].c] else [])
  }

  lemma {:induction false} WrittenMore(events: seq<Event>, e: Event)
    ensures Written(events + [e]) == if e.Write? then Written(events) + [e.c] else Written(events)
  {
    assert (events + [e])[..|events|] == events;
  }

  /** The single pass of a first-stage load writes the chunks in order. */
  lemma {:induction false} OnePassWritesAll(chip: Chip, chunks: seq<Chunk>)
    ensures Written(Pass(InternalOnly, chip, chunks)) == chunks
  {
    if chunks != [] {
      var front, last := chunks[..|chunks| - 1], chunks[|chunks| - 1];
      assert chunks == front + [last];
      assert Pass(InternalOnly, chip, chunks) == Pass(InternalOnly, chip, front) + [Write(last)];
      hide Pass, Written;
      OnePassWritesAll(chip, front);
      WrittenMore(Pass(InternalOnly, chip, front), Write(last));
    }
  }

  /** The bytes one pass writes, each at its address. */
  ghost function Bytewise(mode: Mode, chip: Chip, chunks: seq<Chunk>): multiset<Poke> {
    multiset(Flat(Written(Pass(mode, chip, chunks))))
  }

  lemma {:induction false} BytewiseMore(mode: Mode, chip: Chip, chunks: seq<Chunk>, c: Chunk)
    ensures Bytewise(mode, chip, chunks + [c]) ==
            if Skips(mode, External(chip, c)) then Bytewise(mode, chip, chunks)
            else Bytewise(mode, chip, chunks) + multiset(Place(c.addr, c.bytes))
  {
    hide Flat, Written, Pass, External;
    PassMore(mode, chip, chunks, c);
    if !Skips(mode, External(chip, c)) {
      WrittenMore(Pass(mode, chip, chunks), Write(c));
      FlatMore(Written(Pass(mode, chip, chunks)), c);
    } else {
      assert Pass(mode, chip, chunks) + [] == Pass(mode, chip, chunks);
    }
  }

  lemma {:induction false} OneMore(chip: Chip, chunks: seq<Chunk>, c: Chunk)
    ensures Bytewise(SkipInternal, chip, chunks + [c]) + Bytewise(SkipExternal, chip, chunks + [c]) ==
            Bytewise(SkipInternal, chip, chunks) + Bytewise(SkipExternal, chip, chunks)
              + multiset(Place(c.addr, c.bytes))
    ensures multiset(Flat(chunks + [c])) == multiset(Flat(chunks)) + multiset(Place(c.addr, c.bytes))
  {
    hide Bytewise, Flat, External;
    BytewiseMore(SkipInternal, chip, chunks, c);
    BytewiseMore(SkipExternal, chip, chunks, c);
    FlatMore(chunks, c);
  }

  /** The two passes together write every byte of every chunk, and nothing else. */
  lemma {:induction false} TwoPassesWriteAll(chip: Chip, chunks: seq<Chunk>)
    ensures Bytewise(SkipInternal, chip, chunks) + Bytewise(SkipExternal, chip, chunks) == multiset(Flat(chunks))
  {
    if chunks != [] {
      var front, c := chunks[..|chunks| - 1], chunks[|chunks| - 1];
      assert chunks == front + [c];
      TwoPassesWriteAll(chip, front);
      OneMore(chip, front, c);
    }
  }

  /** A load in one stage writes what the file means just when no empty record misleads the merger. */
  lemma {:induction false} FirstStageMeaning(chip: Chip, lines: seq<Line>)
    requires Status(lines) == 0
    ensures Flat(Written(Pass(InternalOnly, chip, Chunks(lines)))) == Meant(Records(lines)) <==> Sound(Records(lines))
  {
    OnePassWritesAll(chip, Chunks(lines));
    MeaningKeptIff(Records(lines));
  }

  /** A load in two stages then writes the same bytes to the same places, external memory first. */
  lemma {:induction false} SecondStageMeaning(chip: Chip, lines: seq<Line>)
    requires Status(lines) == 0 && Sound(Records(lines))
    ensures Bytewise(SkipInternal, chip, Chunks(lines)) + Bytewise(SkipExternal, chip, Chunks(lines)) ==
            multiset(Meant(Records(lines)))
  {
    TwoPassesWriteAll(chip, Chunks(lines));
    MeaningKeptIff(Records(lines));
  }
}
