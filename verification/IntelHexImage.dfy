/** The memory a load in two stages leaves behind. The second stage writes external chunks before on-chip ones,
    whatever their order in the file, so where chunks overlap the last one written need not be the last of the
    file. */
module IntelHexImage {
  import opened IntrusiveList
  import opened IntelHex

  /** What is at address `a` after some bytes were written: the last one written there. */
  ghost function At(w: seq<Poke>, a: nat): Option<byte> {
    if w == [] then None
    else if w[|w| - 1].addr == a then Some(w[|w| - 1].value)
    else At(w[..|w| - 1], a)
  }

  ghost predicate SameImage(w: seq<Poke>, w': seq<Poke>) {
    forall a :: At(w, a) == At(w', a)
  }

  lemma {:induction false} AtOnto(w: seq<Poke>, w': seq<Poke>, a: nat)
    ensures At(w + w', a) == if At(w', a).Some? then At(w', a) else At(w, a)
    decreases |w'|
  {
    if w' == [] {
      assert w + w' == w;
    } else {
      assert (w + w')[..|w + w'| - 1] == w + w'[..|w'| - 1];
      AtOnto(w, w'[..|w'| - 1], a);
    }
  }

  predicate Covers(c: Chunk, a: nat) {
    c.addr <= a < c.addr + |c.bytes|
  }

  function ByteAt(c: Chunk, a: nat): byte
    requires Covers(c, a)
  {
    c.bytes[a - c.addr]
  }

  lemma {:induction false} AtPlace(addr: nat, bytes: seq<byte>, a: nat)
    ensures At(Place(addr, bytes), a) == if Covers(Chunk(addr, bytes), a) then Some(bytes[a - addr]) else None
    decreases |bytes|
  {
    if bytes != [] {
      assert Place(addr, bytes)[..|bytes| - 1] == Place(addr, bytes[..|bytes| - 1]);
      AtPlace(addr, bytes[..|bytes| - 1], a);
    }
  }

  /** A pass in this mode writes the chunk. */
  predicate Takes(mode: Mode, chip: Chip, c: Chunk) {
    !Skips(mode, External(chip, c))
  }

  /** Chunk j is the last that a pass writes at `a`. */
  ghost predicate Latest(mode: Mode, chip: Chip, chunks: seq<Chunk>, a: nat, j: nat) {
    && j < |chunks| && Takes(mode, chip, chunks[j]) && Covers(chunks[j], a)
    && forall k :: j < k < |chunks| && Takes(mode, chip, chunks[k]) ==> !Covers(chunks[k], a)
  }

  /** What a pass writes, byte by byte. */
  ghost function Stored(mode: Mode, chip: Chip, chunks: seq<Chunk>): seq<Poke> {
    Flat(Written(Pass(mode, chip, chunks)))
  }

  lemma {:induction false} StoredMore(mode: Mode, chip: Chip, chunks: seq<Chunk>, c: Chunk)
    ensures Stored(mode, chip, chunks + [c]) ==
            if Takes(mode, chip, c) then Stored(mode, chip, chunks) + Place(c.addr, c.bytes)
              else Stored(mode, chip, chunks)
  {
    hide Flat, Written, Pass, External;
    PassMore(mode, chip, chunks, c);
    if Takes(mode, chip, c) {
      WrittenMore(Pass(mode, chip, chunks), Write(c));
      FlatMore(Written(Pass(mode, chip, chunks)), c);
    } else {
      assert Pass(mode, chip, chunks) + [] == Pass(mode, chip, chunks);
    }
  }

  /** `r` is what a pass leaves at `a`: the byte of the last chunk written there, j, if there is one. */
  ghost predicate Settles(mode: Mode, chip: Chip, chunks: seq<Chunk>, a: nat, r: Option<byte>, j: nat) {
    match r
    case None => forall k :: 0 <= k < |chunks| && Takes(mode, chip, chunks[k]) ==> !Covers(chunks[k], a)
    case Some(v) => Latest(mode, chip, chunks, a, j) && ByteAt(chunks[j], a) == v
  }

  lemma {:induction false} SettledAgain(mode: Mode, chip: Chip, front: seq<Chunk>, c: Chunk, a: nat, r: Option<byte>,
        j: nat)
    requires Settles(mode, chip, front, a, r, j) && !(Takes(mode, chip, c) && Covers(c, a))
    ensures Settles(mode, chip, front + [c], a, r, j)
  {
    hide Takes, Covers;
  }

  lemma {:induction false} SettledNow(mode: Mode, chip: Chip, front: seq<Chunk>, c: Chunk, a: nat)
    requires Takes(mode, chip, c) && Covers(c, a)
    ensures Settles(mode, chip, front + [c], a, Some(ByteAt(c, a)), |front|)
  {
    hide Takes;
  }

  lemma {:induction false} NothingStored(mode: Mode, chip: Chip, a: nat)
    ensures At(Stored(mode, chip, []), a) == None && Settles(mode, chip, [], a, None, 0)
  {
  }

  lemma {:induction false} AtChunk(c: Chunk, a: nat)
    ensures At(Place(c.addr, c.bytes), a) == if Covers(c, a) then Some(ByteAt(c, a)) else None
  {
    assert Chunk(c.addr, c.bytes) == c;
    AtPlace(c.addr, c.bytes, a);
    hide At, Place;
  }

  lemma {:induction false} AtMore(mode: Mode, chip: Chip, front: seq<Chunk>, c: Chunk, a: nat)
    ensures At(Stored(mode, chip, front + [c]), a) ==
            if Takes(mode, chip, c) && Covers(c, a) then Some(ByteAt(c, a)) else At(Stored(mode, chip, front), a)
  {
    hide *;
    StoredMore(mode, chip, front, c);
    AtOnto(Stored(mode, chip, front), Place(c.addr, c.bytes), a);
    AtChunk(c, a);
  }

  lemma {:induction false} AtStoredOn(mode: Mode, chip: Chip, front: seq<Chunk>, c: Chunk, a: nat, last: nat)
    returns (j: nat)
    requires Settles(mode, chip, front, a, At(Stored(mode, chip, front), a), last)
    ensures Settles(mode, chip, front + [c], a, At(Stored(mode, chip, front + [c]), a), j)
  {
    hide *;
    AtMore(mode, chip, front, c, a);
    if Takes(mode, chip, c) && Covers(c, a) {
      j := |front|;
      SettledNow(mode, chip, front, c, a);
    } else {
      j := last;
      SettledAgain(mode, chip, front, c, a, At(Stored(mode, chip, front), a), j);
    }
  }

  lemma {:induction false} AtStored(mode: Mode, chip: Chip, chunks: seq<Chunk>, a: nat) returns (j: nat)
    ensures Settles(mode, chip, chunks, a, At(Stored(mode, chip, chunks), a), j)
  {
    hide *;
    if chunks == [] {
      j := 0;
      NothingStored(mode, chip, a);
    } else {
      var front, c := chunks[..|chunks| - 1], chunks[|chunks| - 1];
      assert chunks == front + [c];
      j := AtStored(mode, chip, front, a);
      j := AtStoredOn(mode, chip, front, c, a, j);
    }
  }

  /** The last byte the file has for `a` is in the external chunk j, the last it has in an on-chip chunk is in
      chunk i, and they differ. */
  ghost predicate Clash(chip: Chip, chunks: seq<Chunk>, a: nat, i: nat, j: nat) {
    && Latest(SkipExternal, chip, chunks, a, i) && Latest(InternalOnly, chip, chunks, a, j)
    && External(chip, chunks[j]) && ByteAt(chunks[i], a) != ByteAt(chunks[j], a)
  }

  ghost predicate NoClash(chip: Chip, chunks: seq<Chunk>, a: nat) {
    forall i, j :: !Clash(chip, chunks, a, i, j)
  }

  lemma {:induction false} AllTaken(chip: Chip, c: Chunk)
    ensures Takes(InternalOnly, chip, c) && (Takes(SkipExternal, chip, c) <==> !External(chip, c))
    ensures Takes(SkipInternal, chip, c) <==> External(chip, c)
  {
    hide External;
  }

  /** The last chunk for an address is the last of its kind. */
  lemma {:induction false} LatestOfKind(chip: Chip, chunks: seq<Chunk>, a: nat, j: nat)
    requires Latest(InternalOnly, chip, chunks, a, j)
    ensures Latest(if External(chip, chunks[j]) then SkipInternal else SkipExternal, chip, chunks, a, j)
  {
    hide External;
    forall k | 0 <= k < |chunks| ensures Takes(InternalOnly, chip, chunks[k]) {
      AllTaken(chip, chunks[k]);
    }
    AllTaken(chip, chunks[j]);
  }

  /** What a pass leaves is settled by any chunk known to be the last. */
  lemma {:induction false} OneAnswer(mode: Mode, chip: Chip, chunks: seq<Chunk>, a: nat, r: Option<byte>, j: nat,
        i: nat)
    requires Settles(mode, chip, chunks, a, r, j)
    ensures Latest(mode, chip, chunks, a, i) ==> r == Some(ByteAt(chunks[i], a)) && i == j
    ensures r.Some? ==> Latest(mode, chip, chunks, a, j) && r == Some(ByteAt(chunks[j], a))
  {
    hide Takes, Covers;
  }

  /** No chunk at all for the address: none of either kind. */
  lemma {:induction false} NoneOfKind(chip: Chip, chunks: seq<Chunk>, a: nat, x: Option<byte>, i: nat, y: Option<byte>,
        j: nat)
    requires Settles(InternalOnly, chip, chunks, a, None, 0)
    requires Settles(SkipInternal, chip, chunks, a, x, i) && Settles(SkipExternal, chip, chunks, a, y, j)
    ensures x == y == None
  {
    hide External, Covers;
    assert forall k :: 0 <= k < |chunks| ==> Takes(InternalOnly, chip, chunks[k]);
  }

  lemma {:induction false} EmptyAnswer(mode: Mode, chip: Chip, chunks: seq<Chunk>, a: nat, j: nat, j': nat)
    requires Settles(mode, chip, chunks, a, None, j)
    ensures Settles(mode, chip, chunks, a, None, j')
  {
  }

  /** Whether there is a clash at `a`, by what the passes would leave there. */
  lemma {:induction false} ClashIff(chip: Chip, chunks: seq<Chunk>, a: nat, y: Option<byte>, i: nat, z: Option<byte>,
        j: nat)
    requires Settles(SkipExternal, chip, chunks, a, y, i) && Settles(InternalOnly, chip, chunks, a, z, j)
    requires z.Some? ==> j < |chunks|
    ensures NoClash(chip, chunks, a) <==> !(z.Some? && External(chip, chunks[j]) && y.Some? && y != z)
  {
    hide Settles, Latest, External;
    forall i', j'
      ensures Clash(chip, chunks, a, i', j') ==>
              i' == i && j' == j && z.Some? && External(chip, chunks[j]) && y.Some? && y != z
    {
      OneAnswer(SkipExternal, chip, chunks, a, y, i, i');
      OneAnswer(InternalOnly, chip, chunks, a, z, j, j');
    }
    OneAnswer(SkipExternal, chip, chunks, a, y, i, i);
    OneAnswer(InternalOnly, chip, chunks, a, z, j, j);
    if z.Some? && External(chip, chunks[j]) && y.Some? && y != z {
      assert Clash(chip, chunks, a, i, j);
    }
  }

  lemma {:induction false} InRange(mode: Mode, chip: Chip, chunks: seq<Chunk>, a: nat, j: nat)
    requires Latest(mode, chip, chunks, a, j)
    ensures j < |chunks| && Covers(chunks[j], a)
  {
  }

  /** One address after both passes. */
  lemma {:induction false} AtBoth(chip: Chip, chunks: seq<Chunk>, a: nat)
    ensures At(Stored(SkipInternal, chip, chunks) + Stored(SkipExternal, chip, chunks), a)
            == At(Stored(InternalOnly, chip, chunks), a)
      <==> NoClash(chip, chunks, a)
  {
    hide *;
    AtOnto(Stored(SkipInternal, chip, chunks), Stored(SkipExternal, chip, chunks), a);
    var e := AtStored(SkipInternal, chip, chunks, a);
    var i := AtStored(SkipExternal, chip, chunks, a);
    var j := AtStored(InternalOnly, chip, chunks, a);
    var x, y := At(Stored(SkipInternal, chip, chunks), a), At(Stored(SkipExternal, chip, chunks), a);
    var z := At(Stored(InternalOnly, chip, chunks), a);
    OneAnswer(InternalOnly, chip, chunks, a, z, j, j);
    if z.None? {
      EmptyAnswer(InternalOnly, chip, chunks, a, j, 0);
      NoneOfKind(chip, chunks, a, x, e, y, i);
    } else {
      InRange(InternalOnly, chip, chunks, a, j);
      LatestOfKind(chip, chunks, a, j);
      OneAnswer(SkipInternal, chip, chunks, a, x, e, j);
      OneAnswer(SkipExternal, chip, chunks, a, y, i, j);
    }
    ClashIff(chip, chunks, a, y, i, z, j);
  }

  lemma {:induction false} WrittenBoth(e: seq<Event>, f: seq<Event>)
    ensures Written(e + f) == Written(e) + Written(f)
    decreases |f|
  {
    if f == [] {
      assert e + f == e && Written(e) + [] == Written(e);
    } else {
      var front, last := f[..|f| - 1], f[|f| - 1];
      assert f == front + [last] && e + f == (e + front) + [last];
      WrittenBoth(e, front);
      hide Written;
      WrittenMore(e + front, last);
      WrittenMore(front, last);
    }
  }

  lemma {:induction false} FlatBoth(cs: seq<Chunk>, ds: seq<Chunk>)
    ensures Flat(cs + ds) == Flat(cs) + Flat(ds)
    decreases |ds|
  {
    if ds == [] {
      assert cs + ds == cs && Flat(cs) + [] == Flat(cs);
    } else {
      var front, last := ds[..|ds| - 1], ds[|ds| - 1];
      assert ds == front + [last] && cs + ds == (cs + front) + [last];
      FlatBoth(cs, front);
      hide Flat;
      FlatMore(cs + front, last);
      FlatMore(front, last);
    }
  }

  /** What a second-stage load sends. */
  function SecondStage(chip: Chip, chunks: seq<Chunk>): seq<Event> {
    Pass(SkipInternal, chip, chunks) + [StopCpu] + Pass(SkipExternal, chip, chunks) + [ResetCpu]
  }

  lemma {:induction false} SecondStageStores(chip: Chip, chunks: seq<Chunk>)
    ensures Flat(Written(SecondStage(chip, chunks)))
            == Stored(SkipInternal, chip, chunks) + Stored(SkipExternal, chip, chunks)
  {
    hide Flat, Pass;
    var e, f := Pass(SkipInternal, chip, chunks), Pass(SkipExternal, chip, chunks);
    WrittenMore(e, StopCpu);
    WrittenMore(e + [StopCpu] + f, ResetCpu);
    WrittenBoth(e + [StopCpu], f);
    FlatBoth(Written(e), Written(f));
  }

  lemma {:induction false} StoredIs(chip: Chip, chunks: seq<Chunk>)
    ensures Stored(InternalOnly, chip, chunks) == Flat(Written(Pass(InternalOnly, chip, chunks)))
  {
  }

  lemma {:induction false} ImageIff(chip: Chip, chunks: seq<Chunk>)
    ensures SameImage(Stored(SkipInternal, chip, chunks) + Stored(SkipExternal, chip, chunks),
      Stored(InternalOnly, chip, chunks))
      <==> forall a :: NoClash(chip, chunks, a)
  {
    hide Stored, NoClash, At;
    forall a: nat
      ensures At(Stored(SkipInternal, chip, chunks) + Stored(SkipExternal, chip, chunks), a)
              == At(Stored(InternalOnly, chip, chunks), a)
        <==> NoClash(chip, chunks, a)
    {
      AtBoth(chip, chunks, a);
    }
  }

  /** A load in two stages leaves the memory as the file means it, read in order, just when no on-chip chunk has the
      last word on a byte where the file gives that to an external one with another value. */
  lemma {:induction false} SecondStageImageIff(chip: Chip, lines: seq<Line>)
    requires Status(lines) == 0 && Sound(Records(lines))
    ensures SameImage(Flat(Written(SecondStage(chip, Chunks(lines)))), Meant(Records(lines)))
      <==> forall a :: NoClash(chip, Chunks(lines), a)
  {
    var chunks := Chunks(lines);
    FirstStageMeaning(chip, lines);
    SecondStageStores(chip, chunks);
    hide *;
    StoredIs(chip, chunks);
    ImageIff(chip, chunks);
  }

  /** It can happen: the last on-chip byte, and then two bytes that begin there and run over the edge. */
  lemma {:induction false} OverlapClashes(b: byte, b': byte, b'': byte)
    requires b != b'
    ensures Clash(FX, [Chunk(0x1b3f, [b]), Chunk(0x1b3f, [b', b''])], 0x1b3f, 0, 1)
  {
    var chunks := [Chunk(0x1b3f, [b]), Chunk(0x1b3f, [b', b''])];
    assert !External(FX, chunks[0]) && External(FX, chunks[1]);
    assert Latest(SkipExternal, FX, chunks, 0x1b3f, 0);
    assert Latest(InternalOnly, FX, chunks, 0x1b3f, 1);
  }
}
