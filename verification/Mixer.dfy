/** The audio mixer: sounds wait in a fixed table of slots, and every fill of the playback buffer adds up the next
    samples of each. */
module Mixer {
  import opened IntrusiveList

  const MAX_SOUND_BITES := 30
  const SAMPLE_SIZE := 2
  const SHRT_MAX := 32767
  const SHRT_MIN := -32768

  type Sample = x: int | SHRT_MIN <= x <= SHRT_MAX

  /** A wave in memory; a sound that can be queued has at least one sample. */
  datatype Sound = Sound(id: nat, data: seq<Sample>)

  /** A free slot has no sound. */
  datatype Slot = Slot(sound: Option<Sound>, location: nat)

  const FREE := Slot(None, 0)

  /** clipNum: a value out of range becomes one less extreme than the limit. */
  function Clip(num: int): (r: Sample)
    ensures SHRT_MIN <= num <= SHRT_MAX ==> r == num
    ensures num > SHRT_MAX ==> r == SHRT_MAX - 1
    ensures num < SHRT_MIN ==> r == SHRT_MIN + 1
  {
    if num > SHRT_MAX then SHRT_MAX - 1 else if num < SHRT_MIN then SHRT_MIN + 1 else num
  }

  function Plus(a: Sample, b: Sample): Sample {
    Clip(a as int + b as int)
  }

  predicate GoodSlot(slot: Slot) {
    if slot.sound.None? then slot.location == 0 else slot.location < |slot.sound.value.data|
  }

  predicate Good(slots: seq<Slot>) {
    forall i :: 0 <= i < |slots| ==> GoodSlot(slots[i])
  }

  function Occupied(slots: seq<Slot>): (n: nat)
    ensures n <= |slots|
  {
    if slots == [] then 0 else
    Occupied(slots[..|slots| - 1]) + if slots[|slots| - 1].sound.Some? then 1 else 0
  }

  lemma {:induction false} OccupiedOn(slots: seq<Slot>, i: nat)
    requires i < |slots|
    ensures Occupied(slots[..i + 1]) == Occupied(slots[..i]) + if slots[i].sound.Some? then 1 else 0
  {
    assert slots[..i + 1][..i] == slots[..i];
  }

  lemma {:induction false} OccupiedGrows(slots: seq<Slot>, i: nat, j: nat)
    requires i <= j <= |slots|
    ensures Occupied(slots[..i]) <= Occupied(slots[..j])
    decreases j
  {
    if i < j {
      OccupiedGrows(slots, i, j - 1);
      OccupiedOn(slots, j - 1);
    }
  }

  /** Whether a fill of `size` values gets to the slot: every sounding slot before it has used up some of the size. */
  predicate Reached(slots: seq<Slot>, i: nat, size: nat)
    requires i < |slots|
  {
    slots[i].sound.Some? && SAMPLE_SIZE * Occupied(slots[..i]) < size
  }

  /** A slot after a fill that got to it. */
  function Played(slot: Slot, size: nat): Slot
    requires slot.sound.Some?
  {
    if slot.location + size >= |slot.sound.value.data| then FREE else slot.(location := slot.location + size)
  }

  function AfterFill(slots: seq<Slot>, size: nat): (r: seq<Slot>)
    ensures |r| == |slots|
    ensures forall i :: 0 <= i < |slots| ==>
            r[i] == if Reached(slots, i, size) then Played(slots[i], size) else slots[i]
  {
    seq(|slots|, i requires 0 <= i < |slots| => if Reached(slots, i, size) then Played(slots[i], size) else slots[i])
  }

  /** The part of its sound that a slot adds to a fill. */
  function Share(slot: Slot, size: nat): (r: seq<Sample>)
    requires GoodSlot(slot) && slot.sound.Some?
    ensures |r| <= size
  {
    var data := slot.sound.value.data;
    if slot.location + size >= |data| then data[slot.location..] else data[slot.location..slot.location + size]
  }

  /** A buffer with the samples added to its beginning. */
  function Added(buff: seq<Sample>, share: seq<Sample>): (r: seq<Sample>)
    requires |share| <= |buff|
    ensures |r| == |buff|
    ensures forall k :: 0 <= k < |buff| ==> r[k] == if k < |share| then Plus(buff[k], share[k]) else buff[k]
  {
    seq(|buff|, k requires 0 <= k < |buff| => if k < |share| then Plus(buff[k], share[k]) else buff[k])
  }

  /** The buffer after the first i slots. */
  function Output(slots: seq<Slot>, i: nat, size: nat): (r: seq<Sample>)
    requires i <= |slots| && Good(slots)
    ensures |r| == size
  {
    if i == 0 then seq(size, k => 0)
    else if Reached(slots, i - 1, size) then Added(Output(slots, i - 1, size), Share(slots[i - 1], size))
    else Output(slots, i - 1, size)
  }

  /** The table when the fill has passed the first i slots. */
  function AfterSome(slots: seq<Slot>, i: nat, size: nat): seq<Slot>
    requires i <= |slots|
  {
    AfterFill(slots, size)[..i] + slots[i..]
  }

  lemma {:induction false} SlotIsReached(slots: seq<Slot>, i: nat, size: nat)
    requires i < |slots| && Good(slots)
    ensures slots[i].sound.None? ==> !Reached(slots, i, size)
    ensures slots[i].sound.Some? ==> slots[i].location < |slots[i].sound.value.data|
    ensures slots[i].sound.Some? ==> slots[i] == Slot(Some(slots[i].sound.value), slots[i].location)
  {
  }

  lemma {:induction false} PlayedIs(slot: Slot, size: nat, offset: nat)
    requires slot.sound.Some?
    requires offset == if slot.location + size >= |slot.sound.value.data|
                       then |slot.sound.value.data| else slot.location + size
    ensures Played(slot, size) == if offset >= |slot.sound.value.data| then FREE else slot.(location := offset)
    ensures FREE.sound.None?
  {
  }

  /** Changing one slot changes the number occupied by that slot's difference. */
  lemma {:induction false} OccupiedWith(slots: seq<Slot>, i: nat, slot: Slot)
    requires i < |slots|
    ensures Occupied(slots[i := slot]) ==
            Occupied(slots) + (if slot.sound.Some? then 1 else 0) - if slots[i].sound.Some? then 1 else 0
    decreases |slots|
  {
    if i == |slots| - 1 {
      assert slots[i := slot][..i] == slots[..i];
    } else {
      OccupiedWith(slots[..|slots| - 1], i, slot);
      assert slots[i := slot][..|slots| - 1] == slots[..|slots| - 1][i := slot];
    }
  }

  lemma {:induction false} SomeOn(slots: seq<Slot>, i: nat, size: nat)
    requires i < |slots| && Good(slots)
    ensures |AfterSome(slots, i, size)| == |slots| && AfterSome(slots, i, size)[i] == slots[i] && GoodSlot(slots[i])
    ensures var after := if Reached(slots, i, size) then Played(slots[i], size) else slots[i];
      && AfterSome(slots, i + 1, size) == AfterSome(slots, i, size)[i := after]
      && Occupied(AfterSome(slots, i + 1, size)) == Occupied(AfterSome(slots, i, size))
         + (if after.sound.Some? then 1 else 0) - if slots[i].sound.Some? then 1 else 0
    ensures Output(slots, i + 1, size) ==
            if Reached(slots, i, size) then Added(Output(slots, i, size), Share(slots[i], size))
              else Output(slots, i, size)
  {
    hide Occupied;
    var after := if Reached(slots, i, size) then Played(slots[i], size) else slots[i];
    OccupiedWith(AfterSome(slots, i, size), i, after);
  }

  lemma {:induction false} NotReachedOn(slots: seq<Slot>, i: nat, size: nat)
    requires i < |slots| && Good(slots) && SAMPLE_SIZE * Occupied(slots[..i]) >= size
    ensures SAMPLE_SIZE * Occupied(slots[..i + 1]) >= size
    ensures AfterSome(slots, i, size) == AfterSome(slots, i + 1, size)
    ensures Output(slots, i, size) == Output(slots, i + 1, size)
  {
    OccupiedOn(slots, i);
    hide Occupied;
    assert slots[i..] == [slots[i]] + slots[i + 1..];
  }

  lemma {:induction false} AllPassed(slots: seq<Slot>, size: nat)
    requires Good(slots)
    ensures AfterSome(slots, |slots|, size) == AfterFill(slots, size) && Good(AfterFill(slots, size))
  {
    assert AfterFill(slots, size)[..|slots|] == AfterFill(slots, size);
  }

  /** Once the size is used up no further slot is reached. */
  lemma {:induction false} RestNotReached(slots: seq<Slot>, i: nat, size: nat)
    requires i <= |slots| && Good(slots) && (i == |slots| || SAMPLE_SIZE * Occupied(slots[..i]) >= size)
    ensures AfterSome(slots, i, size) == AfterFill(slots, size) && Good(AfterFill(slots, size))
    ensures Output(slots, i, size) == Output(slots, |slots|, size)
    decreases |slots| - i
  {
    hide *;
    if i < |slots| {
      NotReachedOn(slots, i, size);
      RestNotReached(slots, i + 1, size);
    } else {
      AllPassed(slots, size);
    }
  }

  /** The table after a sound is queued. */
  function Queued(slots: seq<Slot>, sound: Sound): (r: seq<Slot>)
    ensures |r| == |slots|
  {
    if slots == [] then []
    else if slots[0].sound.None? then [slots[0].(sound := Some(sound))] + slots[1..]
    else [slots[0]] + Queued(slots[1..], sound)
  }

  lemma {:induction false} NoneOccupied(slots: seq<Slot>)
    requires forall i :: 0 <= i < |slots| ==> slots[i].sound.None?
    ensures Occupied(slots) == 0
  {
    if slots != [] {
      NoneOccupied(slots[..|slots| - 1]);
    }
  }

  lemma {:induction false} OccupiedAll(slots: seq<Slot>)
    requires forall i :: 0 <= i < |slots| ==> slots[i].sound.Some?
    ensures Occupied(slots) == |slots|
  {
    if slots != [] {
      OccupiedAll(slots[..|slots| - 1]);
    }
  }

  lemma {:induction false} AllTaken(slots: seq<Slot>, sound: Sound)
    requires forall i :: 0 <= i < |slots| ==> slots[i].sound.Some?
    ensures Queued(slots, sound) == slots && Occupied(slots) == |slots|
  {
    if slots != [] {
      AllTaken(slots[1..], sound);
      OccupiedAll(slots);
    }
  }

  predicate IsFirstFree(slots: seq<Slot>, i: int) {
    0 <= i < |slots| && slots[i].sound.None? && forall j :: 0 <= j < i ==> slots[j].sound.Some?
  }

  lemma {:induction false} QueuedAt(slots: seq<Slot>, i: nat, sound: Sound)
    requires i < |slots| && slots[i].sound.None? && forall j :: 0 <= j < i ==> slots[j].sound.Some?
    ensures Queued(slots, sound) == slots[i := slots[i].(sound := Some(sound))]
  {
    if i > 0 {
      QueuedAt(slots[1..], i - 1, sound);
    }
  }

  lemma {:induction false} TakenAt(slots: seq<Slot>, i: nat, sound: Sound)
    requires i < |slots| && slots[i].sound.None? && forall j :: 0 <= j < i ==> slots[j].sound.Some?
    ensures Queued(slots, sound) == slots[i := slots[i].(sound := Some(sound))]
    ensures Occupied(Queued(slots, sound)) == Occupied(slots) + 1 && Occupied(slots) < |slots|
  {
    var slot := slots[i].(sound := Some(sound));
    QueuedAt(slots, i, sound);
    OccupiedWith(slots, i, slot);
    OccupiedWith(slots[i := slot], i, slot);
  }

  class Mixer {
    const soundBites: array<Slot>
    var numSoundBites: int

    ghost predicate Valid()
      reads this, soundBites
    {
      && soundBites.Length == MAX_SOUND_BITES && Good(soundBites[..])
      && numSoundBites == Occupied(soundBites[..])
    }

    constructor ()
      ensures Valid() && fresh(soundBites) && forall i :: 0 <= i < MAX_SOUND_BITES ==> soundBites[i] == FREE
    {
      soundBites := new Slot[MAX_SOUND_BITES](i => FREE);
      numSoundBites := 0;
      new;
      NoneOccupied(soundBites[..]);
    }

    /** AudioMixer_queueSound: the first free slot takes the sound. */
    method QueueSound(sound: Sound) returns (r: int)
      requires Valid() && sound.data != []
      modifies `numSoundBites, soundBites
      ensures Valid() && soundBites[..] == Queued(old(soundBites[..]), sound)
      ensures r == 0 ==>
              exists i :: IsFirstFree(old(soundBites[..]), i)
                          && soundBites[..] == old(soundBites[..])[i := Slot(Some(sound), 0)]
      ensures r == -1 ==> soundBites[..] == old(soundBites[..])
      ensures r == 0 <==> old(numSoundBites) < MAX_SOUND_BITES
      ensures r == -1 || r == 0
      ensures numSoundBites == old(numSoundBites) + if r == 0 then 1 else 0
    {
      ghost var was := soundBites[..];
      var i := 0;
      while i < MAX_SOUND_BITES
        invariant i <= MAX_SOUND_BITES && soundBites[..] == was && numSoundBites == old(numSoundBites)
        invariant forall j :: 0 <= j < i ==> was[j].sound.Some?
      {
        if soundBites[i].sound == None {
          soundBites[i] := soundBites[i].(sound := Some(sound));
          numSoundBites := numSoundBites + 1;
          TakenAt(was, i, sound);
          assert IsFirstFree(was, i) && GoodSlot(was[i]);
          return 0;
        }
        i := i + 1;
      }
      AllTaken(was, sound);
      r := -1;
    }

    /** The inner loop of fillPlaybackBuffer: one sound is added to the buffer. */
    method AddSound(buff: array<Sample>, sound: Sound, location: nat) returns (offset: nat)
      requires location < |sound.data|
      modifies buff
      ensures offset == if location + buff.Length >= |sound.data| then |sound.data| else location + buff.Length
      ensures buff[..] == Added(old(buff[..]), Share(Slot(Some(sound), location), buff.Length))
    {
      ghost var was, share := buff[..], Share(Slot(Some(sound), location), buff.Length);
      offset := location;
      var j, k := location, 0;
      while j < |sound.data| && k < buff.Length
        invariant k <= buff.Length && j == location + k <= |sound.data| && offset == j
        invariant forall m :: 0 <= m < k ==> m < |share| && buff[m] == Plus(was[m], share[m])
        invariant forall m :: k <= m < buff.Length ==> buff[m] == was[m]
      {
        var shrtData: int := buff[k] as int + sound.data[j] as int;
        buff[k] := Clip(shrtData);
        offset, j, k := offset + 1, j + 1, k + 1;
      }
    }

    /** A slot's turn in fillPlaybackBuffer. */
    method PlaySlot(buff: array<Sample>, i: nat, ghost was: seq<Slot>) returns (sounding: bool)
      requires soundBites.Length == MAX_SOUND_BITES == |was| && i < MAX_SOUND_BITES && Good(was)
      requires was[i].sound.Some? ==> Reached(was, i, buff.Length)
      requires soundBites[..] == AfterSome(was, i, buff.Length) && numSoundBites == Occupied(soundBites[..])
      requires buff[..] == Output(was, i, buff.Length)
      modifies `numSoundBites, soundBites, buff
      ensures sounding == was[i].sound.Some?
      ensures soundBites[..] == AfterSome(was, i + 1, buff.Length) && numSoundBites == Occupied(soundBites[..])
      ensures buff[..] == Output(was, i + 1, buff.Length)
    {
      SomeOn(was, i, buff.Length);
      SlotIsReached(was, i, buff.Length);
      hide *;
      ghost var all := soundBites[..];
      var slot := soundBites[i];
      assert slot == all[i];
      sounding := slot.sound.Some?;
      if sounding {
        var offset := AddSound(buff, slot.sound.value, slot.location);
        PlayedIs(slot, buff.Length, offset);
        var finished := offset >= |slot.sound.value.data|;
        soundBites[i] := if finished then FREE else slot.(location := offset);
        assert soundBites[..] == all[i := soundBites[i]];
        numSoundBites := if finished then numSoundBites - 1 else numSoundBites;
      } else {
        assert all[i := slot] == all;
      }
    }

    /** fillPlaybackBuffer. */
    method FillPlaybackBuffer(buff: array<Sample>)
      requires Valid()
      modifies `numSoundBites, soundBites, buff
      ensures Valid() && soundBites[..] == AfterFill(old(soundBites[..]), buff.Length)
      ensures buff[..] == Output(old(soundBites[..]), MAX_SOUND_BITES, buff.Length)
    {
      ghost var was := soundBites[..];
      var size := buff.Length;
      forall k | 0 <= k < size {
        buff[k] := 0;
      }
      var i, currSize := 0, 0;
      assert was[..0] == [] && AfterSome(was, 0, size) == was;
      hide Occupied, AfterSome, Output, Good;
      while i < MAX_SOUND_BITES && currSize < size
        invariant i <= MAX_SOUND_BITES && currSize == SAMPLE_SIZE * Occupied(was[..i])
        invariant soundBites[..] == AfterSome(was, i, size) && numSoundBites == Occupied(soundBites[..])
        invariant buff[..] == Output(was, i, size)
      {
        OccupiedOn(was, i);
        var sounding := PlaySlot(buff, i, was);
        if sounding {
          currSize := currSize + SAMPLE_SIZE;
        }
        i := i + 1;
      }
      RestNotReached(was, i, size);
    }
  }

  lemma {:induction false} LastOccupied(slots: seq<Slot>) returns (i: nat)
    requires Occupied(slots) > 0
    ensures i < |slots| && slots[i].sound.Some? && Occupied(slots[..i]) == Occupied(slots) - 1
  {
    i := |slots| - 1;
    if slots[i].sound.None? {
      i := LastOccupied(slots[..i]);
      assert slots[..|slots| - 1][..i] == slots[..i];
    }
  }

  /** Every sounding slot is reached exactly when the size covers those before the last one. */
  lemma {:induction false} AllReachedIff(slots: seq<Slot>, size: nat)
    ensures (forall i :: 0 <= i < |slots| && slots[i].sound.Some? ==> Reached(slots, i, size)) <==>
            Occupied(slots) == 0 || SAMPLE_SIZE * (Occupied(slots) - 1) < size
  {
    assert slots[..|slots|] == slots;
    forall i | 0 <= i < |slots| && slots[i].sound.Some? ensures Occupied(slots[..i]) < Occupied(slots) {
      OccupiedOn(slots, i);
      OccupiedGrows(slots, i + 1, |slots|);
    }
    if Occupied(slots) > 0 {
      var last := LastOccupied(slots);
    }
  }

  /** The sum of what the first i slots add to an output value. */
  function Total(slots: seq<Slot>, i: nat, size: nat, k: nat): int
    requires i <= |slots| && Good(slots)
  {
    if i == 0 then 0 else
    Total(slots, i - 1, size, k) +
    if Reached(slots, i - 1, size) && k < |Share(slots[i - 1], size)| then Share(slots[i - 1], size)[k] as int else 0
  }

  /** What slot i adds to value k. */
  function Term(slots: seq<Slot>, i: nat, size: nat, k: nat): int
    requires i < |slots| && Good(slots)
  {
    Total(slots, i + 1, size, k) - Total(slots, i, size, k)
  }

  lemma {:induction false} NextSum(slots: seq<Slot>, i: nat, size: nat, k: nat)
    requires i < |slots| && Good(slots) && k < size
    ensures Output(slots, i + 1, size)[k] == Clip(Output(slots, i, size)[k] as int + Term(slots, i, size, k))
  {
    hide Reached, Share, Good;
  }

  lemma {:induction false} NoSum(slots: seq<Slot>, size: nat, k: nat)
    requires Good(slots) && k < size
    ensures Output(slots, 0, size)[k] == 0 && Total(slots, 0, size, k) == 0
  {
  }

  /** From slot j on the shares simply add up, as long as no sum on the way leaves the range of a sample. */
  lemma {:induction false} SumFrom(slots: seq<Slot>, j: nat, i: nat, size: nat, k: nat, start: Sample)
    requires j <= i <= |slots| && Good(slots) && k < size && Output(slots, j, size)[k] == start
    requires forall m :: j <= m <= i ==>
               SHRT_MIN <= start as int + Total(slots, m, size, k) - Total(slots, j, size, k) <= SHRT_MAX
    ensures Output(slots, i, size)[k] as int == start as int + Total(slots, i, size, k) - Total(slots, j, size, k)
    decreases i
  {
    hide Output, Total, Good;
    if i > j {
      SumFrom(slots, j, i - 1, size, k, start);
      NextSum(slots, i - 1, size, k);
    }
  }

  /** As long as no partial sum leaves the range of a sample, the output is the plain sum. */
  lemma {:induction false} PlainSum(slots: seq<Slot>, i: nat, size: nat, k: nat)
    requires i <= |slots| && Good(slots) && k < size
    requires forall j :: 0 <= j <= i ==> SHRT_MIN <= Total(slots, j, size, k) <= SHRT_MAX
    ensures Output(slots, i, size)[k] == Total(slots, i, size, k)
  {
    hide Output, Total, Good;
    NoSum(slots, size, k);
    SumFrom(slots, 0, i, size, k, 0);
  }

  /** What is left of a sum that passes a limit: one inside that limit. */
  function Limit(up: bool): Sample {
    if up then SHRT_MAX - 1 else SHRT_MIN + 1
  }

  /** When the share of slot j takes the sum `before` it out of range, the value is put one inside the limit passed,
      what came before is forgotten, and later shares add up from there until the range is left again. */
  lemma {:induction false} ClippedSum(slots: seq<Slot>, j: nat, i: nat, size: nat, k: nat, before: Sample, up: bool)
    requires j < i <= |slots| && Good(slots) && k < size && Output(slots, j, size)[k] == before
    requires if up then before as int + Term(slots, j, size, k) > SHRT_MAX
             else before as int + Term(slots, j, size, k) < SHRT_MIN
    requires forall m :: j < m <= i ==>
               SHRT_MIN <= Limit(up) as int + Total(slots, m, size, k) - Total(slots, j + 1, size, k) <= SHRT_MAX
    ensures Output(slots, i, size)[k] as int ==
            Limit(up) as int + Total(slots, i, size, k) - Total(slots, j + 1, size, k)
  {
    hide Output, Total, Term, Good;
    NextSum(slots, j, size, k);
    SumFrom(slots, j + 1, i, size, k, Limit(up));
  }

  /** So when the plain sum leaves the range for the first time. */
  lemma {:induction false} FirstClip(slots: seq<Slot>, j: nat, i: nat, size: nat, k: nat, up: bool)
    requires j < i <= |slots| && Good(slots) && k < size
    requires forall m :: 0 <= m <= j ==> SHRT_MIN <= Total(slots, m, size, k) <= SHRT_MAX
    requires if up then Total(slots, j + 1, size, k) > SHRT_MAX else Total(slots, j + 1, size, k) < SHRT_MIN
    requires forall m :: j < m <= i ==>
               SHRT_MIN <= Limit(up) as int + Total(slots, m, size, k) - Total(slots, j + 1, size, k) <= SHRT_MAX
    ensures Output(slots, i, size)[k] as int ==
            Limit(up) as int + Total(slots, i, size, k) - Total(slots, j + 1, size, k)
  {
    hide Output, Total, Good, Limit;
    PlainSum(slots, j, size, k);
    ClippedSum(slots, j, i, size, k, Total(slots, j, size, k), up);
  }

  datatype Op = Queue(sound: Sound) | Fill

  function Exec(slots: seq<Slot>, op: Op, size: nat): (r: seq<Slot>)
    ensures |r| == |slots|
  {
    match op
    case Queue(sound) => Queued(slots, sound)
    case Fill => AfterFill(slots, size)
  }

  /** The table after some calls; `size` is the size of the playback buffer, which never changes. */
  function Run(slots: seq<Slot>, ops: seq<Op>, size: nat): (r: seq<Slot>)
    ensures |r| == |slots|
  {
    if ops == [] then slots else Exec(Run(slots, ops[..|ops| - 1], size), ops[|ops| - 1], size)
  }

  function Fills(ops: seq<Op>): nat {
    if ops == [] then 0 else Fills(ops[..|ops| - 1]) + if ops[|ops| - 1].Fill? then 1 else 0
  }

  predicate Queueable(ops: seq<Op>) {
    forall op :: op in ops && op.Queue? ==> op.sound.data != []
  }

  lemma {:induction false} QueuedGood(slots: seq<Slot>, sound: Sound)
    requires Good(slots) && sound.data != []
    ensures Good(Queued(slots, sound))
    ensures forall i :: 0 <= i < |slots| && slots[i].sound.Some? ==> Queued(slots, sound)[i] == slots[i]
  {
    if slots != [] && slots[0].sound.Some? {
      QueuedGood(slots[1..], sound);
    }
  }

  lemma {:induction false} StaysGood(slots: seq<Slot>, ops: seq<Op>, size: nat)
    requires Good(slots) && Queueable(ops)
    ensures Good(Run(slots, ops, size))
  {
    if ops != [] {
      var before := Run(slots, ops[..|ops| - 1], size);
      StaysGood(slots, ops[..|ops| - 1], size);
      if ops[|ops| - 1].Queue? {
        QueuedGood(before, ops[|ops| - 1].sound);
      }
    }
  }

  /** What slot i has added to the output over the calls. */
  ghost function Heard(slots: seq<Slot>, ops: seq<Op>, size: nat, i: nat): seq<Sample>
    requires i < |slots| && Good(slots) && Queueable(ops)
  {
    if ops == [] then [] else
    var before := Run(slots, ops[..|ops| - 1], size);
    StaysGood(slots, ops[..|ops| - 1], size);
    Heard(slots, ops[..|ops| - 1], size, i) +
    if ops[|ops| - 1].Fill? && Reached(before, i, size) then Share(before[i], size) else []
  }

  /** Slot i has come `taken` samples further, and they have been heard. */
  ghost predicate PlayedOn(slots: seq<Slot>, ops: seq<Op>, size: nat, i: nat, taken: nat)
    requires i < |slots| && Good(slots) && Queueable(ops) && slots[i].sound.Some?
  {
    var slot := slots[i];
    var data := slot.sound.value.data;
    && slot.location + taken < |data|
    && Run(slots, ops, size)[i] == slot.(location := slot.location + taken)
    && Heard(slots, ops, size, i) == data[slot.location..slot.location + taken]
  }

  lemma {:induction false} QueueableFront(ops: seq<Op>)
    requires Queueable(ops) && ops != []
    ensures Queueable(ops[..|ops| - 1])
  {
  }

  lemma {:induction false} AllReached(slots: seq<Slot>, size: nat, i: nat)
    requires i < |slots| && slots[i].sound.Some? && SAMPLE_SIZE * (|slots| - 1) < size
    ensures Reached(slots, i, size)
  {
    AllReachedIff(slots, size);
  }

  /** The last call of a run, as one slot sees it. */
  lemma {:induction false} RunOn(slots: seq<Slot>, ops: seq<Op>, size: nat, i: nat)
    requires Good(slots) && Queueable(ops) && i < |slots| && ops != [] && Good(Run(slots, ops[..|ops| - 1], size))
    ensures var front, before := ops[..|ops| - 1], Run(slots, ops[..|ops| - 1], size);
      if ops[|ops| - 1].Queue? then
        && Fills(ops) == Fills(front) && Heard(slots, ops, size, i) == Heard(slots, front, size, i)
        && (before[i].sound.Some? ==> Run(slots, ops, size)[i] == before[i])
      else
        && Fills(ops) == Fills(front) + 1
        && (Reached(before, i, size) ==>
            && Heard(slots, ops, size, i) == Heard(slots, front, size, i) + Share(before[i], size)
            && Run(slots, ops, size)[i] == Played(before[i], size))
  {
    var before := Run(slots, ops[..|ops| - 1], size);
    if ops[|ops| - 1].Queue? {
      QueuedGood(before, ops[|ops| - 1].sound);
    }
  }

  lemma {:induction false} NextShare(slot: Slot, taken: nat, size: nat)
    requires slot.sound.Some? && slot.location + taken + size < |slot.sound.value.data|
    ensures var data, now := slot.sound.value.data, slot.(location := slot.location + taken);
      && GoodSlot(now) && Played(now, size) == slot.(location := slot.location + taken + size)
      && data[slot.location..slot.location + taken] + Share(now, size)
         == data[slot.location..slot.location + taken + size]
  {
  }

  lemma {:induction false} PlaysOnStep(slots: seq<Slot>, ops: seq<Op>, size: nat, i: nat, taken: nat)
    requires Good(slots) && Queueable(ops) && i < |slots| && slots[i].sound.Some? && ops != []
    requires PlayedOn(slots, ops[..|ops| - 1], size, i, taken) && SAMPLE_SIZE * (|slots| - 1) < size
    requires slots[i].location + taken + (if ops[|ops| - 1].Fill? then size else 0) < |slots[i].sound.value.data|
    ensures PlayedOn(slots, ops, size, i, taken + if ops[|ops| - 1].Fill? then size else 0)
  {
    hide Run, Heard, Good, Queueable, Occupied, Reached, Played, Share, Fills, GoodSlot;
    QueueableFront(ops);
    var before := Run(slots, ops[..|ops| - 1], size);
    StaysGood(slots, ops[..|ops| - 1], size);
    RunOn(slots, ops, size, i);
    if ops[|ops| - 1].Fill? {
      AllReached(before, size, i);
      NextShare(slots[i], taken, size);
    }
  }

  /** How far the fills of a run take a sound that keeps playing. */
  function Taken(ops: seq<Op>, size: nat): nat {
    Fills(ops) * size
  }

  lemma {:induction false} PlayedNone(slots: seq<Slot>, size: nat, i: nat)
    requires i < |slots| && Good(slots) && slots[i].sound.Some?
    ensures PlayedOn(slots, [], size, i, 0) && Taken([], size) == 0
  {
  }

  lemma {:induction false} TakenOn(ops: seq<Op>, size: nat)
    requires ops != []
    ensures Taken(ops, size) == Taken(ops[..|ops| - 1], size) + if ops[|ops| - 1].Fill? then size else 0
  {
    var m := Fills(ops[..|ops| - 1]);
    assert (m + 1) * size == m * size + size;
  }

  /** While a sound is playing, every fill takes its next samples, whatever else is queued and played meanwhile. */
  lemma {:induction false} PlaysOn(slots: seq<Slot>, ops: seq<Op>, size: nat, i: nat)
    requires Good(slots) && Queueable(ops) && i < |slots| && slots[i].sound.Some? && SAMPLE_SIZE * (|slots| - 1) < size
    requires slots[i].location + Taken(ops, size) < |slots[i].sound.value.data|
    ensures PlayedOn(slots, ops, size, i, Taken(ops, size))
  {
    if ops == [] {
      PlayedNone(slots, size, i);
    } else {
      TakenOn(ops, size);
      QueueableFront(ops);
      hide *;
      PlaysOn(slots, ops[..|ops| - 1], size, i);
      PlaysOnStep(slots, ops, size, i, Taken(ops[..|ops| - 1], size));
    }
  }

  /** The number of fills it takes to play n samples. */
  function Ceiling(n: nat, size: nat): nat
    requires size > 0
  {
    (n + size - 1) / size
  }

  lemma {:induction false} Grows(a: nat, b: nat, size: nat)
    requires a <= b
    ensures a * size <= b * size
  {
  }

  lemma {:induction false} LastFill(m: nat, size: nat, n: nat)
    requires size > 0
    ensures m + 1 == Ceiling(n, size) <==> m * size < n <= m * size + size
  {
    var q := Ceiling(n, size);
    assert q * size <= n + size - 1 < q * size + size;
    if q <= m {
      Grows(q, m, size);
    } else if q > m + 1 {
      Grows(m + 2, q, size);
    }
  }

  /** The fill that takes the last of a sound's samples frees its slot, and everything has then been heard, once
      and in order. */
  lemma {:induction false} PlaysOut(slots: seq<Slot>, ops: seq<Op>, size: nat, i: nat)
    requires Good(slots) && Queueable(ops) && i < |slots| && slots[i].sound.Some? && SAMPLE_SIZE * (|slots| - 1) < size
    requires slots[i].location == 0 && Fills(ops) + 1 == Ceiling(|slots[i].sound.value.data|, size)
    ensures Run(slots, ops, size)[i].sound == slots[i].sound
    ensures Queueable(ops + [Fill]) && Run(slots, ops + [Fill], size)[i] == FREE
    ensures Heard(slots, ops + [Fill], size, i) == slots[i].sound.value.data
  {
    var data, taken := slots[i].sound.value.data, Taken(ops, size);
    LastFill(Fills(ops), size, |data|);
    PlaysOn(slots, ops, size, i);
    StaysGood(slots, ops, size);
    assert (ops + [Fill])[..|ops|] == ops;
    assert data[..taken] + data[taken..] == data;
    hide Run, Heard, Good, Occupied, Reached, Fills;
    AllReached(Run(slots, ops, size), size, i);
    RunOn(slots, ops + [Fill], size, i);
  }
}
