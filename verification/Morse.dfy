/** The Morse code driver: a text written to the device is flashed on an LED and queued as dots and dashes. */
module Morse {
  /** International Morse code for the letters A to Z. */
  const CODE := [
    ".-", "-...", "-.-.", "-..", ".", "..-.", "--.", "....", "..", ".---", "-.-", ".-..", "--",
    "-.", "---", ".--.", "--.-", ".-.", "...", "-", "..-", "...-", ".--", "-..-", "-.--", "--.."
  ]

  /** morsecode_codes: 1 for a dot, 111 for a dash, 0 between them, in the high bits of a word. */
  const WORDS: seq<bv16> := [
    0xB800, 0xEA80, 0xEBA0, 0xEA00, 0x8000, 0xAE80, 0xEE80, 0xAA00, 0xA000, 0xBBB8, 0xEB80, 0xBA80, 0xEE00,
    0xE800, 0xEEE0, 0xBBA0, 0xEEB8, 0xBA00, 0xA800, 0xE000, 0xAE00, 0xAB80, 0xBB80, 0xEAE0, 0xEBB8, 0xEEA0
  ]

  /** How many of the high bits are left to be sent. */
  function Left(m: bv16): nat {
    if m == 0 then 0
    else if m << 1 == 0 then 1
    else if m << 2 == 0 then 2
    else if m << 3 == 0 then 3
    else if m << 4 == 0 then 4
    else if m << 5 == 0 then 5
    else if m << 6 == 0 then 6
    else if m << 7 == 0 then 7
    else if m << 8 == 0 then 8
    else if m << 9 == 0 then 9
    else if m << 10 == 0 then 10
    else if m << 11 == 0 then 11
    else if m << 12 == 0 then 12
    else if m << 13 == 0 then 13
    else if m << 14 == 0 then 14
    else if m << 15 == 0 then 15
    else 16
  }

  lemma {:induction false} ShiftLeaves(m: bv16)
    requires m != 0
    ensures Left(m << 1) < Left(m) && Left(m << 3) < Left(m)
  {
  }

  /** The LED is on or off for a time in milliseconds. */
  datatype Pulse = Pulse(on: bool, ms: nat)

  const LED_DOT_TIME := 200

  /** What flash_leds queues for a word, and how it drives the LED. */
  function Symbols(m: bv16): string
    decreases Left(m)
  {
    if m == 0 then "" else
    ShiftLeaves(m);
    if m & 0xE000 == 0xE000 then ['-'] + Symbols(m << 3)
    else if m & 0x8000 == 0x8000 then ['.'] + Symbols(m << 1)
    else Symbols(m << 1)
  }

  function Flashes(m: bv16): seq<Pulse>
    decreases Left(m)
  {
    if m == 0 then [] else
    ShiftLeaves(m);
    if m & 0xE000 == 0xE000 then [Pulse(true, LED_DOT_TIME * 3)] + Flashes(m << 3)
    else if m & 0x8000 == 0x8000 then [Pulse(true, LED_DOT_TIME)] + Flashes(m << 1)
    else [Pulse(false, LED_DOT_TIME)] + Flashes(m << 1)
  }

  /** One letter keyed as the recommendation has it: a dash is as long as three dots, and the space between
      the signals of a letter as long as one. */
  function Keyed(code: string): seq<Pulse> {
    if code == "" then [] else
    [Pulse(true, if code[0] == '-' then LED_DOT_TIME * 3 else LED_DOT_TIME)] +
    if |code| == 1 then [] else [Pulse(false, LED_DOT_TIME)] + Keyed(code[1..])
  }

  /** For each letter of more than one signal, the letter that the signals after the first spell. */
  const REST: seq<nat> := [19, 18, 17, 8, 0, 17, 13, 18, 4, 14, 0, 3, 19, 4, 12, 6, 10, 13, 8, 0, 0, 20, 12, 20, 22, 3]

  function Code(i: nat): string
    requires i < 26
  {
    CODE[i]
  }

  function Rest(i: nat): nat
    requires i < 26
  {
    REST[i]
  }

  lemma {:induction false} CodeTable(i: nat)
    requires i < 26
    ensures |Code(i)| > 0 && (Code(i)[0] == '.' || Code(i)[0] == '-')
    ensures Rest(i) < 26 && (|Code(i)| > 1 ==> Code(i)[1..] == Code(Rest(i)))
    ensures |Code(i)| == 1 ==> Code(i) == [Code(i)[0]]
  {
    var c, r := CODE[i], CODE[REST[i]];
    match i
    case 0 => case 1 => case 2 => case 3 => case 4 => case 5 => case 6 => case 7 => case 8 => case 9 => case 10 =>
    case 11 => case 12 => case 13 => case 14 => case 15 => case 16 => case 17 => case 18 => case 19 => case 20 =>
    case 21 => case 22 => case 23 => case 24 =>
    case _ => assert i == 25;
  }

  function Word(i: nat): bv16
    requires i < 26
  {
    WORDS[i]
  }

  lemma {:induction false} WordTable(i: nat)
    requires i < 26
    ensures Rest(i) < 26 && Word(i) != 0 && Word(i) != 1 && |Code(i)| > 0
    ensures |Code(i)| == 1 ==> Word(i) == if Code(i)[0] == '-' then 0xE000 else 0x8000
    ensures |Code(i)| > 1 && Code(i)[0] == '-' ==> Word(i) & 0xF000 == 0xE000 && Word(i) << 4 == Word(Rest(i))
    ensures |Code(i)| > 1 && Code(i)[0] != '-' ==> Word(i) & 0xC000 == 0x8000 && Word(i) << 2 == Word(Rest(i))
  {
    match i
    case 0 => case 1 => case 2 => case 3 => case 4 => case 5 => case 6 => case 7 => case 8 => case 9 => case 10 =>
    case 11 => case 12 => case 13 => case 14 => case 15 => case 16 => case 17 => case 18 => case 19 => case 20 =>
    case 21 => case 22 => case 23 => case 24 =>
    case _ => assert i == 25;
  }

  lemma {:induction false} NextBits(m: bv16)
    requires m != 0
    ensures m & 0xE000 == 0xE000 ==>
      Symbols(m) == ['-'] + Symbols(m << 3) && Flashes(m) == [Pulse(true, LED_DOT_TIME * 3)] + Flashes(m << 3)
    ensures m & 0xE000 != 0xE000 && m & 0x8000 == 0x8000 ==>
      Symbols(m) == ['.'] + Symbols(m << 1) && Flashes(m) == [Pulse(true, LED_DOT_TIME)] + Flashes(m << 1)
    ensures m & 0x8000 == 0 ==>
            Symbols(m) == Symbols(m << 1) && Flashes(m) == [Pulse(false, LED_DOT_TIME)] + Flashes(m << 1)
  {
    hide Left;
    assert m & 0x8000 == 0 ==> m & 0xE000 != 0xE000;
  }

  lemma {:induction false} DashBits(m: bv16)
    requires m & 0xF000 == 0xE000 && m << 4 != 0
    ensures m != 0 && m & 0xE000 == 0xE000 && m << 3 != 0 && (m << 3) & 0x8000 == 0 && (m << 3) << 1 == m << 4
  {
  }

  lemma {:induction false} DotBits(m: bv16)
    requires m & 0xC000 == 0x8000 && m << 2 != 0
    ensures m != 0 && m & 0xE000 != 0xE000 && m & 0x8000 == 0x8000
    ensures m << 1 != 0 && (m << 1) & 0x8000 == 0 && (m << 1) << 1 == m << 2
  {
  }

  lemma {:induction false} DashThen(m: bv16)
    requires m & 0xF000 == 0xE000 && m << 4 != 0
    ensures Symbols(m) == ['-'] + Symbols(m << 4)
    ensures Flashes(m) == [Pulse(true, LED_DOT_TIME * 3), Pulse(false, LED_DOT_TIME)] + Flashes(m << 4)
  {
    hide *;
    DashBits(m);
    NextBits(m);
    NextBits(m << 3);
  }

  lemma {:induction false} DotThen(m: bv16)
    requires m & 0xC000 == 0x8000 && m << 2 != 0
    ensures Symbols(m) == ['.'] + Symbols(m << 2)
    ensures Flashes(m) == [Pulse(true, LED_DOT_TIME), Pulse(false, LED_DOT_TIME)] + Flashes(m << 2)
  {
    hide *;
    DotBits(m);
    NextBits(m);
    NextBits(m << 1);
  }

  ghost predicate Spells(m: bv16, code: string) {
    Symbols(m) == code && Flashes(m) == Keyed(code)
  }

  lemma {:induction false} OneSignal()
    ensures Spells(0xE000, "-") && Spells(0x8000, ".")
  {
    var dash: bv16, dot: bv16 := 0xE000, 0x8000;
    assert dash << 3 == 0 && dot << 1 == 0 && dot & 0xE000 != 0xE000;
  }

  lemma {:induction false} DashMore(m: bv16, rest: bv16, code: string)
    requires |code| > 1 && code[0] == '-' && m & 0xF000 == 0xE000 && m << 4 == rest && rest != 0
    requires Spells(rest, code[1..])
    ensures Spells(m, code)
  {
    hide Symbols, Flashes, Left;
    DashThen(m);
    assert code == [code[0]] + code[1..];
  }

  lemma {:induction false} DotMore(m: bv16, rest: bv16, code: string)
    requires |code| > 1 && code[0] == '.' && m & 0xC000 == 0x8000 && m << 2 == rest && rest != 0
    requires Spells(rest, code[1..])
    ensures Spells(m, code)
  {
    hide Symbols, Flashes, Left;
    DotThen(m);
    assert code == [code[0]] + code[1..];
  }

  /** The driver's word for every letter is flashed as the letter's code. */
  lemma {:induction false} TableIsMorse(i: nat)
    requires i < 26
    ensures Spells(Word(i), Code(i))
    decreases |Code(i)|
  {
    CodeTable(i);
    WordTable(i);
    hide *;
    if |Code(i)| == 1 {
      OneSignal();
    } else {
      var j := Rest(i);
      WordTable(j);
      TableIsMorse(j);
      if Code(i)[0] == '-' {
        DashMore(Word(i), Word(j), Code(i));
      } else {
        DotMore(Word(i), Word(j), Code(i));
      }
    }
  }

  predicate IsSpace(c: char) {
    c == ' ' || c == '\n' || c == '\r' || c == '\t'
  }

  predicate IsAlpha(c: char) {
    'A' <= c <= 'Z' || 'a' <= c <= 'z'
  }

  function Letter(c: char): (i: nat)
    requires IsAlpha(c)
    ensures i < 26
  {
    if c <= 'Z' then c as int - 'A' as int else c as int - 'a' as int
  }

  function CharToMorse(c: char): bv16 {
    if IsAlpha(c) then Word(Letter(c)) else if c == ' ' then 1 else 0
  }

  lemma {:induction false} OnlyLettersHaveWords(c: char)
    ensures IsAlpha(c) <==> CharToMorse(c) != 0 && CharToMorse(c) != 1
    ensures CharToMorse(c) == 1 <==> c == ' '
  {
    if IsAlpha(c) {
      WordTable(Letter(c));
    }
  }

  /** A letter of a text, and whether a blank stands between it and the letter before. */
  datatype Item = Item(letter: nat, spaced: bool)

  function Items(text: string, spaced: bool): seq<Item> {
    if text == "" then []
    else if IsAlpha(text[0]) then [Item(Letter(text[0]), spaced)] + Items(text[1..], false)
    else Items(text[1..], spaced || text[0] == ' ')
  }

  function Capital(i: nat): char
    requires i < 26
  {
    'A' + i as char
  }

  /** The text that a transmission stands for: its letters in upper case, words separated by one blank. */
  function Normal(items: seq<Item>): string
    requires forall x :: x in items ==> x.letter < 26
  {
    if items == [] then "" else
    var x := items[|items| - 1];
    Normal(items[..|items| - 1]) + (if |items| > 1 && x.spaced then " " else "") + [Capital(x.letter)]
  }

  function Gap(spaced: bool, first: bool): string {
    if first then "" else if spaced then "   " else " "
  }

  /** What is queued for the letters, before the final newline: one blank between letters, three between words. */
  function Sent(items: seq<Item>): string
    requires forall x :: x in items ==> x.letter < 26
  {
    if items == [] then "" else
    var x := items[|items| - 1];
    Sent(items[..|items| - 1]) + Gap(x.spaced, |items| == 1) + Code(x.letter)
  }

  function Silence(spaced: bool, first: bool): seq<Pulse> {
    if first then [] else [Pulse(false, LED_DOT_TIME * if spaced then 7 else 3)]
  }

  /** The signal on the LED: three dot times between letters, seven between words. */
  function Signal(items: seq<Item>): seq<Pulse>
    requires forall x :: x in items ==> x.letter < 26
  {
    if items == [] then [] else
    var x := items[|items| - 1];
    Signal(items[..|items| - 1]) + Silence(x.spaced, |items| == 1) + Keyed(Code(x.letter))
  }

  lemma {:induction false} ItemsAreLetters(text: string, spaced: bool)
    ensures forall x :: x in Items(text, spaced) ==> x.letter < 26
  {
    if text != "" {
      ItemsAreLetters(text[1..], false);
      ItemsAreLetters(text[1..], spaced || text[0] == ' ');
    }
  }

  /** The letters of a text. What comes before the first letter does not matter. */
  function Letters(text: string): (items: seq<Item>)
    ensures forall x :: x in items ==> x.letter < 26
  {
    ItemsAreLetters(text, false);
    Items(text, false)
  }

  /** Everything that is queued for the letters. */
  function Message(items: seq<Item>): string
    requires forall x :: x in items ==> x.letter < 26
  {
    Sent(items) + "\n"
  }

  function Transmission(text: string): string {
    Message(Letters(text))
  }

  /** As much of `s` as `n` entries hold. */
  function Upto(s: string, n: nat): string {
    if |s| <= n then s else s[..n]
  }

  lemma {:induction false} UptoMore(s: string, t: string, n: nat)
    ensures |s| >= n ==> Upto(s + t, n) == Upto(s, n)
    ensures |s| + |t| <= n ==> Upto(s + t, n) == Upto(s, n) + t
  {
  }

  predicate HasLetter(text: string) {
    exists k :: 0 <= k < |text| && IsAlpha(text[k])
  }

  /** Where the two scans of trim_spaces stop: the first from position k on, outside the buffer if that is |text|; the
      second down from n, outside the buffer if that is 0. */
  function Forward(text: string, k: nat): (curr: nat)
    requires k <= |text|
    ensures curr <= |text|
    decreases |text| - k
  {
    if k < |text| && (IsSpace(text[k]) || !IsAlpha(text[k])) then Forward(text, k + 1) else k
  }

  function Backward(text: string, n: nat): (end: nat)
    requires n <= |text|
  {
    if n > 0 && (IsSpace(text[n - 1]) || !IsAlpha(text[n - 1])) then Backward(text, n - 1) else n
  }

  lemma {:induction false} ForwardFinds(text: string, k: nat)
    requires k <= |text|
    ensures Forward(text, k) < |text| <==> exists j :: k <= j < |text| && IsAlpha(text[j])
    decreases |text| - k
  {
    if k < |text| && !IsAlpha(text[k]) {
      ForwardFinds(text, k + 1);
    }
  }

  lemma {:induction false} BackwardFinds(text: string, n: nat)
    requires n <= |text|
    ensures Backward(text, n) > 0 <==> exists j :: 0 <= j < n && IsAlpha(text[j])
  {
    if n > 0 && !IsAlpha(text[n - 1]) {
      BackwardFinds(text, n - 1);
    }
  }

  /** The scans of trim_spaces stay inside the buffer exactly when the text has a letter. */
  lemma {:induction false} StaysInsideIff(text: string)
    ensures HasLetter(text) <==> Forward(text, 0) < |text|
    ensures HasLetter(text) <==> Backward(text, |text|) > 0
  {
    ForwardFinds(text, 0);
    BackwardFinds(text, |text|);
  }

  const FIFO_SIZE := 256
  const EFAULT := 14

  lemma {:induction false} ZeroBit(m: bv16)
    requires m & 0x8000 != 0x8000
    ensures m & 0x8000 == 0
  {
  }

  lemma {:induction false} NothingLeft()
    ensures Symbols(0) == "" && Flashes(0) == []
  {
  }

  lemma {:induction false} Shift(tried: string, sent: string, c: char, rest: string)
    ensures tried + (sent + [c]) == tried + sent + [c] && sent + ([c] + rest) == sent + [c] + rest
    ensures tried + (sent + ([c] + rest)) == tried + sent + [c] + rest
  {
  }

  lemma {:induction false} Joined(a: string, b: string, c: string, d: string, e: string)
    ensures a + b + c + d + e == a + b + (c + d + e)
  {
  }

  /** What follows the pause before the letter at `done`. */
  lemma {:induction false} SentOn(items: seq<Item>, done: nat) returns (more: string)
    requires (forall x :: x in items ==> x.letter < 26) && done < |items|
    ensures Sent(items) == Sent(items[..done]) + Gap(items[done].spaced, done == 0) + more
    decreases |items|
  {
    var last := items[|items| - 1];
    if done == |items| - 1 {
      more := Code(last.letter);
    } else {
      var front := items[..|items| - 1];
      assert front[..done] == items[..done];
      assert Sent(items) == Sent(front) + Gap(last.spaced, |items| == 1) + Code(last.letter);
      hide *;
      var less := SentOn(front, done);
      more := less + Gap(last.spaced, |items| == 1) + Code(last.letter);
      Joined(Sent(items[..done]), Gap(items[done].spaced, done == 0), less, Gap(last.spaced, |items| == 1),
        Code(last.letter));
    }
  }

  /** Nothing before the first letter gives a letter; it decides only whether the first one counts as spaced. */
  lemma {:induction false} Leading(text: string, spaced: bool, k: nat) returns (spaced': bool)
    requires k <= |text| && forall j :: 0 <= j < k ==> !IsAlpha(text[j])
    ensures Items(text[k..], spaced') == Items(text, spaced)
  {
    if k == 0 {
      assert text[0..] == text;
      spaced' := spaced;
    } else {
      spaced' := Leading(text[1..], spaced || text[0] == ' ', k - 1);
      assert text[1..][k - 1..] == text[k..];
    }
  }

  lemma {:induction false} NoLetters(text: string, spaced: bool)
    requires forall k :: 0 <= k < |text| ==> !IsAlpha(text[k])
    ensures Items(text, spaced) == []
  {
    if text != "" {
      NoLetters(text[1..], spaced || text[0] == ' ');
    }
  }

  lemma {:induction false} Skipped(text: string, k: nat, spaced: bool)
    requires k < |text| && !IsAlpha(text[k])
    ensures Items(text[k..], spaced) == Items(text[k + 1..], spaced || text[k] == ' ')
  {
    assert text[k..][1..] == text[k + 1..];
  }

  lemma {:induction false} NoGap(tried: string, led: seq<Pulse>, spaced: bool)
    ensures tried + Gap(spaced, true) == tried && led + Silence(spaced, true) == led
  {
  }

  lemma {:induction false} OneLetterOn(items: seq<Item>, done: nat, led: seq<Pulse>)
    requires (forall x :: x in items ==> x.letter < 26) && done < |items|
    ensures Sent(items[..done + 1])
            == Sent(items[..done]) + Gap(items[done].spaced, done == 0) + Code(items[done].letter)
    ensures led + Signal(items[..done + 1]) ==
            led + Signal(items[..done]) + Silence(items[done].spaced, done == 0) + Keyed(Code(items[done].letter))
  {
    hide Code, Keyed;
    assert items[..done + 1][..done] == items[..done];
  }

  /** What is left of the text gives the items from position `done` on. */
  ghost predicate Ahead(text: string, k: nat, spaced: bool, items: seq<Item>, done: nat) {
    k <= |text| && done <= |items| && Items(text[k..], spaced) == items[done..]
  }

  lemma {:induction false} StillAhead(text: string, k: nat, spaced: bool, k': nat, spaced': bool, items: seq<Item>,
        done: nat)
    requires Ahead(text, k, spaced, items, done) && k' <= |text|
    requires Items(text[k..], spaced) == Items(text[k'..], spaced')
    ensures Ahead(text, k', spaced', items, done)
  {
  }

  lemma {:induction false} NextItem(text: string, k: nat, spaced: bool, items: seq<Item>, done: nat)
    requires k < |text| && IsAlpha(text[k]) && Ahead(text, k, spaced, items, done)
    requires forall x :: x in items ==> x.letter < 26
    ensures done < |items| && items[done] == Item(Letter(text[k]), spaced) && Ahead(text, k + 1, false, items, done + 1)
    ensures Symbols(CharToMorse(text[k])) == Code(items[done].letter)
    ensures Flashes(CharToMorse(text[k])) == Keyed(Code(items[done].letter))
  {
    assert text[k..][1..] == text[k + 1..];
    assert items[done..][0] == items[done] && items[done..][1..] == items[done + 1..];
    TableIsMorse(Letter(text[k]));
  }

  /** The letter the loop has come to is the next item; whether a blank stood before the first one does not matter. */
  lemma {:induction false} Located(text: string, k: nat, first: bool, spaced: bool, curr: nat, flag: bool,
        items: seq<Item>, done: nat)
    requires Ahead(text, k, spaced, items, done) && curr < |text| && IsAlpha(text[curr])
    requires forall x :: x in items ==> x.letter < 26
    requires Items(text[curr..], flag) == Items(text[k..], false) && (if first then curr == k else !spaced)
    ensures done < |items| && (!first ==> flag == items[done].spaced) && Ahead(text, curr + 1, false, items, done + 1)
    ensures Symbols(CharToMorse(text[curr])) == Code(items[done].letter)
    ensures Flashes(CharToMorse(text[curr])) == Keyed(Code(items[done].letter))
  {
    hide *;
    var b := if first then spaced else flag;
    StillAhead(text, k, spaced, curr, b, items, done);
    NextItem(text, curr, b, items, done);
  }

  class Driver {
    var fifo: string
    var lit: bool
    ghost var led: seq<Pulse>

    ghost predicate Valid()
      reads `fifo
    {
      |fifo| <= FIFO_SIZE
    }

    ghost predicate Holds(before: string, tried: string)
      reads `fifo
    {
      |before| <= FIFO_SIZE && fifo == before + Upto(tried, FIFO_SIZE - |before|)
    }

    /** kfifo_put; `tried` is what has been put, or would have been, since the queue held `before`. */
    method Put(c: char, ghost before: string, ghost tried: string) returns (ok: bool)
      requires Holds(before, tried)
      modifies `fifo
      ensures Holds(before, tried + [c]) && (ok <==> |tried| < FIFO_SIZE - |before|)
    {
      UptoMore(tried, [c], FIFO_SIZE - |before|);
      ok := |fifo| < FIFO_SIZE;
      if ok {
        fifo := fifo + [c];
      }
    }

    /** led_trigger_event, and the msleep that follows it. */
    method Shine(on: bool, ms: nat)
      modifies `lit, `led
      ensures lit == on && led == old(led) + [Pulse(on, ms)]
    {
      lit := on;
      led := led + [Pulse(lit, ms)];
    }

    /** A full queue stays as it is whatever else is tried. */
    lemma {:induction false} HoldsOn(before: string, tried: string, more: string)
      requires Holds(before, tried) && |tried| > FIFO_SIZE - |before|
      ensures Holds(before, tried + more)
    {
      UptoMore(tried, more, FIFO_SIZE - |before|);
    }

    /** flash_leds: it gives up when the queue is full. */
    method FlashLeds(morse: bv16, ghost before: string, ghost tried: string) returns (r: int)
      requires Holds(before, tried)
      modifies this
      ensures Holds(before, tried + Symbols(morse))
      ensures |tried + Symbols(morse)| <= FIFO_SIZE - |before| ==> r == 0 && led == old(led) + Flashes(morse)
    {
      hide Left, Symbols, Flashes, Holds, Upto;
      var m := morse;
      ghost var sent, flashed := "", [];
      NothingLeft();
      assert tried + "" == tried;
      while m != 0
        invariant sent + Symbols(m) == Symbols(morse) && flashed + Flashes(m) == Flashes(morse)
        invariant Holds(before, tried + sent) && led == old(led) + flashed
        decreases Left(m)
      {
        ShiftLeaves(m);
        NextBits(m);
        var ok;
        if m & 0xE000 == 0xE000 {
          m := m << 3;
          Shine(true, LED_DOT_TIME * 3);
          ok := Put('-', before, tried + sent);
          Shift(tried, sent, '-', Symbols(m));
          if !ok {
            HoldsOn(before, tried + sent + ['-'], Symbols(m));
            return -EFAULT;
          }
          sent, flashed := sent + ['-'], flashed + [Pulse(true, LED_DOT_TIME * 3)];
        } else if m & 0x8000 == 0x8000 {
          m := m << 1;
          Shine(true, LED_DOT_TIME);
          ok := Put('.', before, tried + sent);
          Shift(tried, sent, '.', Symbols(m));
          if !ok {
            HoldsOn(before, tried + sent + ['.'], Symbols(m));
            return -EFAULT;
          }
          sent, flashed := sent + ['.'], flashed + [Pulse(true, LED_DOT_TIME)];
        } else {
          ZeroBit(m);
          m := m << 1;
          Shine(false, LED_DOT_TIME);
          flashed := flashed + [Pulse(false, LED_DOT_TIME)];
        }
      }
      assert sent + "" == sent && flashed + [] == flashed;
      r := 0;
    }

    /** trim_spaces: from the first letter to the last. */
    method TrimSpaces(buff: string) returns (curr: nat, end: nat)
      requires HasLetter(buff)
      ensures curr == Forward(buff, 0) && end == Backward(buff, |buff|)
      ensures curr < end <= |buff| && IsAlpha(buff[curr]) && IsAlpha(buff[end - 1])
      ensures forall k :: 0 <= k < curr || end <= k < |buff| ==> !IsAlpha(buff[k])
    {
      ghost var k :| 0 <= k < |buff| && IsAlpha(buff[k]);
      curr, end := 0, |buff|;
      var c := buff[curr];
      while IsSpace(c) || !IsAlpha(c)
        invariant curr <= k && c == buff[curr] && forall j :: 0 <= j < curr ==> !IsAlpha(buff[j])
        invariant Forward(buff, curr) == Forward(buff, 0)
        decreases k - curr
      {
        curr := curr + 1;
        c := buff[curr];
      }
      c := buff[end - 1];
      while IsSpace(c) || !IsAlpha(c)
        invariant k < end <= |buff| && c == buff[end - 1] && forall j :: end <= j < |buff| ==> !IsAlpha(buff[j])
        invariant Backward(buff, end) == Backward(buff, |buff|)
        decreases end
      {
        end := end - 1;
        c := buff[end - 1];
      }
    }

    /** The pause before a letter: what the driver does when it is not the first. */
    method Pause(spaced: bool, ghost before: string, ghost tried: string) returns (ok: bool)
      requires Holds(before, tried)
      modifies this
      ensures Holds(before, tried + Gap(spaced, false))
      ensures ok ==> led == old(led) + Silence(spaced, false)
      ensures ok <==> |tried + Gap(spaced, false)| <= FIFO_SIZE - |before|
    {
      assert tried + " " + " " == tried + "  " && tried + "  " + " " == tried + "   ";
      hide Holds;
      if !spaced {
        Shine(false, LED_DOT_TIME * 3);
        ok := Put(' ', before, tried);
      } else {
        Shine(false, LED_DOT_TIME * 7);
        ok := Put(' ', before, tried);
        if !ok {
          HoldsOn(before, tried + " ", "  ");
          return;
        }
        ok := Put(' ', before, tried + " ");
        if !ok {
          HoldsOn(before, tried + "  ", " ");
          return;
        }
        ok := Put(' ', before, tried + "  ");
      }
    }

    /** The loop of my_write that passes over everything but letters, noting whether there was a blank. */
    method SkipToLetter(buff: string, from: nat, end: nat, flag: bool)
      returns (curr: nat, morseValue: bv16, spaceFlag: bool)
      requires from < end <= |buff| && IsAlpha(buff[end - 1])
      ensures from <= curr < end && IsAlpha(buff[curr]) && morseValue == CharToMorse(buff[curr])
      ensures Items(buff[curr..], spaceFlag) == Items(buff[from..], flag)
      ensures IsAlpha(buff[from]) ==> curr == from && spaceFlag == flag
    {
      hide *;
      curr, spaceFlag := from, flag;
      var c := buff[curr];
      morseValue := CharToMorse(c);
      OnlyLettersHaveWords(c);
      while morseValue == 1 || morseValue == 0
        invariant from <= curr < end && morseValue == CharToMorse(buff[curr])
        invariant Items(buff[curr..], spaceFlag) == Items(buff[from..], flag)
        invariant IsAlpha(buff[from]) ==> curr == from && spaceFlag == flag
        decreases end - curr
      {
        OnlyLettersHaveWords(buff[curr]);
        Skipped(buff, curr, spaceFlag);
        if morseValue == 1 {
          spaceFlag := true;
        }
        curr := curr + 1;
        c := buff[curr];
        morseValue := CharToMorse(c);
      }
      OnlyLettersHaveWords(buff[curr]);
    }

    /** The letters before position `done` have been sent. */
    ghost predicate SoFar(before: string, led0: seq<Pulse>, items: seq<Item>, done: nat)
      reads `fifo, `led
    {
      && done <= |items| && (forall x :: x in items ==> x.letter < 26) && Holds(before, Sent(items[..done]))
      && (|Sent(items[..done])| <= FIFO_SIZE - |before| ==> led == led0 + Signal(items[..done]))
    }

    lemma {:induction false} Limits(before: string, led0: seq<Pulse>, items: seq<Item>, done: nat)
      requires SoFar(before, led0, items, done)
      ensures done <= |items| && forall x :: x in items ==> x.letter < 26
    {
    }

    lemma {:induction false} Short(before: string, items: seq<Item>, done: nat)
      requires (forall x :: x in items ==> x.letter < 26) && done < |items|
      requires var tried := Sent(items[..done]) + Gap(items[done].spaced, done == 0);
        Holds(before, tried) && |tried| > FIFO_SIZE - |before|
      ensures Holds(before, Message(items)) && |Message(items)| > FIFO_SIZE - |before|
    {
      var tried := Sent(items[..done]) + Gap(items[done].spaced, done == 0);
      var more := SentOn(items, done);
      HoldsOn(before, tried, more + "\n");
      assert tried + (more + "\n") == Message(items);
    }

    /** The pause before a letter, and the letter. The driver does not look at what flash_leds returns. */
    method SendLetter(first: bool, spaceFlag: bool, morseValue: bv16, ghost before: string, ghost items: seq<Item>,
          ghost done: nat, ghost led0: seq<Pulse>) returns (sent: bool)
      requires SoFar(before, led0, items, done) && done < |items| && (first <==> done == 0)
      requires !first ==> spaceFlag == items[done].spaced
      requires Symbols(morseValue) == Code(items[done].letter) && Flashes(morseValue) == Keyed(Code(items[done].letter))
      modifies this
      ensures sent ==> SoFar(before, led0, items, done + 1)
      ensures !sent ==> Holds(before, Message(items)) && |Message(items)| > FIFO_SIZE - |before|
    {
      hide Symbols, Flashes, Holds, Sent, Signal, Code, Keyed, Gap, Silence, Upto;
      OneLetterOn(items, done, led0);
      ghost var tried := Sent(items[..done]);
      NoGap(tried, led, items[done].spaced);
      if !first {
        var ok := Pause(spaceFlag, before, tried);
        if !ok {
          Short(before, items, done);
          return false;
        }
      }
      var result := FlashLeds(morseValue, before, tried + Gap(items[done].spaced, first));
      sent := true;
    }

    /** One round of the main loop of my_write: the next letter is looked for and sent. */
    method SendNext(buff: string, from: nat, first: bool, end: nat, ghost spaced: bool, ghost before: string,
          ghost led0: seq<Pulse>, ghost items: seq<Item>, ghost done: nat) returns (ok: bool, next: nat)
      requires from < end <= |buff| && IsAlpha(buff[end - 1]) && (first <==> done == 0)
      requires if first then IsAlpha(buff[from]) else !spaced
      requires Ahead(buff, from, spaced, items, done) && SoFar(before, led0, items, done)
      modifies this
      ensures ok ==> from < next <= end
      ensures ok ==> Ahead(buff, next, false, items, done + 1) && SoFar(before, led0, items, done + 1)
      ensures !ok ==> Holds(before, Message(items)) && |Message(items)| > FIFO_SIZE - |before|
    {
      Limits(before, led0, items, done);
      hide *;
      var curr, morseValue, spaceFlag := SkipToLetter(buff, from, end, false);
      Located(buff, from, first, spaced, curr, spaceFlag, items, done);
      ok := SendLetter(first, spaceFlag, morseValue, before, items, done, led0);
      next := curr + 1;
    }

    lemma {:induction false} AllSent(buff: string, curr: nat, spaced: bool, before: string, led0: seq<Pulse>,
          items: seq<Item>, done: nat)
      requires SoFar(before, led0, items, done) && Ahead(buff, curr, spaced, items, done)
      requires forall k :: curr <= k < |buff| ==> !IsAlpha(buff[k])
      ensures Holds(before, Sent(items)) && (|Sent(items)| <= FIFO_SIZE - |before| ==> led == led0 + Signal(items))
    {
      NoLetters(buff[curr..], spaced);
      assert items[..done] == items;
    }

    lemma {:induction false} Beginning(items: seq<Item>, buff: string, start: nat, spaced: bool)
      requires |fifo| <= FIFO_SIZE && items == Letters(buff) && start <= |buff| && Items(buff[start..], spaced) == items
      ensures Ahead(buff, start, spaced, items, 0) && SoFar(fifo, led, items, 0)
    {
      assert fifo + "" == fifo && led + [] == led && items[..0] == [] && items[0..] == items;
    }

    /** The main loop of my_write; it fails when there is no room for a pause. */
    method SendAll(buff: string, start: nat, end: nat, ghost items: seq<Item>) returns (ok: bool)
      requires |fifo| <= FIFO_SIZE && start < end <= |buff| && IsAlpha(buff[start]) && IsAlpha(buff[end - 1])
      requires (forall k :: 0 <= k < start || end <= k < |buff| ==> !IsAlpha(buff[k])) && items == Letters(buff)
      modifies this
      ensures ok ==> Holds(old(fifo), Sent(items))
      ensures ok && |Sent(items)| <= FIFO_SIZE - |old(fifo)| ==> led == old(led) + Signal(items)
      ensures !ok ==> Holds(old(fifo), Message(items)) && |Message(items)| > FIFO_SIZE - |old(fifo)|
    {
      var curr := start;
      ghost var done: nat := 0;
      ghost var spaced := Leading(buff, false, start);
      Beginning(items, buff, start, spaced);
      hide *;
      while curr < end
        invariant start <= curr <= end && (done == 0 <==> curr == start) && (done > 0 ==> !spaced)
        invariant Ahead(buff, curr, spaced, items, done) && SoFar(old(fifo), old(led), items, done)
      {
        ok, curr := SendNext(buff, curr, curr == start, end, spaced, old(fifo), old(led), items, done);
        if !ok {
          return;
        }
        spaced, done := false, done + 1;
      }
      AllSent(buff, curr, spaced, old(fifo), old(led), items, done);
      ok := true;
    }

    /** my_write. With room in the queue for the whole transmission it is queued, the LED keys it, and the number of
        characters written comes back; without, the queue is left with as much of it as fits. */
    method MyWrite(buff: string) returns (r: int)
      requires |fifo| <= FIFO_SIZE && HasLetter(buff)
      modifies this
      ensures Holds(old(fifo), Transmission(buff))
      ensures r == if |Transmission(buff)| <= FIFO_SIZE - |old(fifo)| then |buff| else -EFAULT
      ensures |Transmission(buff)| <= FIFO_SIZE - |old(fifo)| ==> led == old(led) + Signal(Letters(buff)) && !lit
    {
      assert Transmission(buff) == Message(Letters(buff)) == Sent(Letters(buff)) + "\n";
      hide *;
      var start, end := TrimSpaces(buff);
      var ok := SendAll(buff, start, end, Letters(buff));
      if !ok {
        return -EFAULT;
      }
      lit := false;
      ok := Put('\n', old(fifo), Sent(Letters(buff)));
      r := if ok then |buff| else -EFAULT;
    }
  }

  lemma {:induction false} CodeIsSignals(i: nat, k: nat)
    requires i < 26 && k < |Code(i)|
    ensures Code(i)[k] == '.' || Code(i)[k] == '-'
    decreases k
  {
    CodeTable(i);
    if k > 0 {
      hide *;
      assert Code(i)[k] == Code(i)[1..][k - 1];
      CodeIsSignals(Rest(i), k - 1);
    }
  }

  /** The tree of codes, as a table: the letter at the number of its code, 26 where there is none. */
  const TREE: seq<nat> :=
    [26, 4, 19, 8, 13, 0, 12, 18, 3, 17, 6, 20, 10, 22, 14, 7, 1, 11, 25, 5, 2, 15, 26, 21, 23, 26, 16, 26, 24, 9, 26]

  /** The number of each letter's code. */
  const KEYS: seq<nat> :=
    [5, 16, 20, 8, 1, 19, 10, 15, 3, 29, 12, 17, 6, 4, 14, 21, 26, 9, 7, 2, 11, 23, 13, 24, 28, 18]

  function Number(code: string): nat {
    if code == "" then 0 else (if code[0] == '-' then 2 else 1) + 2 * Number(code[1..])
  }

  function Key(i: nat): nat
    requires i < 26
  {
    KEYS[i]
  }

  lemma {:induction false} TreeTable(i: nat)
    requires i < 26
    ensures Key(i) < 31 && TREE[Key(i)] == i
  {
    match i
    case 0 => case 1 => case 2 => case 3 => case 4 => case 5 => case 6 => case 7 => case 8 => case 9 => case 10 =>
    case 11 => case 12 => case 13 => case 14 => case 15 => case 16 => case 17 => case 18 => case 19 => case 20 =>
    case 21 => case 22 => case 23 => case 24 =>
    case _ => assert i == 25;
  }

  lemma {:induction false} KeyTable(i: nat)
    requires i < 26
    ensures Rest(i) < 26
    ensures Key(i) == (if Code(i)[0] == '-' then 2 else 1) + if |Code(i)| == 1 then 0 else 2 * Key(Rest(i))
  {
    match i
    case 0 => case 1 => case 2 => case 3 => case 4 => case 5 => case 6 => case 7 => case 8 => case 9 => case 10 =>
    case 11 => case 12 => case 13 => case 14 => case 15 => case 16 => case 17 => case 18 => case 19 => case 20 =>
    case 21 => case 22 => case 23 => case 24 =>
    case _ => assert i == 25;
  }

  lemma {:induction false} NumberIsKey(i: nat)
    requires i < 26
    ensures Number(Code(i)) == Key(i)
    decreases |Code(i)|
  {
    CodeTable(i);
    KeyTable(i);
    hide Code, Key, Rest, CODE, KEYS, REST, TREE;
    if |Code(i)| > 1 {
      NumberIsKey(Rest(i));
    } else {
      assert Number(Code(i)[1..]) == 0;
    }
  }

  /** The letter a code stands for. */
  function Found(code: string): string {
    if Number(code) < 31 && TREE[Number(code)] < 26 then [Capital(TREE[Number(code)])] else "?"
  }

  /** How a listener reads a transmission; `code` is what has been heard of the current letter. */
  function Decode(s: string, code: string): string
    decreases s, 1
  {
    if s == "" || s[0] == '\n' then Found(code)
    else if s[0] != ' ' then Decode(s[1..], code + [s[0]])
    else Found(code) + AfterGap(s)
  }

  function AfterGap(s: string): string
    requires s != ""
    decreases s, 0
  {
    if s[0] == '\n' then ""
    else if |s| >= 3 && s[..3] == "   " then " " + Decode(s[3..], "")
    else Decode(s[1..], "")
  }

  lemma {:induction false} FoundCode(i: nat)
    requires i < 26
    ensures Found(Code(i)) == [Capital(i)]
  {
    NumberIsKey(i);
    TreeTable(i);
    hide Number, Key, TREE, KEYS, Code, CODE;
  }

  lemma {:induction false} Hear(s: string, code: string)
    requires s != ""
    ensures s[0] != ' ' && s[0] != '\n' ==> Decode(s, code) == Decode(s[1..], code + [s[0]])
    ensures s[0] == ' ' || s[0] == '\n' ==> Decode(s, code) == Found(code) + AfterGap(s)
  {
    hide Found;
  }

  lemma {:induction false} DecodeCode(i: nat, k: nat, rest: string)
    requires i < 26 && k <= |Code(i)| && rest != "" && (rest[0] == ' ' || rest[0] == '\n')
    ensures Decode(Code(i)[k..] + rest, Code(i)[..k]) == [Capital(i)] + AfterGap(rest)
    decreases |Code(i)| - k
  {
    hide *;
    var code := Code(i);
    Hear(code[k..] + rest, code[..k]);
    if k == |code| {
      FoundCode(i);
      assert code[k..] + rest == rest && code[..k] == code;
    } else {
      CodeIsSignals(i, k);
      DecodeCode(i, k + 1, rest);
      assert (code[k..] + rest)[1..] == code[k + 1..] + rest;
      assert code[..k] + [code[k]] == code[..k + 1];
    }
  }

  lemma {:induction false} LastItem(items: seq<Item>)
    requires (forall x :: x in items ==> x.letter < 26) && items != []
    ensures var front, x := items[..|items| - 1], items[|items| - 1];
      if |items| == 1 then Sent(items) == Code(x.letter) && Normal(items) == [Capital(x.letter)] else
      && Sent(items) == Sent(front) + Gap(x.spaced, |items| == 1) + Code(x.letter)
      && Normal(items) == Normal(front) + (if x.spaced then " " else "") + [Capital(x.letter)]
  {
    hide Code, Capital;
    assert "" + "" + Code(items[|items| - 1].letter) == Code(items[|items| - 1].letter);
  }

  lemma {:induction false} Parted(a: string, b: string, c: string, d: string)
    ensures a + (b + c + d) == a + b + c + d
  {
  }

  lemma {:induction false} WholeCode(i: nat, rest: string)
    requires i < 26 && rest != "" && (rest[0] == ' ' || rest[0] == '\n')
    ensures Decode(Code(i) + rest, "") == [Capital(i)] + AfterGap(rest)
  {
    DecodeCode(i, 0, rest);
    hide *;
    assert Code(i)[0..] == Code(i) && Code(i)[..0] == "";
  }

  lemma {:induction false} CodeStarts(i: nat, rest: string)
    requires i < 26
    ensures Code(i) + rest != "" && (Code(i) + rest)[0] != ' '
  {
    CodeTable(i);
  }

  lemma {:induction false} Assoc(a: string, b: string, c: string)
    ensures a + (b + c) == a + b + c
  {
  }

  lemma {:induction false} OverGap(spaced: bool, s: string)
    requires s != "" && s[0] != ' '
    ensures var t := Gap(spaced, false) + s;
      t != "" && t[0] == ' ' && AfterGap(t) == (if spaced then " " else "") + Decode(s, "")
  {
    var t := Gap(spaced, false) + s;
    hide Decode;
    if spaced {
      assert t[..3] == "   " && t[3..] == s;
    } else {
      assert t[1..] == s && t[1] == s[0];
    }
  }

  /** Reading on over a pause. */
  lemma {:induction false} Reached(x: Item, rest: string)
    requires x.letter < 26 && rest != "" && (rest[0] == ' ' || rest[0] == '\n')
    ensures var s := Gap(x.spaced, false) + Code(x.letter) + rest;
      s != "" && s[0] == ' ' && AfterGap(s) == (if x.spaced then " " else "") + [Capital(x.letter)] + AfterGap(rest)
  {
    hide *;
    var code := Code(x.letter);
    CodeStarts(x.letter, rest);
    WholeCode(x.letter, rest);
    OverGap(x.spaced, code + rest);
    Assoc(Gap(x.spaced, false), code, rest);
    Assoc(if x.spaced then " " else "", [Capital(x.letter)], AfterGap(rest));
  }

  /** What is sent for some letters, followed by a pause or the end, is read as the normal form of the text. */
  lemma {:induction false} DecodeSent(items: seq<Item>, rest: string)
    requires (forall x :: x in items ==> x.letter < 26) && items != []
    requires rest != "" && (rest[0] == ' ' || rest[0] == '\n')
    ensures Decode(Sent(items) + rest, "") == Normal(items) + AfterGap(rest)
    decreases |items|
  {
    var front, x := items[..|items| - 1], items[|items| - 1];
    LastItem(items);
    hide *;
    var code, gap, first := Code(x.letter), Gap(x.spaced, |items| == 1), |items| == 1;
    if first {
      WholeCode(x.letter, rest);
    } else {
      Reached(x, rest);
      DecodeSent(front, gap + code + rest);
      Parted(Sent(front), gap, code, rest);
      Parted(Normal(front), if x.spaced then " " else "", [Capital(x.letter)], AfterGap(rest));
    }
  }

  lemma {:induction false} SomeLetter(text: string, spaced: bool, k: nat)
    requires k < |text| && IsAlpha(text[k])
    ensures Items(text, spaced) != []
  {
    if k > 0 && !IsAlpha(text[0]) {
      SomeLetter(text[1..], spaced || text[0] == ' ', k - 1);
    }
  }

  /** The transmission of a text can be decoded: what is read is the text in normal form. */
  lemma {:induction false} TransmissionDecodes(text: string)
    requires HasLetter(text)
    ensures Decode(Transmission(text), "") == Normal(Letters(text))
  {
    var k :| 0 <= k < |text| && IsAlpha(text[k]);
    SomeLetter(text, false, k);
    DecodeSent(Letters(text), "\n");
  }

  // The LED by itself.

  /** What a pulse of the LED says to a listener who times it in dots. */
  function Timed(p: Pulse): string {
    if p.on then if p.ms == LED_DOT_TIME then "." else if p.ms == 3 * LED_DOT_TIME then "-" else "?"
    else if p.ms == LED_DOT_TIME then "" else if p.ms == 3 * LED_DOT_TIME then " "
    else if p.ms == 7 * LED_DOT_TIME then "   " else "?"
  }

  function Seen(pulses: seq<Pulse>): string {
    if pulses == [] then "" else Timed(pulses[0]) + Seen(pulses[1..])
  }

  lemma {:induction false} SeenBoth(a: seq<Pulse>, b: seq<Pulse>)
    ensures Seen(a + b) == Seen(a) + Seen(b)
  {
    hide Timed;
    if a == [] {
      assert a + b == b;
    } else {
      SeenBoth(a[1..], b);
      assert (a + b)[1..] == a[1..] + b;
    }
  }

  lemma {:induction false} SeenKeyed(code: string)
    requires forall k :: 0 <= k < |code| ==> code[k] == '.' || code[k] == '-'
    ensures Seen(Keyed(code)) == code
  {
    if code != "" {
      var on, off := Pulse(true, if code[0] == '-' then LED_DOT_TIME * 3 else LED_DOT_TIME), Pulse(false, LED_DOT_TIME);
      SeenKeyed(code[1..]);
      assert Timed(on) == [code[0]] && Timed(off) == "";
      if |code| > 1 {
        var rest := Keyed(code[1..]);
        assert ([on, off] + rest)[1..] == [off] + rest && ([off] + rest)[1..] == rest;
        assert Keyed(code) == [on, off] + rest;
      } else {
        assert Keyed(code) == [on] && Seen([]) == "" && code == [code[0]];
      }
    }
  }

  lemma {:induction false} SeenLetter(i: nat)
    requires i < 26
    ensures Seen(Keyed(Code(i))) == Code(i)
  {
    hide *;
    forall k | 0 <= k < |Code(i)| ensures Code(i)[k] == '.' || Code(i)[k] == '-' {
      CodeIsSignals(i, k);
    }
    SeenKeyed(Code(i));
  }

  lemma {:induction false} SeenSilence(spaced: bool, first: bool)
    ensures Seen(Silence(spaced, first)) == Gap(spaced, first)
  {
    if !first {
      var p := Pulse(false, LED_DOT_TIME * if spaced then 7 else 3);
      assert [p][1..] == [] && Timed(p) == Gap(spaced, first);
    }
  }

  lemma {:induction false} SeenNothing()
    ensures Seen([]) == ""
  {
  }

  /** What can be seen on the LED is what is queued. */
  lemma {:induction false} SeenIsSent(items: seq<Item>)
    requires forall x :: x in items ==> x.letter < 26
    ensures Seen(Signal(items)) == Sent(items)
  {
    hide Seen, Silence, Gap, Keyed, Code;
    if items == [] {
      SeenNothing();
    } else {
      var front, x := items[..|items| - 1], items[|items| - 1];
      SeenIsSent(front);
      SeenBoth(Signal(front) + Silence(x.spaced, |items| == 1), Keyed(Code(x.letter)));
      SeenBoth(Signal(front), Silence(x.spaced, |items| == 1));
      SeenSilence(x.spaced, |items| == 1);
      SeenLetter(x.letter);
    }
  }

  /** The LED alone can be decoded, too. */
  lemma {:induction false} SignalDecodes(text: string)
    requires HasLetter(text)
    ensures Decode(Seen(Signal(Letters(text))) + "\n", "") == Normal(Letters(text))
  {
    TransmissionDecodes(text);
    SeenIsSent(Letters(text));
    hide Seen, Signal, Sent, Normal, Letters, Decode;
  }

  // The normal form, read off the text.

  function Upper(c: char): char {
    if 'a' <= c <= 'z' then c - 'a' + 'A' else c
  }

  /** The letters of a text in upper case, with one blank between two that have any between them. Other characters
      leave nothing. */
  function Tidy(text: string, started: bool, blank: bool): string {
    if text == "" then "" else
    if IsAlpha(text[0])
    then (if started && blank then " " else "") + [Upper(text[0])] + Tidy(text[1..], true, false)
    else Tidy(text[1..], started, blank || text[0] == ' ')
  }

  function Onward(items: seq<Item>): string
    requires forall x :: x in items ==> x.letter < 26
  {
    if items == [] then "" else
    (if items[0].spaced then " " else "") + [Capital(items[0].letter)] + Onward(items[1..])
  }

  lemma {:induction false} CapitalIsUpper(c: char)
    requires IsAlpha(c)
    ensures Capital(Letter(c)) == Upper(c)
  {
  }

  lemma {:induction false} NormalOn(a: seq<Item>, b: seq<Item>)
    requires (forall x :: x in a + b ==> x.letter < 26) && a != []
    ensures (forall x :: x in a ==> x.letter < 26) && (forall x :: x in b ==> x.letter < 26)
    ensures Normal(a + b) == Normal(a) + Onward(b)
    decreases |b|
  {
    assert forall x :: x in a || x in b ==> x in a + b;
    if b == [] {
      assert a + b == a;
    } else {
      var a' := a + [b[0]];
      assert a' + b[1..] == a + b && a'[..|a|] == a;
      NormalOn(a', b[1..]);
      hide Capital;
      Assoc(Normal(a), if b[0].spaced then " " else "", [Capital(b[0].letter)]);
      Parted(Normal(a), if b[0].spaced then " " else "", [Capital(b[0].letter)], Onward(b[1..]));
    }
  }

  lemma {:induction false} OnwardIsTidy(text: string, spaced: bool)
    ensures forall x :: x in Items(text, spaced) ==> x.letter < 26
    ensures Onward(Items(text, spaced)) == Tidy(text, true, spaced)
    decreases |text|
  {
    ItemsAreLetters(text, spaced);
    hide Capital, Upper, IsAlpha, Letter;
    if text != "" {
      if IsAlpha(text[0]) {
        OnwardIsTidy(text[1..], false);
        CapitalIsUpper(text[0]);
        assert Items(text, spaced)[1..] == Items(text[1..], false);
      } else {
        OnwardIsTidy(text[1..], spaced || text[0] == ' ');
      }
    }
  }

  lemma {:induction false} TidyFrom(text: string, spaced: bool)
    ensures forall x :: x in Items(text, spaced) ==> x.letter < 26
    ensures Normal(Items(text, spaced)) == Tidy(text, false, spaced)
    decreases |text|
  {
    ItemsAreLetters(text, spaced);
    hide Capital, Upper, IsAlpha, Letter;
    if text != "" {
      if IsAlpha(text[0]) {
        var x, rest := Item(Letter(text[0]), spaced), Items(text[1..], false);
        OnwardIsTidy(text[1..], false);
        CapitalIsUpper(text[0]);
        NormalOn([x], rest);
        assert [x][..0] == [] && Normal([x]) == [Capital(x.letter)];
      } else {
        TidyFrom(text[1..], spaced || text[0] == ' ');
      }
    }
  }

  /** The normal form of a text: upper case, one blank for those between two letters, and nothing else. */
  lemma {:induction false} NormalIsTidy(text: string)
    ensures Normal(Letters(text)) == Tidy(text, false, false)
  {
    TidyFrom(text, false);
  }
}
