/** Splitting a sequence by a set of its members, keeping the order. */
module Sequences {
  /** The members of `s` that are in `S`, and those that are not, both in order. */
  function Only<T(==)>(s: seq<T>, S: set<T>): seq<T> {
    if s == [] then [] else (if s[0] in S then [s[0]] else []) + Only(s[1..], S)
  }

  function Without<T(==)>(s: seq<T>, S: set<T>): seq<T> {
    if s == [] then [] else (if s[0] in S then [] else [s[0]]) + Without(s[1..], S)
  }

  lemma {:induction false} NoneIsAllWithout<T>(s: seq<T>, S: set<T>)
    requires forall x :: x in s ==> x !in S
    ensures Only(s, S) == [] && Without(s, S) == s
  {
    if s != [] {
      NoneIsAllWithout(s[1..], S);
    }
  }

  /** Taking out the first member that is in `S` takes it off the front of those to come. */
  lemma {:induction false} TakeOutFirst<T>(s: seq<T>, S: set<T>, k: nat)
    requires k < |s| && s[k] in S && forall i :: 0 <= i < k ==> s[i] !in S
    ensures Only(s, S) == [s[k]] + Only(s[..k] + s[k + 1..], S)
    ensures Without(s, S) == Without(s[..k] + s[k + 1..], S)
  {
    var rest := s[..k] + s[k + 1..];
    if k > 0 {
      assert rest[1..] == s[1..][..k - 1] + s[1..][k..];
      TakeOutFirst(s[1..], S, k - 1);
    } else {
      assert rest == s[1..];
    }
  }

  lemma {:induction false} WithoutAppend<T>(s: seq<T>, x: T, S: set<T>)
    ensures Without(s + [x], S) == Without(s, S) + (if x in S then [] else [x])
  {
    if s != [] {
      assert (s + [x])[1..] == s[1..] + [x];
      WithoutAppend(s[1..], x, S);
    }
  }

  lemma {:induction false} OnlyAppend<T>(s: seq<T>, x: T, S: set<T>)
    ensures Only(s + [x], S) == Only(s, S) + (if x in S then [x] else [])
  {
    if s != [] {
      assert (s + [x])[1..] == s[1..] + [x];
      OnlyAppend(s[1..], x, S);
    }
  }

  /** Only the members of `s` itself matter. */
  lemma {:induction false} OnlyMembersMatter<T>(s: seq<T>, S: set<T>, S': set<T>)
    requires forall x :: x in s ==> (x in S <==> x in S')
    ensures Only(s, S) == Only(s, S') && Without(s, S) == Without(s, S')
  {
    if s != [] {
      OnlyMembersMatter(s[1..], S, S');
    }
  }

  lemma {:induction false} Members<T>(s: seq<T>, S: set<T>)
    ensures forall x :: x in Only(s, S) <==> x in s && x in S
    ensures forall x :: x in Without(s, S) <==> x in s && x !in S
  {
    if s != [] {
      Members(s[1..], S);
    }
  }

  lemma {:induction false} WithoutOne<T>(front: seq<T>, x: T, back: seq<T>)
    requires x !in front && x !in back
    ensures Without(front + [x] + back, {x}) == front + back
  {
    if front == [] {
      assert ([] + [x] + back)[1..] == back;
      NoneIsAllWithout(back, {x});
    } else {
      assert (front + [x] + back)[1..] == front[1..] + [x] + back;
      WithoutOne(front[1..], x, back);
    }
  }
}
