/** Facts about sequences shared by the display list, the charts and the queues. */
module Sequences {

  datatype Option<+T> = None | Some(value: T)

  /** No element occurs twice. */
  ghost predicate NoDup<T>(s: seq<T>) {
    s == [] || (s[0] !in s[1..] && NoDup(s[1..]))
  }

  lemma {:induction false} NoDupPairs<T>(s: seq<T>)
    ensures NoDup(s) <==> forall i, j :: 0 <= i < j < |s| ==> s[i] != s[j]
  {
    if s != [] {
      NoDupPairs(s[1..]);
      if NoDup(s) {
        forall i, j | 0 <= i < j < |s| ensures s[i] != s[j] {
          assert s[j] == s[1..][j - 1];
          if i > 0 {
            assert s[i] == s[1..][i - 1];
          }
        }
      }
      if forall i, j :: 0 <= i < j < |s| ==> s[i] != s[j] {
        assert forall i, j :: 0 <= i < j < |s[1..]| ==> s[1..][i] == s[i + 1] && s[1..][j] == s[j + 1];
      }
    }
  }

  function Elements<T>(s: seq<T>): (r: set<T>) {
    set x | x in s
  }

  /** `s` with every member of `drop` taken out; what is left keeps its order. */
  function Without<T(==)>(s: seq<T>, drop: set<T>): (r: seq<T>) {
    if s == [] then []
    else if s[0] in drop then Without(s[1..], drop)
    else [s[0]] + Without(s[1..], drop)
  }

  /** The first position whose element is in `wanted`; `|s|` when there is none. */
  function FirstIndex<T(==)>(s: seq<T>, wanted: set<T>): (k: nat)
    ensures k <= |s|
    ensures k < |s| ==> s[k] in wanted
    ensures forall i :: 0 <= i < k ==> s[i] !in wanted
  {
    if s == [] || s[0] in wanted then 0 else 1 + FirstIndex(s[1..], wanted)
  }

  /** The last position holding `x`; -1 when there is none. */
  function LastIndex<T(==)>(s: seq<T>, x: T): (k: int)
    ensures -1 <= k < |s|
    ensures k >= 0 ==> s[k] == x
    ensures forall i :: k < i < |s| ==> s[i] != x
  {
    if s == [] then -1
    else if s[|s| - 1] == x then |s| - 1
    else LastIndex(s[..|s| - 1], x)
  }

  function RemoveAt<T>(s: seq<T>, k: int): (r: seq<T>)
    requires -1 <= k < |s|
  {
    if k < 0 then s else s[..k] + s[k + 1..]
  }

  lemma {:induction false} WithoutMember<T>(s: seq<T>, drop: set<T>, x: T)
    ensures x in Without(s, drop) <==> x in s && x !in drop
  {
    if s != [] {
      assert x in s <==> x == s[0] || x in s[1..];
      WithoutMember(s[1..], drop, x);
    }
  }

  lemma {:induction false} WithoutNoDup<T>(s: seq<T>, drop: set<T>)
    requires NoDup(s)
    ensures NoDup(Without(s, drop))
  {
    if s != [] {
      WithoutNoDup(s[1..], drop);
      WithoutMember(s[1..], drop, s[0]);
    }
  }

  lemma {:induction false} WithoutConcat<T>(a: seq<T>, b: seq<T>, drop: set<T>)
    ensures Without(a + b, drop) == Without(a, drop) + Without(b, drop)
  {
    if a == [] {
      assert a + b == b;
    } else {
      assert (a + b)[1..] == a[1..] + b;
      WithoutConcat(a[1..], b, drop);
    }
  }

  lemma {:induction false} WithoutNone<T>(s: seq<T>, drop: set<T>)
    requires forall x :: x in s ==> x !in drop
    ensures Without(s, drop) == s
  {
    if s != [] {
      WithoutNone(s[1..], drop);
    }
  }

  lemma {:induction false} WithoutAll<T>(s: seq<T>, drop: set<T>)
    requires forall x :: x in s ==> x in drop
    ensures Without(s, drop) == []
  {
    if s != [] {
      WithoutAll(s[1..], drop);
    }
  }

  lemma {:induction false} NoDupConcat<T>(a: seq<T>, b: seq<T>)
    ensures NoDup(a + b) <==> NoDup(a) && NoDup(b) && forall x :: x in a ==> x !in b
  {
    if a == [] {
      assert a + b == b;
    } else {
      assert (a + b)[1..] == a[1..] + b;
      NoDupConcat(a[1..], b);
      assert forall x :: x in a <==> x == a[0] || x in a[1..];
    }
  }

  /** In a list without repeats, removing one position removes the value. */
  lemma {:induction false} RemoveAtIsWithout<T>(s: seq<T>, x: T)
    requires NoDup(s)
    ensures RemoveAt(s, LastIndex(s, x)) == Without(s, {x})
  {
    var k := LastIndex(s, x);
    if k < 0 {
      WithoutNone(s, {x});
    } else {
      WithoutAt(s, k);
    }
  }

  lemma {:induction false} WithoutAt<T>(s: seq<T>, k: int)
    requires NoDup(s) && 0 <= k < |s|
    ensures RemoveAt(s, k) == Without(s, {s[k]})
  {
    var a, x, b := s[..k], s[k], s[k + 1..];
    SplitAt(s, k);
    WithoutOne(s, a, x, b);
  }

  lemma SplitAt<T>(s: seq<T>, k: int)
    requires 0 <= k < |s|
    ensures s == s[..k] + [s[k]] + s[k + 1..]
  {
  }

  lemma WithoutOne<T>(s: seq<T>, a: seq<T>, x: T, b: seq<T>)
    requires NoDup(s) && s == a + [x] + b
    ensures Without(s, {x}) == a + b
  {
    var tail := [x] + b;
    assert s == a + tail && tail[1..] == b;
    NoDupConcat(a, tail);
    assert x in tail;
    WithoutConcat(a, tail, {x});
    WithoutNone(a, {x});
    WithoutNone(b, {x});
  }

  lemma Regroup<T>(front: seq<T>, a: seq<T>, x: seq<T>, b: seq<T>, back: seq<T>)
    ensures front + (a + x + b) + back == (front + a) + x + (b + back)
  {
  }
}
