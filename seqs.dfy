/** Sequence helpers shared by the models: the optional value, the order-preserving
    `filter` and the keyed replacement that `Array.prototype.map` performs in the app. */
module Seqs {

  datatype Option<+T> = None | Some(value: T)

  function Min(a: int, b: int): int { if a <= b then a else b }

  function Max(a: int, b: int): int { if a >= b then a else b }

  /** The elements of `s` that satisfy `p`, in their original order. */
  function Filter<T>(s: seq<T>, p: T -> bool): (r: seq<T>)
    ensures |r| <= |s|
    ensures forall i :: 0 <= i < |r| ==> r[i] in s && p(r[i])
    ensures forall i :: 0 <= i < |s| && p(s[i]) ==> s[i] in r
  {
    if s == [] then []
    else (if p(s[0]) then [s[0]] else []) + Filter(s[1..], p)
  }

  /** Filtering a concatenation filters each part and keeps them in order. */
  lemma {:induction false} FilterAppend<T>(a: seq<T>, b: seq<T>, p: T -> bool)
    ensures Filter(a + b, p) == Filter(a, p) + Filter(b, p)
  {
    if a == [] {
      assert a + b == b;
    } else {
      assert (a + b)[1..] == a[1..] + b;
      FilterAppend(a[1..], b, p);
    }
  }

  /** Every element passes: the filter is the identity. */
  lemma {:induction false} FilterAll<T>(s: seq<T>, p: T -> bool)
    requires forall i :: 0 <= i < |s| ==> p(s[i])
    ensures Filter(s, p) == s
  {
    if s != [] {
      FilterAll(s[1..], p);
    }
  }

  /** No element passes: the filter is empty. */
  lemma {:induction false} FilterNone<T>(s: seq<T>, p: T -> bool)
    requires forall i :: 0 <= i < |s| ==> !p(s[i])
    ensures Filter(s, p) == []
  {
    if s != [] {
      FilterNone(s[1..], p);
    }
  }

  /** `s` with every element whose key equals `x`'s key replaced by `x`
      (`s.map(c => key(c) === key(x) ? x : c)`). */
  function ReplaceByKey<T, K(==)>(s: seq<T>, key: T -> K, x: T): (r: seq<T>)
    ensures |r| == |s|
    ensures forall i :: 0 <= i < |s| ==> r[i] == if key(s[i]) == key(x) then x else s[i]
  {
    if s == [] then []
    else [if key(s[0]) == key(x) then x else s[0]] + ReplaceByKey(s[1..], key, x)
  }

  /** Replacing twice under the same key keeps only the second replacement. */
  lemma {:induction false} ReplaceByKeyOverwrites<T, K>(s: seq<T>, key: T -> K, x: T, y: T)
    requires key(x) == key(y)
    ensures ReplaceByKey(ReplaceByKey(s, key, x), key, y) == ReplaceByKey(s, key, y)
  {
    if s != [] {
      ReplaceByKeyOverwrites(s[1..], key, x, y);
      assert ReplaceByKey(s, key, x)[1..] == ReplaceByKey(s[1..], key, x);
    }
  }

  /** Filtering keeps two outer parts whose elements all pass and drops a middle part
      whose elements all fail. */
  lemma FilterDropsMiddle<T>(front: seq<T>, mid: seq<T>, back: seq<T>, p: T -> bool)
    requires forall i :: 0 <= i < |front| ==> p(front[i])
    requires forall i :: 0 <= i < |mid| ==> !p(mid[i])
    requires forall i :: 0 <= i < |back| ==> p(back[i])
    ensures Filter(front + mid + back, p) == front + back
  {
    FilterAppend(front + mid, back, p);
    assert Filter(front + mid + back, p) == Filter(front + mid, p) + Filter(back, p);
    FilterAppend(front, mid, p);
    FilterNone(mid, p);
    FilterAll(front, p);
    FilterAll(back, p);
    assert Filter(front + mid, p) == front;
  }
}
