/**
 Optional values, exact rounding over `real`, and the two selection idioms of the
 search code: `Iterator::max_by` keeps the last of several equal maxima and
 `Iterator::min_by` keeps the first of several equal minima.
 */
module Selection {
  datatype Option<+T> = None | Some(value: T)
  datatype Result<+T> = Ok(value: T) | Err

  type Byte = b: nat | b < 256

  function MaxNat(a: nat, b: nat): nat { if a < b then b else a }
  function MinNat(a: nat, b: nat): nat { if a < b then a else b }
  function MaxReal(a: real, b: real): real { if a < b then b else a }
  function MinReal(a: real, b: real): real { if a < b then a else b }
  function Clamp(x: real, lo: real, hi: real): real { if x < lo then lo else if x > hi then hi else x }
  function Abs(x: real): real { if x < 0.0 then -x else x }

  /** `f64::ceil`. */
  function Ceil(x: real): (r: int)
    ensures r as real - 1.0 < x <= r as real
  {
    -((-x).Floor)
  }

  /** `f64::round` on values that are not negative. */
  function Round(x: real): (r: int)
    ensures r as real - 0.5 <= x < r as real + 0.5
  {
    (x + 0.5).Floor
  }

  /** A comparison chain `cmp.then_with(..)` as a lexicographic key. */
  datatype Key = Key(first: real, second: real, third: real, fourth: real)

  predicate Le(x: Key, y: Key) {
    x.first < y.first || (x.first == y.first &&
    (x.second < y.second || (x.second == y.second &&
    (x.third < y.third || (x.third == y.third &&
    x.fourth <= y.fourth)))))
  }

  function Key1(a: real): Key { Key(a, 0.0, 0.0, 0.0) }
  function Key2(a: real, b: real): Key { Key(a, b, 0.0, 0.0) }
  function Key3(a: real, b: real, c: real): Key { Key(a, b, c, 0.0) }
  function Bit(b: bool): real { if b then 1.0 else 0.0 }

  function MaxBy<T>(s: seq<T>, key: T -> Key): (r: Option<T>)
    ensures r.None? <==> s == []
    ensures r.Some? ==> r.value in s
  {
    if s == [] then None else
    var best := MaxBy(s[..|s| - 1], key);
    var x := s[|s| - 1];
    if best.None? || Le(key(best.value), key(x)) then Some(x) else best
  }

  function MinBy<T>(s: seq<T>, key: T -> Key): (r: Option<T>)
    ensures r.None? <==> s == []
    ensures r.Some? ==> r.value in s
  {
    if s == [] then None else
    var best := MinBy(s[..|s| - 1], key);
    var x := s[|s| - 1];
    if best.None? || !Le(key(best.value), key(x)) then Some(x) else best
  }

  lemma {:induction false} MaxByIsMax<T>(s: seq<T>, key: T -> Key, x: T)
    requires x in s
    ensures Le(key(x), key(MaxBy(s, key).value))
  {
    if x in s[..|s| - 1] { MaxByIsMax(s[..|s| - 1], key, x); }
  }

  lemma {:induction false} MinByIsMin<T>(s: seq<T>, key: T -> Key, x: T)
    requires x in s
    ensures Le(key(MinBy(s, key).value), key(x))
  {
    if x in s[..|s| - 1] { MinByIsMin(s[..|s| - 1], key, x); }
  }

  /** Of several equal maxima the last one is kept. */
  lemma {:induction false} MaxByIsLast<T>(s: seq<T>, key: T -> Key) returns (i: nat)
    requires s != []
    ensures i < |s| && MaxBy(s, key) == Some(s[i])
    ensures forall j | i < j < |s| :: !Le(key(s[i]), key(s[j]))
  {
    i := |s| - 1;
    var init := s[..|s| - 1];
    if init != [] && !Le(key(MaxBy(init, key).value), key(s[|s| - 1])) {
      i := MaxByIsLast(init, key);
    }
  }

  /** Of several equal minima the first one is kept. */
  lemma {:induction false} MinByIsFirst<T>(s: seq<T>, key: T -> Key) returns (i: nat)
    requires s != []
    ensures i < |s| && MinBy(s, key) == Some(s[i])
    ensures forall j | 0 <= j < i :: !Le(key(s[j]), key(s[i]))
  {
    i := |s| - 1;
    var init := s[..|s| - 1];
    if init != [] {
      var k := MinByIsFirst(init, key);
      if Le(key(init[k]), key(s[|s| - 1])) { i := k; } else { AllAbove(init, key, key(s[|s| - 1])); }
    }
  }

  lemma AllAbove<T>(s: seq<T>, key: T -> Key, bound: Key)
    requires s != [] && !Le(key(MinBy(s, key).value), bound)
    ensures forall j | 0 <= j < |s| :: !Le(key(s[j]), bound)
  {
    forall j | 0 <= j < |s| ensures !Le(key(s[j]), bound) { MinByIsMin(s, key, s[j]); }
  }

  function Filter<T(!new)>(s: seq<T>, p: T -> bool): (r: seq<T>)
    ensures forall x :: x in r <==> x in s && p(x)
  {
    if s == [] then [] else
    var rest := Filter(s[..|s| - 1], p);
    if p(s[|s| - 1]) then rest + [s[|s| - 1]] else rest
  }

  /** Insertion into a strictly increasing sequence: `sort_unstable` followed by `dedup`. */
  function InsertRate(s: seq<nat>, x: nat): (r: seq<nat>)
    requires Increasing(s)
    ensures Increasing(r)
    ensures forall y :: y in r <==> y in s || y == x
  {
    if s == [] then [x]
    else if x < s[0] then [x] + s
    else if x == s[0] then s
    else
      var rest := InsertRate(s[1..], x);
      assert forall k | 0 <= k < |rest| :: s[0] < rest[k] by {
        forall k | 0 <= k < |rest| ensures s[0] < rest[k] {
          assert rest[k] in rest;
          if rest[k] != x {
            var i :| 0 <= i < |s[1..]| && s[1..][i] == rest[k];
            assert s[0] < s[i + 1];
          }
        }
      }
      [s[0]] + rest
  }

  predicate Increasing(s: seq<nat>) {
    forall i, j | 0 <= i < j < |s| :: s[i] < s[j]
  }

  function SortedDistinct(s: seq<nat>): (r: seq<nat>)
    ensures Increasing(r)
    ensures forall y :: y in r <==> y in s
  {
    if s == [] then [] else InsertRate(SortedDistinct(s[..|s| - 1]), s[|s| - 1])
  }

  /** Ascending insertion sort, as `sort_by(f64::total_cmp)`. */
  function InsertReal(s: seq<real>, x: real): (r: seq<real>)
    ensures |r| == |s| + 1
  {
    if s == [] || x < s[0] then [x] + s else [s[0]] + InsertReal(s[1..], x)
  }

  function SortReals(s: seq<real>): (r: seq<real>)
    ensures |r| == |s|
  {
    if s == [] then [] else InsertReal(SortReals(s[..|s| - 1]), s[|s| - 1])
  }

  predicate Ascending(s: seq<real>) { forall i, j | 0 <= i < j < |s| :: s[i] <= s[j] }

  lemma {:induction false} InsertRealMembers(s: seq<real>, x: real)
    ensures multiset(InsertReal(s, x)) == multiset(s) + multiset{x}
    decreases |s|
  {
    if s != [] && x >= s[0] {
      InsertRealMembers(s[1..], x);
      assert s == [s[0]] + s[1..];
    }
  }

  lemma {:induction false} InsertRealAbove(s: seq<real>, x: real, low: real)
    requires low <= x && forall i | 0 <= i < |s| :: low <= s[i]
    ensures forall i | 0 <= i < |InsertReal(s, x)| :: low <= InsertReal(s, x)[i]
    decreases |s|
  {
    if s != [] && x >= s[0] { InsertRealAbove(s[1..], x, low); }
  }

  lemma {:induction false} InsertRealFacts(s: seq<real>, x: real)
    requires Ascending(s)
    ensures Ascending(InsertReal(s, x)) && multiset(InsertReal(s, x)) == multiset(s) + multiset{x}
    decreases |s|
  {
    InsertRealMembers(s, x);
    if s != [] && x >= s[0] {
      InsertRealFacts(s[1..], x);
      InsertRealAbove(s[1..], x, s[0]);
    }
  }

  /** Sorting gives the same values in ascending order. */
  lemma {:induction false} SortRealsFacts(s: seq<real>)
    ensures Ascending(SortReals(s)) && multiset(SortReals(s)) == multiset(s)
  {
    if s != [] {
      SortRealsFacts(s[..|s| - 1]);
      InsertRealFacts(SortReals(s[..|s| - 1]), s[|s| - 1]);
      assert s == s[..|s| - 1] + [s[|s| - 1]];
    }
  }
}
