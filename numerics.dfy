/**
 * Numbers as the engine sees them: Java doubles restricted to what the
 * allocation code distinguishes (a finite value, not-a-number, or one of the
 * two infinities), computed over exact reals, and the tolerance comparisons
 * the engine borrows from its utility class.
 */
module Doubles {

  /** A Java double: a finite value, NaN, or an infinity. Signed zero is not represented. */
  datatype Double = Num(v: real) | NaN | PosInf | NegInf {

    predicate IsInfinite() { PosInf? || NegInf? }

    /** True for exactly the finite values strictly above zero. */
    predicate IsPositive() { Num? && v > 0.0 }
  }

  /** The sign of a non-NaN value: -1, 0 or 1 (an infinity has the sign of its direction). */
  function Sign(d: Double): (s: int)
    requires !d.NaN?
    ensures -1 <= s <= 1
    ensures s == 0 <==> d == Num(0.0)
    ensures s > 0 <==> (d.PosInf? || (d.Num? && d.v > 0.0))
  {
    match d
    case Num(x) => if x > 0.0 then 1 else if x < 0.0 then -1 else 0
    case PosInf => 1
    case NegInf => -1
  }

  function Infinity(sign: int): Double {
    if sign < 0 then NegInf else PosInf
  }

  /** IEEE addition: NaN is absorbing and opposite infinities give NaN. */
  function Add(a: Double, b: Double): (r: Double)
    ensures a.Num? && b.Num? ==> r == Num(a.v + b.v)
    ensures r.NaN? <==> a.NaN? || b.NaN? || (a.PosInf? && b.NegInf?) || (a.NegInf? && b.PosInf?)
  {
    if a.NaN? || b.NaN? then NaN
    else if a.Num? && b.Num? then Num(a.v + b.v)
    else if a.Num? then b
    else if b.Num? then a
    else if a == b then a
    else NaN
  }

  /** IEEE multiplication: zero times an infinity is NaN. */
  function Mul(a: Double, b: Double): (r: Double)
    ensures a.Num? && b.Num? ==> r == Num(a.v * b.v)
    ensures r.NaN? <==> a.NaN? || b.NaN? || (a.IsInfinite() && b == Num(0.0)) || (a == Num(0.0) && b.IsInfinite())
  {
    if a.NaN? || b.NaN? then NaN
    else if a.Num? && b.Num? then Num(a.v * b.v)
    else if Sign(a) == 0 || Sign(b) == 0 then NaN
    else Infinity(Sign(a) * Sign(b))
  }

  /**
   * IEEE division: a finite value over an infinity is zero, a non-zero value
   * over zero is an infinity, and zero over zero or an infinity over an
   * infinity is NaN.
   */
  function Div(a: Double, b: Double): (r: Double)
    ensures a.Num? && b.Num? && b.v != 0.0 ==> r == Num(a.v / b.v)
    ensures a.Num? && b.IsInfinite() ==> r == Num(0.0)
    ensures r.NaN? <==> a.NaN? || b.NaN? || (a.IsInfinite() && b.IsInfinite()) || (a == Num(0.0) && b == Num(0.0))
  {
    if a.NaN? || b.NaN? then NaN
    else if a.IsInfinite() && b.IsInfinite() then NaN
    else if a.IsInfinite() then Infinity(Sign(a) * (if Sign(b) < 0 then -1 else 1))
    else if b.IsInfinite() then Num(0.0)
    else if b.v != 0.0 then Num(a.v / b.v)
    else if a.v == 0.0 then NaN
    else Infinity(Sign(a))
  }

  /** IEEE subtraction. */
  function Sub(a: Double, b: Double): (r: Double)
    ensures a.Num? && b.Num? ==> r == Num(a.v - b.v)
  {
    Add(a, match b
           case Num(x) => Num(-x)
           case NaN => NaN
           case PosInf => NegInf
           case NegInf => PosInf)
  }
}

/**
 * The engine's tolerance comparisons. The utility class that implements them
 * is not part of this model; the engine only relies on the three facts
 * collected in Sound().
 */
module Tolerance {

  datatype Comparisons = Comparisons(
    equal: (real, real) -> bool,
    greater: (real, real) -> bool,
    lesserEqual: (real, real) -> bool)
  {
    /** A tolerance comparison never claims more than the exact one. */
    ghost predicate Sound() {
      && (forall a, b :: greater(a, b) ==> a > b)
      && (forall a, b :: a <= b ==> lesserEqual(a, b))
      && (forall a :: equal(a, a))
    }
  }
}

/** An insertion-ordered map, as Java's LinkedHashMap: the keys in order and the entries. */
module LinkedMaps {

  datatype LinkedMap<K, V> = LinkedMap(keys: seq<K>, entries: map<K, V>) {

    ghost predicate Valid() {
      && Distinct(keys)
      && entries.Keys == set k | k in keys
    }
  }

  ghost predicate Distinct<K>(s: seq<K>) {
    forall i, j :: 0 <= i < j < |s| ==> s[i] != s[j]
  }
}

/** Sums over the keys of a map, taken in a given iteration order. */
module Sums {
  import opened LinkedMaps

  /** The left fold m[k0] + m[k1] + ... over the keys in order, as a Java accumulation loop computes it. */
  function Total<K>(keys: seq<K>, m: map<K, real>): (r: real)
    requires forall k :: k in keys ==> k in m
  {
    if keys == [] then 0.0 else Total(keys[..|keys| - 1], m) + m[keys[|keys| - 1]]
  }

  /** Scaling every summand by c scales the total by c. */
  lemma {:induction false} TotalScaled<K>(keys: seq<K>, m: map<K, real>, n: map<K, real>, c: real)
    requires forall k :: k in keys ==> k in m && k in n && n[k] == c * m[k]
    ensures Total(keys, n) == c * Total(keys, m)
  {
    if keys != [] {
      TotalScaled(keys[..|keys| - 1], m, n, c);
    }
  }

  /** A total of non-negative summands is non-negative. */
  lemma {:induction false} TotalOfNonNegative<K>(keys: seq<K>, m: map<K, real>)
    requires forall k :: k in keys ==> k in m && m[k] >= 0.0
    ensures Total(keys, m) >= 0.0
  {
    if keys != [] {
      TotalOfNonNegative(keys[..|keys| - 1], m);
    }
  }

  /** A total over distinct keys does not depend on the order in which the keys are visited. */
  lemma {:induction false} TotalReordered<K>(s1: seq<K>, s2: seq<K>, m: map<K, real>)
    requires Distinct(s1) && Distinct(s2)
    requires forall k :: k in s1 <==> k in s2
    requires forall k :: k in s1 ==> k in m
    ensures Total(s1, m) == Total(s2, m)
    decreases |s1|
  {
    if s1 != [] {
      var last := s1[|s1| - 1];
      assert last in s1;
      var i :| 0 <= i < |s2| && s2[i] == last;
      var rest := s2[..i] + s2[i + 1..];
      TotalWithout(s2, i, m);
      assert forall k :: k in s1[..|s1| - 1] <==> k in rest by {
        forall k ensures k in s1[..|s1| - 1] <==> k in rest {
          if k in s1[..|s1| - 1] {
            var j :| 0 <= j < |s1| - 1 && s1[j] == k;
            assert k != last;
            assert k in s2;
            var j2 :| 0 <= j2 < |s2| && s2[j2] == k;
            assert j2 != i;
            if j2 < i { assert rest[j2] == k; } else { assert rest[j2 - 1] == k; }
          }
          if k in rest {
            var j :| 0 <= j < |rest| && rest[j] == k;
            if j < i { assert s2[j] == k; } else { assert s2[j + 1] == k; }
            assert k != last;
            assert k in s1;
            var j1 :| 0 <= j1 < |s1| && s1[j1] == k;
            assert j1 < |s1| - 1;
            assert s1[..|s1| - 1][j1] == k;
          }
        }
      }
      TotalReordered(s1[..|s1| - 1], rest, m);
    } else {
      FirstIsMember(s2);
    }
  }

  lemma FirstIsMember<K>(s: seq<K>)
    ensures s != [] ==> s[0] in s
  {
  }

  /** Removing one key from the visiting order removes its summand from the total. */
  lemma {:induction false} TotalWithout<K>(s: seq<K>, i: nat, m: map<K, real>)
    requires i < |s|
    requires forall k :: k in s ==> k in m
    ensures Distinct(s) ==> Distinct(s[..i] + s[i + 1..])
    ensures Total(s, m) == Total(s[..i] + s[i + 1..], m) + m[s[i]]
    decreases |s|
  {
    var rest := s[..i] + s[i + 1..];
    if i == |s| - 1 {
      assert rest == s[..|s| - 1];
    } else {
      var init := s[..|s| - 1];
      TotalWithout(init, i, m);
      assert rest[..|rest| - 1] == init[..i] + init[i + 1..];
      assert rest[|rest| - 1] == s[|s| - 1];
    }
  }
}
