/** Small shared vocabulary: an optional value, the Java/C++ integer helpers
    the modelled sources rely on, the "first strict minimum" scan that
    several of them perform with a running minimum, and std::string's
    ordering. */
module Common {

  datatype Option<T> = None | Some(value: T)

  /** The largest 32-bit signed integer (Java's Integer.MAX_VALUE, C++ INT_MAX). */
  const IntMax: int := 0x7fff_ffff

  function Abs(x: int): (r: nat)
    ensures r == x || r == -x
  {
    if x < 0 then -x else x
  }

  function Max(a: int, b: int): (r: int)
    ensures r >= a && r >= b && (r == a || r == b)
  {
    if a < b then b else a
  }

  function Min(a: int, b: int): (r: int)
    ensures r <= a && r <= b && (r == a || r == b)
  {
    if a < b then a else b
  }

  /** Integer division as Java and C++ do it: the quotient is truncated toward zero. */
  function TruncDiv(a: int, b: int): (q: int)
    requires b > 0
    ensures a >= 0 ==> q == a / b
    ensures a < 0 ==> q == -((-a) / b)
  {
    if a >= 0 then a / b else -((-a) / b)
  }

  /** A mathematical integer reduced to a 32-bit two's-complement int, as Java
      int and C++ int arithmetic wrap: 2^32 is taken away or added until the
      value lies in range. */
  function Wrap32(x: int): (r: int)
    ensures -0x8000_0000 <= r <= IntMax
    ensures -0x8000_0000 <= x <= IntMax ==> r == x
    decreases if x > IntMax then x else if x < -0x8000_0000 then -x else 0
  {
    if x > IntMax then Wrap32(x - 0x1_0000_0000)
    else if x < -0x8000_0000 then Wrap32(x + 0x1_0000_0000)
    else x
  }

  /** The wrapped value is congruent to the mathematical value modulo 2^32. */
  lemma {:induction false} Wrap32Congruent(x: int)
    ensures (x - Wrap32(x)) % 0x1_0000_0000 == 0
    decreases if x > IntMax then x else if x < -0x8000_0000 then -x else 0
  {
    if x > IntMax {
      Wrap32Congruent(x - 0x1_0000_0000);
    } else if x < -0x8000_0000 {
      Wrap32Congruent(x + 0x1_0000_0000);
    }
  }

  /** The wrapped value is the only 32-bit int congruent to the mathematical
      value modulo 2^32. */
  lemma Wrap32Unique(x: int, y: int)
    requires -0x8000_0000 <= y <= IntMax
    requires (x - y) % 0x1_0000_0000 == 0
    ensures Wrap32(x) == y
  {
    Wrap32Congruent(x);
    var r := Wrap32(x);
    assert ((x - y) - (x - r)) % 0x1_0000_0000 == 0 by {
      ModDifference(x - y, x - r);
    }
    assert r - y == (x - y) - (x - r);
  }

  lemma ModDifference(a: int, b: int)
    requires a % 0x1_0000_0000 == 0 && b % 0x1_0000_0000 == 0
    ensures (a - b) % 0x1_0000_0000 == 0
  {
    var m := 0x1_0000_0000;
    assert a == (a / m) * m;
    assert b == (b / m) * m;
    assert a - b == (a / m - b / m) * m;
  }

  const LongMax: int := 0x7fff_ffff_ffff_ffff

  /** Java's `(int) Math.round(d)` on a double: Math.round gives a long,
      saturating at Long.MAX_VALUE and Long.MIN_VALUE, and the cast keeps its
      low 32 bits as a two's-complement int. */
  function RoundToInt(x: real): (r: int)
    ensures -0x8000_0000 <= r <= IntMax
    ensures -0x8000_0000 <= Round(x) <= IntMax ==> r == Round(x)
  {
    var long := if Round(x) > LongMax then LongMax else if Round(x) < -LongMax - 1 then -LongMax - 1 else Round(x);
    Wrap32(long)
  }

  /** Java's Math.round on a real value: the nearest integer, halves rounded up. */
  function Round(x: real): (r: int)
    ensures r as real <= x + 0.5 < r as real + 1.0
  {
    (x + 0.5).Floor
  }

  /** The index a left-to-right scan keeps when it starts with a running minimum
      of `bound` and replaces it only on a strictly smaller cost: the first index
      of least cost, provided that cost is below `bound`. */
  function FirstMinBelow(costs: seq<int>, bound: int): (r: Option<nat>)
    ensures r.None? <==> forall j :: 0 <= j < |costs| ==> costs[j] >= bound
    ensures r.Some? ==> IsFirstMin(costs, r.value) && costs[r.value] < bound
  {
    if |costs| == 0 then None
    else
      var prev := FirstMinBelow(costs[..|costs| - 1], bound);
      var last := |costs| - 1;
      var best := if prev.Some? then costs[prev.value] else bound;
      if costs[last] < best then Some(last) else prev
  }

  /** One more step of the scan: the next cost replaces the running minimum
      exactly when it is strictly smaller. */
  lemma FirstMinBelowStep(costs: seq<int>, i: nat, bound: int)
    requires i < |costs|
    ensures var prev := FirstMinBelow(costs[..i], bound);
            FirstMinBelow(costs[..i + 1], bound) ==
              if costs[i] < (if prev.Some? then costs[prev.value] else bound) then Some(i) else prev
  {
    assert costs[..i + 1][..i] == costs[..i];
  }

  /** `k` is a position of least cost, and no earlier position has that cost. */
  ghost predicate IsFirstMin(costs: seq<int>, k: int)
  {
    && 0 <= k < |costs|
    && (forall j :: 0 <= j < |costs| ==> costs[k] <= costs[j])
    && (forall j :: 0 <= j < k ==> costs[k] < costs[j])
  }

  /** Only one position can be the first least-cost position. */
  lemma FirstMinUnique(costs: seq<int>, k1: int, k2: int)
    requires IsFirstMin(costs, k1) && IsFirstMin(costs, k2)
    ensures k1 == k2
  {
    assert costs[k1] == costs[k2];
  }

  /** Math.round never reverses an order. */
  lemma RoundMonotone(x: real, y: real)
    requires x <= y
    ensures Round(x) <= Round(y)
  {
  }

  /** std::string's operator<: lexicographic on characters, a proper prefix
      coming first. */
  predicate StringLess(a: string, b: string)
  {
    if a == [] then b != []
    else if b == [] then false
    else a[0] < b[0] || (a[0] == b[0] && StringLess(a[1..], b[1..]))
  }

  lemma {:induction false} StringLessIrreflexive(a: string)
    ensures !StringLess(a, a)
  {
    if a != [] {
      StringLessIrreflexive(a[1..]);
    }
  }

  lemma {:induction false} StringLessTransitive(a: string, b: string, c: string)
    requires StringLess(a, b) && StringLess(b, c)
    ensures StringLess(a, c)
  {
    if a != [] && b != [] && c != [] && a[0] == b[0] && b[0] == c[0] {
      StringLessTransitive(a[1..], b[1..], c[1..]);
    }
  }

  /** Exactly one of a < b, a == b and b < a holds. */
  lemma {:induction false} StringLessTrichotomous(a: string, b: string)
    ensures StringLess(a, b) || a == b || StringLess(b, a)
    ensures !(StringLess(a, b) && StringLess(b, a))
  {
    if a != [] && b != [] && a[0] == b[0] {
      StringLessTrichotomous(a[1..], b[1..]);
      if a[1..] == b[1..] {
        assert a == [a[0]] + a[1..] && b == [b[0]] + b[1..];
      }
    }
  }
}
