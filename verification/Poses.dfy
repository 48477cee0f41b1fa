/** Planar poses, their six-decimal storage form, and the arithmetic of the pose fit.

    Coordinates are exact reals measured in micro-units (10^-6 metre or radian), so printing with
    six decimals is rounding to an integer. */
module Poses {

  datatype Pose = Pose(x: real, y: real, yaw: real)

  const ORIGIN := Pose(0.0, 0.0, 0.0)

  function Plus(a: Pose, b: Pose): Pose {
    Pose(a.x + b.x, a.y + b.y, a.yaw + b.yaw)
  }

  function Over(a: Pose, n: nat): Pose
    requires 0 < n
  {
    Pose(a.x / n as real, a.y / n as real, a.yaw / n as real)
  }

  function Sum(ps: seq<Pose>): Pose {
    if ps == [] then ORIGIN else Plus(Sum(ps[..|ps| - 1]), ps[|ps| - 1])
  }

  // ---------- six-decimal storage ----------

  /** The rounding of `std::to_string(double)`: nearest, ties to even. */
  function RoundHalfEven(x: real): int {
    var low := x.Floor;
    var rest := x - low as real;
    if rest < 0.5 || (rest == 0.5 && low % 2 == 0) then low else low + 1
  }

  /** What is read back after a pose has been printed into a table. */
  function Quantise(p: Pose): Pose {
    Pose(RoundHalfEven(p.x) as real, RoundHalfEven(p.y) as real, RoundHalfEven(p.yaw) as real)
  }

  lemma RoundProperties(x: real)
    ensures x - 0.5 <= RoundHalfEven(x) as real <= x + 0.5
    ensures x == RoundHalfEven(x) as real - 0.5 || x == RoundHalfEven(x) as real + 0.5 ==> RoundHalfEven(x) % 2 == 0
    ensures RoundHalfEven(RoundHalfEven(x) as real) == RoundHalfEven(x)
  {
    var n := RoundHalfEven(x);
    assert (n as real).Floor == n;
  }

  /** The rounding is the only one that is nearest, and even at ties. */
  lemma RoundingIsUnique(x: real, n: int)
    requires x - 0.5 <= n as real <= x + 0.5
    requires x == n as real - 0.5 || x == n as real + 0.5 ==> n % 2 == 0
    ensures n == RoundHalfEven(x)
  {
    RoundProperties(x);
    var m := RoundHalfEven(x);
    assert -1.0 <= (n - m) as real <= 1.0;
  }

  lemma RoundMonotone(x: real, y: real)
    requires x <= y
    ensures RoundHalfEven(x) <= RoundHalfEven(y)
  {
    assert x.Floor <= y.Floor;
  }

  /** Print and read back as often as you like: only the first time can change a pose, and then by
      at most half a micro-unit per coordinate. */
  lemma StorageIsIdempotent(p: Pose)
    ensures Quantise(Quantise(p)) == Quantise(p)
    ensures Within(Pose(p.x - 0.5, p.y - 0.5, p.yaw - 0.5), Quantise(p), Pose(p.x + 0.5, p.y + 0.5, p.yaw + 0.5))
  {
    RoundProperties(p.x);
    RoundProperties(p.y);
    RoundProperties(p.yaw);
  }

  // ---------- bounds and order of the fit ----------

  predicate Within(lo: Pose, p: Pose, hi: Pose) {
    lo.x <= p.x <= hi.x && lo.y <= p.y <= hi.y && lo.yaw <= p.yaw <= hi.yaw
  }

  function Times(a: Pose, n: nat): Pose {
    Pose(a.x * n as real, a.y * n as real, a.yaw * n as real)
  }

  lemma TimesSuccessor(a: Pose, n: nat)
    ensures Times(a, n + 1) == Plus(Times(a, n), a)
  {
    var k := n as real;
    assert (n + 1) as real == k + 1.0;
    assert a.x * (k + 1.0) == a.x * k + a.x;
    assert a.y * (k + 1.0) == a.y * k + a.y;
    assert a.yaw * (k + 1.0) == a.yaw * k + a.yaw;
  }

  lemma PlusWithin(lo: Pose, p: Pose, hi: Pose, lo': Pose, p': Pose, hi': Pose)
    requires Within(lo, p, hi) && Within(lo', p', hi')
    ensures Within(Plus(lo, lo'), Plus(p, p'), Plus(hi, hi'))
  {}

  lemma {:induction false} SumWithin(lo: Pose, ps: seq<Pose>, hi: Pose)
    requires forall p | p in ps :: Within(lo, p, hi)
    ensures Within(Times(lo, |ps|), Sum(ps), Times(hi, |ps|))
  {
    if ps == [] {
    } else {
      var n := |ps| - 1;
      var front, p := ps[..n], ps[n];
      assert Within(lo, p, hi);
      SumWithin(lo, front, hi);
      PlusWithin(Times(lo, n), Sum(front), Times(hi, n), lo, p, hi);
      TimesSuccessor(lo, n);
      TimesSuccessor(hi, n);
    }
  }

  lemma DivideBounds(lo: real, s: real, hi: real, n: real)
    requires 0.0 < n
    requires lo * n <= s <= hi * n
    ensures lo <= s / n <= hi
  {
    assert s / n * n == s;
  }

  lemma OverWithin(lo: Pose, s: Pose, hi: Pose, n: nat)
    requires 0 < n
    requires Within(Times(lo, n), s, Times(hi, n))
    ensures Within(lo, Over(s, n), hi)
  {
    assert lo.x <= Over(s, n).x <= hi.x by {
      DivideBounds(lo.x, s.x, hi.x, n as real);
    }
    assert lo.y <= Over(s, n).y <= hi.y by {
      DivideBounds(lo.y, s.y, hi.y, n as real);
    }
    assert lo.yaw <= Over(s, n).yaw <= hi.yaw by {
      DivideBounds(lo.yaw, s.yaw, hi.yaw, n as real);
    }
  }

  lemma MeanWithin(lo: Pose, ps: seq<Pose>, hi: Pose)
    requires ps != []
    requires forall p | p in ps :: Within(lo, p, hi)
    ensures Within(lo, Over(Sum(ps), |ps|), hi)
  {
    SumWithin(lo, ps, hi);
    OverWithin(lo, Sum(ps), hi, |ps|);
  }

  lemma RoundBetween(lo: real, m: real, hi: real)
    requires lo <= m <= hi
    requires RoundHalfEven(lo) as real == lo && RoundHalfEven(hi) as real == hi
    ensures lo <= RoundHalfEven(m) as real <= hi
  {
    RoundMonotone(lo, m);
    RoundMonotone(m, hi);
  }

  /** The stored mean of stored poses lies in every box, with stored corners, that holds them all:
      in particular between the coordinate-wise minimum and maximum. */
  lemma StoredMeanWithin(lo: Pose, ps: seq<Pose>, hi: Pose)
    requires ps != []
    requires forall p | p in ps :: Within(lo, p, hi)
    requires Quantise(lo) == lo && Quantise(hi) == hi
    ensures Within(lo, Quantise(Over(Sum(ps), |ps|)), hi)
  {
    MeanWithin(lo, ps, hi);
    var m := Over(Sum(ps), |ps|);
    RoundBetween(lo.x, m.x, hi.x);
    RoundBetween(lo.y, m.y, hi.y);
    RoundBetween(lo.yaw, m.yaw, hi.yaw);
  }

  lemma SumPush(ps: seq<Pose>, p: Pose)
    ensures Sum(ps + [p]) == Plus(Sum(ps), p)
  {
    assert (ps + [p])[..|ps|] == ps;
  }

  lemma PlusAssociative(a: Pose, b: Pose, c: Pose)
    ensures Plus(Plus(a, b), c) == Plus(a, Plus(b, c))
  {}

  lemma {:induction false} SumConcat(ps: seq<Pose>, qs: seq<Pose>)
    ensures Sum(ps + qs) == Plus(Sum(ps), Sum(qs))
  {
    if qs == [] {
      assert ps + qs == ps;
    } else {
      var front, q := qs[..|qs| - 1], qs[|qs| - 1];
      SumConcat(ps, front);
      SumPush(ps + front, q);
      assert ps + qs == ps + front + [q];
      PlusAssociative(Sum(ps), Sum(front), q);
    }
  }

  /** Leaving `ps` out of a mean changes it exactly if `ps` do not add up to the origin. */
  lemma OverPlusIff(p: Pose, q: Pose, n: nat)
    requires 0 < n
    ensures Over(q, n) == Over(Plus(p, q), n) <==> p == ORIGIN
  {
    var k := n as real;
    assert (p.x + q.x) / k * k == p.x + q.x && q.x / k * k == q.x;
    assert (p.y + q.y) / k * k == p.y + q.y && q.y / k * k == q.y;
    assert (p.yaw + q.yaw) / k * k == p.yaw + q.yaw && q.yaw / k * k == q.yaw;
  }

  lemma {:induction false} SumWithout(ps: seq<Pose>, i: nat)
    requires i < |ps|
    ensures Sum(ps) == Plus(Sum(ps[..i] + ps[i + 1..]), ps[i])
  {
    var last := |ps| - 1;
    if i == last {
      assert ps[..i] + ps[i + 1..] == ps[..last];
    } else {
      SumWithout(ps[..last], i);
      var rest := ps[..i] + ps[i + 1..];
      assert rest[..|rest| - 1] == ps[..last][..i] + ps[..last][i + 1..];
    }
  }

  lemma RemoveFromMultiset<T>(s: seq<T>, i: nat)
    requires i < |s|
    ensures multiset(s[..i] + s[i + 1..]) == multiset(s) - multiset{s[i]}
  {
    assert s == s[..i] + ([s[i]] + s[i + 1..]);
  }

  lemma IndexOf<T>(s: seq<T>, t: T) returns (i: nat)
    requires t in multiset(s)
    ensures i < |s| && s[i] == t
  {
    assert t in s;
    i :| i < |s| && s[i] == t;
  }

  lemma SizeOfMultiset<T>(s: seq<T>)
    ensures |multiset(s)| == |s|
  {}

  /** The fit adds rows in whatever order the database delivers them. */
  lemma {:induction false} SumOfPermutation(ps: seq<Pose>, qs: seq<Pose>)
    requires multiset(ps) == multiset(qs)
    ensures Sum(ps) == Sum(qs)
    decreases |ps|
  {
    SizeOfMultiset(ps);
    SizeOfMultiset(qs);
    if ps == [] {
    } else {
      var last := |ps| - 1;
      RemoveFromMultiset(ps, last);
      assert ps[..last] + ps[last + 1..] == ps[..last];
      assert ps[last] in multiset(ps);
      var i := IndexOf(qs, ps[last]);
      RemoveFromMultiset(qs, i);
      SumOfPermutation(ps[..last], qs[..i] + qs[i + 1..]);
      SumWithout(qs, i);
    }
  }

  // ---------- the distance test ----------

  function SquaredDistance(a: Pose, b: Pose): real {
    (a.x - b.x) * (a.x - b.x) + (a.y - b.y) * (a.y - b.y)
  }

  /** `computeSloppy(a, b) > threshold`, without the square root. */
  predicate Sloppy(threshold: real, a: Pose, b: Pose) {
    threshold < 0.0 || threshold * threshold < SquaredDistance(a, b)
  }

  lemma ScaleOrder(a: real, b: real, c: real)
    requires 0.0 <= c
    ensures a < b && 0.0 < c ==> a * c < b * c
    ensures a <= b ==> a * c <= b * c
  {}

  lemma SquareOrder(t: real, d: real)
    requires 0.0 <= t && 0.0 <= d
    ensures t * t < d * d <==> t < d
  {
    if t < d {
      ScaleOrder(t, d, t);
      ScaleOrder(t, d, d);
      calc {
        t * t;
      <=
        d * t;
      ==
        t * d;
      <
        d * d;
      }
    } else {
      ScaleOrder(d, t, d);
      ScaleOrder(d, t, t);
      calc {
        d * d;
      <=
        t * d;
      ==
        d * t;
      <=
        t * t;
      }
    }
  }

  /** For the real square root `d` of the two squared differences, the test without the root decides
      `d > threshold`. The yaws play no part. */
  lemma SloppyIsDistanceTest(threshold: real, a: Pose, b: Pose, d: real)
    requires 0.0 <= d && d * d == (b.x - a.x) * (b.x - a.x) + (b.y - a.y) * (b.y - a.y)
    ensures Sloppy(threshold, a, b) <==> threshold < d
  {
    assert d * d == SquaredDistance(a, b);
    if 0.0 <= threshold {
      SquareOrder(threshold, d);
    }
  }
}
