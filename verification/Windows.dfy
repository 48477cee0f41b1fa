/** Sequences seen through a bounded window, and the subsequence that satisfies a test. */
module Windows {

  datatype Option<+T> = None | Some(value: T)

  function Min(a: nat, b: nat): nat { if a < b then a else b }

  function Max(a: nat, b: nat): nat { if a < b then b else a }

  /** The last `n` elements. */
  function Last<T>(s: seq<T>, n: nat): (r: seq<T>)
    requires n <= |s|
    ensures |r| == n
  {
    s[|s| - n..]
  }

  /** One more element at the back, and at most one fewer at the front: none before the window has
      outgrown `max`. */
  function Slide<T>(s: seq<T>, t: T, max: nat): seq<T> {
    if |s| + 1 > max then (s + [t])[1..] else s + [t]
  }

  function SlideAll<T>(s: seq<T>, added: seq<T>, max: nat): seq<T> {
    if added == [] then s
    else Slide(SlideAll(s, added[..|added| - 1], max), added[|added| - 1], max)
  }

  /** The exact size after `n` additions to a table of `start` rows. */
  function SizeAfter(start: nat, n: nat, max: nat): (size: nat)
    ensures size <= start + n
  {
    Min(start + n, Max(start, max))
  }

  lemma SlideOfLast<T>(all: seq<T>, n: nat, t: T, max: nat)
    requires n <= |all| && (n < max ==> n == |all|)
    ensures Slide(Last(all, n), t, max) == Last(all + [t], if n + 1 > max then n else n + 1)
  {}

  /** After any number of additions the window is a suffix of everything ever held, of exactly the
      size above. An oversized initial table never shrinks. */
  lemma {:induction false} SlideAllIsSuffix<T>(s: seq<T>, added: seq<T>, max: nat)
    ensures SlideAll(s, added, max) == Last(s + added, SizeAfter(|s|, |added|, max))
  {
    if added == [] {
    } else {
      var front, t := added[..|added| - 1], added[|added| - 1];
      SlideAllIsSuffix(s, front, max);
      var n := SizeAfter(|s|, |front|, max);
      SlideOfLast(s + front, n, t, max);
      assert SizeAfter(|s|, |added|, max) == if n + 1 > max then n else n + 1;
      assert s + added == s + front + [t];
    }
  }

  // ---------- subsequences ----------

  function Select<T>(s: seq<T>, keep: T -> bool): (r: seq<T>)
    ensures |r| <= |s|
  {
    if s == [] then []
    else
      var t := s[|s| - 1];
      Select(s[..|s| - 1], keep) + if keep(t) then [t] else []
  }

  lemma SelectPush<T>(s: seq<T>, t: T, keep: T -> bool)
    ensures Select(s + [t], keep) == Select(s, keep) + if keep(t) then [t] else []
  {
    assert (s + [t])[..|s|] == s;
  }

  lemma {:induction false} SelectConcat<T>(a: seq<T>, b: seq<T>, keep: T -> bool)
    ensures Select(a + b, keep) == Select(a, keep) + Select(b, keep)
  {
    if b == [] {
      assert a + b == a;
    } else {
      var front, t := b[..|b| - 1], b[|b| - 1];
      assert a + b == a + front + [t];
      SelectPush(a + front, t, keep);
      SelectConcat(a, front, keep);
    }
  }

  /** Selecting from a suffix gives a suffix of the selection. */
  lemma SelectLast<T>(s: seq<T>, n: nat, keep: T -> bool)
    requires n <= |s|
    ensures |Select(Last(s, n), keep)| <= |Select(s, keep)|
    ensures Select(Last(s, n), keep) == Last(Select(s, keep), |Select(Last(s, n), keep)|)
  {
    assert s == s[..|s| - n] + Last(s, n);
    SelectConcat(s[..|s| - n], Last(s, n), keep);
  }

  lemma {:induction false} SelectNothing<T>(s: seq<T>, keep: T -> bool)
    ensures Select(s, keep) == [] <==> forall t | t in s :: !keep(t)
  {
    if s == [] {
    } else {
      SelectNothing(s[..|s| - 1], keep);
      assert s == s[..|s| - 1] + [s[|s| - 1]];
    }
  }
}
