/** Moments of a run: something happened, and nothing undid it since. */
module Moments {
  // One of the first n moments is a hit.
  ghost predicate Ever(hit: int -> bool, n: nat) {
    exists i | 0 <= i < n :: hit(i)
  }

  lemma EverStep(hit: int -> bool, n: nat)
    ensures Ever(hit, n + 1) <==> Ever(hit, n) || hit(n)
  {
    if Ever(hit, n) {
      var i :| 0 <= i < n && hit(i);
      assert 0 <= i < n + 1 && hit(i);
    }
  }

  // Moment i keeps `ok`, with the hits counted in.
  ghost predicate KeptAt(ok: (int, bool) -> bool, hit: int -> bool, i: int, before: bool) {
    ok(i, before) ==> ok(i + 1, before || hit(i))
  }

  ghost predicate Kept(ok: (int, bool) -> bool, hit: int -> bool, n: nat) {
    forall i, before | 0 <= i < n :: KeptAt(ok, hit, i, before)
  }

  // What holds at the start, with no hit so far, and is kept by every moment holds after n moments.
  lemma {:induction false} Throughout(ok: (int, bool) -> bool, hit: int -> bool, n: nat)
    requires ok(0, false) && Kept(ok, hit, n)
    ensures ok(n, Ever(hit, n))
  {
    if n > 0 {
      Throughout(ok, hit, n - 1);
      EverStep(hit, n - 1);
      assert KeptAt(ok, hit, n - 1, Ever(hit, n - 1));
    }
  }

  // One of the first n moments is a hit, with no death after it.
  ghost predicate Since(hit: int -> bool, died: int -> bool, n: nat) {
    exists i | 0 <= i < n :: hit(i) && forall j | i < j < n :: !died(j)
  }

  lemma SinceStep(hit: int -> bool, died: int -> bool, n: nat)
    ensures Since(hit, died, n + 1) <==> hit(n) || (Since(hit, died, n) && !died(n))
  {
    if Since(hit, died, n) && !died(n) {
      var i :| 0 <= i < n && hit(i) && forall j | i < j < n :: !died(j);
      assert hit(i) && forall j | i < j < n + 1 :: !died(j);
    }
    if Since(hit, died, n + 1) && !hit(n) {
      var i :| 0 <= i < n + 1 && hit(i) && forall j | i < j < n + 1 :: !died(j);
      assert !died(n);
    }
  }

  lemma SinceCongruent(a: int -> bool, b: int -> bool, diedA: int -> bool, diedB: int -> bool, n: nat)
    requires forall i | 0 <= i < n :: a(i) == b(i) && diedA(i) == diedB(i)
    ensures Since(a, diedA, n) <==> Since(b, diedB, n)
  {
    if Since(a, diedA, n) {
      var i :| 0 <= i < n && a(i) && forall j | i < j < n :: !diedA(j);
      assert b(i) && forall j | i < j < n :: !diedB(j);
    }
    if Since(b, diedB, n) {
      var i :| 0 <= i < n && b(i) && forall j | i < j < n :: !diedB(j);
      assert a(i) && forall j | i < j < n :: !diedA(j);
    }
  }
}
