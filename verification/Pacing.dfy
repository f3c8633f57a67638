/** How long the poller pauses after a PON walk, and what a whole paced pass adds up to. Durations are
    nanoseconds; the integer division is always of a positive remainder, so Go's is Dafny's. */
module Pacing {
  import opened Ordering

  /** The least pause: a negative gap counts as none. */
  function Gap(gap: int): (g: int)
    ensures g >= 0
  {
    Max(gap, 0)
  }

  datatype Settings = Settings(interval: int, gap: int, spread: bool)

  /** An equal share of the time left in the interval for each unit still to do. */
  function Share(p: Settings, elapsed: int, left: int): int
    requires left > 0
  {
    (p.interval - elapsed) / left
  }

  function Wait(p: Settings, elapsed: int, left: int): int {
    if p.spread && left > 0 && p.interval > 0 && p.interval - elapsed > 0 then Max(Gap(p.gap), Share(p, elapsed, left))
    else Gap(p.gap)
  }

  /** Time since the start of a pass after each unit's walk is followed by its pause. The pause after a walk
      shares the interval among the units still to do, so with n walks to come and one unit after the last
      pause the divisors are n, n - 1, ..., 1. */
  function Elapsed(p: Settings, walks: seq<int>, e: int): int {
    if walks == [] then e else Elapsed(p, walks[1..], e + walks[0] + Wait(p, e + walks[0], |walks|))
  }

  function Total(walks: seq<int>): int {
    if walks == [] then 0 else walks[0] + Total(walks[1..])
  }

  predicate NonNegative(walks: seq<int>) {
    forall i :: 0 <= i < |walks| ==> walks[i] >= 0
  }

  predicate Instant(walks: seq<int>) {
    forall i :: 0 <= i < |walks| ==> walks[i] == 0
  }

  lemma {:induction false} ShareBounds(p: Settings, elapsed: int, left: int)
    requires left > 0 && p.interval - elapsed > 0
    ensures 0 <= left * Share(p, elapsed, left) <= p.interval - elapsed < left * Share(p, elapsed, left) + left
    ensures 0 <= Share(p, elapsed, left) <= p.interval - elapsed
  {
    var r, q := p.interval - elapsed, (p.interval - elapsed) / left;
    assert r == left * q + r % left;
    assert q >= 0;
    Multiples(q, 1, left);
  }

  /** A pause is at least the gap, and never reaches past both the interval and the gap. */
  lemma {:induction false} PauseBounds(p: Settings, elapsed: int, left: int)
    requires left > 0
    ensures Gap(p.gap) <= Wait(p, elapsed, left)
    ensures elapsed + Wait(p, elapsed, left) <= Max(p.interval, elapsed + Gap(p.gap))
  {
    if p.interval - elapsed > 0 {
      ShareBounds(p, elapsed, left);
    }
  }

  /** With one unit left the pause ends exactly at the interval, or after the gap when that is later. */
  lemma {:induction false} LastPauseExact(p: Settings, elapsed: int)
    requires p.spread && elapsed >= 0
    ensures elapsed + Wait(p, elapsed, 1) == Max(p.interval, elapsed + Gap(p.gap))
  {
  }

  lemma {:induction false} Multiples(n: int, a: int, b: int)
    requires n >= 0 && a <= b
    ensures n * a <= n * b
  {
    assert n * b == n * a + n * (b - a);
  }

  lemma {:induction false} QuotientAtLeast(r: int, n: int, q: int)
    requires n > 0
    ensures r / n >= q <==> r >= n * q
  {
    var d := r / n;
    assert r == n * d + r % n;
    if d >= q {
      Multiples(n, q, d);
    } else {
      Multiples(n, d + 1, q);
      assert n * (d + 1) == n * d + n;
    }
  }

  /** When the next walk takes no time, the share does not shrink exactly when the gap is within the share
      and what the division dropped: a longer gap eats into the other units' time. */
  lemma {:induction false} ShareShrinksIff(p: Settings, elapsed: int, left: int)
    requires p.spread && p.interval > 0 && p.interval - elapsed > 0 && left >= 2
    ensures Share(p, elapsed + Wait(p, elapsed, left), left - 1) >= Share(p, elapsed, left) <==>
            Gap(p.gap) <= Share(p, elapsed, left) + (p.interval - elapsed) % left
  {
    var r, q := p.interval - elapsed, Share(p, elapsed, left);
    ShareBounds(p, elapsed, left);
    QuotientAtLeast(r - Wait(p, elapsed, left), left - 1, q);
    assert (left - 1) * q == left * q - q;
    assert r == left * q + r % left;
  }

  /** A pass of one second with ten units and a gap of half a second: the next share is smaller. */
  lemma {:induction false} ShareShrinks(p: Settings)
    requires p == Settings(1_000_000_000, 500_000_000, true)
    ensures Share(p, 0, 10) == 100_000_000 && Share(p, Wait(p, 0, 10), 9) < Share(p, 0, 10)
  {
    ShareShrinksIff(p, 0, 10);
  }

  /** Main result for instant walks: however many units there are, a spread pass ends exactly at the
      interval, or after one gap per pause when the gaps alone take longer. */
  lemma {:induction false} InstantPassEnds(p: Settings, walks: seq<int>, e: int)
    requires p.spread && e >= 0 && walks != [] && Instant(walks)
    ensures Elapsed(p, walks, e) == Max(p.interval, e + |walks| * Gap(p.gap))
  {
    var n, g := |walks|, Gap(p.gap);
    if n == 1 {
      LastPauseExact(p, e);
    } else {
      InstantPassEnds(p, walks[1..], e + Wait(p, e, n));
      NextPause(p, e, n);
    }
  }

  /** One pause leaves the end of the pass where it was. */
  lemma {:induction false} NextPause(p: Settings, e: int, n: int)
    requires p.spread && e >= 0 && n >= 2
    ensures var e' := e + Wait(p, e, n);
            Max(p.interval, e' + (n - 1) * Gap(p.gap)) == Max(p.interval, e + n * Gap(p.gap))
  {
    var g := Gap(p.gap);
    assert n * g == g + (n - 1) * g;
    if p.interval > 0 && p.interval - e > 0 && Share(p, e, n) > g {
      ShareBounds(p, e, n);
      LongerShare(n, Share(p, e, n), g);
    }
  }

  lemma {:induction false} LongerShare(n: int, q: int, g: int)
    requires n >= 1 && g <= q
    ensures q + (n - 1) * g <= n * q && n * g <= n * q
  {
    Multiples(n - 1, g, q);
    Multiples(n, g, q);
    assert n * q == q + (n - 1) * q;
  }

  /** Main result for walks of any length: a spread pass fills the interval, takes at least its walks and
      gaps, and is later than them by no more than what was left of the interval when it started. */
  lemma {:induction false} SpreadCost(p: Settings, walks: seq<int>, e: int)
    requires p.spread && e >= 0 && walks != [] && NonNegative(walks)
    ensures p.interval <= Elapsed(p, walks, e)
    ensures e + Total(walks) + |walks| * Gap(p.gap) <= Elapsed(p, walks, e)
    ensures Elapsed(p, walks, e) <= Max(p.interval, e) + Total(walks) + |walks| * Gap(p.gap)
  {
    var n, g, walked := |walks|, Gap(p.gap), e + walks[0];
    PauseBounds(p, walked, n);
    assert n * g == g + (n - 1) * g;
    if n == 1 {
      LastPauseExact(p, walked);
    } else {
      SpreadCost(p, walks[1..], walked + Wait(p, walked, n));
    }
  }

  /** Without spreading the pass is its walks and gaps, no more. */
  lemma {:induction false} PlainPass(p: Settings, walks: seq<int>, e: int)
    requires !p.spread
    ensures Elapsed(p, walks, e) == e + Total(walks) + |walks| * Gap(p.gap)
  {
    if walks != [] {
      PlainPass(p, walks[1..], e + walks[0] + Gap(p.gap));
      assert |walks| * Gap(p.gap) == Gap(p.gap) + (|walks| - 1) * Gap(p.gap);
    }
  }
}
