/** The seeded generator, the shuffle, and the stratified repository bootstrap, over exact reals. */
module Sampling {
  import opened Canonical
  import opened CanonicalProofs

  const RANGE := 0x1_0000_0000
  const FACTOR := 1664525
  const INCREMENT := 1013904223
  const INVERSE := 4276115653

  function StepState(state: int): (next: int)
    ensures 0 <= next < RANGE
  {
    (state * FACTOR + INCREMENT) % RANGE
  }

  /** The multiplier is invertible, so no two states lead to one: a run of the generator never merges into another. */
  lemma StepInjective(s: int, t: int)
    requires 0 <= s < RANGE && 0 <= t < RANGE && StepState(s) == StepState(t)
    ensures s == t
  {
    Undo(s);
    Undo(t);
  }

  lemma Undo(s: int)
    requires 0 <= s < RANGE
    ensures ((StepState(s) - INCREMENT) * INVERSE) % RANGE == s
  {
    var q := (s * FACTOR + INCREMENT) / RANGE;
    assert StepState(s) == s * FACTOR + INCREMENT - q * RANGE;
    assert FACTOR * INVERSE == 1657219 * RANGE + 1;
    var k := s * 1657219 - q * INVERSE;
    assert (StepState(s) - INCREMENT) * INVERSE == k * RANGE + s by {
      assert (s * FACTOR - q * RANGE) * INVERSE == s * (FACTOR * INVERSE) - (q * INVERSE) * RANGE;
    }
    Remainder(k, s);
  }

  lemma Remainder(k: int, s: int)
    requires 0 <= s < RANGE
    ensures (k * RANGE + s) % RANGE == s
  {
    var r := (k * RANGE + s) % RANGE;
    var q := (k * RANGE + s) / RANGE;
    assert k * RANGE + s == q * RANGE + r;
    assert (k - q) * RANGE == r - s;
  }

  /** The position a fresh number picks among `m`. */
  function Position(state: int, m: int): int { (state as real / RANGE as real * m as real).Floor }

  lemma PositionInside(state: int, m: int)
    requires 0 <= state < RANGE && m > 0
    ensures 0 <= Position(state, m) < m
  {
    var u := state as real / RANGE as real;
    assert u * RANGE as real == state as real;
    assert 0.0 <= u < 1.0;
    assert 0.0 <= u * m as real < m as real;
  }

  /** No position is out of reach, and each is drawn by the states of its own stretch of the range. */
  lemma PositionIs(state: int, m: int, at: int)
    requires 0 <= state < RANGE && m > 0 && 0 <= at < m
    ensures Position(state, m) == at <==> at * RANGE <= state * m < (at + 1) * RANGE
  {
    var u := state as real / RANGE as real * m as real;
    assert u * RANGE as real == (state * m) as real by {
      assert state as real / RANGE as real * RANGE as real == state as real;
      assert u * RANGE as real == (state as real / RANGE as real * RANGE as real) * m as real;
    }
    Scaled(u, at, state * m);
    Scaled(u, at + 1, state * m);
  }

  lemma Scaled(u: real, k: int, p: int)
    requires u * RANGE as real == p as real
    ensures k as real <= u <==> k * RANGE <= p
  {
    assert (k * RANGE) as real == k as real * RANGE as real;
    if k as real <= u {
      assert k as real * RANGE as real <= u * RANGE as real;
    } else {
      assert u * RANGE as real < k as real * RANGE as real;
    }
  }

  /** Every position of a list of at most 2^32 is picked by some state. */
  lemma PositionReached(m: int, at: int) returns (state: int)
    requires 0 < m <= RANGE && 0 <= at < m
    ensures 0 <= state < RANGE && Position(state, m) == at
  {
    state := (at * RANGE + m - 1) / m;
    var r := (at * RANGE + m - 1) % m;
    assert state * m == at * RANGE + m - 1 - r;
    assert at * RANGE <= state * m < at * RANGE + m;
    assert state * m < RANGE * m by { assert at * RANGE + m <= (at + 1) * RANGE <= m * RANGE; }
    Smaller(state, RANGE, m);
    assert 0 <= state;
    PositionIs(state, m, at);
  }

  lemma Smaller(a: int, b: int, m: int)
    requires m > 0 && a * m < b * m
    ensures a < b
  {}

  class Generator {
    var state: int

    predicate Valid()
      reads this
    {
      0 <= state < RANGE
    }

    constructor (seed: int)
      ensures Valid() && state == seed % RANGE
    { state := seed % RANGE; }

    /** Draws a position among `m`. */
    method Pick(m: int) returns (at: int)
      requires Valid() && m > 0
      modifies this
      ensures Valid() && state == StepState(old(state)) && at == Position(state, m) && 0 <= at < m
    {
      state := StepState(state);
      PositionInside(state, m);
      at := Position(state, m);
    }
  }

  /** The state the generator is in after `k` draws. */
  function StateAfter(seed: int, k: nat): int { if k == 0 then seed % RANGE else StepState(StateAfter(seed, k - 1)) }

  function Swapped<T>(s: seq<T>, i: int, j: int): seq<T>
    requires 0 <= i < |s| && 0 <= j < |s|
  {
    s[i := s[j]][j := s[i]]
  }

  /** The list after the draws for the positions above `i`. */
  function ShuffledTo<T>(items: seq<T>, seed: int, i: int): (r: seq<T>)
    requires 0 <= i < |items| || (i == 0 && |items| == 0)
    ensures |r| == |items|
    decreases |items| - i
  {
    if i >= |items| - 1 then items
    else
      var above := ShuffledTo(items, seed, i + 1);
      var at := |items| - 1 - i;
      PositionInside(StepOk(seed, at), i + 2);
      Swapped(above, i + 1, Position(StepOk(seed, at), i + 2))
  }

  function StepOk(seed: int, k: nat): (state: int)
    ensures 0 <= state < RANGE && state == StateAfter(seed, k)
  { StateAfter(seed, k) }

  lemma SwapKeeps<T>(s: seq<T>, i: int, j: int)
    requires 0 <= i < |s| && 0 <= j < |s|
    ensures multiset(Swapped(s, i, j)) == multiset(s)
  {}

  /** The position drawn for place `i + 1`: one of those up to it. */
  function Drawn(n: nat, seed: int, i: nat): (j: int)
    requires i + 1 < n
    ensures 0 <= j <= i + 1
  {
    PositionInside(StepOk(seed, n - 1 - i), i + 2);
    Position(StateAfter(seed, n - 1 - i), i + 2)
  }

  lemma ShuffledIs<T>(items: seq<T>, seed: int, i: nat)
    requires i + 1 < |items|
    ensures ShuffledTo(items, seed, i) == Swapped(ShuffledTo(items, seed, i + 1), i + 1, Drawn(|items|, seed, i))
  {
    hide Swapped, Position, StateAfter;
  }

  lemma ShuffledAll<T>(items: seq<T>, seed: int, i: nat)
    requires i + 1 == |items| || (i == 0 && |items| == 0)
    ensures ShuffledTo(items, seed, i) == items
  {}

  /** For every seed the shuffle is a permutation. */
  lemma {:induction false} ShufflePermutes<T>(items: seq<T>, seed: int, i: int)
    requires 0 <= i < |items| || (i == 0 && |items| == 0)
    ensures multiset(ShuffledTo(items, seed, i)) == multiset(items)
    decreases |items| - i
  {
    hide ShuffledTo, Swapped, Drawn;
    if i < |items| - 1 {
      ShufflePermutes(items, seed, i + 1);
      ShuffledIs(items, seed, i);
      SwapKeeps(ShuffledTo(items, seed, i + 1), i + 1, Drawn(|items|, seed, i));
    } else {
      ShuffledAll(items, seed, i);
    }
  }

  // ---- each arrangement tells its draws ---------------------------------------------------------------------------------------

  predicate Distinct<T(==)>(s: seq<T>) { forall i, j :: 0 <= i < j < |s| ==> s[i] != s[j] }

  /** The draw for place `i + 1` exchanges it with the one drawn; later draws leave it alone. */
  lemma {:induction false} PlaceSettled<T>(items: seq<T>, seed: int, i: nat, p: nat)
    requires i < p < |items|
    ensures ShuffledTo(items, seed, 0)[p] == ShuffledTo(items, seed, i)[p]
  {
    hide ShuffledTo, Drawn;
    if i > 0 {
      PlaceSettled(items, seed, i - 1, p);
      ShuffledIs(items, seed, i - 1);
    }
  }

  lemma SwapDistinct<T>(s: seq<T>, i: nat, j: nat)
    requires i < |s| && j < |s| && Distinct(s)
    ensures Distinct(Swapped(s, i, j))
  {}

  lemma {:induction false} ShuffleDistinct<T>(items: seq<T>, seed: int, i: nat)
    requires i < |items| && Distinct(items)
    ensures Distinct(ShuffledTo(items, seed, i))
    decreases |items| - i
  {
    if i < |items| - 1 {
      ShuffleDistinct(items, seed, i + 1);
      ShuffledIs(items, seed, i);
      hide Swapped, ShuffledTo, Drawn;
      SwapDistinct(ShuffledTo(items, seed, i + 1), i + 1, Drawn(|items|, seed, i));
    } else {
      hide Swapped;
    }
  }

  /**
   * No arrangement of different items comes about in two ways: seeds that shuffle them alike drew the same position at
   * every place.
   */
  lemma {:induction false} ShuffleTellsDraws<T>(items: seq<T>, seed: int, other: int, i: nat)
    requires i < |items| && Distinct(items) && ShuffledTo(items, seed, 0) == ShuffledTo(items, other, 0)
    ensures ShuffledTo(items, seed, i) == ShuffledTo(items, other, i)
    ensures forall k :: i <= k < |items| - 1 ==> Drawn(|items|, seed, k) == Drawn(|items|, other, k)
    decreases |items| - i
  {
    hide Swapped, ShuffledTo, Drawn, Distinct;
    if i < |items| - 1 {
      ShuffleTellsDraws(items, seed, other, i + 1);
      TellsStep(items, seed, other, i);
    } else {
      ShuffledAll(items, seed, i);
      ShuffledAll(items, other, i);
    }
  }

  lemma TellsStep<T>(items: seq<T>, seed: int, other: int, i: nat)
    requires i < |items| - 1 && Distinct(items) && ShuffledTo(items, seed, 0) == ShuffledTo(items, other, 0)
    requires ShuffledTo(items, seed, i + 1) == ShuffledTo(items, other, i + 1)
    ensures Drawn(|items|, seed, i) == Drawn(|items|, other, i) && ShuffledTo(items, seed, i) == ShuffledTo(items, other, i)
  {
    hide Swapped, ShuffledTo, Drawn, Distinct;
    PlaceSettled(items, seed, i, i + 1);
    PlaceSettled(items, other, i, i + 1);
    ShuffledIs(items, seed, i);
    ShuffledIs(items, other, i);
    ShuffleDistinct(items, seed, i + 1);
    SameDraw(ShuffledTo(items, seed, i + 1), i + 1, Drawn(|items|, seed, i), Drawn(|items|, other, i));
  }

  lemma SameDraw<T>(s: seq<T>, i: nat, j: nat, k: nat)
    requires i < |s| && j < |s| && k < |s| && Distinct(s) && Swapped(s, i, j)[i] == Swapped(s, i, k)[i]
    ensures j == k
  {
    assert Swapped(s, i, j)[i] == s[j] && Swapped(s, i, k)[i] == s[k];
  }

  /** The shuffle itself: a copy, swapped in place from the last position down. */
  method Shuffled<T>(items: seq<T>, seed: int) returns (r: seq<T>)
    ensures r == ShuffledTo(items, seed, 0)
    ensures multiset(r) == multiset(items)
  {
    ShufflePermutes(items, seed, 0);
    if |items| == 0 { return items; }
    var next := new Generator(seed);
    var copy := new T[|items|](k requires 0 <= k < |items| => items[k]);
    var i := |items| - 1;
    assert copy[..] == items;
    while i > 0
      invariant 0 <= i < |items| == copy.Length
      invariant next.Valid() && next.state == StateAfter(seed, |items| - 1 - i)
      invariant copy[..] == ShuffledTo(items, seed, i)
      invariant fresh(next) && fresh(copy)
      decreases i
    {
      var j := next.Pick(i + 1);
      assert copy[..] == ShuffledTo(items, seed, i - 1 + 1);
      copy[i], copy[j] := copy[j], copy[i];
      i := i - 1;
    }
    r := copy[..];
  }
}
