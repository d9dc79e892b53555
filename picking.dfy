/**
 * The collection pattern of the text cleaners: walk a list of raw pieces
 * (lines or sentences), keep the stripped form of those a predicate accepts,
 * and optionally stop at the first moment the kept pieces, joined by a
 * separator, grow longer than a cap.
 */
module Picking {
  import opened PyText

  /** The stripped form of every piece `keep` accepts, in order. */
  function Picked(xs: seq<string>, keep: string -> bool): (r: seq<string>)
    ensures |r| <= |xs|
    decreases |xs|
  {
    if xs == [] then []
    else
      var last := xs[|xs| - 1];
      Picked(xs[..|xs| - 1], keep) + (if keep(last) then [Strip(last)] else [])
  }

  /** The positions of the pieces `keep` accepts. */
  function PickedIndices(xs: seq<string>, keep: string -> bool): seq<nat>
    decreases |xs|
  {
    if xs == [] then []
    else
      PickedIndices(xs[..|xs| - 1], keep) + (if keep(xs[|xs| - 1]) then [|xs| - 1] else [])
  }

  lemma {:induction false} PickedIndicesLength(xs: seq<string>, keep: string -> bool)
    ensures |PickedIndices(xs, keep)| == |Picked(xs, keep)|
    decreases |xs|
  {
    if xs != [] {
      PickedIndicesLength(xs[..|xs| - 1], keep);
    }
  }

  /** Positions are increasing and inside the list. */
  lemma {:induction false} PickedIndicesIncreasing(xs: seq<string>, keep: string -> bool)
    ensures forall m :: 0 <= m < |PickedIndices(xs, keep)| ==> PickedIndices(xs, keep)[m] < |xs|
    ensures forall m, n :: 0 <= m < n < |PickedIndices(xs, keep)| ==>
      PickedIndices(xs, keep)[m] < PickedIndices(xs, keep)[n]
    decreases |xs|
  {
    if xs != [] {
      PickedIndicesIncreasing(xs[..|xs| - 1], keep);
    }
  }

  /** Each picked piece is the stripped accepted piece at its position. */
  lemma {:induction false} PickedIndicesSound(xs: seq<string>, keep: string -> bool)
    ensures |PickedIndices(xs, keep)| == |Picked(xs, keep)|
    ensures forall m :: 0 <= m < |PickedIndices(xs, keep)| ==>
      PickedIndices(xs, keep)[m] < |xs|
      && keep(xs[PickedIndices(xs, keep)[m]])
      && Picked(xs, keep)[m] == Strip(xs[PickedIndices(xs, keep)[m]])
    decreases |xs|
  {
    PickedIndicesLength(xs, keep);
    PickedIndicesIncreasing(xs, keep);
    if xs != [] {
      var init := xs[..|xs| - 1];
      PickedIndicesSound(init, keep);
      var ix0, p0 := PickedIndices(init, keep), Picked(init, keep);
      var ix, p := PickedIndices(xs, keep), Picked(xs, keep);
      assert ix[..|ix0|] == ix0 && p[..|p0|] == p0;
      forall m | 0 <= m < |ix|
        ensures keep(xs[ix[m]]) && p[m] == Strip(xs[ix[m]])
      {
        if m < |ix0| {
          assert ix[m] == ix0[m] && p[m] == p0[m];
          assert xs[ix0[m]] == init[ix0[m]];
        }
      }
    }
  }

  /** No accepted position is missed. */
  lemma {:induction false} PickedIndicesComplete(xs: seq<string>, keep: string -> bool)
    ensures forall k :: 0 <= k < |xs| && keep(xs[k]) ==> k in PickedIndices(xs, keep)
    decreases |xs|
  {
    if xs != [] {
      var init := xs[..|xs| - 1];
      PickedIndicesComplete(init, keep);
      assert forall k :: 0 <= k < |init| ==> xs[k] == init[k];
    }
  }

  /** What was picked from a prefix is a prefix of what is picked from the whole. */
  lemma {:induction false} PickedPrefix(xs: seq<string>, t: nat, keep: string -> bool)
    requires t <= |xs|
    ensures Picked(xs[..t], keep) <= Picked(xs, keep)
    decreases |xs| - t
  {
    if t < |xs| {
      PickedPrefix(xs, t + 1, keep);
      assert xs[..t + 1][..t] == xs[..t];
    } else {
      assert xs[..t] == xs;
    }
  }

  /** The length of the text picked from `xs[..u]`, joined by `sep`. */
  function JoinedLength(xs: seq<string>, keep: string -> bool, sep: string, u: nat): nat
    requires u <= |xs|
  {
    |Join(Picked(xs[..u], keep), sep)|
  }

  /**
   * The first cut `r >= t` at which the pieces picked from `xs[..r]` join to
   * more than `cap` characters, or the end of the list.
   */
  function StopAt(xs: seq<string>, keep: string -> bool, sep: string, cap: nat, t: nat): (r: nat)
    requires t <= |xs|
    ensures t <= r <= |xs|
    ensures r == |xs| || JoinedLength(xs, keep, sep, r) > cap
    ensures forall u :: t <= u < r ==> JoinedLength(xs, keep, sep, u) <= cap
    decreases |xs| - t
  {
    if t == |xs| || JoinedLength(xs, keep, sep, t) > cap then t
    else StopAt(xs, keep, sep, cap, t + 1)
  }

  /** One more piece: it is picked exactly when accepted. */
  lemma PickedStep(xs: seq<string>, j: nat, keep: string -> bool)
    requires j < |xs|
    ensures Picked(xs[..j + 1], keep) == Picked(xs[..j], keep) + (if keep(xs[j]) then [Strip(xs[j])] else [])
  {
    assert xs[..j + 1][..j] == xs[..j];
  }

  /** Below the cap the search for the cut moves on to the next piece. */
  lemma StopAtStep(xs: seq<string>, keep: string -> bool, sep: string, cap: nat, j: nat)
    requires j < |xs| && JoinedLength(xs, keep, sep, j) <= cap
    ensures StopAt(xs, keep, sep, cap, j) == StopAt(xs, keep, sep, cap, j + 1)
  {
  }

  /** Picking with an early stop once the joined text exceeds `cap`. */
  function PickUntil(xs: seq<string>, keep: string -> bool, sep: string, cap: nat): seq<string>
  {
    Picked(xs[..StopAt(xs, keep, sep, cap, 0)], keep)
  }

  /**
   * The collection loop of the extractors: strip each piece, pass over empty
   * ones, keep the accepted ones, and stop as soon as the kept pieces, joined
   * by `sep`, are longer than `cap`. `keep` never accepts a piece that strips
   * to nothing.
   */
  method CollectUntil(xs: seq<string>, keep: string -> bool, sep: string, cap: nat) returns (kept: seq<string>)
    requires forall x :: keep(x) ==> Strip(x) != ""
    ensures kept == PickUntil(xs, keep, sep, cap)
  {
    kept := [];
    var j := 0;
    while j < |xs|
      invariant 0 <= j <= |xs|
      invariant kept == Picked(xs[..j], keep)
      invariant JoinedLength(xs, keep, sep, j) <= cap
      invariant StopAt(xs, keep, sep, cap, 0) == StopAt(xs, keep, sep, cap, j)
    {
      PickedStep(xs, j, keep);
      StopAtStep(xs, keep, sep, cap, j);
      var line := Strip(xs[j]);
      if line == "" {
        j := j + 1;
        continue;
      }
      if keep(xs[j]) {
        kept := kept + [line];
      }
      if |Join(kept, sep)| > cap {
        return;
      }
      j := j + 1;
    }
    assert xs[..|xs|] == xs;
  }

  /**
   * The sentence loop of the extractive summary: keep the accepted pieces,
   * stripped, and right after a piece is kept stop if the kept pieces, joined
   * by `sep`, are longer than `cap`.
   */
  method CollectUntilOnAppend(xs: seq<string>, keep: string -> bool, sep: string, cap: nat) returns (kept: seq<string>)
    ensures kept == PickUntil(xs, keep, sep, cap)
  {
    kept := [];
    var j := 0;
    while j < |xs|
      invariant 0 <= j <= |xs|
      invariant kept == Picked(xs[..j], keep)
      invariant JoinedLength(xs, keep, sep, j) <= cap
      invariant StopAt(xs, keep, sep, cap, 0) == StopAt(xs, keep, sep, cap, j)
    {
      PickedStep(xs, j, keep);
      StopAtStep(xs, keep, sep, cap, j);
      if keep(xs[j]) {
        kept := kept + [Strip(xs[j])];
        if |Join(kept, sep)| > cap {
          return;
        }
      }
      j := j + 1;
    }
    assert xs[..|xs|] == xs;
  }

  /** The filter loop without a cap: strip, pass over empty pieces, keep the accepted ones. */
  method CollectAll(xs: seq<string>, keep: string -> bool) returns (kept: seq<string>)
    requires forall x :: keep(x) ==> Strip(x) != ""
    ensures kept == Picked(xs, keep)
  {
    kept := [];
    var j := 0;
    while j < |xs|
      invariant 0 <= j <= |xs|
      invariant kept == Picked(xs[..j], keep)
    {
      PickedStep(xs, j, keep);
      var line := Strip(xs[j]);
      if line != "" && keep(xs[j]) {
        kept := kept + [line];
      } else {
        assert !keep(xs[j]);
      }
      j := j + 1;
    }
    assert xs[..|xs|] == xs;
  }

  /** A larger cap never stops earlier. */
  lemma {:induction false} StopAtMonotone(xs: seq<string>, keep: string -> bool, sep: string, cap1: nat, cap2: nat, t: nat)
    requires t <= |xs| && cap1 <= cap2
    ensures StopAt(xs, keep, sep, cap1, t) <= StopAt(xs, keep, sep, cap2, t)
    decreases |xs| - t
  {
    if t < |xs| && JoinedLength(xs, keep, sep, t) <= cap1 {
      StopAtMonotone(xs, keep, sep, cap1, cap2, t + 1);
    }
  }

  /** What is picked under a smaller cap is a prefix of what is picked under a larger one. */
  lemma PickUntilMonotone(xs: seq<string>, keep: string -> bool, sep: string, cap1: nat, cap2: nat)
    requires cap1 <= cap2
    ensures PickUntil(xs, keep, sep, cap1) <= PickUntil(xs, keep, sep, cap2)
  {
    var t1 := StopAt(xs, keep, sep, cap1, 0);
    var t2 := StopAt(xs, keep, sep, cap2, 0);
    StopAtMonotone(xs, keep, sep, cap1, cap2, 0);
    PickedPrefix(xs[..t2], t1, keep);
    assert xs[..t2][..t1] == xs[..t1];
  }

  /** Stopping early only drops pieces from the end. */
  lemma PickUntilIsPrefix(xs: seq<string>, keep: string -> bool, sep: string, cap: nat)
    ensures PickUntil(xs, keep, sep, cap) <= Picked(xs, keep)
    ensures |Join(Picked(xs, keep), sep)| <= cap ==> PickUntil(xs, keep, sep, cap) == Picked(xs, keep)
  {
    var t := StopAt(xs, keep, sep, cap, 0);
    PickedPrefix(xs, t, keep);
    JoinPrefix(Picked(xs[..t], keep), Picked(xs, keep), sep);
    assert xs[..|xs|] == xs;
  }

  /** A property every accepted piece has once stripped holds of every picked piece. */
  lemma PickedAll(xs: seq<string>, keep: string -> bool, good: string -> bool)
    requires forall x :: keep(x) ==> good(Strip(x))
    ensures forall m :: 0 <= m < |Picked(xs, keep)| ==> good(Picked(xs, keep)[m])
  {
    PickedIndicesSound(xs, keep);
  }

  /** A property every accepted piece has once stripped holds of every piece picked before the stop. */
  lemma PickUntilAll(xs: seq<string>, keep: string -> bool, sep: string, cap: nat, good: string -> bool)
    requires forall x :: keep(x) ==> good(Strip(x))
    ensures forall m :: 0 <= m < |PickUntil(xs, keep, sep, cap)| ==> good(PickUntil(xs, keep, sep, cap)[m])
  {
    PickUntilFrom(xs, keep, sep, cap);
  }

  /** Every piece picked before the stop is an accepted piece, stripped. */
  lemma PickUntilFrom(xs: seq<string>, keep: string -> bool, sep: string, cap: nat)
    ensures forall m :: 0 <= m < |PickUntil(xs, keep, sep, cap)| ==>
      exists k :: 0 <= k < |xs| && keep(xs[k]) && PickUntil(xs, keep, sep, cap)[m] == Strip(xs[k])
  {
    var ys := xs[..StopAt(xs, keep, sep, cap, 0)];
    var ps := Picked(ys, keep);
    PickedIndicesSound(ys, keep);
    forall m | 0 <= m < |ps|
      ensures exists k :: 0 <= k < |xs| && keep(xs[k]) && ps[m] == Strip(xs[k])
    {
      var k := PickedIndices(ys, keep)[m];
      assert ys[k] == xs[k];
    }
  }
}
