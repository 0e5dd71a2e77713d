/** Entity pools: the splice used to remove an element, and the backward index scan that
    moves every element of a pool, notices a hit, and removes the elements that expire. */
module Pool {

  /** Array.prototype.splice(i, 1): removes the element at index i, or nothing when i is past the end. */
  function RemoveAt<T>(xs: seq<T>, i: nat): (r: seq<T>)
    ensures i < |xs| ==> |r| == |xs| - 1
    ensures i >= |xs| ==> r == xs
    ensures |r| >= i ==> r[..i] == xs[..i]
    ensures forall k :: i <= k < |r| ==> r[k] == xs[k + 1]
  {
    if i < |xs| then xs[..i] + xs[i + 1..] else xs
  }

  /** Reference definition: the elements, in their original order, after each was advanced,
      keeping only those that have not expired. */
  function Survivors<T>(xs: seq<T>, advance: T -> T, expired: T -> bool): (r: seq<T>)
    ensures |r| <= |xs|
  {
    if xs == [] then []
    else (if expired(advance(xs[0])) then [] else [advance(xs[0])]) + Survivors(xs[1..], advance, expired)
  }

  /** Reference definition: some element, once advanced, hits. */
  predicate AnyHit<T>(xs: seq<T>, advance: T -> T, hit: T -> bool) {
    exists k :: 0 <= k < |xs| && hit(advance(xs[k]))
  }

  /** The scan `for (i = length - 1; i >= 0; i--)` over indices i-1 down to 0: the element at
      each index is advanced in place, tested for a hit (which sets the flag), and spliced out
      when it has expired. */
  function SweepBack<T>(xs: seq<T>, i: nat, advance: T -> T, hit: T -> bool, expired: T -> bool, flag: bool)
    : (r: (seq<T>, bool))
    requires i <= |xs|
    decreases i
  {
    if i == 0 then (xs, flag)
    else
      var e := advance(xs[i - 1]);
      var xs' := if expired(e) then RemoveAt(xs, i - 1) else xs[i - 1 := e];
      SweepBack(xs', i - 1, advance, hit, expired, flag || hit(e))
  }

  lemma {:induction false} SurvivorsAppend<T>(a: seq<T>, b: seq<T>, advance: T -> T, expired: T -> bool)
    ensures Survivors(a + b, advance, expired) == Survivors(a, advance, expired) + Survivors(b, advance, expired)
  {
    if a == [] {
      assert a + b == b;
    } else {
      assert (a + b)[1..] == a[1..] + b;
      SurvivorsAppend(a[1..], b, advance, expired);
    }
  }

  /** Survivors of a pool with one more element at its end. */
  lemma SurvivorsSnoc<T>(xs: seq<T>, x: T, advance: T -> T, expired: T -> bool)
    ensures Survivors(xs + [x], advance, expired)
         == Survivors(xs, advance, expired) + (if expired(advance(x)) then [] else [advance(x)])
  {
    SurvivorsAppend(xs, [x], advance, expired);
    assert [x][1..] == [];
  }

  /** The hit flag of a pool with one more element at its end. */
  lemma AnyHitSnoc<T>(xs: seq<T>, x: T, advance: T -> T, hit: T -> bool)
    ensures AnyHit(xs + [x], advance, hit) == (AnyHit(xs, advance, hit) || hit(advance(x)))
  {
    var ys := xs + [x];
    if hit(advance(x)) {
      assert ys[|xs|] == x;
    }
    if AnyHit(ys, advance, hit) && !hit(advance(x)) {
      var k :| 0 <= k < |ys| && hit(advance(ys[k]));
      assert k < |xs| && ys[k] == xs[k];
    }
    if AnyHit(xs, advance, hit) {
      var k :| 0 <= k < |xs| && hit(advance(xs[k]));
      assert ys[k] == xs[k];
    }
  }

  /** One step of the scan: the element at index i-1 is advanced and kept or spliced out;
      the pool below it and above it is left alone. */
  lemma SweepStepShape<T>(xs: seq<T>, i: nat, advance: T -> T, expired: T -> bool)
    requires 0 < i <= |xs|
    ensures var e := advance(xs[i - 1]);
            var xs' := if expired(e) then RemoveAt(xs, i - 1) else xs[i - 1 := e];
            && i - 1 <= |xs'|
            && xs'[..i - 1] == xs[..i - 1]
            && xs'[i - 1..] == (if expired(e) then [] else [e]) + xs[i..]
  {
  }

  /** Scanning indices below i leaves the part of the pool above i untouched and replaces the
      part below i by its survivors. */
  lemma {:induction false} SweepBackSplit<T>(xs: seq<T>, i: nat, advance: T -> T, hit: T -> bool, expired: T -> bool, flag: bool)
    requires i <= |xs|
    ensures SweepBack(xs, i, advance, hit, expired, flag)
         == (Survivors(xs[..i], advance, expired) + xs[i..], flag || AnyHit(xs[..i], advance, hit))
    decreases i
  {
    if i == 0 {
      assert xs[..0] == [];
      assert xs[0..] == xs;
      assert Survivors(xs[..0], advance, expired) == [];
      assert !AnyHit(xs[..0], advance, hit);
      assert [] + xs == xs;
      assert SweepBack(xs, 0, advance, hit, expired, flag) == (xs, flag);
    } else {
      var e := advance(xs[i - 1]);
      var xs' := if expired(e) then RemoveAt(xs, i - 1) else xs[i - 1 := e];
      var keep := if expired(e) then [] else [e];
      SweepStepShape(xs, i, advance, expired);
      SweepBackSplit(xs', i - 1, advance, hit, expired, flag || hit(e));
      SweepCombine(xs, xs', i, advance, hit, expired, flag);
    }
  }

  /** Folding one scanned element into the survivors of the prefix above it. */
  lemma SurvivorsStep<T>(xs: seq<T>, xs': seq<T>, i: nat, advance: T -> T, expired: T -> bool)
    requires 0 < i <= |xs| && i - 1 <= |xs'|
    requires xs'[..i - 1] == xs[..i - 1]
    requires xs'[i - 1..] == (if expired(advance(xs[i - 1])) then [] else [advance(xs[i - 1])]) + xs[i..]
    ensures Survivors(xs'[..i - 1], advance, expired) + xs'[i - 1..] == Survivors(xs[..i], advance, expired) + xs[i..]
  {
    var e := advance(xs[i - 1]);
    var keep := if expired(e) then [] else [e];
    var sv := Survivors(xs[..i - 1], advance, expired);
    assert xs[..i] == xs[..i - 1] + [xs[i - 1]];
    SurvivorsSnoc(xs[..i - 1], xs[i - 1], advance, expired);
    assert sv + (keep + xs[i..]) == (sv + keep) + xs[i..];
  }

  lemma SweepCombine<T>(xs: seq<T>, xs': seq<T>, i: nat, advance: T -> T, hit: T -> bool, expired: T -> bool, flag: bool)
    requires 0 < i <= |xs| && i - 1 <= |xs'|
    requires xs'[..i - 1] == xs[..i - 1]
    requires xs'[i - 1..] == (if expired(advance(xs[i - 1])) then [] else [advance(xs[i - 1])]) + xs[i..]
    ensures (Survivors(xs'[..i - 1], advance, expired) + xs'[i - 1..], flag || hit(advance(xs[i - 1])) || AnyHit(xs'[..i - 1], advance, hit))
         == (Survivors(xs[..i], advance, expired) + xs[i..], flag || AnyHit(xs[..i], advance, hit))
  {
    SurvivorsStep(xs, xs', i, advance, expired);
    assert xs[..i] == xs[..i - 1] + [xs[i - 1]];
    AnyHitSnoc(xs[..i - 1], xs[i - 1], advance, hit);
  }

  /** The backward scan with removal neither skips nor repeats an element: over the whole pool
      it yields exactly the forward survivors and raises the flag exactly when some element hits. */
  lemma SweepBackIsSurvivors<T>(xs: seq<T>, advance: T -> T, hit: T -> bool, expired: T -> bool, flag: bool)
    ensures SweepBack(xs, |xs|, advance, hit, expired, flag)
         == (Survivors(xs, advance, expired), flag || AnyHit(xs, advance, hit))
  {
    SweepBackSplit(xs, |xs|, advance, hit, expired, flag);
    assert xs[..|xs|] == xs;
    assert xs[|xs|..] == [];
    assert Survivors(xs, advance, expired) + [] == Survivors(xs, advance, expired);
  }

  /** Every survivor is an advanced element of the pool that has not expired. */
  lemma {:induction false} SurvivorsAreAdvanced<T>(xs: seq<T>, advance: T -> T, expired: T -> bool, k: nat)
    requires k < |Survivors(xs, advance, expired)|
    ensures exists j :: 0 <= j < |xs| && Survivors(xs, advance, expired)[k] == advance(xs[j])
    ensures !expired(Survivors(xs, advance, expired)[k])
  {
    var head := if expired(advance(xs[0])) then [] else [advance(xs[0])];
    var rest := Survivors(xs[1..], advance, expired);
    assert Survivors(xs, advance, expired) == head + rest;
    if k < |head| {
      assert Survivors(xs, advance, expired)[k] == advance(xs[0]);
    } else {
      SurvivorsAreAdvanced(xs[1..], advance, expired, k - |head|);
      var j :| 0 <= j < |xs[1..]| && rest[k - |head|] == advance(xs[1..][j]);
      assert xs[1..][j] == xs[j + 1];
    }
  }
}
