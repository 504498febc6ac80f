/** The life cycle of an asteroid, reduced to the integer state that its
    per-frame update changes: the colour alpha, the fade-in and dying flags,
    and the "marked for death" flag that makes the form drop it.

    A new asteroid fades in from alpha 0 in steps of 15; once alpha has reached
    255 the next update ends the fade-in and the asteroid becomes collidable.
    An asteroid that has drifted off screen is dying: once it is no longer
    fading in, every update lowers alpha by 15, and the update that leaves
    alpha at 0 marks it for death. */
module Fading {

  const Step15 := 15
  const Opaque := 255

  datatype FadeState = FadeState(alpha: int, fadingIn: bool, dying: bool, marked: bool)

  /** The state of an asteroid straight after construction. */
  const Newborn := FadeState(0, true, false, false)

  /** The states reachable from `Newborn` (closed under `Step` and under marking). */
  ghost predicate Inv(s: FadeState) {
    && 0 <= s.alpha <= Opaque
    && s.alpha % Step15 == 0
    && (!s.fadingIn && !s.dying ==> s.alpha == Opaque)
    && (!s.fadingIn && s.alpha == 0 ==> s.marked)
  }

  /** One update of an asteroid whose new position is off screen exactly when
      `offscreen` holds: the fade-in block, then the fade-out block, in that
      order, within the same update. */
  function Step(s: FadeState, offscreen: bool): (r: FadeState)
    // the flags only ever move one way
    ensures !s.fadingIn ==> !r.fadingIn
    ensures s.dying ==> r.dying
    ensures s.marked ==> r.marked
    ensures r.dying == (s.dying || offscreen)
    // marking happens exactly when a fade-out leaves alpha at 0
    ensures r.marked == (s.marked || (r.dying && !r.fadingIn && r.alpha == 0))
    // alpha rises only while fading in, and falls only while dying after the fade-in
    ensures r.alpha > s.alpha ==> r.alpha == s.alpha + Step15 && s.fadingIn && r.fadingIn
    ensures r.alpha < s.alpha ==> r.alpha == s.alpha - Step15 && r.dying && !r.fadingIn
    // the update that ends the fade-in of a dying asteroid already fades it out once
    ensures s.fadingIn && s.alpha >= Opaque && r.dying ==> !r.fadingIn && r.alpha == s.alpha - Step15
  {
    var dying := s.dying || offscreen;
    var alpha1 := if s.fadingIn && s.alpha < Opaque then s.alpha + Step15 else s.alpha;
    var fadingIn1 := s.fadingIn && s.alpha < Opaque;
    if dying && !fadingIn1 then
      var alpha2 := if alpha1 >= Step15 then alpha1 - Step15 else alpha1;
      FadeState(alpha2, fadingIn1, dying, s.marked || alpha2 == 0)
    else
      FadeState(alpha1, fadingIn1, dying, s.marked)
  }

  /** The state after one update per entry of `offscreen`, oldest first. */
  function Run(s: FadeState, offscreen: seq<bool>): FadeState
  {
    if offscreen == [] then s
    else Step(Run(s, offscreen[..|offscreen| - 1]), offscreen[|offscreen| - 1])
  }

  /** Whether the asteroid was off screen on any of the updates. */
  predicate AnyOffscreen(offscreen: seq<bool>) {
    exists k :: 0 <= k < |offscreen| && offscreen[k]
  }

  lemma StepKeepsInv(s: FadeState, offscreen: bool)
    requires Inv(s)
    ensures Inv(Step(s, offscreen))
  {
  }

  /** Whatever happens on screen, alpha stays a multiple of 15 within [0, 255]. */
  lemma {:induction false} RunKeepsInv(s: FadeState, offscreen: seq<bool>)
    requires Inv(s)
    ensures Inv(Run(s, offscreen))
    ensures 0 <= Run(s, offscreen).alpha <= Opaque && Run(s, offscreen).alpha % Step15 == 0
  {
    if offscreen != [] {
      RunKeepsInv(s, offscreen[..|offscreen| - 1]);
      StepKeepsInv(Run(s, offscreen[..|offscreen| - 1]), offscreen[|offscreen| - 1]);
    }
  }

  /** Once cleared, the fade-in flag stays cleared; once set, the dying and
      marked flags stay set, over any number of updates. */
  lemma {:induction false} RunMonotone(s: FadeState, offscreen: seq<bool>)
    ensures !s.fadingIn ==> !Run(s, offscreen).fadingIn
    ensures s.dying ==> Run(s, offscreen).dying
    ensures s.marked ==> Run(s, offscreen).marked
  {
    if offscreen != [] {
      RunMonotone(s, offscreen[..|offscreen| - 1]);
    }
  }

  /** For its first 17 updates a new asteroid is fading in, unmarked, and its
      alpha is 15 per update so far; it is dying once it has been off screen. */
  lemma {:induction false} FadeInProgress(offscreen: seq<bool>)
    requires |offscreen| <= 17
    ensures Run(Newborn, offscreen).alpha == Step15 * |offscreen|
    ensures Run(Newborn, offscreen).fadingIn
    ensures !Run(Newborn, offscreen).marked
    ensures Run(Newborn, offscreen).dying == AnyOffscreen(offscreen)
  {
    if offscreen != [] {
      var init := offscreen[..|offscreen| - 1];
      FadeInProgress(init);
      assert AnyOffscreen(offscreen) == (AnyOffscreen(init) || offscreen[|offscreen| - 1]) by {
        if AnyOffscreen(init) {
          var k :| 0 <= k < |init| && init[k];
          assert offscreen[k];
        }
        if AnyOffscreen(offscreen) && !offscreen[|offscreen| - 1] {
          var k :| 0 <= k < |offscreen| && offscreen[k];
          assert init[k];
        }
      }
    }
  }

  /** A new asteroid is collidable (no longer fading in) exactly from its 18th
      update on: 17 updates bring alpha to 255, the 18th ends the fade-in. */
  lemma {:induction false} AliveExactlyAfter18(offscreen: seq<bool>)
    ensures !Run(Newborn, offscreen).fadingIn <==> |offscreen| >= 18
  {
    if |offscreen| <= 17 {
      FadeInProgress(offscreen);
    } else {
      var first := offscreen[..17];
      FadeInProgress(first);
      assert Run(Newborn, offscreen[..18]) == Step(Run(Newborn, first), offscreen[17]) by {
        assert offscreen[..18][..17] == first;
      }
      var rest := offscreen[18..];
      RunSplit(Newborn, offscreen[..18], rest);
      assert offscreen[..18] + rest == offscreen;
      RunMonotone(Run(Newborn, offscreen[..18]), rest);
    }
  }

  /** Updates compose: running `a` then `b` is running `a + b`. */
  lemma {:induction false} RunSplit(s: FadeState, a: seq<bool>, b: seq<bool>)
    ensures Run(Run(s, a), b) == Run(s, a + b)
  {
    if b != [] {
      RunSplit(s, a, b[..|b| - 1]);
      assert (a + b)[..|a + b| - 1] == a + b[..|b| - 1];
      assert (a + b)[|a + b| - 1] == b[|b| - 1];
    } else {
      assert a + b == a;
    }
  }

  /** Fading out: a dying asteroid that has finished fading in loses 15 alpha
      per update down to 0 and never skips past 0, and it is marked for death
      exactly once alpha has reached 0. */
  lemma {:induction false} FadeOut(s: FadeState, offscreen: seq<bool>)
    requires Inv(s) && !s.fadingIn && s.dying
    ensures Run(s, offscreen).alpha == if Step15 * |offscreen| <= s.alpha then s.alpha - Step15 * |offscreen| else 0
    ensures Run(s, offscreen).marked == (s.marked || s.alpha <= Step15 * |offscreen|)
    ensures !Run(s, offscreen).fadingIn && Run(s, offscreen).dying
  {
    if offscreen != [] {
      var init := offscreen[..|offscreen| - 1];
      FadeOut(s, init);
    }
  }

  /** From full opacity a dying asteroid needs exactly 17 updates to be marked. */
  lemma FadeOutFromOpaque(s: FadeState, offscreen: seq<bool>)
    requires s == FadeState(Opaque, false, true, false)
    ensures Run(s, offscreen).marked <==> |offscreen| >= 17
    ensures |offscreen| <= 17 ==> Run(s, offscreen).alpha == Opaque - Step15 * |offscreen|
  {
    FadeOut(s, offscreen);
  }
}
