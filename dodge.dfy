/** The dodge placement engine and the question card's state: how many times
    the No button has dodged, where it sits, whether the screen shakes, and
    whether the question has been accepted. */
module Dodge {
  import opened Option
  import opened Escalation

  /** Distance kept from every viewport edge. */
  const Padding: real := 60.0
  /** The No button's footprint. */
  const ButtonSize: real := 120.0
  /** A placement closer than this to the pointer is rejected. */
  const SafetyRadius: real := 150.0
  /** From this many attempts on, a dodge also shakes the screen. */
  const ShakeFrom: nat := 5

  datatype Position = Position(top: real, left: real)

  /** The random quantities of one dodge. The escape angle's cosine and sine
      (the angle from the pointer towards the viewport centre, jittered by up
      to 0.75 radians) are given directly; the others are draws in [0, 1). */
  datatype DodgeDraws = DodgeDraws(cos: real, sin: real, distance: real, jitterLeft: real, jitterTop: real)

  predicate IsDraw(r: real) {
    0.0 <= r < 1.0
  }

  predicate ValidDraws(d: DodgeDraws) {
    d.cos * d.cos + d.sin * d.sin == 1.0
    && IsDraw(d.distance) && IsDraw(d.jitterLeft) && IsDraw(d.jitterTop)
  }

  /** `Math.max(lo, Math.min(hi, v))`: `v` pulled into [lo, hi]; when the
      range is empty (hi < lo) the result is lo. */
  function Clamp(v: real, lo: real, hi: real): (r: real)
    ensures r >= lo
    ensures lo <= hi ==> r <= hi
    ensures lo <= v <= hi ==> r == v
    ensures v < lo ==> r == lo
    ensures lo <= hi < v ==> r == hi
    ensures hi < lo ==> r == lo
  {
    var m := if hi < v then hi else v;
    if lo > m then lo else m
  }

  /** The largest coordinate that keeps a button of size ButtonSize a padding
      away from the far edge of a viewport of extent `size`. */
  function FarEdge(size: real): real {
    size - ButtonSize - Padding
  }

  /** How far the candidate is projected from the pointer: 200 to 450 pixels. */
  function EscapeDistance(d: DodgeDraws): (r: real)
    requires ValidDraws(d)
    ensures 200.0 <= r < 450.0
  {
    200.0 + d.distance * 250.0
  }

  /** The candidate projected from the pointer along the escape angle,
      clamped into the viewport. */
  function FirstCandidate(mx: real, my: real, vw: real, vh: real, d: DodgeDraws): (p: Position)
    requires ValidDraws(d)
    ensures InViewport(p, vw, vh)
  {
    var dist := EscapeDistance(d);
    Position(Clamp(my + d.sin * dist, Padding, FarEdge(vh)), Clamp(mx + d.cos * dist, Padding, FarEdge(vw)))
  }

  /** The pointer reflected through the viewport centre, jittered by up to 50
      pixels each way, clamped into the viewport. */
  function Fallback(mx: real, my: real, vw: real, vh: real, d: DodgeDraws): (p: Position)
    requires ValidDraws(d)
    ensures InViewport(p, vw, vh)
  {
    Position(Clamp(vh - my + (d.jitterTop - 0.5) * 100.0, Padding, FarEdge(vh)),
             Clamp(vw - mx + (d.jitterLeft - 0.5) * 100.0, Padding, FarEdge(vw)))
  }

  /** Strictly within the safety radius of the pointer (compared squared). */
  predicate TooClose(p: Position, mx: real, my: real) {
    (p.left - mx) * (p.left - mx) + (p.top - my) * (p.top - my) < SafetyRadius * SafetyRadius
  }

  /** A position at least a padding away from the top and left edges and, for
      a viewport large enough to hold the button, from the right and bottom. */
  predicate InViewport(p: Position, vw: real, vh: real) {
    p.left >= Padding && p.top >= Padding
    && (vw >= 2.0 * Padding + ButtonSize ==> p.left <= FarEdge(vw))
    && (vh >= 2.0 * Padding + ButtonSize ==> p.top <= FarEdge(vh))
  }

  /** Where a dodge puts the No button. */
  predicate Placed(p: Position, mx: real, my: real, vw: real, vh: real, d: DodgeDraws)
    requires ValidDraws(d)
  {
    p == if TooClose(FirstCandidate(mx, my, vw, vh, d), mx, my) then Fallback(mx, my, vw, vh, d)
         else FirstCandidate(mx, my, vw, vh, d)
  }

  /** The first attempt of a dodge: project the pointer along the escape
      angle and clamp the result into the viewport. */
  method ProjectAway(mx: real, my: real, vw: real, vh: real, d: DodgeDraws) returns (pos: Position)
    requires ValidDraws(d)
    ensures pos == FirstCandidate(mx, my, vw, vh, d) && InViewport(pos, vw, vh)
  {
    var dist := EscapeDistance(d);
    var newLeft := mx + d.cos * dist;
    var newTop := my + d.sin * dist;
    newLeft := Clamp(newLeft, Padding, vw - ButtonSize - Padding);
    newTop := Clamp(newTop, Padding, vh - ButtonSize - Padding);
    pos := Position(newTop, newLeft);
  }

  /** The fallback of a dodge: reflect the pointer through the viewport
      centre, jitter it and clamp it into the viewport. */
  method ReflectPointer(mx: real, my: real, vw: real, vh: real, d: DodgeDraws) returns (pos: Position)
    requires ValidDraws(d)
    ensures pos == Fallback(mx, my, vw, vh, d) && InViewport(pos, vw, vh)
  {
    var newLeft := vw - mx + (d.jitterLeft - 0.5) * 100.0;
    var newTop := vh - my + (d.jitterTop - 0.5) * 100.0;
    newLeft := Clamp(newLeft, Padding, vw - ButtonSize - Padding);
    newTop := Clamp(newTop, Padding, vh - ButtonSize - Padding);
    pos := Position(newTop, newLeft);
  }

  /** The placement computation of a dodge: project and clamp, and if the
      clamped point is still too close to the pointer, reflect and clamp
      again. `reflected` tells whether the fallback was taken. */
  method PlaceNoButton(mx: real, my: real, vw: real, vh: real, d: DodgeDraws) returns (pos: Position, reflected: bool)
    requires ValidDraws(d)
    ensures InViewport(pos, vw, vh)
    ensures reflected <==> TooClose(FirstCandidate(mx, my, vw, vh, d), mx, my)
    ensures !reflected ==> pos == FirstCandidate(mx, my, vw, vh, d) && !TooClose(pos, mx, my)
    ensures reflected ==> pos == Fallback(mx, my, vw, vh, d)
  {
    pos := ProjectAway(mx, my, vw, vh, d);
    reflected := TooClose(pos, mx, my);
    if reflected {
      pos := ReflectPointer(mx, my, vw, vh, d);
    }
  }

  /** A coordinate kept at least a safety radius from the pointer in one axis
      keeps the whole point out of the radius. */
  lemma FarInOneAxis(p: Position, mx: real, my: real)
    requires (p.left - mx) * (p.left - mx) >= SafetyRadius * SafetyRadius
          || (p.top - my) * (p.top - my) >= SafetyRadius * SafetyRadius
    ensures !TooClose(p, mx, my)
  {
    assert (p.left - mx) * (p.left - mx) >= 0.0;
    assert (p.top - my) * (p.top - my) >= 0.0;
  }

  /** |x| >= 150 gives x * x >= 150 * 150. */
  lemma SquareAtLeast(x: real)
    requires x >= SafetyRadius || x <= -SafetyRadius
    ensures x * x >= SafetyRadius * SafetyRadius
  {
    if x >= SafetyRadius {
      assert x * x >= SafetyRadius * x >= SafetyRadius * SafetyRadius;
    } else {
      assert x * x == (-x) * (-x);
      assert (-x) * (-x) >= SafetyRadius * (-x) >= SafetyRadius * SafetyRadius;
    }
  }

  /** When the pointer is at least a safety radius inside every edge of the
      area the button may occupy, clamping can never pull the candidate back
      under the pointer: the first candidate is kept and is at least 150
      pixels from the pointer. */
  lemma NoFallbackWhenPointerHasRoom(mx: real, my: real, vw: real, vh: real, d: DodgeDraws)
    requires ValidDraws(d)
    requires Padding + SafetyRadius <= mx <= FarEdge(vw) - SafetyRadius
    requires Padding + SafetyRadius <= my <= FarEdge(vh) - SafetyRadius
    ensures !TooClose(FirstCandidate(mx, my, vw, vh, d), mx, my)
  {
    var dist := EscapeDistance(d);
    var u, w := d.cos * dist, d.sin * dist;
    ProjectionOutsideRadius(d.cos, d.sin, dist);
    ClampedOffsetStaysFar(mx, my, u, w, FarEdge(vw), FarEdge(vh));
    assert FirstCandidate(mx, my, vw, vh, d) == Position(Clamp(my + w, Padding, FarEdge(vh)), Clamp(mx + u, Padding, FarEdge(vw)));
  }

  /** A point offset from the pointer by (u, w), at least a safety radius
      long, stays at least that far once clamped, when the pointer is a
      safety radius inside every edge. */
  lemma ClampedOffsetStaysFar(mx: real, my: real, u: real, w: real, hiX: real, hiY: real)
    requires Padding + SafetyRadius <= mx <= hiX - SafetyRadius
    requires Padding + SafetyRadius <= my <= hiY - SafetyRadius
    requires u * u + w * w >= SafetyRadius * SafetyRadius
    ensures !TooClose(Position(Clamp(my + w, Padding, hiY), Clamp(mx + u, Padding, hiX)), mx, my)
  {
    var p := Position(Clamp(my + w, Padding, hiY), Clamp(mx + u, Padding, hiX));
    if mx + u < Padding || mx + u > hiX {
      ClampedAwayFromPointer(mx + u, mx, Padding, hiX);
      FarInOneAxis(p, mx, my);
    } else if my + w < Padding || my + w > hiY {
      ClampedAwayFromPointer(my + w, my, Padding, hiY);
      FarInOneAxis(p, mx, my);
    } else {
      assert p.left - mx == u && p.top - my == w;
    }
  }

  /** A coordinate clamped from outside the range lands on an edge, and a
      pointer a safety radius inside both edges is that far from it. */
  lemma ClampedAwayFromPointer(c: real, m: real, lo: real, hi: real)
    requires lo + SafetyRadius <= m <= hi - SafetyRadius
    requires c < lo || c > hi
    ensures (Clamp(c, lo, hi) - m) * (Clamp(c, lo, hi) - m) >= SafetyRadius * SafetyRadius
  {
    SquareAtLeast(Clamp(c, lo, hi) - m);
  }

  /** A point projected at least 200 pixels along a unit direction lies
      outside the safety radius. */
  lemma ProjectionOutsideRadius(cos: real, sin: real, dist: real)
    requires cos * cos + sin * sin == 1.0 && dist >= 200.0
    ensures (cos * dist) * (cos * dist) + (sin * dist) * (sin * dist) >= SafetyRadius * SafetyRadius
  {
    calc {
      (cos * dist) * (cos * dist) + (sin * dist) * (sin * dist);
      (cos * cos + sin * sin) * (dist * dist);
      dist * dist;
    }
    assert dist * dist >= 200.0 * dist >= 200.0 * 200.0;
  }

  /** A pointer at the centre of a 1000 x 800 viewport: the button lands
      inside the padded viewport and outside the safety radius, without
      needing the fallback. */
  lemma CentredPointerScenario(d: DodgeDraws)
    requires ValidDraws(d)
    ensures var p := FirstCandidate(500.0, 400.0, 1000.0, 800.0, d);
      InViewport(p, 1000.0, 800.0) && 60.0 <= p.left <= 820.0 && 60.0 <= p.top <= 620.0
      && !TooClose(p, 500.0, 400.0) && Placed(p, 500.0, 400.0, 1000.0, 800.0, d)
  {
    NoFallbackWhenPointerHasRoom(500.0, 400.0, 1000.0, 800.0, d);
  }

  /** The question card. */
  class Question {
    var attempts: nat
    var accepted: bool
    /** None while the No button still sits in the card. */
    var noButtonPos: Option<Position>
    var shaking: bool

    ghost predicate Valid()
      reads this
    {
      attempts <= SurrenderAt
      && (noButtonPos.None? <==> attempts == 0)
    }

    constructor ()
      ensures Valid()
      ensures attempts == 0 && !accepted && noButtonPos == None && !shaking
    {
      attempts := 0;
      accepted := false;
      noButtonPos := None;
      shaking := false;
    }

    /** One dodge with the pointer at (mx, my) in a vw x vh viewport. From
        the tenth attempt on it does nothing; before that it moves the button,
        counts the attempt and, from the fifth earlier attempt on, shakes. */
    method DodgeNo(mx: real, my: real, vw: real, vh: real, d: DodgeDraws)
      requires Valid() && ValidDraws(d)
      modifies this
      ensures Valid()
      ensures old(attempts) >= SurrenderAt ==> unchanged(this)
      ensures old(attempts) < SurrenderAt ==>
                && attempts == old(attempts) + 1
                && noButtonPos.Some? && Placed(noButtonPos.value, mx, my, vw, vh, d)
                && InViewport(noButtonPos.value, vw, vh)
                && shaking == (old(shaking) || old(attempts) >= ShakeFrom)
      ensures accepted == old(accepted)
    {
      if attempts >= SurrenderAt {
        return;
      }
      var pos, _ := PlaceNoButton(mx, my, vw, vh, d);
      noButtonPos := Some(pos);
      if attempts >= ShakeFrom {
        shaking := true;
      }
      attempts := attempts + 1;
    }

    /** The 400 ms timer a shaking dodge arms. */
    method EndShake()
      modifies this`shaking
      ensures !shaking
    {
      shaking := false;
    }

    /** The view of the No button the card currently renders. */
    function NoButtonNow(): NoButtonView
      reads this
    {
      NoButton(attempts, noButtonPos.Some?)
    }

    /** Clicking Yes accepts, at any attempt count. */
    method ClickYes()
      requires Valid()
      modifies this`accepted
      ensures Valid() && accepted
    {
      accepted := true;
    }

    /** The pointer enters the No button: it dodges unless it has surrendered.
        Once accepted the card, and the button, are gone. */
    method HoverNo(mx: real, my: real, vw: real, vh: real, d: DodgeDraws)
      requires Valid() && ValidDraws(d)
      modifies this
      ensures Valid() && accepted == old(accepted)
      ensures old(accepted) || old(attempts) >= SurrenderAt ==> unchanged(this)
      ensures !old(accepted) && old(attempts) < SurrenderAt ==>
                && attempts == old(attempts) + 1
                && noButtonPos.Some? && Placed(noButtonPos.value, mx, my, vw, vh, d)
                && InViewport(noButtonPos.value, vw, vh)
                && shaking == (old(shaking) || old(attempts) >= ShakeFrom)
    {
      if !accepted && NoButtonNow().hoverDodges {
        DodgeNo(mx, my, vw, vh, d);
      }
    }

    /** A click on the No button accepts exactly when it has surrendered. */
    method ClickNo()
      requires Valid()
      modifies this`accepted
      ensures Valid()
      ensures accepted <==> old(accepted) || (attempts >= SurrenderAt && noButtonPos.Some?)
    {
      if !accepted && NoButtonNow().clickAccepts {
        accepted := true;
      }
    }

    /** A touch on the No button dodges, or accepts once it has surrendered. */
    method TouchNo(mx: real, my: real, vw: real, vh: real, d: DodgeDraws)
      requires Valid() && ValidDraws(d)
      modifies this
      ensures Valid()
      ensures accepted <==> old(accepted) || old(attempts) >= SurrenderAt
      ensures old(accepted) || old(attempts) >= SurrenderAt ==>
                attempts == old(attempts) && noButtonPos == old(noButtonPos) && shaking == old(shaking)
      ensures !old(accepted) && old(attempts) < SurrenderAt ==>
                && attempts == old(attempts) + 1
                && noButtonPos.Some? && Placed(noButtonPos.value, mx, my, vw, vh, d)
                && InViewport(noButtonPos.value, vw, vh)
                && shaking == (old(shaking) || old(attempts) >= ShakeFrom)
    {
      if !accepted {
        if NoButtonNow().touch == Accept {
          accepted := true;
        } else {
          DodgeNo(mx, my, vw, vh, d);
        }
      }
    }
  }
}
