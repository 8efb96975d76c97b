/** The celebration's fireworks: rockets rise from the bottom of the canvas,
    burst into particles at a random altitude, and the particles fall and fade
    until their life runs out. One call of `Animate` is one animation frame. */
module Fireworks {

  const Palette: seq<string> := [
    "#ff4d6d", "#ff758f", "#c9184a", "#ffd700", "#ff85a1",
    "#ff0a54", "#ff477e", "#f72585", "#ff69b4", "#fe5196"
  ]

  const Gravity: real := 0.06
  const Drag: real := 0.98
  /** Life lost by a particle each frame. */
  const LifeStep: real := 0.012
  /** Launch gaps are between 400 and 800 milliseconds. */
  const MinGap: real := 400.0

  datatype Rocket = Rocket(x: real, y: real, vy: real, color: string, targetY: real)

  datatype Particle = Particle(
    x: real, y: real, vx: real, vy: real,
    color: string, size: real,
    rotation: real, rotationSpeed: real,
    isHeart: bool, alpha: real, life: real)

  predicate IsDraw(r: real) {
    0.0 <= r < 1.0
  }

  /** The random draws of one launch, each in [0, 1). */
  datatype LaunchDraws = LaunchDraws(x: real, target: real, color: real, speed: real, gap: real)

  predicate ValidLaunch(d: LaunchDraws) {
    IsDraw(d.x) && IsDraw(d.target) && IsDraw(d.color) && IsDraw(d.speed) && IsDraw(d.gap)
  }

  /** The random quantities of one particle. The cosine and sine of its
      direction (evenly spread around the circle, jittered) and its rotation
      angle are given directly; the others are draws in [0, 1). */
  datatype ParticleDraws = ParticleDraws(
    cos: real, sin: real, speed: real, keepColor: real, color: real,
    size: real, rotation: real, spin: real, heart: real)

  predicate ValidParticle(d: ParticleDraws) {
    IsDraw(d.speed) && IsDraw(d.keepColor) && IsDraw(d.color)
    && IsDraw(d.size) && IsDraw(d.spin) && IsDraw(d.heart)
  }

  /** The draws of one explosion: one for the particle count, and enough
      particle draws for the largest count. */
  datatype Burst = Burst(count: real, parts: seq<ParticleDraws>)

  predicate ValidBurst(b: Burst) {
    IsDraw(b.count) && |b.parts| >= 50
    && forall k :: 0 <= k < |b.parts| ==> ValidParticle(b.parts[k])
  }

  /** `colors[Math.floor(Math.random() * colors.length)]`'s index. */
  function PaletteIndex(r: real): (i: nat)
    requires IsDraw(r)
    ensures i < |Palette|
  {
    (r * 10.0).Floor
  }

  /** `size * (lo + f * span)` for a draw `f` lies between `size * lo` and
      `size * (lo + span)`. */
  lemma ScaledFraction(size: real, lo: real, span: real, f: real)
    requires size >= 0.0 && span >= 0.0 && IsDraw(f)
    ensures size * lo <= size * (lo + f * span) <= size * (lo + span)
  {
    assert size * (lo + f * span) == size * lo + size * (f * span);
    assert size * (lo + span) == size * lo + size * span;
    assert 0.0 <= f * span <= span;
    assert size * (f * span) <= size * span;
  }

  /** A rocket leaves the bottom edge between 15% and 85% of the width,
      aimed at an altitude 15% to 50% down from the top, rising 8 to 12
      pixels a frame. */
  function NewRocket(width: nat, height: nat, d: LaunchDraws): (r: Rocket)
    requires ValidLaunch(d)
    ensures r.y == height as real
    ensures -12.0 < r.vy <= -8.0
    ensures 0.15 * width as real <= r.x <= 0.85 * width as real
    ensures 0.15 * height as real <= r.targetY <= 0.5 * height as real
    ensures r.color in Palette
  {
    var w, h := width as real, height as real;
    var x, targetY := w * (0.15 + d.x * 0.7), h * (0.15 + d.target * 0.35);
    ScaledFraction(w, 0.15, 0.7, d.x);
    ScaledFraction(h, 0.15, 0.35, d.target);
    assert 0.15 * w <= x <= 0.85 * w && 0.15 * h <= targetY <= 0.5 * h;
    Rocket(x, h, -8.0 - d.speed * 4.0, Palette[PaletteIndex(d.color)], targetY)
  }

  /** The launch watermark after a frame at `time`. */
  function NextLaunch(time: real, next: real, d: LaunchDraws): (r: real)
    requires ValidLaunch(d)
    ensures time >= next ==> time + MinGap <= r < time + 2.0 * MinGap
    ensures time < next ==> r == next
  {
    if time >= next then time + 400.0 + d.gap * 400.0 else next
  }

  /** The rockets after the launch check of a frame: at most one more. */
  function Launched(rockets: seq<Rocket>, time: real, next: real, width: nat, height: nat, d: LaunchDraws): (r: seq<Rocket>)
    requires ValidLaunch(d)
    ensures |rockets| <= |r| <= |rockets| + 1
    ensures r[..|rockets|] == rockets
    ensures |r| == |rockets| + 1 <==> time >= next
  {
    if time >= next then rockets + [NewRocket(width, height, d)] else rockets
  }

  /** A particle of an explosion of `r`. */
  function Spark(r: Rocket, d: ParticleDraws): (p: Particle)
    requires ValidParticle(d)
    ensures p.x == r.x && p.y == r.y && p.life == 1.0 && p.alpha == 1.0
    ensures p.color == (if d.keepColor > 0.3 then r.color else Palette[PaletteIndex(d.color)])
    ensures 3.0 <= p.size < 9.0 && -0.15 <= p.rotationSpeed < 0.15
    ensures p.isHeart <==> d.heart > 0.4
  {
    var speed := 2.0 + d.speed * 4.0;
    Particle(r.x, r.y, d.cos * speed, d.sin * speed,
             if d.keepColor > 0.3 then r.color else Palette[PaletteIndex(d.color)],
             3.0 + d.size * 6.0, d.rotation, (d.spin - 0.5) * 0.3,
             d.heart > 0.4, 1.0, 1.0)
  }

  /** How many particles an explosion makes: 30 to 50. */
  function BurstSize(b: Burst): (n: nat)
    requires ValidBurst(b)
    ensures 30 <= n <= 50
  {
    30 + (b.count * 21.0).Floor
  }

  /** The particles an explosion of `r` adds, all at the rocket's position
      with full life and opacity. */
  function Shrapnel(r: Rocket, b: Burst): (s: seq<Particle>)
    requires ValidBurst(b)
    ensures 30 <= |s| <= 50
    ensures forall k :: 0 <= k < |s| ==>
              s[k].x == r.x && s[k].y == r.y && s[k].life == 1.0 && s[k].alpha == 1.0
  {
    seq(BurstSize(b), k requires 0 <= k < BurstSize(b) => Spark(r, b.parts[k]))
  }

  /** A rocket one frame later. */
  function Climb(r: Rocket): Rocket {
    r.(y := r.y + r.vy)
  }

  predicate Bursts(r: Rocket) {
    r.y <= r.targetY
  }

  /** The rockets that survive a frame's climb, each one frame higher, in
      their original order. */
  function Climbing(rs: seq<Rocket>): (r: seq<Rocket>)
    ensures |r| <= |rs|
  {
    if rs == [] then []
    else (if Bursts(Climb(rs[0])) then [] else [Climb(rs[0])]) + Climbing(rs[1..])
  }

  predicate ValidBursts(bs: seq<Burst>) {
    forall k :: 0 <= k < |bs| ==> ValidBurst(bs[k])
  }

  /** The particles the rockets that reach their altitude this frame add,
      rocket `k` using burst `k`; the frame walks the rockets from the last
      to the first, so later rockets' particles come first. */
  function Debris(rs: seq<Rocket>, bs: seq<Burst>): (r: seq<Particle>)
    requires |bs| >= |rs| && ValidBursts(bs)
    ensures |r| <= 50 * |rs|
  {
    if rs == [] then []
    else Debris(rs[1..], bs[1..]) + (if Bursts(Climb(rs[0])) then Shrapnel(Climb(rs[0]), bs[0]) else [])
  }

  /** A particle one frame later: it moves by its velocity, gravity pulls its
      vertical velocity down, drag slows both components, it spins, and it
      loses a frame of life, its opacity following its life. */
  function Fade(p: Particle): (q: Particle)
    ensures q.life == p.life - LifeStep && q.life < p.life
    ensures q.alpha == (if q.life > 0.0 then q.life else 0.0) && q.alpha >= 0.0
    ensures q.color == p.color && q.size == p.size && q.isHeart == p.isHeart
    ensures q.rotationSpeed == p.rotationSpeed
  {
    var life := p.life - LifeStep;
    p.(x := p.x + p.vx, y := p.y + p.vy,
       vx := p.vx * Drag, vy := (p.vy + Gravity) * Drag,
       rotation := p.rotation + p.rotationSpeed,
       life := life, alpha := if life > 0.0 then life else 0.0)
  }

  /** The particles that survive a frame, each one frame older, in their
      original order. */
  function Survivors(ps: seq<Particle>): (r: seq<Particle>)
    ensures |r| <= |ps|
  {
    if ps == [] then []
    else (if Fade(ps[0]).life <= 0.0 then [] else [Fade(ps[0])]) + Survivors(ps[1..])
  }

  /** Every surviving rocket is still below its target altitude. */
  lemma {:induction false} ClimbingBelowTarget(rs: seq<Rocket>)
    ensures forall k :: 0 <= k < |Climbing(rs)| ==> !Bursts(Climbing(rs)[k])
  {
    if rs != [] {
      ClimbingBelowTarget(rs[1..]);
    }
  }

  /** A rocket is removed exactly when its climb reaches its altitude. */
  lemma {:induction false} ClimbingExactly(rs: seq<Rocket>)
    ensures forall k :: 0 <= k < |rs| && !Bursts(Climb(rs[k])) ==> Climb(rs[k]) in Climbing(rs)
    ensures forall q :: q in Climbing(rs) ==> exists k :: 0 <= k < |rs| && q == Climb(rs[k]) && !Bursts(q)
  {
    if rs != [] {
      ClimbingExactly(rs[1..]);
      forall k | 0 <= k < |rs| && !Bursts(Climb(rs[k])) ensures Climb(rs[k]) in Climbing(rs) {
        if k > 0 {
          assert rs[k] == rs[1..][k - 1];
        }
      }
      forall q | q in Climbing(rs) ensures exists k :: 0 <= k < |rs| && q == Climb(rs[k]) && !Bursts(q) {
        if q in Climbing(rs[1..]) {
          var k :| 0 <= k < |rs[1..]| && q == Climb(rs[1..][k]) && !Bursts(q);
          assert rs[k + 1] == rs[1..][k];
        } else {
          assert q == Climb(rs[0]);
        }
      }
    }
  }

  /** Rockets keep their relative order: the survivors of a concatenation are
      the survivors of each part, concatenated. */
  lemma {:induction false} ClimbingConcat(a: seq<Rocket>, b: seq<Rocket>)
    ensures Climbing(a + b) == Climbing(a) + Climbing(b)
  {
    if a == [] {
      assert a + b == b;
    } else {
      assert (a + b)[0] == a[0] && (a + b)[1..] == a[1..] + b;
      ClimbingConcat(a[1..], b);
      var head: seq<Rocket> := if Bursts(Climb(a[0])) then [] else [Climb(a[0])];
      assert Climbing(a + b) == head + Climbing(a[1..] + b);
      assert Climbing(a) == head + Climbing(a[1..]);
    }
  }

  /** Every particle an explosion adds starts with full life and opacity. */
  lemma {:induction false} DebrisStartsFull(rs: seq<Rocket>, bs: seq<Burst>)
    requires |bs| >= |rs| && ValidBursts(bs)
    ensures forall k :: 0 <= k < |Debris(rs, bs)| ==> Debris(rs, bs)[k].life == 1.0 && Debris(rs, bs)[k].alpha == 1.0
  {
    if rs != [] {
      DebrisStartsFull(rs[1..], bs[1..]);
    }
  }

  /** Every survivor has positive life and an opacity equal to its life, and
      has one frame less life than the most any particle had before. */
  lemma {:induction false} SurvivorsLife(ps: seq<Particle>, most: real)
    requires forall k :: 0 <= k < |ps| ==> ps[k].life <= most
    ensures forall k :: 0 <= k < |Survivors(ps)| ==>
              0.0 < Survivors(ps)[k].life <= most - LifeStep && Survivors(ps)[k].alpha == Survivors(ps)[k].life
    ensures most <= LifeStep ==> Survivors(ps) == []
  {
    if ps != [] {
      SurvivorsLife(ps[1..], most);
    }
  }

  /** A particle is removed exactly when its life, after this frame's
      decrement, is at most zero; every survivor is one frame older than a
      particle of the input. */
  lemma {:induction false} SurvivorsExactly(ps: seq<Particle>)
    ensures forall k :: 0 <= k < |ps| && Fade(ps[k]).life > 0.0 ==> Fade(ps[k]) in Survivors(ps)
    ensures forall q :: q in Survivors(ps) ==> exists k :: 0 <= k < |ps| && q == Fade(ps[k]) && q.life > 0.0
  {
    if ps != [] {
      SurvivorsExactly(ps[1..]);
      forall k | 0 <= k < |ps| && Fade(ps[k]).life > 0.0 ensures Fade(ps[k]) in Survivors(ps) {
        if k > 0 {
          assert ps[k] == ps[1..][k - 1];
        }
      }
      forall q | q in Survivors(ps) ensures exists k :: 0 <= k < |ps| && q == Fade(ps[k]) && q.life > 0.0 {
        if q in Survivors(ps[1..]) {
          var k :| 0 <= k < |ps[1..]| && q == Fade(ps[1..][k]) && q.life > 0.0;
          assert ps[k + 1] == ps[1..][k];
        } else {
          assert q == Fade(ps[0]);
        }
      }
    }
  }

  /** Particles keep their relative order. */
  lemma {:induction false} SurvivorsConcat(a: seq<Particle>, b: seq<Particle>)
    ensures Survivors(a + b) == Survivors(a) + Survivors(b)
  {
    if a == [] {
      assert a + b == b;
    } else {
      assert (a + b)[0] == a[0] && (a + b)[1..] == a[1..] + b;
      SurvivorsConcat(a[1..], b);
      var head: seq<Particle> := if Fade(a[0]).life <= 0.0 then [] else [Fade(a[0])];
      assert Survivors(a + b) == head + Survivors(a[1..] + b);
      assert Survivors(a) == head + Survivors(a[1..]);
    }
  }

  /** The particle loop runs after the rocket loop over the whole list, so
      the particles an explosion adds are aged in the frame that adds them:
      every one of them ends the frame with life 1 - 0.012. */
  lemma DebrisAgedInSameFrame(rs: seq<Rocket>, bs: seq<Burst>)
    requires |bs| >= |rs| && ValidBursts(bs)
    ensures forall q :: q in Survivors(Debris(rs, bs)) ==> q.life == 1.0 - LifeStep && q.alpha == q.life
  {
    var ds := Debris(rs, bs);
    DebrisStartsFull(rs, bs);
    SurvivorsExactly(ds);
    forall q | q in Survivors(ds) ensures q.life == 1.0 - LifeStep && q.alpha == q.life {
      var k :| 0 <= k < |ds| && q == Fade(ds[k]) && q.life > 0.0;
    }
  }

  /** `n` frames of a set of particles with no new ones added. */
  function Frames(ps: seq<Particle>, n: nat): seq<Particle>
    decreases n
  {
    if n == 0 then ps else Frames(Survivors(ps), n - 1)
  }

  /** Particles whose life is at most n + 1 frames' worth are all gone after
      n + 1 frames. */
  lemma {:induction false} FramesExhaustLife(ps: seq<Particle>, n: nat)
    requires forall k :: 0 <= k < |ps| ==> ps[k].life <= (n + 1) as real * LifeStep
    ensures Frames(ps, n + 1) == []
    decreases n
  {
    SurvivorsLife(ps, (n + 1) as real * LifeStep);
    if n > 0 {
      FramesExhaustLife(Survivors(ps), n - 1);
    }
  }

  /** No particle outlives its countdown: a batch of particles with life at
      most 1 has vanished after 84 frames. */
  lemma BatchGoneAfter84Frames(ps: seq<Particle>)
    requires forall k :: 0 <= k < |ps| ==> ps[k].life <= 1.0
    ensures Frames(ps, 84) == []
  {
    FramesExhaustLife(ps, 83);
  }

  /** `n` frames of a set of rockets with no launches. */
  function ClimbFrames(rs: seq<Rocket>, n: nat): seq<Rocket>
    decreases n
  {
    if n == 0 then rs else ClimbFrames(Climbing(rs), n - 1)
  }

  /** A frame's survivors rise at least 8 pixels closer to their altitude. */
  lemma {:induction false} ClimbingCloses(rs: seq<Rocket>, gap: real)
    requires forall k :: 0 <= k < |rs| ==> rs[k].vy <= -8.0 && rs[k].y - rs[k].targetY <= gap
    ensures forall k :: 0 <= k < |Climbing(rs)| ==>
              Climbing(rs)[k].vy <= -8.0 && Climbing(rs)[k].y - Climbing(rs)[k].targetY <= gap - 8.0
    ensures gap <= 8.0 ==> Climbing(rs) == []
  {
    if rs != [] {
      ClimbingCloses(rs[1..], gap);
    }
  }

  /** Rockets rising at least 8 pixels a frame and at most 8(n + 1) pixels
      below their altitude have all exploded after n + 1 frames. */
  lemma {:induction false} RocketsBurstInTime(rs: seq<Rocket>, n: nat)
    requires forall k :: 0 <= k < |rs| ==> rs[k].vy <= -8.0 && rs[k].y - rs[k].targetY <= 8.0 * (n + 1) as real
    ensures ClimbFrames(rs, n + 1) == []
    decreases n
  {
    ClimbingCloses(rs, 8.0 * (n + 1) as real);
    if n > 0 {
      RocketsBurstInTime(Climbing(rs), n - 1);
    }
  }

  /** A newly launched rocket on a canvas of height `height` has exploded
      after n + 1 frames once 8(n + 1) pixels cover 85% of the height. */
  lemma NewRocketBurstsInTime(width: nat, height: nat, d: LaunchDraws, n: nat)
    requires ValidLaunch(d)
    requires 0.85 * height as real <= 8.0 * (n + 1) as real
    ensures ClimbFrames([NewRocket(width, height, d)], n + 1) == []
  {
    RocketsBurstInTime([NewRocket(width, height, d)], n);
  }

  predicate RocketOk(r: Rocket) {
    -12.0 < r.vy <= -8.0
  }

  /** The climb keeps every rocket's speed. */
  lemma {:induction false} ClimbingKeepsSpeed(rs: seq<Rocket>)
    requires forall k :: 0 <= k < |rs| ==> RocketOk(rs[k])
    ensures forall k :: 0 <= k < |Climbing(rs)| ==> RocketOk(Climbing(rs)[k])
  {
    if rs != [] {
      ClimbingKeepsSpeed(rs[1..]);
    }
  }

  /** One pass of the rocket loop on rocket `i`, with the rockets after it
      already processed, leaves the rockets from `i` on processed. */
  lemma RocketsAfterPass(launched: seq<Rocket>, i: nat)
    requires i < |launched|
    ensures var before := launched[..i + 1] + Climbing(launched[i + 1..]);
            var r := Climb(launched[i]);
            before[..i] + (if Bursts(r) then [] else [r]) + before[i + 1..] == launched[..i] + Climbing(launched[i..])
  {
    var before := launched[..i + 1] + Climbing(launched[i + 1..]);
    assert launched[i..][1..] == launched[i + 1..];
    assert before[..i] == launched[..i];
    assert before[i + 1..] == Climbing(launched[i + 1..]);
  }

  /** One pass of the rocket loop on rocket `i` appends the debris of that
      rocket after the debris of the rockets after it. */
  lemma DebrisAfterPass(launched: seq<Rocket>, bursts: seq<Burst>, i: nat, p0: seq<Particle>)
    requires i < |launched| <= |bursts| && ValidBursts(bursts)
    ensures ValidBursts(bursts[i..]) && ValidBursts(bursts[i + 1..])
    ensures var r := Climb(launched[i]);
            p0 + Debris(launched[i + 1..], bursts[i + 1..]) + (if Bursts(r) then Shrapnel(r, bursts[i]) else [])
            == p0 + Debris(launched[i..], bursts[i..])
  {
    assert launched[i..][1..] == launched[i + 1..] && bursts[i..][1..] == bursts[i + 1..];
  }

  /** The state of the fireworks effect. */
  class Show {
    const width: nat
    const height: nat
    var rockets: seq<Rocket>
    var particles: seq<Particle>
    var nextLaunch: real
    /** Cleared when the effect is torn down; a frame after that does nothing. */
    var alive: bool

    /** Between frames every rocket rises 8 to 12 pixels a frame, and every
        particle has positive life of at most 1 and an opacity equal to it. */
    ghost predicate Valid()
      reads this
    {
      (forall k :: 0 <= k < |rockets| ==> RocketOk(rockets[k]))
      && (forall k :: 0 <= k < |particles| ==>
            0.0 < particles[k].life <= 1.0 && particles[k].alpha == particles[k].life)
    }

    /** The effect starting on a `width` x `height` canvas. */
    constructor (width: nat, height: nat)
      ensures Valid() && this.width == width && this.height == height
      ensures rockets == [] && particles == [] && nextLaunch == 0.0 && alive
    {
      this.width := width;
      this.height := height;
      rockets := [];
      particles := [];
      nextLaunch := 0.0;
      alive := true;
    }

    /** The effect's clean-up. */
    method Stop()
      modifies this`alive
      ensures !alive
    {
      alive := false;
    }

    method LaunchFirework(d: LaunchDraws)
      requires ValidLaunch(d)
      modifies this`rockets
      ensures rockets == old(rockets) + [NewRocket(width, height, d)]
    {
      var x := width as real * (0.15 + d.x * 0.7);
      var targetY := height as real * (0.15 + d.target * 0.35);
      var color := Palette[PaletteIndex(d.color)];
      rockets := rockets + [Rocket(x, height as real, -8.0 - d.speed * 4.0, color, targetY)];
      assert rockets[|rockets| - 1] == NewRocket(width, height, d);
    }

    method Explode(r: Rocket, b: Burst)
      requires ValidBurst(b)
      modifies this`particles
      ensures particles == old(particles) + Shrapnel(r, b)
    {
      var count := 30 + (b.count * 21.0).Floor;
      for i := 0 to count
        invariant particles == old(particles) + Shrapnel(r, b)[..i]
      {
        particles := particles + [Spark(r, b.parts[i])];
      }
    }

    /** One animation frame at time `time`: launch if the watermark has
        passed, move every rocket and explode those that reached their
        altitude, then age every particle, including the ones just added, and
        drop the spent ones. Drawing is not modelled. `bursts[k]` holds the
        draws rocket `k` uses if it explodes. */
    method Animate(time: real, launch: LaunchDraws, bursts: seq<Burst>)
      requires Valid() && ValidLaunch(launch)
      requires |bursts| > |rockets| && ValidBursts(bursts)
      modifies this
      ensures Valid() && alive == old(alive)
      ensures !old(alive) ==> rockets == old(rockets) && particles == old(particles) && nextLaunch == old(nextLaunch)
      ensures old(alive) ==>
                var launched := Launched(old(rockets), time, old(nextLaunch), width, height, launch);
                && nextLaunch == NextLaunch(time, old(nextLaunch), launch)
                && rockets == Climbing(launched)
                && particles == Survivors(old(particles) + Debris(launched, bursts))
    {
      if !alive {
        return;
      }
      ghost var launched := Launched(rockets, time, nextLaunch, width, height, launch);
      if time >= nextLaunch {
        LaunchFirework(launch);
        nextLaunch := time + 400.0 + launch.gap * 400.0;
      }
      assert rockets == launched;
      assert forall k :: 0 <= k < |launched| ==> RocketOk(launched[k]);
      ghost var p0 := particles;
      MoveRockets(bursts);
      DebrisStartsFull(launched, bursts);
      assert forall k :: 0 <= k < |particles| ==> particles[k].life <= 1.0 by {
        forall k | 0 <= k < |particles| ensures particles[k].life <= 1.0 {
          if k >= |p0| {
            assert particles[k] == Debris(launched, bursts)[k - |p0|];
          }
        }
      }
      ghost var q := particles;
      AgeParticles();
      ClimbingBelowTarget(launched);
      ClimbingKeepsSpeed(launched);
      SurvivorsLife(q, 1.0);
    }

    /** The rocket loop of a frame: walking from the last rocket to the first,
        each rises by its speed and, once at or above its altitude, explodes
        and is spliced out. */
    method MoveRockets(bursts: seq<Burst>)
      requires |bursts| >= |rockets| && ValidBursts(bursts)
      modifies this`rockets, this`particles
      ensures rockets == Climbing(old(rockets))
      ensures particles == old(particles) + Debris(old(rockets), bursts)
    {
      ghost var launched := rockets;
      var i := |rockets| - 1;
      while i >= 0
        invariant -1 <= i < |launched|
        invariant rockets == launched[..i + 1] + Climbing(launched[i + 1..])
        invariant particles == old(particles) + Debris(launched[i + 1..], bursts[i + 1..])
      {
        RocketsAfterPass(launched, i);
        DebrisAfterPass(launched, bursts, i, old(particles));
        assert rockets[i] == launched[i];
        MoveRocket(i, bursts[i]);
        i := i - 1;
      }
      assert launched[0..] == launched && bursts[0..] == bursts;
    }

    /** One pass of the rocket loop on rocket `i`: it rises by its speed and,
        once at or above its altitude, explodes and is spliced out. */
    method MoveRocket(i: nat, b: Burst)
      requires i < |rockets| && ValidBurst(b)
      modifies this`rockets, this`particles
      ensures var r := Climb(old(rockets)[i]);
        && rockets == old(rockets)[..i] + (if Bursts(r) then [] else [r]) + old(rockets)[i + 1..]
        && particles == old(particles) + (if Bursts(r) then Shrapnel(r, b) else [])
    {
      var r := rockets[i];
      r := r.(y := r.y + r.vy);
      rockets := rockets[i := r];
      if r.y <= r.targetY {
        Explode(r, b);
        rockets := rockets[..i] + rockets[i + 1..];
      }
    }

    /** The particle loop of a frame: walking from the last particle to the
        first, each moves, falls, slows, spins and loses life, and is spliced
        out once its life is at most zero. */
    method AgeParticles()
      modifies this`particles
      ensures particles == Survivors(old(particles))
    {
      ghost var q := particles;
      var i := |particles| - 1;
      while i >= 0
        invariant -1 <= i < |q|
        invariant particles == q[..i + 1] + Survivors(q[i + 1..])
      {
        assert q[i..][1..] == q[i + 1..];
        ghost var rest := Survivors(q[i + 1..]);
        assert particles[..i] == q[..i] && particles[i] == q[i] && particles[i + 1..] == rest;
        var p := particles[i];
        p := p.(x := p.x + p.vx, y := p.y + p.vy);
        p := p.(vy := p.vy + Gravity);
        p := p.(vx := p.vx * Drag, vy := p.vy * Drag);
        p := p.(rotation := p.rotation + p.rotationSpeed);
        p := p.(life := p.life - LifeStep);
        p := p.(alpha := if 0.0 > p.life then 0.0 else p.life);
        assert p == Fade(q[i]);
        particles := particles[i := p];
        if p.life <= 0.0 {
          particles := particles[..i] + particles[i + 1..];
          assert particles == q[..i] + rest;
          assert Survivors(q[i..]) == rest;
        } else {
          assert particles == q[..i] + ([p] + rest);
          assert Survivors(q[i..]) == [p] + rest;
        }
        i := i - 1;
      }
      assert q[0..] == q;
    }
  }
}
