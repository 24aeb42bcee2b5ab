/**
 * Velocity clipping and the slide move: clip_velocity, and slide's loop of
 * at most four traces that gathers up to five clip planes and bends the
 * velocity along them.
 *
 * The trace and the vector normalisation are parameters: `trace` stands for
 * the box trace from the camera position with the player's box (module
 * TraceWorkState models it), reduced to the fraction, the end position and
 * the normal of the plane that stopped it; `normalize` stands for nrm3.
 */
module Slide {
  import opened Wrappers
  import opened Geometry

  /** Overbounce used for every clip in the slide move. */
  const OVERCLIP: real := 1.001
  const MAX_CLIP_PLANES: nat := 5
  /** Number of trace attempts one slide makes at most. */
  const MAX_BUMPS: nat := 4
  /** A velocity whose dot product with a plane normal is below this moves into that plane. */
  const INTO_PLANE: real := 0.1
  /** A hit plane whose normal has a dot product above this with a tracked plane is the same plane. */
  const SAME_PLANE: real := 0.99

  // ---------------------------------------------------------------------
  // clip_velocity

  /**
   * Remove the part of `v` along `normal`, scaled up by `overbounce` when
   * `v` moves into the plane and down by it otherwise.
   */
  function ClipVelocity(v: Vec3, normal: Vec3, overbounce: real): Vec3
    requires overbounce != 0.0
  {
    Sub(v, Scale(normal, Backoff(v, normal, overbounce)))
  }

  function Backoff(v: Vec3, normal: Vec3, overbounce: real): real
    requires overbounce != 0.0
  {
    var backoff := Dot(v, normal);
    if backoff < 0.0 then backoff * overbounce else backoff / overbounce
  }

  lemma DotSubScale(v: Vec3, n: Vec3, b: real, t: Vec3)
    ensures Dot(Sub(v, Scale(n, b)), t) == Dot(v, t) - b * Dot(n, t)
  {
  }

  /** What clipping leaves of the component `d` along the normal is never negative. */
  lemma BackoffLeavesNonNegative(d: real, overbounce: real)
    requires overbounce >= 1.0
    ensures d - (if d < 0.0 then d * overbounce else d / overbounce) >= 0.0
  {
    if d < 0.0 {
      assert d * overbounce - d == d * (overbounce - 1.0);
    } else {
      assert d / overbounce <= d by {
        assert (d / overbounce) * overbounce == d;
      }
    }
  }

  /**
   * Against a unit normal and an overbounce of at least 1, the clipped
   * velocity no longer moves into the plane.
   */
  lemma ClipVelocityLeavesPlane(v: Vec3, normal: Vec3, overbounce: real)
    requires Dot(normal, normal) == 1.0 && overbounce >= 1.0
    ensures Dot(ClipVelocity(v, normal, overbounce), normal) >= 0.0
  {
    var b := Backoff(v, normal, overbounce);
    DotSubScale(v, normal, b, normal);
    BackoffLeavesNonNegative(Dot(v, normal), overbounce);
  }

  /** With an overbounce of exactly 1 a unit normal's component is removed entirely. */
  lemma ClipVelocityExact(v: Vec3, normal: Vec3)
    requires Dot(normal, normal) == 1.0
    ensures Dot(ClipVelocity(v, normal, 1.0), normal) == 0.0
  {
    assert Backoff(v, normal, 1.0) == Dot(v, normal);
    DotSubScale(v, normal, Dot(v, normal), normal);
  }

  /** Clipping changes nothing along a direction perpendicular to the normal. */
  lemma ClipVelocityKeepsTangent(v: Vec3, normal: Vec3, overbounce: real, t: Vec3)
    requires overbounce != 0.0 && Dot(normal, t) == 0.0
    ensures Dot(ClipVelocity(v, normal, overbounce), t) == Dot(v, t)
  {
    DotSubScale(v, normal, Backoff(v, normal, overbounce), t);
  }

  // ---------------------------------------------------------------------
  // The clip-plane loops of slide

  /** What the plane loops make of the velocity for one new plane. */
  datatype Crease =
    | Unclipped                                  // no tracked plane is moved into
    | Clipped(velocity: Vec3, endVelocity: Vec3) // the new velocity and end velocity
    | DeadStop                                   // a crease still runs into a third plane

  /** The innermost loop: some plane other than `i` and `j` that `clipped` still moves into. */
  predicate StillBlocked(ps: seq<Vec3>, i: nat, j: nat, clipped: Vec3)
  {
    exists k | 0 <= k < |ps| :: k != i && k != j && Dot(clipped, ps[k]) < INTO_PLANE
  }

  /**
   * The loop over second planes `j` for the first plane `i` moved into:
   * clip again against every other plane the clipped velocity moves into,
   * and where that sends it back into plane `i`, slide along the crease of
   * the two planes instead, stopping dead if the crease runs into a third.
   */
  function CreaseSteps(ps: seq<Vec3>, i: nat, j: nat, v: Vec3, ev: Vec3, normalize: Vec3 -> Vec3,
                       clipped: Vec3, endClipped: Vec3): (r: Crease)
    requires i < |ps| && j <= |ps|
    ensures r != Unclipped
    decreases |ps| - j
  {
    if j == |ps| then Clipped(clipped, endClipped)
    else if j == i || Dot(clipped, ps[j]) >= INTO_PLANE then
      CreaseSteps(ps, i, j + 1, v, ev, normalize, clipped, endClipped)
    else
      var c := ClipVelocity(clipped, ps[j], OVERCLIP);
      var ec := ClipVelocity(endClipped, ps[j], OVERCLIP);
      if Dot(c, ps[i]) >= 0.0 then
        CreaseSteps(ps, i, j + 1, v, ev, normalize, c, ec)
      else
        var dir := normalize(Cross(ps[i], ps[j]));
        var c' := Scale(dir, Dot(dir, v));
        if StillBlocked(ps, i, j, c') then DeadStop
        else CreaseSteps(ps, i, j + 1, v, ev, normalize, c', Scale(dir, Dot(dir, ev)))
  }

  /** The loop over planes `i`: only the first plane the velocity moves into is resolved. */
  function ClipMove(ps: seq<Vec3>, i: nat, v: Vec3, ev: Vec3, normalize: Vec3 -> Vec3): (r: Crease)
    requires i <= |ps|
    decreases |ps| - i
  {
    if i == |ps| then Unclipped
    else if Dot(v, ps[i]) >= INTO_PLANE then ClipMove(ps, i + 1, v, ev, normalize)
    else CreaseSteps(ps, i, 0, v, ev, normalize,
                     ClipVelocity(v, ps[i], OVERCLIP), ClipVelocity(ev, ps[i], OVERCLIP))
  }

  /** The velocity is left alone exactly when it moves into none of the tracked planes. */
  lemma {:induction false} ClipMoveUnclipped(ps: seq<Vec3>, i: nat, v: Vec3, ev: Vec3, normalize: Vec3 -> Vec3)
    requires i <= |ps|
    ensures ClipMove(ps, i, v, ev, normalize) == Unclipped
        <==> forall k | i <= k < |ps| :: Dot(v, ps[k]) >= INTO_PLANE
    decreases |ps| - i
  {
    if i < |ps| {
      ClipMoveUnclipped(ps, i + 1, v, ev, normalize);
    }
  }

  /**
   * When the velocity moves into the first plane only, and clipping against
   * it leaves every other plane alone, the result is that single clip: a
   * velocity that, for a unit normal, no longer moves into the plane.
   */
  lemma {:induction false} SingleClip(ps: seq<Vec3>, i: nat, j: nat, v: Vec3, ev: Vec3,
                                       normalize: Vec3 -> Vec3, c: Vec3, ec: Vec3)
    requires i < |ps| && j <= |ps|
    requires forall k | j <= k < |ps| && k != i :: Dot(c, ps[k]) >= INTO_PLANE
    ensures CreaseSteps(ps, i, j, v, ev, normalize, c, ec) == Clipped(c, ec)
    decreases |ps| - j
  {
    if j < |ps| {
      SingleClip(ps, i, j + 1, v, ev, normalize, c, ec);
    }
  }

  /** The velocity along the crease of planes `i` and `j`: `v` projected on their normalised cross product. */
  function CreaseVelocity(ps: seq<Vec3>, i: nat, j: nat, v: Vec3, normalize: Vec3 -> Vec3): Vec3
    requires i < |ps| && j < |ps|
  {
    var dir := normalize(Cross(ps[i], ps[j]));
    Scale(dir, Dot(dir, v))
  }

  /** Some crease of plane `i` with another plane still moves into a third tracked plane. */
  predicate CreaseBlocked(ps: seq<Vec3>, i: nat, v: Vec3, normalize: Vec3 -> Vec3)
    requires i < |ps|
  {
    exists j | 0 <= j < |ps| && j != i :: StillBlocked(ps, i, j, CreaseVelocity(ps, i, j, v, normalize))
  }

  /** The inner loop stops dead only on a crease of plane `i` that a third plane still blocks. */
  lemma {:induction false} CreaseStepsDeadStop(ps: seq<Vec3>, i: nat, j: nat, v: Vec3, ev: Vec3,
                                                normalize: Vec3 -> Vec3, clipped: Vec3, endClipped: Vec3)
    requires i < |ps| && j <= |ps|
    ensures CreaseSteps(ps, i, j, v, ev, normalize, clipped, endClipped) == DeadStop ==>
      exists k | j <= k < |ps| && k != i :: StillBlocked(ps, i, k, CreaseVelocity(ps, i, k, v, normalize))
    decreases |ps| - j
  {
    if j < |ps| {
      if j == i || Dot(clipped, ps[j]) >= INTO_PLANE {
        CreaseStepsDeadStop(ps, i, j + 1, v, ev, normalize, clipped, endClipped);
      } else {
        var c := ClipVelocity(clipped, ps[j], OVERCLIP);
        var ec := ClipVelocity(endClipped, ps[j], OVERCLIP);
        if Dot(c, ps[i]) >= 0.0 {
          CreaseStepsDeadStop(ps, i, j + 1, v, ev, normalize, c, ec);
        } else {
          var dir := normalize(Cross(ps[i], ps[j]));
          var c' := Scale(dir, Dot(dir, v));
          assert c' == CreaseVelocity(ps, i, j, v, normalize);
          if !StillBlocked(ps, i, j, c') {
            CreaseStepsDeadStop(ps, i, j + 1, v, ev, normalize, c', Scale(dir, Dot(dir, ev)));
          }
        }
      }
    }
  }

  /**
   * The plane loops stop the player dead only when the first tracked plane
   * the velocity moves into has a crease with another plane that a third
   * plane still blocks.
   */
  lemma {:induction false} ClipMoveDeadStop(ps: seq<Vec3>, i: nat, v: Vec3, ev: Vec3, normalize: Vec3 -> Vec3)
    requires i <= |ps|
    ensures ClipMove(ps, i, v, ev, normalize) == DeadStop ==>
      exists n | i <= n < |ps| ::
        && (forall k | i <= k < n :: Dot(v, ps[k]) >= INTO_PLANE)
        && Dot(v, ps[n]) < INTO_PLANE
        && CreaseBlocked(ps, n, v, normalize)
    decreases |ps| - i
  {
    if i < |ps| {
      if Dot(v, ps[i]) >= INTO_PLANE {
        ClipMoveDeadStop(ps, i + 1, v, ev, normalize);
      } else {
        CreaseStepsDeadStop(ps, i, 0, v, ev, normalize,
                            ClipVelocity(v, ps[i], OVERCLIP), ClipVelocity(ev, ps[i], OVERCLIP));
      }
    }
  }

  // ---------------------------------------------------------------------
  // The bump loop of slide

  /** What slide learns from one trace: how far the box got, where it stopped, and the plane's normal. */
  datatype Moved = Moved(frac: real, endpos: Vec3, normal: Vec3)

  /** The state slide carries from one trace attempt to the next. */
  datatype Mover = Mover(velocity: Vec3, endVelocity: Vec3, pos: Vec3, timeLeft: real, planes: seq<Vec3>)

  /** How a slide ends: final velocity and position, slide's return value, and the traces made. */
  datatype SlideEnd = SlideEnd(velocity: Vec3, pos: Vec3, blocked: bool, traces: nat)

  /** The target of the next trace: the position moved by the velocity for the time left. */
  function Target(m: Mover): Vec3
  {
    Add(Scale(m.velocity, m.timeLeft), m.pos)
  }

  /** The time left after a trace that got `frac` of the way. */
  function Remaining(timeLeft: real, frac: real): real
  {
    timeLeft - timeLeft * frac
  }

  /** The hit plane is (nearly) one of the tracked planes. */
  predicate NearPlane(ps: seq<Vec3>, normal: Vec3)
  {
    exists i | 0 <= i < |ps| :: Dot(normal, ps[i]) > SAME_PLANE
  }

  /** What a blocked trace does to the velocities and the plane list. */
  datatype Deflection =
    | Stopped                                                    // velocity zeroed, slide returns 1
    | Deflected(velocity: Vec3, endVelocity: Vec3, planes: seq<Vec3>)

  /**
   * The rest of one bump after a blocked trace with hit normal `normal`: a
   * full plane list or a dead-end crease stops the player; a plane already
   * tracked only nudges the velocity along its normal; a new plane is
   * tracked and the velocities are clipped against the list.
   */
  function Deflect(ps: seq<Vec3>, v: Vec3, ev: Vec3, normal: Vec3, normalize: Vec3 -> Vec3): (r: Deflection)
    ensures |ps| >= MAX_CLIP_PLANES ==> r == Stopped
    ensures r.Deflected? ==> |r.planes| <= MAX_CLIP_PLANES
    ensures r.Deflected? ==> r.planes == ps || r.planes == ps + [normal]
    ensures |ps| < MAX_CLIP_PLANES && NearPlane(ps, normal) ==> r == Deflected(Add(v, normal), ev, ps)
  {
    if |ps| >= MAX_CLIP_PLANES then Stopped
    else if NearPlane(ps, normal) then Deflected(Add(v, normal), ev, ps)
    else
      var ps' := ps + [normal];
      match ClipMove(ps', 0, v, ev, normalize)
      case DeadStop => Stopped
      case Unclipped => Deflected(v, ev, ps')
      case Clipped(v', ev') => Deflected(v', ev', ps')
  }

  /** Leaving the loop: with gravity the end-of-frame velocity replaces the velocity. */
  function Finish(m: Mover, gravity: bool, bumps: nat, traces: nat): SlideEnd
  {
    SlideEnd(if gravity then m.endVelocity else m.velocity, m.pos, bumps != 0, traces)
  }

  /** The bump loop from attempt `bumps` on. */
  function Bumps(m: Mover, bumps: nat, gravity: bool,
                 trace: (Vec3, Vec3) -> Moved, normalize: Vec3 -> Vec3): (r: SlideEnd)
    requires bumps <= MAX_BUMPS && |m.planes| <= MAX_CLIP_PLANES
    ensures bumps < r.traces <= MAX_BUMPS || (bumps == r.traces == MAX_BUMPS)
    decreases MAX_BUMPS - bumps
  {
    if bumps == MAX_BUMPS then Finish(m, gravity, bumps, bumps)
    else
      var work := trace(m.pos, Target(m));
      var pos := if work.frac > 0.0 then work.endpos else m.pos;
      if work.frac == 1.0 then Finish(m.(pos := pos), gravity, bumps, bumps + 1)
      else
        match Deflect(m.planes, m.velocity, m.endVelocity, work.normal, normalize)
        case Stopped => SlideEnd(Zero, pos, true, bumps + 1)
        case Deflected(v, ev, ps) =>
          Bumps(Mover(v, ev, pos, Remaining(m.timeLeft, work.frac), ps), bumps + 1, gravity, trace, normalize)
  }

  /**
   * The set-up before the loop. With gravity, the end velocity falls by a
   * frame's worth of gravity, the velocity takes the average vertical speed
   * and is clipped against the ground. The plane list starts with the ground
   * normal, if any, and the normalised velocity. Without gravity the end
   * velocity is never used; the model sets it to the velocity.
   */
  function Start(velocity: Vec3, pos: Vec3, gravity: bool, groundNormal: Option<Vec3>,
                 deltaTime: real, gravityAccel: real, normalize: Vec3 -> Vec3): (m: Mover)
    ensures 1 <= |m.planes| <= 2
    ensures m.pos == pos && m.timeLeft == deltaTime
  {
    var ev := if gravity then velocity.(z := velocity.z - gravityAccel * deltaTime) else velocity;
    var v := if gravity then velocity.(z := (ev.z + velocity.z) * 0.5) else velocity;
    var v := if gravity && groundNormal.Some? then ClipVelocity(v, groundNormal.value, OVERCLIP) else v;
    var ground := if groundNormal.Some? then [groundNormal.value] else [];
    Mover(v, ev, pos, deltaTime, ground + [normalize(v)])
  }

  /** slide from the given velocity and position. */
  function SlideOf(velocity: Vec3, pos: Vec3, gravity: bool, groundNormal: Option<Vec3>,
                   deltaTime: real, gravityAccel: real,
                   trace: (Vec3, Vec3) -> Moved, normalize: Vec3 -> Vec3): (r: SlideEnd)
    ensures 1 <= r.traces <= MAX_BUMPS
  {
    Bumps(Start(velocity, pos, gravity, groundNormal, deltaTime, gravityAccel, normalize),
          0, gravity, trace, normalize)
  }

  /** Once one trace has been blocked, slide reports a blocked move however the loop ends. */
  lemma {:induction false} LaterBumpsBlocked(m: Mover, bumps: nat, gravity: bool,
                                             trace: (Vec3, Vec3) -> Moved, normalize: Vec3 -> Vec3)
    requires 0 < bumps <= MAX_BUMPS && |m.planes| <= MAX_CLIP_PLANES
    ensures Bumps(m, bumps, gravity, trace, normalize).blocked
    decreases MAX_BUMPS - bumps
  {
    if bumps < MAX_BUMPS {
      var work := trace(m.pos, Target(m));
      var pos := if work.frac > 0.0 then work.endpos else m.pos;
      if work.frac != 1.0 {
        match Deflect(m.planes, m.velocity, m.endVelocity, work.normal, normalize)
        case Stopped =>
        case Deflected(v, ev, ps) =>
          LaterBumpsBlocked(Mover(v, ev, pos, Remaining(m.timeLeft, work.frac), ps), bumps + 1,
                            gravity, trace, normalize);
      }
    }
  }

  /**
   * slide returns 0 exactly when the first trace is not blocked; the box
   * then ends where that trace ended, with the (end) velocity of the set-up,
   * after a single trace.
   */
  lemma FirstTraceDecides(velocity: Vec3, pos: Vec3, gravity: bool, groundNormal: Option<Vec3>,
                          deltaTime: real, gravityAccel: real,
                          trace: (Vec3, Vec3) -> Moved, normalize: Vec3 -> Vec3)
    ensures var m := Start(velocity, pos, gravity, groundNormal, deltaTime, gravityAccel, normalize);
      var first := trace(pos, Target(m));
      var r := SlideOf(velocity, pos, gravity, groundNormal, deltaTime, gravityAccel, trace, normalize);
      && (r.blocked <==> first.frac != 1.0)
      && (!r.blocked ==> r.traces == 1 && r.pos == first.endpos
                         && r.velocity == (if gravity then m.endVelocity else m.velocity))
  {
    var m := Start(velocity, pos, gravity, groundNormal, deltaTime, gravityAccel, normalize);
    var work := trace(m.pos, Target(m));
    if work.frac != 1.0 {
      var pos' := if work.frac > 0.0 then work.endpos else m.pos;
      match Deflect(m.planes, m.velocity, m.endVelocity, work.normal, normalize)
      case Stopped =>
      case Deflected(v, ev, ps) =>
        LaterBumpsBlocked(Mover(v, ev, pos', Remaining(m.timeLeft, work.frac), ps), 1, gravity, trace, normalize);
    }
  }

  /**
   * A blocked trace with the plane list full stops the player dead, before
   * any further plane is added.
   */
  lemma FullPlaneListStops(m: Mover, bumps: nat, gravity: bool,
                           trace: (Vec3, Vec3) -> Moved, normalize: Vec3 -> Vec3)
    requires bumps < MAX_BUMPS && |m.planes| == MAX_CLIP_PLANES
    requires trace(m.pos, Target(m)).frac != 1.0
    ensures Bumps(m, bumps, gravity, trace, normalize).velocity == Zero
    ensures Bumps(m, bumps, gravity, trace, normalize).blocked
  {
  }

  /**
   * A blocked trace that hits a new plane whose clipping runs into a dead
   * crease stops the player: the velocity is zeroed and slide reports a
   * blocked move, at the position the trace reached.
   */
  lemma DeadStopStops(m: Mover, bumps: nat, gravity: bool,
                      trace: (Vec3, Vec3) -> Moved, normalize: Vec3 -> Vec3)
    requires bumps < MAX_BUMPS && |m.planes| < MAX_CLIP_PLANES
    requires trace(m.pos, Target(m)).frac != 1.0
    requires !NearPlane(m.planes, trace(m.pos, Target(m)).normal)
    requires ClipMove(m.planes + [trace(m.pos, Target(m)).normal], 0, m.velocity, m.endVelocity, normalize) == DeadStop
    ensures var work := trace(m.pos, Target(m));
      Bumps(m, bumps, gravity, trace, normalize)
        == SlideEnd(Zero, if work.frac > 0.0 then work.endpos else m.pos, true, bumps + 1)
  {
  }

  // ---------------------------------------------------------------------
  // The player state slide updates

  /** The globals slide moves: the velocity and the camera (player) position. */
  class Player {
    var velocity: Vec3
    var cameraPos: Vec3

    constructor (velocity: Vec3, cameraPos: Vec3)
      ensures this.velocity == velocity && this.cameraPos == cameraPos
    {
      this.velocity := velocity;
      this.cameraPos := cameraPos;
    }

    /** The index of the first tracked plane the hit normal nearly equals, or `n` if none. */
    static method FindNearPlane(planes: array<Vec3>, n: nat, normal: Vec3) returns (i: nat)
      requires n <= planes.Length
      ensures i <= n
      ensures i < n <==> NearPlane(planes[..n], normal)
      ensures i < n ==> Dot(normal, planes[i]) > SAME_PLANE
    {
      i := 0;
      while i < n
        invariant i <= n
        invariant forall k | 0 <= k < i :: Dot(normal, planes[k]) <= SAME_PLANE
      {
        if Dot(normal, planes[i]) > SAME_PLANE {
          assert planes[..n][i] == planes[i];
          return;
        }
        i := i + 1;
      }
      assert forall k | 0 <= k < n :: planes[..n][k] == planes[k];
    }

    /** The innermost loop of slide: whether `clipped` moves into a plane other than `i` and `j`. */
    static method ThirdPlaneBlocks(planes: array<Vec3>, n: nat, i: nat, j: nat, clipped: Vec3)
      returns (blocked: bool)
      requires n <= planes.Length
      ensures blocked == StillBlocked(planes[..n], i, j, clipped)
    {
      for k := 0 to n
        invariant forall k' | 0 <= k' < k :: k' == i || k' == j || Dot(clipped, planes[k']) >= INTO_PLANE
      {
        if k == j || k == i {
          continue;
        }
        if Dot(clipped, planes[k]) >= INTO_PLANE {
          continue;
        }
        assert planes[..n][k] == planes[k];
        return true;
      }
      assert forall k | 0 <= k < n :: planes[..n][k] == planes[k];
      return false;
    }

    /**
     * The rest of one bump after a blocked trace: stop on a full plane list,
     * nudge along a plane already tracked, or track the new plane and clip
     * the velocities against the list.
     */
    static method DeflectAt(planes: array<Vec3>, n: nat, v: Vec3, ev: Vec3, normal: Vec3,
                            normalize: Vec3 -> Vec3)
      returns (stopped: bool, n': nat, v': Vec3, ev': Vec3)
      requires n <= planes.Length == MAX_CLIP_PLANES
      modifies planes
      ensures n' <= MAX_CLIP_PLANES
      ensures var d := Deflect(old(planes[..n]), v, ev, normal, normalize);
        if d.Stopped? then stopped
        else !stopped && v' == d.velocity && ev' == d.endVelocity && planes[..n'] == d.planes
    {
      if n >= MAX_CLIP_PLANES {
        return true, n, v, ev;
      }
      var i := FindNearPlane(planes, n, normal);
      if i < n {
        return false, n, Add(v, normal), ev;
      }
      ghost var ps := planes[..n];
      planes[n] := normal;
      assert planes[..n + 1] == ps + [normal];
      var crease := ClipPlanes(planes, n + 1, v, ev, normalize);
      match crease {
        case DeadStop =>
          return true, n + 1, v, ev;
        case Unclipped =>
          return false, n + 1, v, ev;
        case Clipped(cv, cev) =>
          return false, n + 1, cv, cev;
      }
    }

    /** The plane loops of slide for the tracked planes `planes[..n]`. */
    static method ClipPlanes(planes: array<Vec3>, n: nat, v: Vec3, ev: Vec3, normalize: Vec3 -> Vec3)
      returns (r: Crease)
      requires n <= planes.Length
      ensures r == ClipMove(planes[..n], 0, v, ev, normalize)
    {
      ghost var ps := planes[..n];
      var i := 0;
      while i < n
        invariant i <= n
        invariant ClipMove(ps, i, v, ev, normalize) == ClipMove(ps, 0, v, ev, normalize)
      {
        assert ps[i] == planes[i];
        if Dot(v, planes[i]) >= INTO_PLANE {
          i := i + 1;
          continue;
        }
        var clipped := ClipVelocity(v, planes[i], OVERCLIP);
        var endClipped := ClipVelocity(ev, planes[i], OVERCLIP);
        ghost var goal := CreaseSteps(ps, i, 0, v, ev, normalize, clipped, endClipped);
        for j := 0 to n
          invariant CreaseSteps(ps, i, j, v, ev, normalize, clipped, endClipped) == goal
        {
          assert ps[j] == planes[j];
          if j == i {
            continue;
          }
          if Dot(clipped, planes[j]) >= INTO_PLANE {
            continue;
          }
          clipped := ClipVelocity(clipped, planes[j], OVERCLIP);
          endClipped := ClipVelocity(endClipped, planes[j], OVERCLIP);
          if Dot(clipped, planes[i]) >= 0.0 {
            continue;
          }
          var dir := normalize(Cross(planes[i], planes[j]));
          var speed := Dot(dir, v);
          clipped := Scale(dir, speed);
          speed := Dot(dir, ev);
          endClipped := Scale(dir, speed);
          var stuck := ThirdPlaneBlocks(planes, n, i, j, clipped);
          if stuck {
            return DeadStop;
          }
        }
        return Clipped(clipped, endClipped);
      }
      return Unclipped;
    }

    /**
     * One pass of slide's loop body from the state `m` describes, at attempt
     * `bumps`: trace, follow the end position, then either finish the slide
     * (`done`, with the final velocity, position and result) or deflect the
     * velocity and report the state the next pass starts from.
     */
    method Bump(planes: array<Vec3>, nPlanes: nat, timeLeft: real, endVelocity: Vec3, bumps: nat,
                gravity: bool, trace: (Vec3, Vec3) -> Moved, normalize: Vec3 -> Vec3, ghost m: Mover)
      returns (done: bool, blocked: bool, nPlanes': nat, timeLeft': real, endVelocity': Vec3, ghost m': Mover)
      requires bumps < MAX_BUMPS && nPlanes <= planes.Length == MAX_CLIP_PLANES
      requires m == Mover(velocity, endVelocity, cameraPos, timeLeft, planes[..nPlanes])
      modifies this, planes
      ensures var r := Bumps(m, bumps, gravity, trace, normalize);
        done ==> velocity == r.velocity && cameraPos == r.pos && blocked == r.blocked
      ensures !done ==> && nPlanes' <= MAX_CLIP_PLANES
                        && m' == Mover(velocity, endVelocity', cameraPos, timeLeft', planes[..nPlanes'])
                        && Bumps(m', bumps + 1, gravity, trace, normalize) == Bumps(m, bumps, gravity, trace, normalize)
    {
      var end := Add(Scale(velocity, timeLeft), cameraPos);
      var work := trace(cameraPos, end);
      assert work == trace(m.pos, Target(m));
      if work.frac > 0.0 {
        cameraPos := work.endpos;
      }
      if work.frac == 1.0 {
        if gravity {
          velocity := endVelocity;
        }
        return true, bumps != 0, nPlanes, timeLeft, endVelocity, m;
      }
      timeLeft' := Remaining(timeLeft, work.frac);
      ghost var d := Deflect(m.planes, m.velocity, m.endVelocity, work.normal, normalize);
      var stopped;
      stopped, nPlanes', velocity, endVelocity' :=
        DeflectAt(planes, nPlanes, velocity, endVelocity, work.normal, normalize);
      if stopped {
        velocity := Zero;
        return true, true, nPlanes', timeLeft', endVelocity', m;
      }
      done, blocked := false, true;
      m' := Mover(d.velocity, d.endVelocity, cameraPos, timeLeft', d.planes);
    }

    /**
     * slide: trace the move, follow the trace's end position, and bend the
     * velocity along the planes hit, for at most four traces. Returns
     * whether any trace was blocked.
     */
    method Slide(gravity: bool, groundNormal: Option<Vec3>, deltaTime: real, gravityAccel: real,
                 trace: (Vec3, Vec3) -> Moved, normalize: Vec3 -> Vec3) returns (blocked: bool)
      modifies this
      ensures var r := SlideOf(old(velocity), old(cameraPos), gravity, groundNormal,
                               deltaTime, gravityAccel, trace, normalize);
        velocity == r.velocity && cameraPos == r.pos && blocked == r.blocked
    {
      ghost var goal := SlideOf(velocity, cameraPos, gravity, groundNormal, deltaTime, gravityAccel, trace, normalize);
      var planes := new Vec3[MAX_CLIP_PLANES];
      var nPlanes: nat := 0;
      var timeLeft := deltaTime;
      var endVelocity := velocity;

      if gravity {
        endVelocity := velocity.(z := velocity.z - gravityAccel * deltaTime);
        velocity := velocity.(z := (endVelocity.z + velocity.z) * 0.5);
        if groundNormal.Some? {
          velocity := ClipVelocity(velocity, groundNormal.value, OVERCLIP);
        }
      }

      if groundNormal.Some? {
        planes[nPlanes] := groundNormal.value;
        nPlanes := nPlanes + 1;
      }
      planes[nPlanes] := normalize(velocity);
      nPlanes := nPlanes + 1;
      ghost var m := Start(old(velocity), cameraPos, gravity, groundNormal, deltaTime, gravityAccel, normalize);
      assert velocity == m.velocity && endVelocity == m.endVelocity;
      assert planes[..nPlanes] == m.planes;

      var bumps := 0;
      while bumps < MAX_BUMPS
        invariant bumps <= MAX_BUMPS && nPlanes <= planes.Length == MAX_CLIP_PLANES
        invariant m == Mover(velocity, endVelocity, cameraPos, timeLeft, planes[..nPlanes])
        invariant Bumps(m, bumps, gravity, trace, normalize) == goal
      {
        var done;
        done, blocked, nPlanes, timeLeft, endVelocity, m :=
          Bump(planes, nPlanes, timeLeft, endVelocity, bumps, gravity, trace, normalize, m);
        if done {
          return;
        }
        bumps := bumps + 1;
      }

      if gravity {
        velocity := endVelocity;
      }
      blocked := bumps != 0;
    }
  }
}
