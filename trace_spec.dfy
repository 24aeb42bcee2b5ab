/**
 * The swept-box trace as pure functions over the decoded world: the value
 * the `trace_work` record holds after each step of the descent. The class in
 * module TraceWorkState runs the same steps in place and is proved to end in
 * exactly these values.
 *
 * Arithmetic is over `real`. Division is only ever by a quantity proved
 * non-zero at that point.
 */
module TraceSpec {
  import opened Wrappers
  import opened Geometry
  import opened Bsp
  import opened Planes

  /** Distance kept between the box and a surface it is stopped at. */
  const SURF_CLIP_EPSILON: real := 0.125
  const TW_STARTS_OUT: bv32 := 2
  const TW_ENDS_OUT: bv32 := 4
  /** Margin used on non-axial node planes when the box is not a point. */
  const NONAXIAL_OFFSET: real := 2048.0

  /** The part of the trace record fixed for one trace: the recentred box and endpoints. */
  datatype Sweep = Sweep(start: Vec3, end: Vec3, mins: Vec3, maxs: Vec3, offsets: seq<Vec3>)

  /** The part the descent narrows: the fraction, the outside flags, the blocking plane. */
  datatype Hit = Hit(frac: real, flags: bv32, plane: Option<nat>)

  /** Every bit of `b` is also set in `a`. */
  predicate Includes(a: bv32, b: bv32)
  {
    a & b == b
  }

  predicate HasOutFlag(flags: bv32)
  {
    flags & (TW_STARTS_OUT | TW_ENDS_OUT) != 0
  }

  predicate Ready(w: World, cache: seq<PlaneInfo>, sw: Sweep)
  {
    WellFormed(w) && CacheInRange(cache, w.planes) && |sw.offsets| == 8
  }

  // ---------------------------------------------------------------------
  // Box set-up

  /**
   * trace's box set-up: shift the box by the midpoint of mins and maxs, and
   * both endpoints by the same amount; `offsets` is the corner table.
   */
  function SweepOf(start: Vec3, end: Vec3, mins: Vec3, maxs: Vec3): (sw: Sweep)
    ensures |sw.offsets| == 8
  {
    var offset := Midpoint(mins, maxs);
    var lo := Sub(mins, offset);
    var hi := Sub(maxs, offset);
    Sweep(Add(start, offset), Add(end, offset), lo, hi, Corners(lo, hi))
  }

  /**
   * The recentred box is symmetric about the origin and as wide as the
   * original on every axis; the endpoints move by the midpoint of mins and
   * maxs; corner `k` takes maxs on every axis whose bit is set in k and mins
   * on the others.
   */
  lemma SweepOfShape(start: Vec3, end: Vec3, mins: Vec3, maxs: Vec3)
    ensures var sw := SweepOf(start, end, mins, maxs);
      && (forall i | 0 <= i < 3 :: sw.mins.At(i) == -sw.maxs.At(i))
      && (forall i | 0 <= i < 3 :: sw.maxs.At(i) - sw.mins.At(i) == maxs.At(i) - mins.At(i))
      && (forall i | 0 <= i < 3 ::
            && sw.start.At(i) == start.At(i) + (mins.At(i) + maxs.At(i)) / 2.0
            && sw.end.At(i) == end.At(i) + (mins.At(i) + maxs.At(i)) / 2.0)
  {
  }

  lemma CornerTable(lo: Vec3, hi: Vec3)
    ensures |Corners(lo, hi)| == 8
    ensures forall k, i | 0 <= k < 8 && 0 <= i < 3 ::
      Corners(lo, hi)[k].At(i) == if BitSet(k as bv8, i) then hi.At(i) else lo.At(i)
  {
  }

  /** A point trace is not shifted and every corner is the origin. */
  lemma PointSweep(start: Vec3, end: Vec3)
    ensures SweepOf(start, end, Zero, Zero) == Sweep(start, end, Zero, Zero, Corners(Zero, Zero))
    ensures forall k | 0 <= k < 8 :: Corners(Zero, Zero)[k] == Zero
  {
    assert Midpoint(Zero, Zero) == Zero;
  }

  /** The eight corner offsets, in the order the source writes them out. */
  function Corners(lo: Vec3, hi: Vec3): seq<Vec3>
  {
    [ Vec3(lo.x, lo.y, lo.z), Vec3(hi.x, lo.y, lo.z), Vec3(lo.x, hi.y, lo.z), Vec3(hi.x, hi.y, lo.z),
      Vec3(lo.x, lo.y, hi.z), Vec3(hi.x, lo.y, hi.z), Vec3(lo.x, hi.y, hi.z), Vec3(hi.x, hi.y, hi.z) ]
  }

  // ---------------------------------------------------------------------
  // One brush

  /** Signed distances of the shifted endpoints from one brush side, pushed out by the box. */
  datatype SideDistance = SideDistance(start: real, end: real, plane: nat)

  function SideDistances(w: World, cache: seq<PlaneInfo>, sw: Sweep, sideIndex: nat): (d: SideDistance)
    requires Ready(w, cache, sw) && sideIndex < |w.brushSides|
    ensures d.plane < |w.planes|
  {
    assert w.brushSides[sideIndex] in w.brushSides;
    var planeIndex := w.brushSides[sideIndex].plane;
    var plane := w.planes[planeIndex];
    var signbits := cache[planeIndex].signbits;
    var dist := plane.dist - Dot(sw.offsets[signbits as int], plane.normal);
    SideDistance(Dot(sw.start, plane.normal) - dist, Dot(sw.end, plane.normal) - dist, planeIndex)
  }

  /** The start is outside this side and the end is not closing in: the box cannot enter. */
  predicate Misses(d: SideDistance)
  {
    d.start > 0.0 && (d.end >= SURF_CLIP_EPSILON || d.end >= d.start)
  }

  /** Both endpoints are behind this side: it does not constrain the move. */
  predicate Behind(d: SideDistance)
  {
    d.start <= 0.0 && d.end <= 0.0
  }

  function OutFlags(flags: bv32, d: SideDistance): (r: bv32)
  {
    flags | (if d.start > 0.0 then TW_STARTS_OUT else 0) | (if d.end > 0.0 then TW_ENDS_OUT else 0)
  }

  /**
   * A side that is neither missed nor behind is either entered (start further
   * out than end) or left with the start inside and the end outside; in both
   * cases start and end distances differ, so the fractions are well defined.
   */
  lemma SideIsEntryOrExit(d: SideDistance)
    requires !Misses(d) && !Behind(d)
    ensures d.start > d.end || (d.start <= 0.0 < d.end)
  {
  }

  /** The running clip of one brush: latest entry, earliest exit, and the plane entered last. */
  datatype Clip = Clip(startFrac: real, endFrac: real, closest: Option<nat>)

  /** `closest` has been assigned whenever `startFrac` has moved above its initial -1. */
  predicate ClipInvariant(c: Clip)
  {
    c.startFrac >= -1.0 && (c.startFrac > -1.0 ==> c.closest.Some?)
  }

  /**
   * One iteration of the side loop for a side that does not end the scan: a
   * side behind both endpoints changes nothing, an entered side may raise the
   * entry fraction, a side left on the way may lower the exit fraction.
   */
  function ClipSide(c: Clip, d: SideDistance): (r: Clip)
    requires !Misses(d)
    ensures ClipInvariant(c) ==> ClipInvariant(r)
    ensures r.startFrac >= c.startFrac && r.endFrac <= c.endFrac
    ensures r.startFrac != c.startFrac ==> r.closest == Some(d.plane)
    ensures r.closest != c.closest ==> r.startFrac > c.startFrac
  {
    if Behind(d) then c
    else if d.start > d.end then
      var frac := (d.start - SURF_CLIP_EPSILON) / (d.start - d.end);
      if frac > c.startFrac then Clip(frac, c.endFrac, Some(d.plane)) else c
    else
      var frac := (d.start + SURF_CLIP_EPSILON) / (d.start - d.end);
      c.(endFrac := Min(c.endFrac, frac))
  }

  /** Outcome of the side loop: left early on a missing side, or ran to the end; with the flags gathered. */
  datatype Scan = Missed(flags: bv32) | Scanned(clip: Clip, flags: bv32)

  /** The side loop of trace_brush from side `i` on. */
  function ClipSides(w: World, cache: seq<PlaneInfo>, sw: Sweep, b: Brush, i: nat, c: Clip, flags: bv32): (r: Scan)
    requires Ready(w, cache, sw) && BrushInRange(w, b) && i <= b.nBrushSides
    ensures r.Scanned? && ClipInvariant(c) ==> ClipInvariant(r.clip)
    ensures r.Scanned? ==> r.clip.startFrac >= c.startFrac
    decreases b.nBrushSides - i
  {
    if i == b.nBrushSides then Scanned(c, flags)
    else
      var d := SideDistances(w, cache, sw, b.brushSide + i);
      if Misses(d) then Missed(OutFlags(flags, d))
      else ClipSides(w, cache, sw, b, i + 1, ClipSide(c, d), OutFlags(flags, d))
  }

  /** One step of the side loop: side `i` either ends the scan or is folded into the clip. */
  lemma ClipSidesStep(w: World, cache: seq<PlaneInfo>, sw: Sweep, b: Brush, i: nat, c: Clip, flags: bv32)
    requires Ready(w, cache, sw) && BrushInRange(w, b) && i < b.nBrushSides
    ensures var d := SideDistances(w, cache, sw, b.brushSide + i);
      ClipSides(w, cache, sw, b, i, c, flags)
        == if Misses(d) then Missed(OutFlags(flags, d))
           else ClipSides(w, cache, sw, b, i + 1, ClipSide(c, d), OutFlags(flags, d))
  {
  }

  /** The brush is entered at `startFrac`, before it is left, and closer than the best so far. */
  predicate Lowers(h: Hit, c: Clip)
  {
    c.startFrac < c.endFrac && c.startFrac > -1.0 && c.startFrac < h.frac
  }

  /**
   * The end of trace_brush: record the entry when it is the closest so far,
   * then force the fraction to 0 when no side seen in this trace had an
   * endpoint outside.
   */
  function BrushStep(h: Hit, s: Scan): (r: Hit)
    requires s.Scanned? ==> ClipInvariant(s.clip)
    ensures r.flags == s.flags
    ensures 0.0 <= h.frac ==> 0.0 <= r.frac <= h.frac
    ensures s.Missed? ==> r.frac == h.frac && r.plane == h.plane
    ensures s.Scanned? && !HasOutFlag(s.flags) ==>
      r.frac == 0.0 && r.plane == (if Lowers(h, s.clip) then s.clip.closest else h.plane)
    ensures s.Scanned? && HasOutFlag(s.flags) && Lowers(h, s.clip) ==>
      r.frac == Max(s.clip.startFrac, 0.0) && r.plane == s.clip.closest
    ensures s.Scanned? && HasOutFlag(s.flags) && !Lowers(h, s.clip) ==>
      r.frac == h.frac && r.plane == h.plane
  {
    match s
    case Missed(flags) => h.(flags := flags)
    case Scanned(c, flags) =>
      var lowered :=
        if Lowers(h, c) then Hit(Max(c.startFrac, 0.0), flags, Some(c.closest.value))
        else h.(flags := flags);
      if !HasOutFlag(flags) then lowered.(frac := 0.0) else lowered
  }

  /** trace_brush on brush `b`, from the trace state `h`. */
  function BrushHit(w: World, cache: seq<PlaneInfo>, sw: Sweep, h: Hit, b: Brush): (r: Hit)
    requires Ready(w, cache, sw) && BrushInRange(w, b)
    ensures 0.0 <= h.frac ==> 0.0 <= r.frac <= h.frac
  {
    BrushStep(h, ClipSides(w, cache, sw, b, 0, Clip(-1.0, 1.0, None), h.flags))
  }

  // ---------------------------------------------------------------------
  // Leaves and nodes

  predicate SolidBrush(w: World, b: Brush)
    requires BrushInRange(w, b)
  {
    b.nBrushSides != 0 && w.textures[b.texture].contents & CONTENTS_SOLID != 0
  }

  function LeafBrush(w: World, leaf: Leaf, i: nat): (b: Brush)
    requires WellFormed(w) && leaf in w.leaves && i < leaf.nLeafBrushes
    ensures b in w.brushes && BrushInRange(w, b)
  {
    assert w.leafBrushes[leaf.leafBrush + i] in w.leafBrushes;
    var b := w.brushes[w.leafBrushes[leaf.leafBrush + i]];
    assert b in w.brushes;
    b
  }

  /** The brush loop of trace_leaf from brush `i` on; it stops once a brush drives frac to 0. */
  function LeafBrushes(w: World, cache: seq<PlaneInfo>, sw: Sweep, h: Hit, leaf: Leaf, i: nat): (r: Hit)
    requires Ready(w, cache, sw) && leaf in w.leaves && i <= leaf.nLeafBrushes
    ensures 0.0 <= h.frac ==> 0.0 <= r.frac <= h.frac
    decreases leaf.nLeafBrushes - i
  {
    if i == leaf.nLeafBrushes then h
    else
      var b := LeafBrush(w, leaf, i);
      if SolidBrush(w, b) then
        var h' := BrushHit(w, cache, sw, h, b);
        if h'.frac == 0.0 then h' else LeafBrushes(w, cache, sw, h', leaf, i + 1)
      else LeafBrushes(w, cache, sw, h, leaf, i + 1)
  }

  /** Distances of a segment's endpoints from a node plane, and the box's reach along it. */
  datatype NodeDistance = NodeDistance(start: real, end: real, offset: real)

  function NodeDistances(w: World, cache: seq<PlaneInfo>, sw: Sweep, node: Node, start: Vec3, end: Vec3): NodeDistance
    requires Ready(w, cache, sw) && node in w.nodes
  {
    var plane := w.planes[node.plane];
    var planeType := cache[node.plane].ptype;
    if planeType < 3 then
      NodeDistance(start.At(planeType) - plane.dist, end.At(planeType) - plane.dist, sw.maxs.At(planeType))
    else
      NodeDistance(Dot(start, plane.normal) - plane.dist, Dot(end, plane.normal) - plane.dist,
                   if sw.mins == sw.maxs then 0.0 else NONAXIAL_OFFSET)
  }

  /** Which child is near, and the two clamped fractions at which the segment is split. */
  datatype Split = Split(side: nat, frac1: real, frac2: real)

  /** A fraction clamped into [0, 1]. */
  function Clamp01(f: real): (r: real)
    ensures 0.0 <= r <= 1.0
  {
    Max(0.0, Min(1.0, f))
  }

  function SplitFractions(d: NodeDistance): (s: Split)
    ensures s.side < 2
    ensures 0.0 <= s.frac1 <= 1.0 && 0.0 <= s.frac2 <= 1.0
    ensures s.side == (if d.start < d.end then 1 else 0)
  {
    if d.start < d.end then
      var distance := d.start - d.end;
      Split(1, Clamp01((d.start - d.offset + SURF_CLIP_EPSILON) / distance),
               Clamp01((d.start + d.offset + SURF_CLIP_EPSILON) / distance))
    else if d.start > d.end then
      var distance := d.start - d.end;
      Split(0, Clamp01((d.start + d.offset + SURF_CLIP_EPSILON) / distance),
               Clamp01((d.start - d.offset - SURF_CLIP_EPSILON) / distance))
    else
      Split(0, 1.0, 0.0)
  }

  lemma {:induction false} ChildOfNode(w: World, rank: seq<nat>, index: nat, side: nat)
    requires WellFormed(w) && Ranked(w, rank) && index < |w.nodes| && side < 2
    ensures ChildInRange(w, w.nodes[index].Child(side))
    ensures w.nodes[index].Child(side) >= 0 ==> rank[w.nodes[index].Child(side)] < rank[index]
  {
    assert w.nodes[index] in w.nodes;
  }

  /**
   * trace_node: descend from child reference `index` with the segment
   * start..end. The fraction range the source threads alongside is never
   * read, so it is not a parameter here.
   */
  function NodeWalk(w: World, cache: seq<PlaneInfo>, rank: seq<nat>, sw: Sweep, h: Hit,
                    index: int, start: Vec3, end: Vec3): (r: Hit)
    requires Ready(w, cache, sw) && Ranked(w, rank) && ChildInRange(w, index)
    ensures 0.0 <= h.frac ==> 0.0 <= r.frac <= h.frac
    decreases if index >= 0 then rank[index] + 1 else 0, 2
  {
    if index < 0 then
      var leaf := w.leaves[-index - 1];
      assert leaf in w.leaves;
      LeafBrushes(w, cache, sw, h, leaf, 0)
    else
      assert w.nodes[index] in w.nodes;
      NodeCross(w, cache, rank, sw, h, index, start, end,
                NodeDistances(w, cache, sw, w.nodes[index], start, end))
  }

  /**
   * trace_node at node `index`, once the segment's distances `d` from the
   * node plane are known. A segment entirely in front of or behind the plane
   * (by more than the box's reach plus one unit) goes to that child only;
   * any other segment is split.
   */
  function NodeCross(w: World, cache: seq<PlaneInfo>, rank: seq<nat>, sw: Sweep, h: Hit,
                     index: nat, start: Vec3, end: Vec3,
                     d: NodeDistance): (r: Hit)
    requires Ready(w, cache, sw) && Ranked(w, rank) && index < |w.nodes|
    ensures 0.0 <= h.frac ==> 0.0 <= r.frac <= h.frac
    decreases rank[index] + 1, 1
  {
    if d.start >= d.offset + 1.0 && d.end >= d.offset + 1.0 then
      ChildOfNode(w, rank, index, 0);
      NodeWalk(w, cache, rank, sw, h, w.nodes[index].front, start, end)
    else if d.start < -d.offset - 1.0 && d.end < -d.offset - 1.0 then
      ChildOfNode(w, rank, index, 1);
      NodeWalk(w, cache, rank, sw, h, w.nodes[index].back, start, end)
    else
      NodeSplit(w, cache, rank, sw, h, index, start, end, SplitFractions(d))
  }

  /**
   * The split case of trace_node: the near child gets start..split1, then
   * the far child gets split2..end, starting from the state the near child
   * left.
   */
  function NodeSplit(w: World, cache: seq<PlaneInfo>, rank: seq<nat>, sw: Sweep, h: Hit,
                     index: nat, start: Vec3, end: Vec3,
                     s: Split): (r: Hit)
    requires Ready(w, cache, sw) && Ranked(w, rank) && index < |w.nodes| && s.side < 2
    ensures 0.0 <= h.frac ==> 0.0 <= r.frac <= h.frac
    decreases rank[index] + 1, 0
  {
    ChildOfNode(w, rank, index, s.side);
    ChildOfNode(w, rank, index, 1 - s.side);
    var h1 := NodeWalk(w, cache, rank, sw, h, w.nodes[index].Child(s.side),
                       start, Lerp(start, end, s.frac1));
    NodeWalk(w, cache, rank, sw, h1, w.nodes[index].Child(1 - s.side),
             Lerp(start, end, s.frac2), end)
  }

  /**
   * Where the box stops: the unshifted end when nothing blocked it, else the
   * interpolated point. For a fraction in [0, 1] it lies on the segment.
   */
  function EndPos(start: Vec3, end: Vec3, frac: real): (r: Vec3)
    ensures frac == 0.0 ==> r == start
    ensures 0.0 <= frac <= 1.0 ==>
      forall i | 0 <= i < 3 ::
        (start.At(i) <= r.At(i) <= end.At(i)) || (end.At(i) <= r.At(i) <= start.At(i))
  {
    if frac == 1.0 then end
    else
      if 0.0 <= frac <= 1.0 then
        LerpOnSegment(start, end, frac);
        Lerp(start, end, frac)
      else Lerp(start, end, frac)
  }

  lemma LerpOnSegment(start: Vec3, end: Vec3, f: real)
    requires 0.0 <= f <= 1.0
    ensures forall i | 0 <= i < 3 ::
      var r := Lerp(start, end, f);
      (start.At(i) <= r.At(i) <= end.At(i)) || (end.At(i) <= r.At(i) <= start.At(i))
  {
    forall i | 0 <= i < 3
      ensures (start.At(i) <= Lerp(start, end, f).At(i) <= end.At(i))
           || (end.At(i) <= Lerp(start, end, f).At(i) <= start.At(i))
    {
      var r := Lerp(start, end, f);
      if i == 0 {
        OnSegment(start.x, end.x, f, r.x);
      } else if i == 1 {
        OnSegment(start.y, end.y, f, r.y);
      } else {
        OnSegment(start.z, end.z, f, r.z);
      }
    }
  }

  /** `p`, a fraction `f` in [0, 1] of the way from `a` to `b`, lies between them. */
  lemma OnSegment(a: real, b: real, f: real, p: real)
    requires 0.0 <= f <= 1.0 && p == a + (b - a) * f
    ensures (a <= p <= b) || (b <= p <= a)
  {
    var d := b - a;
    assert d - d * f == d * (1.0 - f);
    if a <= b {
      NonNegativeProduct(d, f);
      NonNegativeProduct(d, 1.0 - f);
    } else {
      NonNegativeProduct(-d, f);
      NonNegativeProduct(-d, 1.0 - f);
    }
  }

  lemma NonNegativeProduct(x: real, y: real)
    requires 0.0 <= x && 0.0 <= y
    ensures 0.0 <= x * y
  {
  }

  /**
   * trace: a full descent from the root with frac 1 and no flags. The
   * blocking plane is not reset: `plane0` is whatever the record held.
   */
  function TraceOf(w: World, cache: seq<PlaneInfo>, rank: seq<nat>, start: Vec3, end: Vec3,
                   mins: Vec3, maxs: Vec3, plane0: Option<nat>): (r: Hit)
    requires WellFormed(w) && CacheInRange(cache, w.planes) && Ranked(w, rank)
    ensures 0.0 <= r.frac <= 1.0
  {
    var sw := SweepOf(start, end, mins, maxs);
    NodeWalk(w, cache, rank, sw, Hit(1.0, 0, plane0), 0, sw.start, sw.end)
  }
}
