/**
 * Properties of a whole descent, by induction over the node ranks: the
 * outside flags only accumulate, a recorded blocking plane is never
 * cleared, and a world without solid brushes never blocks a trace.
 */
module TraceProps {
  import opened Wrappers
  import opened Geometry
  import opened Bsp
  import opened Planes
  import opened TraceSpec

  lemma IncludesTransitive(a: bv32, b: bv32, c: bv32)
    requires Includes(a, b) && Includes(b, c)
    ensures Includes(a, c)
  {
  }

  lemma OutFlagsInclude(flags: bv32, d: SideDistance)
    ensures Includes(OutFlags(flags, d), flags)
  {
  }

  lemma OutFlagKept(a: bv32, b: bv32)
    requires Includes(a, b) && HasOutFlag(b)
    ensures HasOutFlag(a)
  {
  }

  /**
   * From `h` to `r` the blocking plane is kept: a lowered fraction comes
   * with a recorded plane, and a recorded plane stays recorded.
   */
  predicate KeepsPlane(h: Hit, r: Hit)
  {
    (r.frac < h.frac ==> r.plane.Some?) && (h.plane.Some? ==> r.plane.Some?)
  }

  lemma KeepsPlaneTransitive(h: Hit, h1: Hit, r: Hit)
    requires KeepsPlane(h, h1) && KeepsPlane(h1, r) && r.frac <= h1.frac <= h.frac
    ensures KeepsPlane(h, r)
  {
  }

  /** Each step of a state that has seen an outside endpoint: flags grow and the plane is kept. */
  predicate Settled(h: Hit, r: Hit)
  {
    Includes(r.flags, h.flags) && (HasOutFlag(h.flags) && 0.0 <= h.frac ==> KeepsPlane(h, r))
  }

  lemma SettledTransitive(h: Hit, h1: Hit, r: Hit)
    requires Settled(h, h1) && Settled(h1, r)
    requires 0.0 <= h.frac ==> 0.0 <= h1.frac <= h.frac
    requires 0.0 <= h1.frac ==> r.frac <= h1.frac
    ensures Settled(h, r)
  {
    IncludesTransitive(r.flags, h1.flags, h.flags);
    if HasOutFlag(h.flags) && 0.0 <= h.frac {
      OutFlagKept(h1.flags, h.flags);
      KeepsPlaneTransitive(h, h1, r);
    }
  }

  /** The side loop of trace_brush only ever sets flags. */
  lemma {:induction false} ClipSidesFlags(w: World, cache: seq<PlaneInfo>, sw: Sweep, b: Brush,
                                          i: nat, c: Clip, flags: bv32)
    requires Ready(w, cache, sw) && BrushInRange(w, b) && i <= b.nBrushSides
    ensures Includes(ClipSides(w, cache, sw, b, i, c, flags).flags, flags)
    decreases b.nBrushSides - i
  {
    if i < b.nBrushSides {
      var d := SideDistances(w, cache, sw, b.brushSide + i);
      OutFlagsInclude(flags, d);
      if !Misses(d) {
        ClipSidesFlags(w, cache, sw, b, i + 1, ClipSide(c, d), OutFlags(flags, d));
        IncludesTransitive(ClipSides(w, cache, sw, b, i, c, flags).flags, OutFlags(flags, d), flags);
      }
    }
  }

  /**
   * trace_brush keeps every flag already set; once one is an outside flag,
   * the brush lowers the fraction only to an entry with its plane, and never
   * forgets a plane recorded before.
   */
  lemma BrushHitSettled(w: World, cache: seq<PlaneInfo>, sw: Sweep, h: Hit, b: Brush)
    requires Ready(w, cache, sw) && BrushInRange(w, b)
    ensures Settled(h, BrushHit(w, cache, sw, h, b))
  {
    var scan := ClipSides(w, cache, sw, b, 0, Clip(-1.0, 1.0, None), h.flags);
    ClipSidesFlags(w, cache, sw, b, 0, Clip(-1.0, 1.0, None), h.flags);
    if HasOutFlag(h.flags) {
      OutFlagKept(scan.flags, h.flags);
    }
  }

  /** trace_leaf keeps the flags and the plane the same way. */
  lemma {:induction false} LeafBrushesSettled(w: World, cache: seq<PlaneInfo>, sw: Sweep, h: Hit,
                                              leaf: Leaf, i: nat)
    requires Ready(w, cache, sw) && leaf in w.leaves && i <= leaf.nLeafBrushes
    ensures Settled(h, LeafBrushes(w, cache, sw, h, leaf, i))
    decreases leaf.nLeafBrushes - i
  {
    if i < leaf.nLeafBrushes {
      var b := LeafBrush(w, leaf, i);
      if SolidBrush(w, b) {
        var h' := BrushHit(w, cache, sw, h, b);
        BrushHitSettled(w, cache, sw, h, b);
        if h'.frac != 0.0 {
          LeafBrushesSettled(w, cache, sw, h', leaf, i + 1);
          SettledTransitive(h, h', LeafBrushes(w, cache, sw, h', leaf, i + 1));
        }
      } else {
        LeafBrushesSettled(w, cache, sw, h, leaf, i + 1);
      }
    }
  }

  /**
   * A whole descent from any child reference keeps every flag set before
   * it, and once an outside flag is set it lowers the fraction only with a
   * recorded plane and never clears one.
   */
  lemma {:induction false} NodeWalkSettled(w: World, cache: seq<PlaneInfo>, rank: seq<nat>, sw: Sweep,
                                           h: Hit, index: int, start: Vec3, end: Vec3)
    requires Ready(w, cache, sw) && Ranked(w, rank) && ChildInRange(w, index)
    ensures Settled(h, NodeWalk(w, cache, rank, sw, h, index, start, end))
    decreases if index >= 0 then rank[index] + 1 else 0, 2
  {
    if index < 0 {
      var leaf := w.leaves[-index - 1];
      assert leaf in w.leaves;
      LeafBrushesSettled(w, cache, sw, h, leaf, 0);
    } else {
      assert w.nodes[index] in w.nodes;
      NodeCrossSettled(w, cache, rank, sw, h, index, start, end,
                       NodeDistances(w, cache, sw, w.nodes[index], start, end));
    }
  }

  lemma {:induction false} NodeCrossSettled(w: World, cache: seq<PlaneInfo>, rank: seq<nat>, sw: Sweep,
                                            h: Hit, index: nat, start: Vec3, end: Vec3, d: NodeDistance)
    requires Ready(w, cache, sw) && Ranked(w, rank) && index < |w.nodes|
    ensures Settled(h, NodeCross(w, cache, rank, sw, h, index, start, end, d))
    decreases rank[index] + 1, 1
  {
    if d.start >= d.offset + 1.0 && d.end >= d.offset + 1.0 {
      ChildOfNode(w, rank, index, 0);
      NodeWalkSettled(w, cache, rank, sw, h, w.nodes[index].front, start, end);
    } else if d.start < -d.offset - 1.0 && d.end < -d.offset - 1.0 {
      ChildOfNode(w, rank, index, 1);
      NodeWalkSettled(w, cache, rank, sw, h, w.nodes[index].back, start, end);
    } else {
      NodeSplitSettled(w, cache, rank, sw, h, index, start, end, SplitFractions(d));
    }
  }

  lemma {:induction false} NodeSplitSettled(w: World, cache: seq<PlaneInfo>, rank: seq<nat>, sw: Sweep,
                                            h: Hit, index: nat, start: Vec3, end: Vec3, s: Split)
    requires Ready(w, cache, sw) && Ranked(w, rank) && index < |w.nodes| && s.side < 2
    ensures Settled(h, NodeSplit(w, cache, rank, sw, h, index, start, end, s))
    decreases rank[index] + 1, 0
  {
    ChildOfNode(w, rank, index, s.side);
    ChildOfNode(w, rank, index, 1 - s.side);
    var near := w.nodes[index].Child(s.side);
    var far := w.nodes[index].Child(1 - s.side);
    var mid1 := Lerp(start, end, s.frac1);
    var mid2 := Lerp(start, end, s.frac2);
    var h1 := NodeWalk(w, cache, rank, sw, h, near, start, mid1);
    NodeWalkSettled(w, cache, rank, sw, h, near, start, mid1);
    NodeWalkSettled(w, cache, rank, sw, h1, far, mid2, end);
    SettledTransitive(h, h1, NodeWalk(w, cache, rank, sw, h1, far, mid2, end));
  }

  // ---------------------------------------------------------------------
  // Worlds without solid brushes

  /** No brush of the world is traced: each has no sides or is not solid. */
  predicate NoSolidBrush(w: World)
    requires WellFormed(w)
  {
    forall b | b in w.brushes :: !SolidBrush(w, b)
  }

  lemma {:induction false} LeafBrushesNoSolid(w: World, cache: seq<PlaneInfo>, sw: Sweep, h: Hit,
                                              leaf: Leaf, i: nat)
    requires Ready(w, cache, sw) && NoSolidBrush(w) && leaf in w.leaves && i <= leaf.nLeafBrushes
    ensures LeafBrushes(w, cache, sw, h, leaf, i) == h
    decreases leaf.nLeafBrushes - i
  {
    if i < leaf.nLeafBrushes {
      LeafBrushesNoSolid(w, cache, sw, h, leaf, i + 1);
    }
  }

  /** Without solid brushes a descent leaves the trace state exactly as it found it. */
  lemma {:induction false} NodeWalkNoSolid(w: World, cache: seq<PlaneInfo>, rank: seq<nat>, sw: Sweep,
                                           h: Hit, index: int, start: Vec3, end: Vec3)
    requires Ready(w, cache, sw) && Ranked(w, rank) && ChildInRange(w, index) && NoSolidBrush(w)
    ensures NodeWalk(w, cache, rank, sw, h, index, start, end) == h
    decreases if index >= 0 then rank[index] + 1 else 0, 2
  {
    if index < 0 {
      var leaf := w.leaves[-index - 1];
      assert leaf in w.leaves;
      LeafBrushesNoSolid(w, cache, sw, h, leaf, 0);
    } else {
      assert w.nodes[index] in w.nodes;
      NodeCrossNoSolid(w, cache, rank, sw, h, index, start, end,
                       NodeDistances(w, cache, sw, w.nodes[index], start, end));
    }
  }

  lemma {:induction false} NodeCrossNoSolid(w: World, cache: seq<PlaneInfo>, rank: seq<nat>, sw: Sweep,
                                            h: Hit, index: nat, start: Vec3, end: Vec3, d: NodeDistance)
    requires Ready(w, cache, sw) && Ranked(w, rank) && index < |w.nodes| && NoSolidBrush(w)
    ensures NodeCross(w, cache, rank, sw, h, index, start, end, d) == h
    decreases rank[index] + 1, 1
  {
    if d.start >= d.offset + 1.0 && d.end >= d.offset + 1.0 {
      ChildOfNode(w, rank, index, 0);
      NodeWalkNoSolid(w, cache, rank, sw, h, w.nodes[index].front, start, end);
    } else if d.start < -d.offset - 1.0 && d.end < -d.offset - 1.0 {
      ChildOfNode(w, rank, index, 1);
      NodeWalkNoSolid(w, cache, rank, sw, h, w.nodes[index].back, start, end);
    } else {
      var s := SplitFractions(d);
      ChildOfNode(w, rank, index, s.side);
      ChildOfNode(w, rank, index, 1 - s.side);
      NodeWalkNoSolid(w, cache, rank, sw, h, w.nodes[index].Child(s.side), start, Lerp(start, end, s.frac1));
      NodeWalkNoSolid(w, cache, rank, sw, h, w.nodes[index].Child(1 - s.side), Lerp(start, end, s.frac2), end);
    }
  }

  /**
   * In a world without solid brushes every trace runs the full length: the
   * fraction stays 1, no flag is set and the plane is the one the record held.
   */
  lemma NothingSolidNothingBlocks(w: World, cache: seq<PlaneInfo>, rank: seq<nat>, start: Vec3, end: Vec3,
                                  mins: Vec3, maxs: Vec3, plane0: Option<nat>)
    requires WellFormed(w) && CacheInRange(cache, w.planes) && Ranked(w, rank) && NoSolidBrush(w)
    ensures TraceOf(w, cache, rank, start, end, mins, maxs, plane0) == Hit(1.0, 0, plane0)
    ensures EndPos(start, end, TraceOf(w, cache, rank, start, end, mins, maxs, plane0).frac) == end
  {
    var sw := SweepOf(start, end, mins, maxs);
    NodeWalkNoSolid(w, cache, rank, sw, Hit(1.0, 0, plane0), 0, sw.start, sw.end);
  }

  // ---------------------------------------------------------------------
  // A move that lies inside a solid brush

  /** Both endpoints of the sweep are behind every side of `b`. */
  predicate Embedded(w: World, cache: seq<PlaneInfo>, sw: Sweep, b: Brush)
    requires Ready(w, cache, sw) && BrushInRange(w, b)
  {
    forall i | b.brushSide <= i < b.brushSide + b.nBrushSides :: Behind(SideDistances(w, cache, sw, i))
  }

  /** Over sides that are all behind, the side loop changes neither the clip nor the flags. */
  lemma {:induction false} EmbeddedScan(w: World, cache: seq<PlaneInfo>, sw: Sweep, b: Brush, i: nat, flags: bv32)
    requires Ready(w, cache, sw) && BrushInRange(w, b) && i <= b.nBrushSides && Embedded(w, cache, sw, b)
    ensures ClipSides(w, cache, sw, b, i, Clip(-1.0, 1.0, None), flags) == Scanned(Clip(-1.0, 1.0, None), flags)
    decreases b.nBrushSides - i
  {
    if i < b.nBrushSides {
      var d := SideDistances(w, cache, sw, b.brushSide + i);
      assert Behind(d);
      assert OutFlags(flags, d) == flags;
      EmbeddedScan(w, cache, sw, b, i + 1, flags);
    }
  }

  /**
   * A box whose whole move lies inside a brush, traced before any side was
   * seen from outside, is stopped at once (frac 0) but records no blocking
   * plane and no outside flag: the plane stays whatever the record held,
   * which in trace and slide may be a value no brush ever assigned.
   */
  lemma EmbeddedBrushStops(w: World, cache: seq<PlaneInfo>, sw: Sweep, h: Hit, b: Brush)
    requires Ready(w, cache, sw) && BrushInRange(w, b) && Embedded(w, cache, sw, b) && !HasOutFlag(h.flags)
    ensures BrushHit(w, cache, sw, h, b) == Hit(0.0, h.flags, h.plane)
  {
    EmbeddedScan(w, cache, sw, b, 0, h.flags);
  }

  // ---------------------------------------------------------------------
  // Where the box stops

  /**
   * The box moves towards side `d` and, at fraction `f` of the sweep, its
   * pushed-out distance from the side's plane is exactly SURF_CLIP_EPSILON.
   */
  predicate Entered(d: SideDistance, f: real)
  {
    d.start > d.end && d.start + (d.end - d.start) * f == SURF_CLIP_EPSILON
  }

  /** Some brush side on plane `p` is entered at fraction `f` of the sweep. */
  predicate StopsAt(w: World, cache: seq<PlaneInfo>, sw: Sweep, p: nat, f: real)
    requires Ready(w, cache, sw)
  {
    exists k | 0 <= k < |w.brushSides| ::
      SideDistances(w, cache, sw, k).plane == p && Entered(SideDistances(w, cache, sw, k), f)
  }

  /**
   * The values one side gives the clip: a raised entry fraction puts the box
   * SURF_CLIP_EPSILON in front of the side's plane, a lowered exit fraction
   * SURF_CLIP_EPSILON behind it.
   */
  lemma ClipSideValues(c: Clip, d: SideDistance)
    requires !Misses(d)
    ensures ClipSide(c, d).startFrac != c.startFrac ==> Entered(d, ClipSide(c, d).startFrac)
    ensures ClipSide(c, d).endFrac != c.endFrac ==>
      d.start + (d.end - d.start) * ClipSide(c, d).endFrac == -SURF_CLIP_EPSILON
  {
  }

  /** A raised entry fraction is the entry of a side on the recorded closest plane. */
  predicate EntryRecorded(w: World, cache: seq<PlaneInfo>, sw: Sweep, c: Clip)
    requires Ready(w, cache, sw)
  {
    c.startFrac > -1.0 ==> c.closest.Some? && StopsAt(w, cache, sw, c.closest.value, c.startFrac)
  }

  /** The side loop keeps the entry fraction tied to the plane it records. */
  lemma {:induction false} ClipSidesEntry(w: World, cache: seq<PlaneInfo>, sw: Sweep, b: Brush,
                                          i: nat, c: Clip, flags: bv32)
    requires Ready(w, cache, sw) && BrushInRange(w, b) && i <= b.nBrushSides
    requires EntryRecorded(w, cache, sw, c)
    ensures ClipSides(w, cache, sw, b, i, c, flags).Scanned? ==>
      EntryRecorded(w, cache, sw, ClipSides(w, cache, sw, b, i, c, flags).clip)
    decreases b.nBrushSides - i
  {
    if i < b.nBrushSides {
      var k := b.brushSide + i;
      var d := SideDistances(w, cache, sw, k);
      if !Misses(d) {
        var c' := ClipSide(c, d);
        ClipSideValues(c, d);
        if c'.startFrac != c.startFrac {
          assert SideDistances(w, cache, sw, k).plane == c'.closest.value;
        }
        ClipSidesEntry(w, cache, sw, b, i + 1, c', OutFlags(flags, d));
      }
    }
  }

  /**
   * From `h` to `r`: a fraction that is kept (and not 0) keeps its plane,
   * and a fraction that is lowered (but not to 0) is the entry of a side on
   * the plane recorded with it.
   */
  predicate Stops(w: World, cache: seq<PlaneInfo>, sw: Sweep, h: Hit, r: Hit)
    requires Ready(w, cache, sw)
  {
    && (0.0 < r.frac == h.frac ==> r.plane == h.plane)
    && (0.0 < r.frac < h.frac ==> r.plane.Some? && StopsAt(w, cache, sw, r.plane.value, r.frac))
  }

  lemma StopsTransitive(w: World, cache: seq<PlaneInfo>, sw: Sweep, h: Hit, h1: Hit, r: Hit)
    requires Ready(w, cache, sw) && Stops(w, cache, sw, h, h1) && Stops(w, cache, sw, h1, r)
    requires r.frac <= h1.frac <= h.frac
    ensures Stops(w, cache, sw, h, r)
  {
  }

  /** trace_brush lowers the fraction only to the entry of one of its sides, recording that side's plane. */
  lemma BrushHitStops(w: World, cache: seq<PlaneInfo>, sw: Sweep, h: Hit, b: Brush)
    requires Ready(w, cache, sw) && BrushInRange(w, b)
    ensures Stops(w, cache, sw, h, BrushHit(w, cache, sw, h, b))
  {
    ClipSidesEntry(w, cache, sw, b, 0, Clip(-1.0, 1.0, None), h.flags);
  }

  lemma {:induction false} LeafBrushesStops(w: World, cache: seq<PlaneInfo>, sw: Sweep, h: Hit,
                                            leaf: Leaf, i: nat)
    requires Ready(w, cache, sw) && leaf in w.leaves && i <= leaf.nLeafBrushes && 0.0 <= h.frac
    ensures Stops(w, cache, sw, h, LeafBrushes(w, cache, sw, h, leaf, i))
    decreases leaf.nLeafBrushes - i
  {
    if i < leaf.nLeafBrushes {
      var b := LeafBrush(w, leaf, i);
      if SolidBrush(w, b) {
        var h' := BrushHit(w, cache, sw, h, b);
        BrushHitStops(w, cache, sw, h, b);
        if h'.frac != 0.0 {
          LeafBrushesStops(w, cache, sw, h', leaf, i + 1);
          StopsTransitive(w, cache, sw, h, h', LeafBrushes(w, cache, sw, h', leaf, i + 1));
        }
      } else {
        LeafBrushesStops(w, cache, sw, h, leaf, i + 1);
      }
    }
  }

  lemma {:induction false} NodeWalkStops(w: World, cache: seq<PlaneInfo>, rank: seq<nat>, sw: Sweep,
                                         h: Hit, index: int, start: Vec3, end: Vec3)
    requires Ready(w, cache, sw) && Ranked(w, rank) && ChildInRange(w, index) && 0.0 <= h.frac
    ensures Stops(w, cache, sw, h, NodeWalk(w, cache, rank, sw, h, index, start, end))
    decreases if index >= 0 then rank[index] + 1 else 0, 2
  {
    if index < 0 {
      var leaf := w.leaves[-index - 1];
      assert leaf in w.leaves;
      LeafBrushesStops(w, cache, sw, h, leaf, 0);
    } else {
      assert w.nodes[index] in w.nodes;
      NodeCrossStops(w, cache, rank, sw, h, index, start, end,
                     NodeDistances(w, cache, sw, w.nodes[index], start, end));
    }
  }

  lemma {:induction false} NodeCrossStops(w: World, cache: seq<PlaneInfo>, rank: seq<nat>, sw: Sweep,
                                          h: Hit, index: nat, start: Vec3, end: Vec3, d: NodeDistance)
    requires Ready(w, cache, sw) && Ranked(w, rank) && index < |w.nodes| && 0.0 <= h.frac
    ensures Stops(w, cache, sw, h, NodeCross(w, cache, rank, sw, h, index, start, end, d))
    decreases rank[index] + 1, 1
  {
    if d.start >= d.offset + 1.0 && d.end >= d.offset + 1.0 {
      ChildOfNode(w, rank, index, 0);
      NodeWalkStops(w, cache, rank, sw, h, w.nodes[index].front, start, end);
    } else if d.start < -d.offset - 1.0 && d.end < -d.offset - 1.0 {
      ChildOfNode(w, rank, index, 1);
      NodeWalkStops(w, cache, rank, sw, h, w.nodes[index].back, start, end);
    } else {
      NodeSplitStops(w, cache, rank, sw, h, index, start, end, SplitFractions(d));
    }
  }

  lemma {:induction false} NodeSplitStops(w: World, cache: seq<PlaneInfo>, rank: seq<nat>, sw: Sweep,
                                          h: Hit, index: nat, start: Vec3, end: Vec3, s: Split)
    requires Ready(w, cache, sw) && Ranked(w, rank) && index < |w.nodes| && s.side < 2 && 0.0 <= h.frac
    ensures Stops(w, cache, sw, h, NodeSplit(w, cache, rank, sw, h, index, start, end, s))
    decreases rank[index] + 1, 0
  {
    ChildOfNode(w, rank, index, s.side);
    ChildOfNode(w, rank, index, 1 - s.side);
    var near := w.nodes[index].Child(s.side);
    var far := w.nodes[index].Child(1 - s.side);
    var mid1 := Lerp(start, end, s.frac1);
    var mid2 := Lerp(start, end, s.frac2);
    var h1 := NodeWalk(w, cache, rank, sw, h, near, start, mid1);
    NodeWalkStops(w, cache, rank, sw, h, near, start, mid1);
    NodeWalkStops(w, cache, rank, sw, h1, far, mid2, end);
    StopsTransitive(w, cache, sw, h, h1, NodeWalk(w, cache, rank, sw, h1, far, mid2, end));
  }

  /**
   * What a trace means: a trace that runs the full length leaves the plane
   * as the record held it; one that stops part way (0 < frac < 1) records a
   * plane, and some brush side on that plane is approached by the swept box
   * and lies exactly SURF_CLIP_EPSILON ahead of it at the stopping fraction.
   */
  lemma TraceStopsAtPlane(w: World, cache: seq<PlaneInfo>, rank: seq<nat>, start: Vec3, end: Vec3,
                          mins: Vec3, maxs: Vec3, plane0: Option<nat>)
    requires WellFormed(w) && CacheInRange(cache, w.planes) && Ranked(w, rank)
    ensures var r := TraceOf(w, cache, rank, start, end, mins, maxs, plane0);
      && (r.frac == 1.0 ==> r.plane == plane0)
      && (0.0 < r.frac < 1.0 ==>
            r.plane.Some? && StopsAt(w, cache, SweepOf(start, end, mins, maxs), r.plane.value, r.frac))
  {
    var sw := SweepOf(start, end, mins, maxs);
    NodeWalkStops(w, cache, rank, sw, Hit(1.0, 0, plane0), 0, sw.start, sw.end);
  }
}
