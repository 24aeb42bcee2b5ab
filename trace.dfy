/**
 * The trace record and the recursive descent that narrows it in place
 * (trace, trace_point, trace_node, trace_leaf, trace_brush). Every method is
 * proved to leave the record in the state the functions of module TraceSpec
 * compute.
 */
module TraceWorkState {
  import opened Wrappers
  import opened Geometry
  import opened Bsp
  import opened Planes
  import opened TraceSpec

  /** struct trace_work. `plane` is None until some brush records an entering plane. */
  class TraceWork {
    var start: Vec3
    var end: Vec3
    var endpos: Vec3
    var frac: real
    var flags: bv32
    var mins: Vec3
    var maxs: Vec3
    var offsets: seq<Vec3>
    var plane: Option<nat>

    /** A record as declared on the stack: no field has been assigned by a trace yet. */
    constructor ()
      ensures plane == None && offsets == []
    {
      start, end, endpos := Zero, Zero, Zero;
      frac, flags := 0.0, 0;
      mins, maxs := Zero, Zero;
      offsets := [];
      plane := None;
    }

    function SweepState(): Sweep
      reads this
    {
      Sweep(start, end, mins, maxs, offsets)
    }

    function HitState(): Hit
      reads this
    {
      Hit(frac, flags, plane)
    }

    /** The distances trace_brush computes for one brush side, from the recorded sweep. */
    method SideAt(w: World, cache: seq<PlaneInfo>, sideIndex: nat) returns (d: SideDistance)
      requires Ready(w, cache, SweepState()) && sideIndex < |w.brushSides|
      ensures d == SideDistances(w, cache, SweepState(), sideIndex)
    {
      assert w.brushSides[sideIndex] in w.brushSides;
      var planeIndex := w.brushSides[sideIndex].plane;
      var p := w.planes[planeIndex];
      var signbits := cache[planeIndex].signbits;
      var dist := p.dist - Dot(offsets[signbits as int], p.normal);
      d := SideDistance(Dot(start, p.normal) - dist, Dot(end, p.normal) - dist, planeIndex);
    }

    /** Record which endpoints of the sweep lie outside a brush side. */
    method MarkOutside(d: SideDistance)
      modifies this`flags
      ensures flags == OutFlags(old(flags), d)
    {
      if d.start > 0.0 {
        flags := flags | TW_STARTS_OUT;
      }
      if d.end > 0.0 {
        flags := flags | TW_ENDS_OUT;
      }
    }

    /**
     * The end of trace_brush once every side has been clipped: take the entry
     * if it is the closest so far, then force the fraction to 0 when no
     * endpoint was ever outside a side.
     */
    method Settle(clip: Clip)
      requires ClipInvariant(clip)
      modifies this`frac, this`plane
      ensures HitState() == BrushStep(old(HitState()), Scanned(clip, flags))
    {
      if clip.startFrac < clip.endFrac && clip.startFrac > -1.0 && clip.startFrac < frac {
        frac := Max(clip.startFrac, 0.0);
        plane := Some(clip.closest.value);
      }
      if flags & (TW_STARTS_OUT | TW_ENDS_OUT) == 0 {
        frac := 0.0;
      }
    }

    /**
     * The part of trace_brush's side loop for a side the sweep crosses: an
     * entered side may raise the entry fraction (and become the closest
     * plane), a side being left may lower the exit fraction.
     */
    static method ClipEntryExit(clip: Clip, d: SideDistance) returns (r: Clip)
      requires !Misses(d) && !Behind(d)
      ensures r == ClipSide(clip, d)
    {
      r := clip;
      if d.start > d.end {
        var f := (d.start - SURF_CLIP_EPSILON) / (d.start - d.end);
        if f > r.startFrac {
          r := r.(startFrac := f, closest := Some(d.plane));
        }
      } else {
        var f := (d.start + SURF_CLIP_EPSILON) / (d.start - d.end);
        r := r.(endFrac := Min(r.endFrac, f));
      }
    }

    /**
     * trace_brush: clip the swept box against every side of `brush`. Leaves
     * frac and plane alone (but keeps the flags gathered so far) as soon as a
     * side cannot be entered; reads the closest plane only once an entry
     * fraction has been recorded.
     */
    method TraceBrush(w: World, cache: seq<PlaneInfo>, brush: Brush)
      requires Ready(w, cache, SweepState()) && BrushInRange(w, brush)
      modifies this`frac, this`flags, this`plane
      ensures HitState() == BrushHit(w, cache, SweepState(), old(HitState()), brush)
    {
      var clip := Clip(-1.0, 1.0, None);
      ghost var sw := SweepState();
      ghost var scan := ClipSides(w, cache, sw, brush, 0, clip, flags);

      for i := 0 to brush.nBrushSides
        invariant SweepState() == sw
        invariant ClipSides(w, cache, sw, brush, i, clip, flags) == scan
        invariant ClipInvariant(clip)
        invariant frac == old(frac) && plane == old(plane)
      {
        var d := SideAt(w, cache, brush.brushSide + i);
        ClipSidesStep(w, cache, sw, brush, i, clip, flags);
        MarkOutside(d);

        if d.start > 0.0 && (d.end >= SURF_CLIP_EPSILON || d.end >= d.start) {
          return;
        }
        if d.start <= 0.0 && d.end <= 0.0 {
          continue;
        }
        clip := ClipEntryExit(clip, d);
      }

      Settle(clip);
    }

    /** trace_leaf: trace every solid brush with sides, stopping once frac reaches 0. */
    method TraceLeaf(w: World, cache: seq<PlaneInfo>, index: nat)
      requires Ready(w, cache, SweepState()) && index < |w.leaves|
      modifies this`frac, this`flags, this`plane
      ensures HitState() == LeafBrushes(w, cache, SweepState(), old(HitState()), w.leaves[index], 0)
    {
      var leaf := w.leaves[index];
      assert leaf in w.leaves;
      for i := 0 to leaf.nLeafBrushes
        invariant LeafBrushes(w, cache, SweepState(), HitState(), leaf, i)
               == LeafBrushes(w, cache, SweepState(), old(HitState()), leaf, 0)
      {
        var brush := LeafBrush(w, leaf, i);
        var contents := w.textures[brush.texture].contents;
        if brush.nBrushSides != 0 && contents & CONTENTS_SOLID != 0 {
          TraceBrush(w, cache, brush);
          if frac == 0.0 {
            return;
          }
        }
      }
    }

    /**
     * trace_node's distances of the segment start..end from a node plane: on
     * an axial plane the coordinate along that axis (the normal's sign is not
     * consulted) and the box's half-width on it; otherwise the dot product,
     * with a reach of 0 for a point and 2048 for any box.
     */
    method NodeDistanceAt(w: World, cache: seq<PlaneInfo>, node: Node, start: Vec3, end: Vec3)
      returns (d: NodeDistance)
      requires Ready(w, cache, SweepState()) && node in w.nodes
      ensures d == NodeDistances(w, cache, SweepState(), node, start, end)
    {
      var p := w.planes[node.plane];
      var planeType := cache[node.plane].ptype;
      var startDistance, endDistance, offset;
      if planeType < 3 {
        startDistance := start.At(planeType) - p.dist;
        endDistance := end.At(planeType) - p.dist;
        offset := maxs.At(planeType);
      } else {
        startDistance := Dot(start, p.normal) - p.dist;
        endDistance := Dot(end, p.normal) - p.dist;
        if mins == maxs {
          offset := 0.0;
        } else {
          offset := NONAXIAL_OFFSET;
        }
      }
      d := NodeDistance(startDistance, endDistance, offset);
    }

    /**
     * trace_node's split of a segment that straddles a node plane: the near
     * side, and the clamped fractions at which the near half ends and the
     * far half begins, each pushed past the plane by the box's reach and the
     * clip epsilon.
     */
    static method SplitSegment(d: NodeDistance) returns (s: Split)
      ensures s == SplitFractions(d)
    {
      var side, frac1, frac2;
      if d.start < d.end {
        side := 1;
        var distance := d.start - d.end;
        frac1 := (d.start - d.offset + SURF_CLIP_EPSILON) / distance;
        frac2 := (d.start + d.offset + SURF_CLIP_EPSILON) / distance;
      } else if d.start > d.end {
        side := 0;
        var distance := d.start - d.end;
        frac1 := (d.start + d.offset + SURF_CLIP_EPSILON) / distance;
        frac2 := (d.start - d.offset - SURF_CLIP_EPSILON) / distance;
      } else {
        side := 0;
        frac1 := 1.0;
        frac2 := 0.0;
      }
      s := Split(side, Clamp01(frac1), Clamp01(frac2));
    }

    /** trace_node: descend from child reference `index` with the segment start..end. */
    method TraceNode(w: World, cache: seq<PlaneInfo>, ghost rank: seq<nat>, index: int,
                     start: Vec3, end: Vec3)
      requires Ready(w, cache, SweepState()) && Ranked(w, rank) && ChildInRange(w, index)
      modifies this`frac, this`flags, this`plane
      ensures HitState() == NodeWalk(w, cache, rank, SweepState(), old(HitState()),
                                     index, start, end)
      decreases if index >= 0 then rank[index] + 1 else 0, 1
    {
      if index < 0 {
        ghost var h0 := HitState();
        TraceLeaf(w, cache, -index - 1);
        assert HitState() == LeafBrushes(w, cache, SweepState(), h0, w.leaves[-index - 1], 0);
        assert NodeWalk(w, cache, rank, SweepState(), h0, index, start, end)
            == LeafBrushes(w, cache, SweepState(), h0, w.leaves[-index - 1], 0);
        return;
      }

      var node := w.nodes[index];
      assert node in w.nodes;
      var d := NodeDistanceAt(w, cache, node, start, end);
      var startDistance, endDistance, offset := d.start, d.end, d.offset;
      assert NodeWalk(w, cache, rank, SweepState(), HitState(), index, start, end)
          == NodeCross(w, cache, rank, SweepState(), HitState(), index, start, end, d);

      if startDistance >= offset + 1.0 && endDistance >= offset + 1.0 {
        ChildOfNode(w, rank, index, 0);
        TraceNode(w, cache, rank, node.front, start, end);
        return;
      }

      if startDistance < -offset - 1.0 && endDistance < -offset - 1.0 {
        ChildOfNode(w, rank, index, 1);
        TraceNode(w, cache, rank, node.back, start, end);
        return;
      }

      var split := SplitSegment(d);
      assert NodeCross(w, cache, rank, SweepState(), HitState(), index, start, end, d)
          == NodeSplit(w, cache, rank, SweepState(), HitState(), index, start, end, split);
      TraceSplit(w, cache, rank, index, start, end, split);
    }

    /**
     * The end of trace_node for a segment split by the node plane: descend
     * into the near child with start..mid1, then into the far child with
     * mid2..end.
     */
    method TraceSplit(w: World, cache: seq<PlaneInfo>, ghost rank: seq<nat>, index: nat,
                      start: Vec3, end: Vec3, split: Split)
      requires Ready(w, cache, SweepState()) && Ranked(w, rank) && index < |w.nodes| && split.side < 2
      modifies this`frac, this`flags, this`plane
      ensures HitState() == NodeSplit(w, cache, rank, SweepState(), old(HitState()),
                                      index, start, end, split)
      decreases rank[index] + 1, 0
    {
      var node := w.nodes[index];
      ChildOfNode(w, rank, index, split.side);
      ChildOfNode(w, rank, index, 1 - split.side);
      TraceNode(w, cache, rank, node.Child(split.side), start, Lerp(start, end, split.frac1));
      TraceNode(w, cache, rank, node.Child(1 - split.side), Lerp(start, end, split.frac2), end);
    }

    /**
     * trace: recentre the box, fill the corner table, descend from the root
     * and compute where the box stops. frac and flags are reset here and only
     * here; the plane is left as it was.
     */
    method Trace(w: World, cache: seq<PlaneInfo>, ghost rank: seq<nat>,
                 start: Vec3, end: Vec3, mins: Vec3, maxs: Vec3)
      requires WellFormed(w) && CacheInRange(cache, w.planes) && Ranked(w, rank)
      modifies this
      ensures SweepState() == SweepOf(start, end, mins, maxs)
      ensures HitState() == TraceOf(w, cache, rank, start, end, mins, maxs, old(plane))
      ensures 0.0 <= frac <= 1.0
      ensures endpos == EndPos(start, end, frac)
    {
      frac := 1.0;
      flags := 0;

      var offset := Midpoint(mins, maxs);
      this.mins := Sub(mins, offset);
      this.maxs := Sub(maxs, offset);
      this.start := Add(start, offset);
      this.end := Add(end, offset);
      offsets := Corners(this.mins, this.maxs);

      TraceNode(w, cache, rank, 0, this.start, this.end);

      if frac == 1.0 {
        endpos := end;
      } else {
        endpos := Lerp(start, end, frac);
      }
    }

    /** trace_point: a trace with a zero-sized box. */
    method TracePoint(w: World, cache: seq<PlaneInfo>, ghost rank: seq<nat>, start: Vec3, end: Vec3)
      requires WellFormed(w) && CacheInRange(cache, w.planes) && Ranked(w, rank)
      modifies this
      ensures SweepState() == SweepOf(start, end, Zero, Zero)
      ensures HitState() == TraceOf(w, cache, rank, start, end, Zero, Zero, old(plane))
      ensures 0.0 <= frac <= 1.0
      ensures endpos == EndPos(start, end, frac)
    {
      Trace(w, cache, rank, start, end, Zero, Zero);
    }
  }
}
