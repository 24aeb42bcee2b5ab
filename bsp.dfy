/**
 * The decoded world arrays of a Quake 3 BSP file and the two read-only
 * spatial-index queries over them: which leaf holds a point, and whether one
 * cluster can see another.
 *
 * Loading the file is outside the model: the arrays arrive already decoded
 * and `WellFormed` states what the code silently relies on (every index it
 * follows is in range).
 */
module Bsp {
  import opened Geometry

  const CONTENTS_SOLID: bv32 := 1

  datatype Plane = Plane(normal: Vec3, dist: real)

  /** A partition node; a negative child `c` refers to leaf `-c - 1`. */
  datatype Node = Node(plane: nat, front: int, back: int) {
    /** `child[side]`: side 0 is the front child, side 1 the back child. */
    function Child(side: nat): int
      requires side < 2
    {
      if side == 0 then front else back
    }
  }

  datatype Leaf = Leaf(cluster: int, leafBrush: nat, nLeafBrushes: nat)

  datatype Brush = Brush(brushSide: nat, nBrushSides: nat, texture: nat)

  datatype BrushSide = BrushSide(plane: nat)

  datatype Texture = Texture(contents: bv32)

  datatype World = World(
    planes: seq<Plane>,
    nodes: seq<Node>,
    leaves: seq<Leaf>,
    leafBrushes: seq<nat>,
    brushes: seq<Brush>,
    brushSides: seq<BrushSide>,
    textures: seq<Texture>)

  /** Child reference `c` names an existing node or an existing leaf. */
  predicate ChildInRange(w: World, c: int)
  {
    if c >= 0 then c < |w.nodes| else -c - 1 < |w.leaves|
  }

  predicate BrushInRange(w: World, b: Brush)
  {
    && b.brushSide + b.nBrushSides <= |w.brushSides|
    && b.texture < |w.textures|
  }

  /** Every index the collision code follows stays inside its array. */
  predicate WellFormed(w: World)
  {
    && |w.nodes| > 0
    && (forall n | n in w.nodes ::
          n.plane < |w.planes| && ChildInRange(w, n.front) && ChildInRange(w, n.back))
    && (forall l | l in w.leaves :: l.leafBrush + l.nLeafBrushes <= |w.leafBrushes|)
    && (forall b | b in w.leafBrushes :: b < |w.brushes|)
    && (forall b | b in w.brushes :: BrushInRange(w, b))
    && (forall s | s in w.brushSides :: s.plane < |w.planes|)
  }

  /**
   * `rank` orders the nodes so that every node child has a smaller rank than
   * its parent. The file format does not promise a finite acyclic tree; this
   * is the precondition under which every descent terminates.
   */
  predicate Ranked(w: World, rank: seq<nat>)
  {
    && |rank| == |w.nodes|
    && forall i | 0 <= i < |w.nodes| ::
         && (0 <= w.nodes[i].front < |rank| ==> rank[w.nodes[i].front] < rank[i])
         && (0 <= w.nodes[i].back < |rank| ==> rank[w.nodes[i].back] < rank[i])
  }

  /** Signed distance of `p` from `plane`: positive in front. */
  function PlaneDistance(plane: Plane, p: Vec3): real
  {
    Dot(p, plane.normal) - plane.dist
  }

  /**
   * The leaf that the descent from child reference `index` reaches: the front
   * child when the point is on or in front of the node's plane, the back child
   * otherwise, until a (negative) leaf reference is met.
   */
  function LeafAt(w: World, rank: seq<nat>, p: Vec3, index: int): (leaf: nat)
    requires WellFormed(w) && Ranked(w, rank) && ChildInRange(w, index)
    ensures leaf < |w.leaves|
    ensures index < 0 ==> leaf == -index - 1
    decreases if index >= 0 then rank[index] + 1 else 0
  {
    if index < 0 then -index - 1
    else
      var node := w.nodes[index];
      assert node in w.nodes;
      if PlaneDistance(w.planes[node.plane], p) >= 0.0
      then LeafAt(w, rank, p, node.front)
      else LeafAt(w, rank, p, node.back)
  }

  /** bsp_find_leaf: walk from the root (node 0) down to a leaf. */
  method FindLeaf(w: World, ghost rank: seq<nat>, p: Vec3) returns (leaf: int)
    requires WellFormed(w) && Ranked(w, rank)
    ensures 0 <= leaf < |w.leaves|
    ensures leaf == LeafAt(w, rank, p, 0)
  {
    var index := 0;
    while index >= 0
      invariant ChildInRange(w, index)
      invariant LeafAt(w, rank, p, index) == LeafAt(w, rank, p, 0)
      decreases if index >= 0 then rank[index] + 1 else 0
    {
      var node := w.nodes[index];
      assert node in w.nodes;
      var plane := w.planes[node.plane];
      var distance := Dot(p, plane.normal) - plane.dist;
      if distance >= 0.0 {
        index := node.front;
      } else {
        index := node.back;
      }
    }
    leaf := -index - 1;
  }

  /**
   * The leaf found does not depend on which ranking witnesses termination:
   * the rank is a proof device only.
   */
  lemma {:induction false} LeafAtRankIndependent(w: World, r1: seq<nat>, r2: seq<nat>, p: Vec3, index: int)
    requires WellFormed(w) && Ranked(w, r1) && Ranked(w, r2) && ChildInRange(w, index)
    ensures LeafAt(w, r1, p, index) == LeafAt(w, r2, p, index)
    decreases if index >= 0 then r1[index] + 1 else 0
  {
    if index >= 0 {
      var node := w.nodes[index];
      assert node in w.nodes;
      if PlaneDistance(w.planes[node.plane], p) >= 0.0 {
        LeafAtRankIndependent(w, r1, r2, p, node.front);
      } else {
        LeafAtRankIndependent(w, r1, r2, p, node.back);
      }
    }
  }

  /** A two-leaf world split by the plane x = 0: front is leaf 0, back is leaf 1. */
  function TwoLeafWorld(): (w: World)
    ensures WellFormed(w) && Ranked(w, [0])
  {
    World([Plane(Vec3(1.0, 0.0, 0.0), 0.0)], [Node(0, -1, -2)],
          [Leaf(0, 0, 0), Leaf(1, 0, 0)], [], [], [], [])
  }

  lemma TwoLeafWorldLookups()
    ensures LeafAt(TwoLeafWorld(), [0], Vec3(5.0, 0.0, 0.0), 0) == 0
    ensures LeafAt(TwoLeafWorld(), [0], Vec3(-5.0, 0.0, 0.0), 0) == 1
  {
  }

  // ---------------------------------------------------------------------
  // Cluster visibility

  /** The visibility block: `szVecs` bytes per source cluster, one bit per target. */
  datatype VisData = VisData(nVecs: int, szVecs: nat, vecs: seq<bv8>)

  /** bsp_cluster_visible: bit `target % 8` of byte `from * szVecs + target / 8`. */
  function ClusterVisible(vis: VisData, from: nat, target: nat): bool
    requires from * vis.szVecs + target / 8 < |vis.vecs|
  {
    BitSet(vis.vecs[from * vis.szVecs + target / 8], target % 8)
  }

  /** Bit `k` of a row, reading past its end as clear. */
  function RowBit(row: seq<bool>, k: nat): bool
  {
    k < |row| && row[k]
  }

  /** Byte `j` of a packed row: bit b holds row entry 8 * j + b. */
  function RowByte(row: seq<bool>, j: nat): bv8
  {
    var k := 8 * j;
    (if RowBit(row, k) then 1 else 0)
    | (if RowBit(row, k + 1) then 2 else 0)
    | (if RowBit(row, k + 2) then 4 else 0)
    | (if RowBit(row, k + 3) then 8 else 0)
    | (if RowBit(row, k + 4) then 16 else 0)
    | (if RowBit(row, k + 5) then 32 else 0)
    | (if RowBit(row, k + 6) then 64 else 0)
    | (if RowBit(row, k + 7) then 128 else 0)
  }

  function PackRow(row: seq<bool>, sz: nat): (bytes: seq<bv8>)
    ensures |bytes| == sz
  {
    seq(sz, j requires 0 <= j < sz => RowByte(row, j))
  }

  /** Pack a visibility matrix into the on-disk layout, one row of `sz` bytes per cluster. */
  function Pack(m: seq<seq<bool>>, sz: nat): (bytes: seq<bv8>)
    ensures |bytes| == |m| * sz
  {
    if m == [] then [] else PackRow(m[0], sz) + Pack(m[1..], sz)
  }

  lemma {:induction false} RowByteBit(row: seq<bool>, t: nat)
    ensures BitSet(RowByte(row, t / 8), t % 8) == RowBit(row, t)
  {
    var j, b := t / 8, t % 8;
    assert t == 8 * j + b;
    var k := 8 * j;
    if b == 0 { assert t == k; }
    else if b == 1 { assert t == k + 1; }
    else if b == 2 { assert t == k + 2; }
    else if b == 3 { assert t == k + 3; }
    else if b == 4 { assert t == k + 4; }
    else if b == 5 { assert t == k + 5; }
    else if b == 6 { assert t == k + 6; }
    else { assert t == k + 7; }
  }

  lemma {:induction false} PackAt(m: seq<seq<bool>>, sz: nat, f: nat, j: nat)
    requires f < |m| && j < sz
    ensures f * sz + j < |Pack(m, sz)|
    ensures Pack(m, sz)[f * sz + j] == RowByte(m[f], j)
  {
    var rest := Pack(m[1..], sz);
    assert Pack(m, sz) == PackRow(m[0], sz) + rest;
    if f > 0 {
      PackAt(m[1..], sz, f - 1, j);
      MulStep(f, sz);
      assert Pack(m, sz)[f * sz + j] == rest[(f - 1) * sz + j];
    }
  }

  lemma MulStep(f: nat, sz: nat)
    requires f > 0
    ensures f * sz == sz + (f - 1) * sz
  {
  }

  /**
   * Reading a packed matrix back with ClusterVisible gives exactly the
   * matrix entry: the bit addressing agrees with the row-major byte layout.
   */
  lemma VisibilityRoundTrip(m: seq<seq<bool>>, sz: nat, from: nat, target: nat)
    requires from < |m| && target < |m[from]| && |m[from]| <= 8 * sz
    ensures from * sz + target / 8 < |Pack(m, sz)|
    ensures ClusterVisible(VisData(|m|, sz, Pack(m, sz)), from, target) == m[from][target]
  {
    PackAt(m, sz, from, target / 8);
    RowByteBit(m[from], target);
  }

  /**
   * For a matrix built with every cluster visible from itself, the packed
   * query answers true on the diagonal.
   */
  lemma SelfVisible(m: seq<seq<bool>>, sz: nat, c: nat)
    requires c < |m| && |m[c]| == |m| && |m| <= 8 * sz
    requires forall i | 0 <= i < |m| :: |m[i]| == |m| && m[i][i]
    ensures c * sz + c / 8 < |Pack(m, sz)|
    ensures ClusterVisible(VisData(|m|, sz, Pack(m, sz)), c, c)
  {
    VisibilityRoundTrip(m, sz, c, c);
  }
}
