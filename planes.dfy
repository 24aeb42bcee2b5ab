/**
 * The per-plane metadata cache: for every plane of the world, which axis (if
 * any) its normal lies along, and the sign pattern of its normal. The trace
 * code uses the first to take a shortcut on axial node planes and the second
 * to pick the box corner that reaches furthest along a brush side's normal.
 */
module Planes {
  import opened Geometry
  import opened Bsp

  const PLANE_X: nat := 0
  const PLANE_Y: nat := 1
  const PLANE_Z: nat := 2
  const PLANE_NONAXIAL: nat := 3

  datatype PlaneInfo = PlaneInfo(signbits: bv8, ptype: nat)

  /** A component that is exactly 1 or -1, making the normal lie along that axis. */
  predicate IsUnitComponent(c: real)
  {
    c == 1.0 || c == -1.0
  }

  /** plane_type_for_normal: the first axis whose component is exactly 1 or -1. */
  function PlaneTypeForNormal(normal: Vec3): (t: nat)
    ensures t <= PLANE_NONAXIAL
    ensures t < PLANE_NONAXIAL ==> IsUnitComponent(normal.At(t))
    ensures forall i | 0 <= i < t && i < 3 :: !IsUnitComponent(normal.At(i))
  {
    if normal.x == 1.0 || normal.x == -1.0 then PLANE_X
    else if normal.y == 1.0 || normal.y == -1.0 then PLANE_Y
    else if normal.z == 1.0 || normal.z == -1.0 then PLANE_Z
    else PLANE_NONAXIAL
  }

  /** The sign bits of the first `k` components. */
  function SignBitsUpTo(normal: Vec3, k: nat): bv8
    requires k <= 3
  {
    if k == 0 then 0
    else SignBitsUpTo(normal, k - 1) | (if normal.At(k - 1) < 0.0 then 1 << (k - 1) else 0)
  }

  /** The first `k` sign bits: below `1 << k`, bit i set exactly when component i is negative. */
  lemma {:induction false} SignBitsUpToBits(normal: Vec3, k: nat)
    requires k <= 3
    ensures SignBitsUpTo(normal, k) < 1 << k
    ensures forall i | 0 <= i < k :: BitSet(SignBitsUpTo(normal, k), i) <==> normal.At(i) < 0.0
  {
    if k > 0 {
      SignBitsUpToBits(normal, k - 1);
      var prev := SignBitsUpTo(normal, k - 1);
      var bit: bv8 := if normal.At(k - 1) < 0.0 then 1 << (k - 1) else 0;
      assert SignBitsUpTo(normal, k) == prev | bit;
      forall i | 0 <= i < k
        ensures BitSet(prev | bit, i) <==> normal.At(i) < 0.0
      {
        if i < k - 1 {
          assert BitSet(prev | bit, i) == BitSet(prev, i);
        } else {
          assert BitSet(prev, i) == false;
        }
      }
    }
  }

  /** The sign pattern of a normal: bit i is set exactly when component i is negative. */
  function SignBits(normal: Vec3): (bits: bv8)
    ensures bits < 8
    ensures forall i | 0 <= i < 3 :: BitSet(bits, i) <==> normal.At(i) < 0.0
  {
    SignBitsUpToBits(normal, 3);
    SignBitsUpTo(normal, 3)
  }

  /** signbits_for_normal: accumulate one bit per negative component. */
  method SignBitsForNormal(normal: Vec3) returns (bits: bv8)
    ensures bits == SignBits(normal)
    ensures bits < 8
    ensures forall i | 0 <= i < 3 :: BitSet(bits, i) <==> normal.At(i) < 0.0
  {
    bits := 0;
    for i := 0 to 3
      invariant bits == SignBitsUpTo(normal, i)
    {
      if normal.At(i) < 0.0 {
        bits := bits | (1 << i);
      }
    }
  }

  /** The cache entry the loader computes for one plane. */
  function InfoFor(plane: Plane): PlaneInfo
  {
    PlaneInfo(SignBits(plane.normal), PlaneTypeForNormal(plane.normal))
  }

  /** `cache` holds, at every plane index, that plane's sign bits and axis type. */
  predicate Describes(cache: seq<PlaneInfo>, planes: seq<Plane>)
  {
    |cache| == |planes| && forall i | 0 <= i < |planes| :: cache[i] == InfoFor(planes[i])
  }

  /** init_planes: fill the cache, one entry per plane, in index order. */
  method InitPlanes(planes: seq<Plane>) returns (cache: array<PlaneInfo>)
    ensures fresh(cache)
    ensures Describes(cache[..], planes)
  {
    cache := new PlaneInfo[|planes|](_ => PlaneInfo(0, PLANE_NONAXIAL));
    for i := 0 to |planes|
      invariant forall j | 0 <= j < i :: cache[j] == InfoFor(planes[j])
    {
      var signbits := SignBitsForNormal(planes[i].normal);
      cache[i] := PlaneInfo(signbits, PlaneTypeForNormal(planes[i].normal));
    }
  }

  /** Every entry of the cache holds a corner index and a plane type: what the trace relies on. */
  predicate CacheInRange(cache: seq<PlaneInfo>, planes: seq<Plane>)
  {
    |cache| == |planes| &&
    forall i | 0 <= i < |cache| :: cache[i].signbits < 8 && cache[i].ptype <= PLANE_NONAXIAL
  }

  /** A cache filled by init_planes selects one of the eight box corners for every plane. */
  lemma DescribedCacheInRange(cache: seq<PlaneInfo>, planes: seq<Plane>)
    requires Describes(cache, planes)
    ensures CacheInRange(cache, planes)
  {
    forall i | 0 <= i < |cache|
      ensures cache[i].signbits < 8 && cache[i].ptype <= PLANE_NONAXIAL
    {
      assert cache[i] == InfoFor(planes[i]);
    }
  }
}
