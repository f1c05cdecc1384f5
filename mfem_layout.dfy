/**
 * The naming and layout rules of the MFEM data collection that keeps its
 * mesh and fields in a Sidre store: the file name of a cycle, the Blueprint
 * names of element shapes, the interleaving of vertex coordinates and of
 * vector-field components in one shared Buffer, and the compaction of the
 * neighbour list of a shared vertex group.
 */
module MfemLayout {
  import opened Decimal
  import opened SidreStore

  /**
   * `get_file_path`: `prefix + filename`, followed, for a cycle that is not
   * negative, by "_" and the cycle zero-padded to `padDigits` digits. A
   * non-empty prefix carries its own trailing separator.
   */
  function FilePath(prefix: string, filename: string, cycle: int, padDigits: nat): string
  {
    prefix + filename + (if cycle >= 0 then "_" + ZeroPad(NatToString(cycle), padDigits) else "")
  }

  /**
   * A file path starts with the prefix and the file name; for a cycle that
   * is not negative, the rest is "_" and at least `padDigits` digits whose
   * value is the cycle, and otherwise there is no rest.
   */
  lemma FilePathParts(prefix: string, filename: string, cycle: int, padDigits: nat)
    ensures var path := FilePath(prefix, filename, cycle, padDigits);
      var base := |prefix| + |filename|;
      && base <= |path| && path[..base] == prefix + filename
      && (cycle < 0 ==> |path| == base)
      && (cycle >= 0 ==>
            && |path| >= base + 1 + padDigits
            && path[base] == '_'
            && AllDigits(path[base + 1..])
            && Value(path[base + 1..]) == cycle)
  {
    var pf := prefix + filename;
    if cycle >= 0 {
      var digits := ZeroPad(NatToString(cycle), padDigits);
      ValueOfZeroPad(NatToString(cycle), padDigits);
      ValueOfNatToString(cycle);
      Split(pf, '_', digits);
    } else {
      assert FilePath(prefix, filename, cycle, padDigits) == pf + [];
    }
  }

  /** The parts of `a + [c] + b`. */
  lemma Split(a: string, c: char, b: string)
    ensures var s := a + ([c] + b);
      |s| == |a| + 1 + |b| && s[..|a|] == a && s[|a|] == c && s[|a| + 1..] == b
  {
  }

  /** Two cycles that are not negative get different file paths. */
  lemma FilePathInjective(prefix: string, filename: string, c1: nat, c2: nat, padDigits: nat)
    ensures FilePath(prefix, filename, c1, padDigits) == FilePath(prefix, filename, c2, padDigits) <==> c1 == c2
  {
    FilePathParts(prefix, filename, c1, padDigits);
    FilePathParts(prefix, filename, c2, padDigits);
  }

  /** The shapes of MFEM mesh elements. */
  datatype ElementType = Point | Segment | Triangle | Quadrilateral | Tetrahedron | Hexahedron | Wedge

  /** The MFEM reference geometries a Blueprint shape name is read back as. */
  datatype Geometry = GeomPoint | GeomSegment | GeomTriangle | GeomSquare | GeomTetrahedron | GeomCube | GeomInvalid

  /** The reference geometry of each element shape that has a Blueprint name. */
  function GeometryOf(e: ElementType): Geometry
  {
    match e
    case Point => GeomPoint
    case Segment => GeomSegment
    case Triangle => GeomTriangle
    case Quadrilateral => GeomSquare
    case Tetrahedron => GeomTetrahedron
    case Hexahedron => GeomCube
    case Wedge => GeomInvalid
  }

  /** The six shape names of the Blueprint that the collection reads and writes. */
  const BlueprintShapes: set<string> := {"point", "line", "tri", "quad", "tet", "hex"}

  /**
   * `getElementName`: the Blueprint name of an element shape, or "unknown"
   * for a shape the Blueprint names do not cover. Read back, a known name
   * gives the geometry of the shape.
   */
  function ElementName(e: ElementType): (name: string)
    ensures name == "unknown" <==> e == Wedge
    ensures e != Wedge ==> name in BlueprintShapes && GeometryFromName(name) == GeometryOf(e)
  {
    match e
    case Point => "point"
    case Segment => "line"
    case Triangle => "tri"
    case Quadrilateral => "quad"
    case Tetrahedron => "tet"
    case Hexahedron => "hex"
    case Wedge => "unknown"
  }

  /**
   * `getElementTypeFromName`: the geometry a Blueprint shape name stands for;
   * any other string is invalid.
   */
  function GeometryFromName(name: string): (g: Geometry)
    ensures g == GeomInvalid <==> name !in BlueprintShapes
  {
    if name == "point" then GeomPoint
    else if name == "line" then GeomSegment
    else if name == "tri" then GeomTriangle
    else if name == "quad" then GeomSquare
    else if name == "tet" then GeomTetrahedron
    else if name == "hex" then GeomCube
    else GeomInvalid
  }

  /** Distinct named shapes get distinct names, so a name identifies its shape. */
  lemma ElementNameInjective(e1: ElementType, e2: ElementType)
    requires e1 != Wedge && e2 != Wedge
    ensures ElementName(e1) == ElementName(e2) <==> e1 == e2
  {
    assert GeometryFromName(ElementName(e1)) == GeometryOf(e1);
    assert GeometryFromName(ElementName(e2)) == GeometryOf(e2);
  }

  /**
   * The number of doubles in an MFEM vertex, `sizeof(mfem::Vertex) /
   * sizeof(double)`: a vertex stores three coordinates whatever the mesh
   * dimension.
   */
  const NumCoords: nat := 3

  /** The name of coordinate `c`: x, y or z. */
  function CoordName(c: nat): string
    requires c < NumCoords
  {
    if c == 0 then "x" else if c == 1 then "y" else "z"
  }

  /**
   * The layout of coordinate `c` in the shared vertex Buffer: doubles,
   * one per vertex, from element `c` with stride `NumCoords`.
   */
  function CoordDescriptor(c: nat, numVertices: nat): (d: Descriptor)
    requires c < NumCoords
    ensures d.typ == DoubleId && d.count == numVertices
    ensures forall i :: 0 <= i < numVertices ==> IndexOf(d, i) == NumCoords * i + c
    ensures Extent(d) <= NumCoords * numVertices
  {
    Descriptor(DoubleId, numVertices, c, NumCoords)
  }

  /**
   * The coordinate layouts interleave: element j of the vertex Buffer is
   * coordinate j % 3 of vertex j / 3, and no two coordinates of any
   * vertices share an element.
   */
  lemma CoordsInterleave(n: nat, c1: nat, i1: nat, c2: nat, i2: nat)
    requires c1 < NumCoords && c2 < NumCoords && i1 < n && i2 < n
    ensures IndexOf(CoordDescriptor(c1, n), i1) == IndexOf(CoordDescriptor(c2, n), i2) <==> c1 == c2 && i1 == i2
  {
    if IndexOf(CoordDescriptor(c1, n), i1) == IndexOf(CoordDescriptor(c2, n), i2) {
      MixedRadixUnique(i1, c1, i2, c2, NumCoords);
    }
  }

  /** Every element of the vertex Buffer belongs to some coordinate of some vertex. */
  lemma CoordsCover(n: nat, j: nat)
    requires j < NumCoords * n
    ensures j % NumCoords < NumCoords && j / NumCoords < n
    ensures IndexOf(CoordDescriptor(j % NumCoords, n), j / NumCoords) == j
  {
  }

  /** How MFEM orders the components of a vector field's degrees of freedom. */
  datatype Ordering = ByNodes | ByVDim

  /** The element distance between successive entries of one component. */
  function EntryStride(o: Ordering, vdim: nat): nat
  {
    if o == ByNodes then 1 else vdim
  }

  /** The element distance between the first entries of successive components. */
  function ComponentStride(o: Ordering, ndof: nat): nat
  {
    if o == ByNodes then ndof else 1
  }

  /**
   * The layout of component `d` of a vector field of `vdim` components with
   * `ndof` entries each, stored from element `offset` of a named Buffer.
   */
  function ComponentDescriptor(o: Ordering, vdim: nat, ndof: nat, offset: nat, d: nat): Descriptor
  {
    Descriptor(DoubleId, ndof, offset + d * ComponentStride(o, ndof), EntryStride(o, vdim))
  }

  /** The next component's layout starts one component stride further on. */
  lemma ComponentStep(o: Ordering, vdim: nat, ndof: nat, offset: nat, d: nat)
    ensures var c := ComponentDescriptor(o, vdim, ndof, offset, d);
      c.(offset := c.offset + ComponentStride(o, ndof)) == ComponentDescriptor(o, vdim, ndof, offset, d + 1)
  {
    assert (d + 1) * ComponentStride(o, ndof) == d * ComponentStride(o, ndof) + ComponentStride(o, ndof);
  }

  /**
   * Entry `i` of component `d` lies in the field's `vdim * ndof` elements
   * from `offset`, and no two entries of any components share an element.
   */
  lemma ComponentsPartition(o: Ordering, vdim: nat, ndof: nat, offset: nat, d1: nat, i1: nat, d2: nat, i2: nat)
    requires d1 < vdim && d2 < vdim && i1 < ndof && i2 < ndof
    ensures offset <= IndexOf(ComponentDescriptor(o, vdim, ndof, offset, d1), i1) < offset + vdim * ndof
    ensures (IndexOf(ComponentDescriptor(o, vdim, ndof, offset, d1), i1) ==
             IndexOf(ComponentDescriptor(o, vdim, ndof, offset, d2), i2)) <==> d1 == d2 && i1 == i2
  {
    var x1 := IndexOf(ComponentDescriptor(o, vdim, ndof, offset, d1), i1);
    var x2 := IndexOf(ComponentDescriptor(o, vdim, ndof, offset, d2), i2);
    if o == ByNodes {
      assert x1 == offset + (d1 * ndof + i1);
      assert x2 == offset + (d2 * ndof + i2);
      MixedRadixBound(d1, i1, ndof, vdim);
      if x1 == x2 {
        MixedRadixUnique(d1, i1, d2, i2, ndof);
      }
    } else {
      assert x1 == offset + (i1 * vdim + d1);
      assert x2 == offset + (i2 * vdim + d2);
      MixedRadixBound(i1, d1, vdim, ndof);
      assert ndof * vdim == vdim * ndof;
      if x1 == x2 {
        MixedRadixUnique(i1, d1, i2, d2, vdim);
      }
    }
  }

  /** Every component layout stays inside the field's elements. */
  lemma ComponentExtent(o: Ordering, vdim: nat, ndof: nat, offset: nat, d: nat)
    requires d < vdim
    ensures Extent(ComponentDescriptor(o, vdim, ndof, offset, d)) <= offset + vdim * ndof
  {
    if ndof > 0 {
      ComponentsPartition(o, vdim, ndof, offset, d, ndof - 1, d, ndof - 1);
    }
  }

  /** A digit below the radix followed by a smaller place value stays below the next place. */
  lemma MixedRadixBound(q: nat, r: nat, n: nat, m: nat)
    requires q < m && r < n
    ensures q * n + r < m * n
  {
    MulMonotone(q + 1, m, n);
  }

  /** Quotient and remainder of a mixed-radix number are determined by it. */
  lemma MixedRadixUnique(q1: nat, r1: nat, q2: nat, r2: nat, n: nat)
    requires r1 < n && r2 < n && q1 * n + r1 == q2 * n + r2
    ensures q1 == q2 && r1 == r2
  {
    if q1 < q2 {
      MulMonotone(q1 + 1, q2, n);
    } else if q2 < q1 {
      MulMonotone(q2 + 1, q1, n);
    }
  }

  /** The number of entries of `s` equal to the local domain's index 0. */
  function LocalCount(s: seq<nat>): nat
  {
    if s == [] then 0 else LocalCount(s[..|s| - 1]) + (if s[|s| - 1] == 0 then 1 else 0)
  }

  /** The ranks of the non-local entries of a neighbour list, in list order. */
  function RemoteRanks(neighbors: seq<nat>, rank: seq<int>): (r: seq<int>)
    requires forall i :: 0 <= i < |neighbors| ==> neighbors[i] < |rank|
    ensures |r| + LocalCount(neighbors) == |neighbors|
  {
    if neighbors == [] then []
    else
      var last := neighbors[|neighbors| - 1];
      RemoteRanks(neighbors[..|neighbors| - 1], rank) + (if last == 0 then [] else [rank[last]])
  }

  /** A rank is listed if and only if some non-local neighbour has it. */
  lemma {:induction false} RemoteRanksMembers(neighbors: seq<nat>, rank: seq<int>, x: int)
    requires forall i :: 0 <= i < |neighbors| ==> neighbors[i] < |rank|
    ensures x in RemoteRanks(neighbors, rank) <==>
            exists i :: 0 <= i < |neighbors| && neighbors[i] != 0 && rank[neighbors[i]] == x
  {
    if neighbors != [] {
      var n := |neighbors| - 1;
      var front := neighbors[..n];
      RemoteRanksMembers(front, rank, x);
      if x in RemoteRanks(neighbors, rank) {
        if x in RemoteRanks(front, rank) {
          var i :| 0 <= i < |front| && front[i] != 0 && rank[front[i]] == x;
          assert neighbors[i] == front[i];
        } else {
          assert neighbors[n] != 0 && rank[neighbors[n]] == x;
        }
      }
      if exists i :: 0 <= i < |neighbors| && neighbors[i] != 0 && rank[neighbors[i]] == x {
        var i :| 0 <= i < |neighbors| && neighbors[i] != 0 && rank[neighbors[i]] == x;
        if i < n {
          assert front[i] == neighbors[i];
        }
      }
    }
  }

  /** A prefix has at most as many non-local entries as the whole list. */
  lemma {:induction false} RemotePrefix(s: seq<nat>, k: nat)
    requires k <= |s|
    ensures k - LocalCount(s[..k]) <= |s| - LocalCount(s)
    decreases |s| - k
  {
    if k < |s| {
      RemotePrefix(s, k + 1);
      assert s[..k + 1][..k] == s[..k];
    } else {
      assert s[..k] == s;
    }
  }

  /**
   * The neighbour loop of `createMeshBlueprintAdjacencies`: writes the rank
   * of every non-local neighbour densely, in list order, into a fresh array
   * of one element less than the list, skipping the local domain. The list
   * holds the local domain, so the writes stay inside the array; the array
   * starts zero-filled, as the store allocates it.
   */
  method CompactNeighbors(neighbors: seq<nat>, rank: seq<int>) returns (data: seq<int>)
    requires |neighbors| >= 1 && LocalCount(neighbors) >= 1
    requires forall i :: 0 <= i < |neighbors| ==> neighbors[i] < |rank|
    ensures |data| == |neighbors| - 1
    ensures |RemoteRanks(neighbors, rank)| <= |data|
    ensures data[..|RemoteRanks(neighbors, rank)|] == RemoteRanks(neighbors, rank)
    ensures forall j :: |RemoteRanks(neighbors, rank)| <= j < |data| ==> data[j] == 0
  {
    var a := new int[|neighbors| - 1](_ => 0);
    var ni, noff := 0, 0;
    while ni < |neighbors|
      invariant 0 <= ni <= |neighbors|
      invariant noff == LocalCount(neighbors[..ni]) && noff <= ni
      invariant ni - noff <= a.Length
      invariant a[..ni - noff] == RemoteRanks(neighbors[..ni], rank)
      invariant forall j :: ni - noff <= j < a.Length ==> a[j] == 0
    {
      assert neighbors[..ni + 1][..ni] == neighbors[..ni];
      if neighbors[ni] == 0 {
        noff := noff + 1;
      } else {
        RemotePrefix(neighbors, ni + 1);
        a[ni - noff] := rank[neighbors[ni]];
      }
      ni := ni + 1;
    }
    assert neighbors[..ni] == neighbors;
    data := a[..];
  }
}
