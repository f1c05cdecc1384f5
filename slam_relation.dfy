/**
 * The unstructured hex mesh of the Slam example: its node and zone sets,
 * the zone-to-node relation of constant stride read from a VTK file, and
 * the node-to-zone relation obtained by transposing it into compressed-row
 * form, a `begins` vector of one entry per node plus one and an `offsets`
 * vector of zone indices.
 */
module SlamRelation {
  import opened Wrappers

  /** Every zone of a hex mesh has eight nodes. */
  const NodesPerZone: nat := 8

  /** Every entry of `s` is an index of a set of `size` elements. */
  predicate InRange(s: seq<int>, size: nat)
  {
    forall i :: 0 <= i < |s| ==> 0 <= s[i] < size
  }

  /** The nodes of zone `z` in a zone-to-node relation of constant stride. */
  function ZoneNodes(zn: seq<int>, z: nat): (s: seq<int>)
    requires NodesPerZone * (z + 1) <= |zn|
    ensures |s| == NodesPerZone
    ensures forall i :: 0 <= i < NodesPerZone ==> s[i] == zn[NodesPerZone * z + i]
  {
    zn[NodesPerZone * z .. NodesPerZone * (z + 1)]
  }

  /** The concatenation of a relation's inner lists, in order. */
  function Flat(t: seq<seq<int>>): seq<int>
  {
    if |t| == 0 then [] else Flat(t[..|t| - 1]) + t[|t| - 1]
  }

  /** Where row `n` starts in the flattening of a relation: the number of entries in the rows before it. */
  function RowStart(t: seq<seq<int>>, n: nat): nat
    requires n <= |t|
  {
    |Flat(t[..n])|
  }

  /**
   * A dynamic variable relation after `z` is inserted, in order, into the
   * list of each node of `nodes` (a node listed twice gets `z` twice).
   */
  function InsertZone(t: seq<seq<int>>, nodes: seq<int>, z: int): (r: seq<seq<int>>)
    requires InRange(nodes, |t|)
    ensures |r| == |t|
  {
    if |nodes| == 0 then t
    else
      var r0 := InsertZone(t, nodes[..|nodes| - 1], z);
      var n := nodes[|nodes| - 1];
      r0[n := r0[n] + [z]]
  }

  /**
   * The node-to-zone relation of the first `zc` zones of `zn`: each zone in
   * turn is inserted into the list of each of its nodes.
   */
  function Transposed(zn: seq<int>, numNodes: nat, zc: nat): (t: seq<seq<int>>)
    requires NodesPerZone * zc <= |zn| && InRange(zn, numNodes)
    ensures |t| == numNodes
  {
    if zc == 0 then seq(numNodes, _ => [])
    else InsertZone(Transposed(zn, numNodes, zc - 1), ZoneNodes(zn, zc - 1), zc - 1)
  }

  // ---------------------------------------------------------------------
  // Counting multiplicity: zone y is in node n's list as often as n is in
  // zone y's node list.
  // ---------------------------------------------------------------------

  lemma {:induction false} InsertZoneCount(t: seq<seq<int>>, nodes: seq<int>, z: int, n: nat, y: int)
    requires InRange(nodes, |t|) && n < |t|
    ensures multiset(InsertZone(t, nodes, z)[n])[y] == multiset(t[n])[y] + if y == z then multiset(nodes)[n] else 0
  {
    if |nodes| > 0 {
      var init := nodes[..|nodes| - 1];
      InsertZoneCount(t, init, z, n, y);
      assert nodes == init + [nodes[|nodes| - 1]];
    }
  }

  /** Node `n`'s list in the transposed relation holds zone `y` once per slot of `y` that names `n`. */
  lemma {:induction false} TransposedCount(zn: seq<int>, numNodes: nat, zc: nat, n: nat, y: int)
    requires NodesPerZone * zc <= |zn| && InRange(zn, numNodes) && n < numNodes
    ensures multiset(Transposed(zn, numNodes, zc)[n])[y] == if 0 <= y < zc then multiset(ZoneNodes(zn, y))[n] else 0
  {
    if zc > 0 {
      TransposedCount(zn, numNodes, zc - 1, n, y);
      InsertZoneCount(Transposed(zn, numNodes, zc - 1), ZoneNodes(zn, zc - 1), zc - 1, n, y);
    }
  }

  /** Every zone in the transposed relation is one of the zones inserted. */
  lemma {:induction false} TransposedZonesInRange(zn: seq<int>, numNodes: nat, zc: nat, n: nat)
    requires NodesPerZone * zc <= |zn| && InRange(zn, numNodes) && n < numNodes
    ensures InRange(Transposed(zn, numNodes, zc)[n], zc)
  {
    var s := Transposed(zn, numNodes, zc)[n];
    forall i | 0 <= i < |s| ensures 0 <= s[i] < zc {
      assert s[i] in multiset(s);
      TransposedCount(zn, numNodes, zc, n, s[i]);
    }
  }

  // ---------------------------------------------------------------------
  // Sizes: the relation holds one entry per incidence.
  // ---------------------------------------------------------------------

  lemma {:induction false} FlatAppend(t: seq<seq<int>>, n: nat, z: int)
    requires n < |t|
    ensures |Flat(t[n := t[n] + [z]])| == |Flat(t)| + 1
  {
    var u := t[n := t[n] + [z]];
    if n == |t| - 1 {
      assert u[..|u| - 1] == t[..|t| - 1];
    } else {
      assert u[..|u| - 1] == t[..|t| - 1][n := t[n] + [z]];
      FlatAppend(t[..|t| - 1], n, z);
    }
  }

  lemma {:induction false} InsertZoneSize(t: seq<seq<int>>, nodes: seq<int>, z: int)
    requires InRange(nodes, |t|)
    ensures |Flat(InsertZone(t, nodes, z))| == |Flat(t)| + |nodes|
  {
    if |nodes| > 0 {
      InsertZoneSize(t, nodes[..|nodes| - 1], z);
      FlatAppend(InsertZone(t, nodes[..|nodes| - 1], z), nodes[|nodes| - 1], z);
    }
  }

  lemma {:induction false} FlatEmpty(numNodes: nat)
    ensures |Flat(seq(numNodes, _ => []))| == 0
  {
    if numNodes > 0 {
      FlatEmpty(numNodes - 1);
      var e: seq<seq<int>> := seq(numNodes, _ => []);
      assert e[..numNodes - 1] == seq(numNodes - 1, _ => []);
    }
  }

  /** The transposed relation of `zc` zones holds exactly their `NodesPerZone * zc` incidences. */
  lemma {:induction false} TransposedSize(zn: seq<int>, numNodes: nat, zc: nat)
    requires NodesPerZone * zc <= |zn| && InRange(zn, numNodes)
    ensures |Flat(Transposed(zn, numNodes, zc))| == NodesPerZone * zc
  {
    if zc == 0 {
      FlatEmpty(numNodes);
    } else {
      TransposedSize(zn, numNodes, zc - 1);
      InsertZoneSize(Transposed(zn, numNodes, zc - 1), ZoneNodes(zn, zc - 1), zc - 1);
    }
  }

  // ---------------------------------------------------------------------
  // Compressed rows: the begins vector cuts the flattened lists back apart.
  // ---------------------------------------------------------------------

  lemma FlatSnoc(t: seq<seq<int>>, n: nat)
    requires n < |t|
    ensures Flat(t[..n + 1]) == Flat(t[..n]) + t[n]
  {
    assert t[..n + 1][..n] == t[..n];
  }

  /** The flattening of a prefix is a prefix of the flattening. */
  lemma {:induction false} FlatPrefix(t: seq<seq<int>>, m: nat)
    requires m <= |t|
    ensures Flat(t[..m]) <= Flat(t)
  {
    if m < |t| {
      FlatPrefix(t[..|t| - 1], m);
      assert t[..|t| - 1][..m] == t[..m];
      assert t[..|t|] == t;
    } else {
      assert t[..m] == t;
    }
  }

  /**
   * With begins[n] == RowStart(t, n), the begins vector starts at 0, never
   * decreases, ends at the number of entries, and the range of row `n` is
   * exactly the list `t[n]`.
   */
  lemma CompressedRows(t: seq<seq<int>>, n: nat)
    requires n < |t|
    ensures RowStart(t, 0) == 0 && RowStart(t, |t|) == |Flat(t)|
    ensures RowStart(t, n) <= RowStart(t, n + 1) <= |Flat(t)|
    ensures Row(t, n) == t[n]
  {
    assert t[..|t|] == t;
    FlatSnoc(t, n);
    FlatPrefix(t, n + 1);
    var f := Flat(t[..n + 1]);
    assert Flat(t)[..|f|] == f;
  }

  // ---------------------------------------------------------------------
  // The two steps of the node-to-zone relation.
  // ---------------------------------------------------------------------

  /**
   * Step 1: insert every zone into the dynamic list of each of its nodes,
   * counting the insertions.
   */
  method ZonesOfNodes(zn: seq<int>, numNodes: nat, numZones: nat) returns (tmp: seq<seq<int>>, numZonesOfNode: nat)
    requires |zn| == NodesPerZone * numZones && InRange(zn, numNodes)
    ensures tmp == Transposed(zn, numNodes, numZones)
    ensures numZonesOfNode == |zn| == |Flat(tmp)|
  {
    tmp := seq(numNodes, _ => []);
    numZonesOfNode := 0;
    var z := 0;
    while z < numZones
      invariant 0 <= z <= numZones
      invariant tmp == Transposed(zn, numNodes, z)
      invariant numZonesOfNode == NodesPerZone * z
    {
      var zNodeSet := ZoneNodes(zn, z);
      var numZN := |zNodeSet|;
      var idx := 0;
      while idx < numZN
        invariant 0 <= idx <= numZN
        invariant tmp == InsertZone(Transposed(zn, numNodes, z), zNodeSet[..idx], z)
        invariant numZonesOfNode == NodesPerZone * z + idx
      {
        var nodeIdx := zNodeSet[idx];
        assert zNodeSet[..idx + 1][..idx] == zNodeSet[..idx];
        tmp := tmp[nodeIdx := tmp[nodeIdx] + [z]];
        numZonesOfNode := numZonesOfNode + 1;
        idx := idx + 1;
      }
      assert zNodeSet[..numZN] == zNodeSet;
      z := z + 1;
    }
    TransposedSize(zn, numNodes, numZones);
  }

  /**
   * Step 2: linearize the dynamic relation into a begins vector, where
   * node `n`'s row starts, and an offsets vector of `numZonesOfNode` slots,
   * filled row after row by a running count.
   */
  method Linearize(tmp: seq<seq<int>>, numZonesOfNode: nat) returns (begins: array<int>, offsets: array<int>, count: nat)
    requires |Flat(tmp)| == numZonesOfNode
    ensures fresh(begins) && fresh(offsets)
    ensures begins.Length == |tmp| + 1 && offsets.Length == numZonesOfNode
    ensures offsets[..] == Flat(tmp) && count == numZonesOfNode
    ensures forall n :: 0 <= n <= |tmp| ==> begins[n] == RowStart(tmp, n)
  {
    begins := new int[|tmp| + 1];
    offsets := new int[numZonesOfNode];
    count := 0;
    var n := 0;
    while n < |tmp|
      invariant 0 <= n <= |tmp|
      invariant count == RowStart(tmp, n) <= offsets.Length
      invariant offsets[..count] == Flat(tmp[..n])
      invariant forall i :: 0 <= i < n ==> begins[i] == RowStart(tmp, i)
    {
      FlatSnoc(tmp, n);
      FlatPrefix(tmp, n + 1);
      begins[n] := count;
      var j := 0;
      while j < |tmp[n]|
        invariant 0 <= j <= |tmp[n]|
        invariant count == RowStart(tmp, n) + j <= offsets.Length
        invariant offsets[..count] == Flat(tmp[..n]) + tmp[n][..j]
        invariant forall i :: 0 <= i <= n ==> begins[i] == RowStart(tmp, i)
      {
        offsets[count] := tmp[n][j];
        assert tmp[n][..j + 1] == tmp[n][..j] + [tmp[n][j]];
        assert offsets[..count + 1] == offsets[..count] + [offsets[count]];
        count := count + 1;
        j := j + 1;
      }
      assert tmp[n][..j] == tmp[n];
      n := n + 1;
    }
    assert tmp[..|tmp|] == tmp;
    begins[|tmp|] := count;
    assert offsets[..] == offsets[..count];
  }

  // ---------------------------------------------------------------------
  // The VTK cell records and the constant-stride begins vector.
  // ---------------------------------------------------------------------

  /** Each cell record of the file is a node count followed by the zone's nodes. */
  const CellRecord: nat := NodesPerZone + 1

  /** Every one of the first `numZones` cell records declares `NodesPerZone` nodes. */
  predicate CountsOk(cells: seq<int>, numZones: nat)
    requires CellRecord * numZones <= |cells|
  {
    forall z :: 0 <= z < numZones ==> cells[CellRecord * z] == NodesPerZone
  }

  /** The node indices of the first `zc` cell records, in order, skipping each record's count. */
  function CellNodes(cells: seq<int>, zc: nat): (zn: seq<int>)
    requires CellRecord * zc <= |cells|
    ensures |zn| == NodesPerZone * zc
  {
    if zc == 0 then []
    else CellNodes(cells, zc - 1) + cells[CellRecord * (zc - 1) + 1 .. CellRecord * zc]
  }

  /** Zone `z` of the relation read from the cells has the nodes of the `z`-th cell record. */
  lemma {:induction false} CellNodesOfZone(cells: seq<int>, zc: nat, z: nat)
    requires CellRecord * zc <= |cells| && z < zc
    ensures ZoneNodes(CellNodes(cells, zc), z) == cells[CellRecord * z + 1 .. CellRecord * (z + 1)]
  {
    var prev := CellNodes(cells, zc - 1);
    var rec := cells[CellRecord * (zc - 1) + 1 .. CellRecord * zc];
    assert CellNodes(cells, zc) == prev + rec;
    if z < zc - 1 {
      CellNodesOfZone(cells, zc - 1, z);
      assert NodesPerZone * (z + 1) <= |prev|;
      SliceOfConcat(prev, rec, NodesPerZone * z, NodesPerZone * (z + 1));
    } else {
      assert |prev| == NodesPerZone * z;
      assert (prev + rec)[|prev| .. |prev| + NodesPerZone] == rec;
    }
  }

  lemma SliceOfConcat(a: seq<int>, b: seq<int>, i: nat, j: nat)
    requires i <= j <= |a|
    ensures (a + b)[i..j] == a[i..j]
  {
    assert forall k :: 0 <= k < j - i ==> (a + b)[i..j][k] == a[i + k];
  }

  /**
   * The begins vector of a relation of constant stride over `numZones`
   * zones, for a build that stores the zone-to-node relation with explicit
   * begins: row `i` starts at `i * NodesPerZone`.
   */
  method ConstantBegins(numZones: nat) returns (beginsVec: array<int>)
    ensures fresh(beginsVec) && beginsVec.Length == numZones + 1
    ensures forall i :: 0 <= i <= numZones ==> beginsVec[i] == i * NodesPerZone
    ensures forall i :: 0 <= i < numZones ==> beginsVec[i + 1] - beginsVec[i] == NodesPerZone
    ensures beginsVec[numZones] == NodesPerZone * numZones
  {
    beginsVec := new int[numZones + 1];
    var idx := 0;
    while idx <= numZones
      invariant 0 <= idx <= numZones + 1
      invariant forall i :: 0 <= i < idx ==> beginsVec[i] == i * NodesPerZone
    {
      beginsVec[idx] := idx * NodesPerZone;
      idx := idx + 1;
    }
  }

  /**
   * A hex mesh: its node and zone sets, given by their sizes, the
   * zone-to-node relation of stride `NodesPerZone`, and the node-to-zone
   * relation in compressed-row form.
   */
  class HexMesh {
    var numNodes: nat
    var numZones: nat
    var zoneNodes: seq<int>
    var nodeZoneBegins: seq<int>
    var nodeZoneOffsets: seq<int>

    constructor ()
      ensures numNodes == 0 && numZones == 0
      ensures zoneNodes == [] && nodeZoneBegins == [] && nodeZoneOffsets == []
    {
      numNodes := 0;
      numZones := 0;
      zoneNodes := [];
      nodeZoneBegins := [];
      nodeZoneOffsets := [];
    }

    /** The number of nodes in the mesh. */
    function NumNodes(): nat
      reads this
    {
      numNodes
    }

    /** The number of zones in the mesh. */
    function NumZones(): nat
      reads this
    {
      numZones
    }

    /** The zone-to-node relation is valid: eight nodes per zone, each one a node of the mesh. */
    predicate ZoneNodeValid()
      reads this
    {
      |zoneNodes| == NodesPerZone * NumZones() && InRange(zoneNodes, NumNodes())
    }

    /** `loadNodesAndPositions`: the node set gets the size read from the file. */
    method LoadNodes(count: nat)
      modifies this
      ensures NumNodes() == count
      ensures numZones == old(numZones) && zoneNodes == old(zoneNodes)
      ensures nodeZoneBegins == old(nodeZoneBegins) && nodeZoneOffsets == old(nodeZoneOffsets)
    {
      numNodes := count;
    }

    /**
     * `loadHexToNodesRelation`: reads `numZones`, the list size and then
     * one cell record per zone. It fails when the list size is not one
     * count plus `NodesPerZone` nodes per zone, when a record declares
     * another node count, or when the relation read is not valid (a node
     * outside the node set). On success the zone set has `numZones`
     * elements, zone `z` has the nodes of the `z`-th record, and all the
     * slots of the offsets vector were filled.
     */
    method LoadHexToNodesRelation(numZonesRead: nat, listSize: int, cells: seq<int>) returns (r: Outcome<string>)
      requires CellRecord * numZonesRead <= |cells|
      modifies this
      ensures r.Pass? <==> && listSize - numZonesRead == NodesPerZone * numZonesRead
                           && CountsOk(cells, numZonesRead)
                           && InRange(CellNodes(cells, numZonesRead), old(numNodes))
      ensures r.Pass? ==> && NumZones() == numZonesRead && zoneNodes == CellNodes(cells, numZonesRead)
                          && ZoneNodeValid()
      ensures numNodes == old(numNodes)
      ensures nodeZoneBegins == old(nodeZoneBegins) && nodeZoneOffsets == old(nodeZoneOffsets)
    {
      var numNodeZoneIndices := listSize - numZonesRead;
      if numZonesRead * NodesPerZone != numNodeZoneIndices {
        return Fail("Error in reading mesh!");
      }
      numZones := numZonesRead;
      var offsetsVec := new int[numNodeZoneIndices];
      var oIt := 0;
      var pos := 0;
      var z := 0;
      while z < numZones
        invariant 0 <= z <= numZones && numZones == numZonesRead
        modifies offsetsVec
        invariant oIt == NodesPerZone * z && pos == CellRecord * z
        invariant offsetsVec[..oIt] == CellNodes(cells, z)
        invariant CountsOk(cells, z)
        invariant numNodes == old(numNodes)
        invariant nodeZoneBegins == old(nodeZoneBegins) && nodeZoneOffsets == old(nodeZoneOffsets)
      {
        var nodeCount := cells[pos];
        pos := pos + 1;
        if nodeCount != NodesPerZone {
          assert !CountsOk(cells, numZonesRead) by {
            assert cells[CellRecord * z] != NodesPerZone;
          }
          return Fail("Unsupported mesh type");
        }
        var n := 0;
        while n < NodesPerZone
          modifies offsetsVec
          invariant 0 <= n <= NodesPerZone
          invariant oIt == NodesPerZone * z + n && pos == CellRecord * z + 1 + n
          invariant offsetsVec[..oIt] == CellNodes(cells, z) + cells[CellRecord * z + 1 .. pos]
        {
          offsetsVec[oIt] := cells[pos];
          assert offsetsVec[..oIt + 1] == offsetsVec[..oIt] + [offsetsVec[oIt]];
          oIt := oIt + 1;
          pos := pos + 1;
          n := n + 1;
        }
        z := z + 1;
      }
      assert offsetsVec[..] == offsetsVec[..oIt];
      zoneNodes := offsetsVec[..];
      if !InRange(zoneNodes, numNodes) {
        return Fail("Error creating (static) relation from zones to nodes!");
      }
      return Pass;
    }

    /** The node-to-zone relation is in compressed-row form: its begins vector cuts its offsets vector into one row per node. */
    predicate RowsWellFormed()
      reads this
    {
      && |nodeZoneBegins| == numNodes + 1
      && nodeZoneBegins[0] == 0 && nodeZoneBegins[numNodes] == |nodeZoneOffsets|
      && forall i, j :: 0 <= i <= j <= numNodes ==> nodeZoneBegins[i] <= nodeZoneBegins[j]
    }

    /** The zones of node `n`: its row of the node-to-zone relation. */
    function ZonesOfNode(n: nat): seq<int>
      requires RowsWellFormed() && n < numNodes
      reads this
    {
      nodeZoneOffsets[nodeZoneBegins[n] .. nodeZoneBegins[n + 1]]
    }

    /**
     * `generateNodeZoneRelation`: transposes the zone-to-node relation into
     * the node-to-zone relation. The begins vector has one entry per node
     * plus one, starts at 0, never decreases and ends at the number of
     * incidences; the offsets vector has one slot per incidence, each a
     * zone of the mesh; node `n`'s row lists the zones having `n` among
     * their nodes, in zone order; and, counting multiplicity, zone `z` is in
     * node `n`'s row exactly as often as `n` is among the nodes of `z`.
     */
    method GenerateNodeZoneRelation()
      requires ZoneNodeValid()
      modifies this
      ensures numNodes == old(numNodes) && numZones == old(numZones) && zoneNodes == old(zoneNodes)
      ensures RowsWellFormed() && |nodeZoneOffsets| == |zoneNodes| && InRange(nodeZoneOffsets, numZones)
      ensures forall n :: 0 <= n < numNodes ==> ZonesOfNode(n) == Transposed(zoneNodes, numNodes, numZones)[n]
      ensures forall n, z :: 0 <= n < numNodes && 0 <= z < numZones ==>
                multiset(ZonesOfNode(n))[z] == multiset(ZoneNodes(zoneNodes, z))[n]
    {
      var tmpZonesOfNode, numZonesOfNode := ZonesOfNodes(zoneNodes, numNodes, numZones);
      var beginsVec, offsetsVec, count := Linearize(tmpZonesOfNode, numZonesOfNode);
      nodeZoneBegins := beginsVec[..];
      nodeZoneOffsets := offsetsVec[..];
      TransposedEntries(zoneNodes, numNodes, numZones, tmpZonesOfNode);
      CompressedRowsOf(tmpZonesOfNode, nodeZoneBegins, nodeZoneOffsets);
      TransposedCounts(zoneNodes, numNodes, numZones, tmpZonesOfNode);
    }
  }

  /** Row `n` of the flattening of `t`: the entries from where row `n` starts to where row `n + 1` starts. */
  function Row(t: seq<seq<int>>, n: nat): seq<int>
    requires n < |t|
  {
    RowStartMonotone(t, n, n + 1);
    RowStartMonotone(t, n + 1, |t|);
    assert t[..|t|] == t;
    Flat(t)[RowStart(t, n) .. RowStart(t, n + 1)]
  }

  /** The transposed relation holds one entry per incidence, each one a zone of the mesh. */
  lemma TransposedEntries(zn: seq<int>, numNodes: nat, numZones: nat, t: seq<seq<int>>)
    requires |zn| == NodesPerZone * numZones && InRange(zn, numNodes)
    requires t == Transposed(zn, numNodes, numZones)
    ensures |Flat(t)| == |zn| && InRange(Flat(t), numZones)
  {
    TransposedSize(zn, numNodes, numZones);
    forall n | 0 <= n < numNodes ensures InRange(t[n], numZones) {
      TransposedZonesInRange(zn, numNodes, numZones, n);
    }
    FlatInRange(t, numZones);
  }

  /**
   * A begins vector of row starts cuts the flattening of `t` back into its
   * lists: it starts at 0, never decreases, ends at the number of entries,
   * and row `n` is `t[n]`.
   */
  lemma CompressedRowsOf(t: seq<seq<int>>, begins: seq<int>, offsets: seq<int>)
    requires offsets == Flat(t)
    requires |begins| == |t| + 1 && forall n :: 0 <= n <= |t| ==> begins[n] == RowStart(t, n)
    ensures begins[0] == 0 && begins[|t|] == |offsets|
    ensures forall i, j :: 0 <= i <= j <= |t| ==> begins[i] <= begins[j]
    ensures forall n :: 0 <= n < |t| ==> offsets[begins[n] .. begins[n + 1]] == t[n]
  {
    BeginsEnds(t, begins, offsets);
    BeginsMonotone(t, begins);
    BeginsRows(t, begins, offsets);
  }

  lemma BeginsEnds(t: seq<seq<int>>, begins: seq<int>, offsets: seq<int>)
    requires offsets == Flat(t)
    requires |begins| == |t| + 1 && begins[0] == RowStart(t, 0) && begins[|t|] == RowStart(t, |t|)
    ensures begins[0] == 0 && begins[|t|] == |offsets|
  {
    assert t[..0] == [];
    assert t[..|t|] == t;
  }

  lemma BeginsRows(t: seq<seq<int>>, begins: seq<int>, offsets: seq<int>)
    requires offsets == Flat(t)
    requires |begins| == |t| + 1 && forall n :: 0 <= n <= |t| ==> begins[n] == RowStart(t, n)
    ensures forall n {:trigger t[n]} :: 0 <= n < |t| ==>
      0 <= begins[n] <= begins[n + 1] <= |offsets| && offsets[begins[n] .. begins[n + 1]] == t[n]
  {
    forall n {:trigger t[n]} | 0 <= n < |t|
      ensures 0 <= begins[n] <= begins[n + 1] <= |offsets| && offsets[begins[n] .. begins[n + 1]] == t[n]
    {
      RowOfBegins(t, begins, offsets, n);
    }
  }

  /** One row of a begins vector of row starts is the list it came from. */
  lemma RowOfBegins(t: seq<seq<int>>, begins: seq<int>, offsets: seq<int>, n: nat)
    requires offsets == Flat(t) && n < |t| && |begins| == |t| + 1
    requires begins[n] == RowStart(t, n) && begins[n + 1] == RowStart(t, n + 1)
    ensures 0 <= begins[n] <= begins[n + 1] <= |offsets|
    ensures offsets[begins[n] .. begins[n + 1]] == t[n]
  {
    CompressedRows(t, n);
  }

  lemma BeginsMonotone(t: seq<seq<int>>, begins: seq<int>)
    requires |begins| == |t| + 1 && forall n :: 0 <= n <= |t| ==> begins[n] == RowStart(t, n)
    ensures forall i, j :: 0 <= i <= j <= |t| ==> begins[i] <= begins[j]
  {
    forall i, j | 0 <= i <= j <= |t| ensures begins[i] <= begins[j] {
      RowStartMonotone(t, i, j);
    }
  }

  /** Counting multiplicity, zone `z` is in node `n`'s list of the transposed relation as often as `n` is a node of `z`. */
  lemma TransposedCounts(zn: seq<int>, numNodes: nat, numZones: nat, t: seq<seq<int>>)
    requires |zn| == NodesPerZone * numZones && InRange(zn, numNodes)
    requires t == Transposed(zn, numNodes, numZones)
    ensures forall n, z :: 0 <= n < numNodes && 0 <= z < numZones ==> multiset(t[n])[z] == multiset(ZoneNodes(zn, z))[n]
  {
    forall n, z | 0 <= n < numNodes && 0 <= z < numZones
      ensures multiset(t[n])[z] == multiset(ZoneNodes(zn, z))[n]
    {
      TransposedCount(zn, numNodes, numZones, n, z);
    }
  }

  /** Rows start no earlier than the rows before them. */
  lemma RowStartMonotone(t: seq<seq<int>>, i: nat, j: nat)
    requires i <= j <= |t|
    ensures RowStart(t, i) <= RowStart(t, j)
  {
    FlatPrefix(t[..j], i);
    assert t[..j][..i] == t[..i];
  }

  /** A relation whose lists all hold indices of a set flattens to indices of that set. */
  lemma {:induction false} FlatInRange(t: seq<seq<int>>, size: nat)
    requires forall n :: 0 <= n < |t| ==> InRange(t[n], size)
    ensures InRange(Flat(t), size)
  {
    if |t| > 0 {
      FlatInRange(t[..|t| - 1], size);
    }
  }
}
