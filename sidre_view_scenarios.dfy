/**
 * The View scenarios of the Sidre C interface, run against the store model:
 * each method performs the calls of one scenario on a fresh store and
 * returns what the scenario inspects, and its postcondition states the
 * values the scenario expects.
 */
module SidreViewScenarios {
  import opened Wrappers
  import opened SidreStore

  const Root: Path := []

  /**
   * Writes `values` through the data pointer of an allocated Buffer,
   * element by element from index `start`.
   */
  method Fill(ds: DataStore, id: BufferId, start: nat, values: seq<int>)
    requires ds.Valid() && id in ds.buffers && ds.buffers[id].data.Some?
    requires start + |values| <= |ds.buffers[id].data.value|
    modifies ds
    ensures ds.Valid()
    ensures
      var old_data := old(ds.buffers[id].data.value);
      ds.buffers == old(ds.buffers)[id := old(ds.buffers[id]).(data := Some(old_data[..start] + values + old_data[start + |values|..]))]
    ensures ds.nextId == old(ds.nextId) && ds.groups == old(ds.groups) && ds.views == old(ds.views)
  {
    ghost var b := ds.buffers[id];
    ghost var data := b.data.value;
    assert data[..start] + values[..0] + data[start..] == data;
    assert b.(data := Some(data)) == b;
    assert old(ds.buffers)[id := b] == old(ds.buffers);
    var i := 0;
    while i < |values|
      invariant 0 <= i <= |values|
      invariant ds.Valid()
      invariant ds.buffers == old(ds.buffers)[id := b.(data := Some(data[..start] + values[..i] + data[start + i..]))]
      invariant ds.nextId == old(ds.nextId) && ds.groups == old(ds.groups) && ds.views == old(ds.views)
    {
      ds.WriteBufferElement(id, start + i, values[i]);
      assert (data[..start] + values[..i] + data[start + i..])[start + i := values[i]]
          == data[..start] + values[..i + 1] + data[start + i + 1..];
      i := i + 1;
    }
    assert values[..i] == values;
  }

  /** Two Views allocated from type receive the Buffer ids 0 and 1, in creation order. */
  method CreateViews() returns (index0: Option<BufferId>, index1: Option<BufferId>)
    ensures index0 == Some(0) && index1 == Some(1)
  {
    var ds := new DataStore();
    var _ := ds.CreateViewAndAllocate(Root, "field0", IntId, 1);
    var _ := ds.CreateViewAndAllocate(Root, "field1", IntId, 1);
    index0 := ds.ViewBufferId(ViewKey(Root, "field0"));
    index1 := ds.ViewBufferId(ViewKey(Root, "field1"));
  }

  /**
   * A View allocated as 10 ints, filled with the squares 0, 1, 4, ...:
   * its type is int, it covers 40 bytes and it sees the squares.
   */
  method IntBufferFromView() returns (typ: Option<TypeId>, totalBytes: nat, elements: seq<int>)
    ensures typ == Some(IntId)
    ensures totalBytes == Bytes(IntId, 10) == 40
    ensures elements == seq(10, i => i * i)
  {
    var ds := new DataStore();
    var k := ViewKey(Root, "u0");
    var r := ds.CreateViewAndAllocate(Root, "u0", IntId, 10);
    var id := r.value;
    typ := ds.ViewTypeId(k);
    Fill(ds, id, 0, seq(10, i => i * i));
    totalBytes := ds.ViewTotalBytes(k);
    elements := ds.ViewElements(k);
  }

  /** `createBuffer`, `declare(INT, |values|)`, `allocate()` and writes of `values` on a fresh store. */
  method NewIntBuffer(values: seq<int>) returns (ds: DataStore, id: BufferId)
    ensures fresh(ds) && ds.Valid()
    ensures ds.buffers == map[id := Buffer(Some(Declaration(IntId, |values|)), Some(values), 0)]
    ensures ds.views == map[] && ds.groups == {Root}
  {
    ds := new DataStore();
    id := ds.CreateBuffer();
    var _ := ds.DeclareBuffer(id, IntId, |values|);
    var _ := ds.AllocateBuffer(id);
    Fill(ds, id, 0, values);
    assert Zeros(|values|)[..0] + values + Zeros(|values|)[|values|..] == values;
  }

  /**
   * `createView(name, buffer)` followed by `apply` of layout `d`: the new
   * View sees the Buffer elements the layout selects.
   */
  method ViewIntoBuffer(ds: DataStore, name: string, id: BufferId, d: Descriptor) returns (elements: seq<int>)
    requires ds.Valid() && Root in ds.groups && ds.NameFree(Root, name)
    requires id in ds.buffers && ds.buffers[id].data.Some?
    requires ds.buffers[id].decl == Some(Declaration(d.typ, |ds.buffers[id].data.value|))
    requires Extent(d) <= |ds.buffers[id].data.value|
    modifies ds
    ensures ds.Valid()
    ensures ds.buffers == old(ds.buffers)[id := old(ds.buffers[id]).(numViews := old(ds.buffers[id].numViews) + 1)]
    ensures ds.views == old(ds.views)[ViewKey(Root, name) := BufferView(id, Some(d), true)]
    ensures ds.groups == old(ds.groups) && ds.nextId == old(ds.nextId)
    ensures |elements| == d.count
    ensures forall i :: 0 <= i < d.count ==> elements[i] == ds.buffers[id].data.value[IndexOf(d, i)]
  {
    var k := ViewKey(Root, name);
    var _ := ds.CreateViewIntoBuffer(Root, name, id);
    FitsSameType(d, ds.buffers[id]);
    var applied := ds.Apply(k, d);
    elements := ds.ViewElements(k);
  }

  /**
   * One Buffer of 10 ints holding 0..9, seen through strided Views:
   * "even" (5 elements from 0, stride 2) sees 0, 2, ..., 8 and "odd"
   * (5 elements from 1, stride 2) sees 1, 3, ..., 9. The Buffer counts 2
   * Views after the first pair and 4 after the second pair.
   */
  method IntArrayMultiView() returns (totalBytes: nat, viewsAfterFirstPair: nat, viewsAfterSecondPair: nat,
                                      even: seq<int>, odd: seq<int>, even1: seq<int>, odd1: seq<int>)
    ensures totalBytes == 40
    ensures viewsAfterFirstPair == 2 && viewsAfterSecondPair == 4
    ensures even == even1 == seq(5, i => 2 * i)
    ensures odd == odd1 == seq(5, i => 2 * i + 1)
  {
    var ds, id := NewIntBuffer(seq(10, i => i));
    totalBytes := ds.BufferTotalBytesOf(id);
    even := ViewIntoBuffer(ds, "even", id, Descriptor(IntId, 5, 0, 2));
    odd := ViewIntoBuffer(ds, "odd", id, Descriptor(IntId, 5, 1, 2));
    viewsAfterFirstPair := ds.BufferNumViewsOf(id);
    even1 := ViewIntoBuffer(ds, "even1", id, Descriptor(IntId, 5, 0, 2));
    odd1 := ViewIntoBuffer(ds, "odd1", id, Descriptor(IntId, 5, 1, 2));
    viewsAfterSecondPair := ds.BufferNumViewsOf(id);
  }

  const DepthNames: seq<string> := ["depth_0", "depth_1", "depth_2", "depth_3"]

  /**
   * A Buffer of 4 * 10 ints where element i holds i / 10, and four "depth"
   * Views, the d-th covering the 10 elements from 10 * d: the Buffer counts
   * 4 Views and every element of the d-th View is d.
   */
  method IntArrayDepthView() returns (numElements: nat, numViews: nat, depths: seq<seq<int>>)
    ensures numElements == 40 && numViews == 4
    ensures |depths| == 4 && forall d, i :: 0 <= d < 4 && 0 <= i < |depths[d]| ==> depths[d][i] == d
    ensures forall d :: 0 <= d < 4 ==> |depths[d]| == 10
  {
    var depthElems := 10;
    var ds, id := NewIntBuffer(seq(4 * depthElems, i => i / depthElems));
    numElements := ds.BufferNumElementsOf(id);
    ghost var data := ds.buffers[id].data.value;
    depths := [];
    var d := 0;
    while d < 4
      invariant 0 <= d <= 4 && |depths| == d
      invariant ds.Valid()
      invariant ds.buffers.Keys == {id} && ds.buffers[id].decl == Some(Declaration(IntId, 40))
      invariant ds.buffers[id].data == Some(data) && ds.buffers[id].numViews == d
      invariant ds.groups == {Root}
      invariant ds.views.Keys == set j | 0 <= j < d :: ViewKey(Root, DepthNames[j])
      invariant forall j, i :: 0 <= j < d && 0 <= i < |depths[j]| ==> depths[j][i] == j
      invariant forall j :: 0 <= j < d ==> |depths[j]| == 10
    {
      assert ViewKey(Root, DepthNames[d]) !in ds.views;
      var elements := ViewIntoBuffer(ds, DepthNames[d], id, Descriptor(IntId, depthElems, d * depthElems, 1));
      forall i | 0 <= i < |elements| ensures elements[i] == d {
        DepthIndex(d, i);
      }
      depths := depths + [elements];
      d := d + 1;
    }
    numViews := ds.BufferNumViewsOf(id);
  }

  /** Element i of the d-th depth View is Buffer element 10 * d + i, which holds d. */
  lemma DepthIndex(d: nat, i: nat)
    requires i < 10
    ensures (d * 10 + i * 1) / 10 == d
  {
  }

  /** `createViewAndAllocate(name, t, |values|)` in Group `g`, then writes of `values` through its data pointer. */
  method AllocatedView(ds: DataStore, g: Path, name: string, t: TypeId, values: seq<int>) returns (id: BufferId)
    requires ds.Valid() && g in ds.groups && ds.NameFree(g, name)
    modifies ds
    ensures ds.Valid()
    ensures id == old(ds.nextId) && ds.nextId == id + 1
    ensures ds.buffers == old(ds.buffers)[id := Buffer(Some(Declaration(t, |values|)), Some(values), 1)]
    ensures ds.views == old(ds.views)[ViewKey(g, name) := BufferView(id, Some(Compact(t, |values|)), true)]
    ensures ds.groups == old(ds.groups)
  {
    var r := ds.CreateViewAndAllocate(g, name, t, |values|);
    id := r.value;
    Fill(ds, id, 0, values);
    assert Zeros(|values|)[..0] + values + Zeros(|values|)[|values|..] == values;
  }

  /**
   * A Group "r_old" holding a View of 40 ints whose four sections of 10
   * hold 1, 2, 3 and 4; the copy into larger sections is not part of the
   * scenario as built.
   */
  method IntArrayMultiViewResize() returns (groupCreated: Outcome<StoreError>, elements: seq<int>)
    ensures groupCreated == Pass
    ensures |elements| == 40 && forall i :: 0 <= i < 40 ==> elements[i] == i / 10 + 1
  {
    var ds := new DataStore();
    groupCreated := ds.CreateGroup(Root, "r_old");
    var rOld := Root + ["r_old"];
    assert ds.groups == {Root, rOld} && ds.views == map[];
    assert |rOld + ["base_data"]| == |Root| + 2;
    var _ := AllocatedView(ds, rOld, "base_data", IntId, seq(40, i => i / 10 + 1));
    elements := ds.ViewElements(ViewKey(rOld, "base_data"));
  }

  /**
   * `reallocate(n)` of a View that is the only View of its Buffer, followed
   * by reads of its elements and its size.
   */
  method ReallocateAndRead(ds: DataStore, k: ViewKey, n: nat) returns (elements: seq<int>, totalBytes: nat)
    requires ds.Valid() && k in ds.views && ds.views[k].BufferView? && ds.views[k].desc.Some?
    requires ds.AttachedBuffer(k).numViews == 1 && ds.AttachedBuffer(k).data.Some?
    modifies ds
    ensures ds.Valid()
    ensures
      var id := old(ds.views[k].buffer);
      var t := old(ds.views[k].desc.value.typ);
      var data := Resized(old(ds.AttachedBuffer(k)).data.value, n);
      && elements == data
      && totalBytes == Bytes(t, n)
      && ds.buffers == old(ds.buffers)[id := Buffer(Some(Declaration(t, n)), Some(data), 1)]
      && ds.views == old(ds.views)[k := BufferView(id, Some(Compact(t, n)), true)]
    ensures ds.groups == old(ds.groups) && ds.nextId == old(ds.nextId)
  {
    var _ := ds.Reallocate(k, n);
    elements := ds.ViewElements(k);
    totalBytes := ds.ViewTotalBytes(k);
  }

  /**
   * Writes of `values` from index `start` through the data pointer of a
   * View applied compactly to all of its Buffer, followed by a read of
   * the View's elements and its size.
   */
  method FillAndRead(ds: DataStore, k: ViewKey, id: BufferId, t: TypeId, n: nat, start: nat, values: seq<int>)
    returns (elements: seq<int>, totalBytes: nat)
    requires ds.Valid() && k in ds.views && ds.views[k] == BufferView(id, Some(Compact(t, n)), true)
    requires id in ds.buffers && ds.buffers[id].decl == Some(Declaration(t, n)) && ds.buffers[id].data.Some?
    requires |ds.buffers[id].data.value| == n && start + |values| <= n
    modifies ds
    ensures ds.Valid()
    ensures
      var data := old(ds.buffers[id].data.value);
      && elements == data[..start] + values + data[start + |values|..]
      && ds.buffers == old(ds.buffers)[id := old(ds.buffers[id]).(data := Some(elements))]
    ensures totalBytes == Bytes(t, n)
    ensures ds.nextId == old(ds.nextId) && ds.groups == old(ds.groups) && ds.views == old(ds.views)
  {
    Fill(ds, id, start, values);
    elements := ds.ViewElements(k);
    totalBytes := ds.ViewTotalBytes(k);
  }

  /**
   * Reallocation of a float View from 5 to 10 elements and of an int View
   * from 5 to 15: the written prefix survives (the store starts the new
   * elements at zero); after the writes of 10 and -10 at 5..9 and of -15
   * at 10..14 the Views hold 5 x 5, 5 x 10 and -5, -10, -15 in runs of
   * five, and the sizes have grown from 20 bytes each to 40 and 60 bytes.
   */
  method IntArrayRealloc() returns (bytesBefore1: nat, bytesBefore2: nat, after1: seq<int>, after2: seq<int>,
                                    final1: seq<int>, final2: seq<int>, bytesAfter1: nat, bytesAfter2: nat)
    ensures bytesBefore1 == 20 && bytesBefore2 == 20
    ensures |after1| == 10 && forall i :: 0 <= i < 10 ==> after1[i] == (if i < 5 then 5 else 0)
    ensures |after2| == 15 && forall i :: 0 <= i < 15 ==> after2[i] == (if i < 5 then -5 else 0)
    ensures |final1| == 10 && forall i :: 0 <= i < 10 ==> final1[i] == (if i < 5 then 5 else 10)
    ensures |final2| == 15 && forall i :: 0 <= i < 15 ==> final2[i] == (if i < 5 then -5 else if i < 10 then -10 else -15)
    ensures bytesAfter1 == 40 && bytesAfter2 == 60
  {
    var ds := new DataStore();
    var k1, k2 := ViewKey(Root, "a1"), ViewKey(Root, "a2");
    var id1 := AllocatedView(ds, Root, "a1", FloatId, seq(5, _ => 5));
    var id2 := AllocatedView(ds, Root, "a2", IntId, seq(5, _ => -5));
    bytesBefore1 := ds.ViewTotalBytes(k1);
    bytesBefore2 := ds.ViewTotalBytes(k2);
    var bytes1, bytes2, mid2;
    after1, bytes1 := ReallocateAndRead(ds, k1, 10);
    after2, bytes2 := ReallocateAndRead(ds, k2, 15);
    final1, bytesAfter1 := FillAndRead(ds, k1, id1, FloatId, 10, 5, seq(5, _ => 10));
    mid2, bytes2 := FillAndRead(ds, k2, id2, IntId, 15, 5, seq(5, _ => -10));
    final2, bytesAfter2 := FillAndRead(ds, k2, id2, IntId, 15, 10, seq(5, _ => -15));
  }

  /**
   * An opaque View over a caller pointer: the store holds no Buffer, the
   * View is opaque, and it hands back the pointer it was given.
   */
  method SimpleOpaque(src: Address) returns (numBuffers: nat, isOpaque: bool, pointer: Option<Address>)
    ensures numBuffers == 0 && isOpaque
    ensures pointer == Some(src)
  {
    var ds := new DataStore();
    var k := ViewKey(Root, "my_opaque");
    var _ := ds.CreateOpaqueView(Root, "my_opaque", src);
    numBuffers := ds.NumBuffers();
    isOpaque := k in ds.views && ds.views[k].OpaqueView?;
    pointer := ds.GetOpaque(k);
  }
}
