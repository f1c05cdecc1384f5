/**
 * The MFEM data collection's use of the Sidre store: get-or-create of
 * Views and Groups, the named Buffers that hold mesh and field data, the
 * Blueprint coordinate set with its interleaved coordinate Views, the
 * scalar and vector field Views into named Buffers, and the mesh dimension
 * read back from which coordinate Views exist.
 */
module MfemCollection {
  import opened Wrappers
  import opened Decimal
  import opened SidreStore
  import opened MfemLayout

  /** The name `x<d>` of the View of component `d` of a vector field. */
  function ComponentName(d: nat): string
  {
    "x" + NatToString(d)
  }

  lemma ComponentNameInjective(d1: nat, d2: nat)
    ensures ComponentName(d1) == ComponentName(d2) <==> d1 == d2
  {
    NatToStringInjective(d1, d2);
    if ComponentName(d1) == ComponentName(d2) {
      assert NatToString(d1) == ComponentName(d1)[1..];
      assert NatToString(d2) == ComponentName(d2)[1..];
    }
  }

  class DataCollection {
    /** The store holding the collection's data. */
    const store: DataStore
    /** The Blueprint Group of the mesh. */
    const bp: Path
    /** The Group of named Buffers, one View per Buffer. */
    const namedBuffers: Path

    ghost predicate Valid()
      reads store
    {
      store.Valid() && bp in store.groups && namedBuffers in store.groups
    }

    constructor (store: DataStore, bp: Path, namedBuffers: Path)
      requires store.Valid() && bp in store.groups && namedBuffers in store.groups
      ensures Valid()
      ensures this.store == store && this.bp == bp && this.namedBuffers == namedBuffers
    {
      this.store := store;
      this.bp := bp;
      this.namedBuffers := namedBuffers;
    }

    /**
     * `alloc_view(grp, name)`: the View `name` of Group `g`, created empty
     * when it does not exist; an existing View is returned as it is.
     */
    method AllocView(g: Path, name: string)
      requires Valid() && g in store.groups && g + [name] !in store.groups
      modifies store
      ensures Valid()
      ensures ViewKey(g, name) in store.views
      ensures store.views == if ViewKey(g, name) in old(store.views) then old(store.views)
                             else old(store.views)[ViewKey(g, name) := EmptyView(None)]
      ensures store.buffers == old(store.buffers) && store.nextId == old(store.nextId) && store.groups == old(store.groups)
    {
      if ViewKey(g, name) !in store.views {
        var _ := store.CreateView(g, name, None);
      }
    }

    /**
     * `alloc_view(grp, name, dtype)`: the View `name` of Group `g`, created
     * with description `d` when it does not exist; an existing View must
     * already have that description.
     */
    method AllocViewTyped(g: Path, name: string, d: Descriptor)
      requires Valid() && g in store.groups && g + [name] !in store.groups
      requires ViewKey(g, name) in store.views ==>
                 IsDescribed(store.views[ViewKey(g, name)]) && store.views[ViewKey(g, name)].desc == Some(d)
      modifies store
      ensures Valid()
      ensures ViewKey(g, name) in store.views && IsDescribed(store.views[ViewKey(g, name)])
      ensures store.views[ViewKey(g, name)].desc == Some(d)
      ensures store.views == if ViewKey(g, name) in old(store.views) then old(store.views)
                             else old(store.views)[ViewKey(g, name) := EmptyView(Some(d))]
      ensures store.buffers == old(store.buffers) && store.nextId == old(store.nextId) && store.groups == old(store.groups)
    {
      if ViewKey(g, name) !in store.views {
        var _ := store.CreateView(g, name, Some(d));
      }
    }

    /**
     * `alloc_group(grp, name)`: the child Group `name` of `g`, created when
     * it does not exist; a second call adds nothing.
     */
    method AllocGroup(g: Path, name: string)
      requires Valid() && g in store.groups && ViewKey(g, name) !in store.views
      modifies store
      ensures Valid()
      ensures store.groups == old(store.groups) + {g + [name]}
      ensures store.buffers == old(store.buffers) && store.nextId == old(store.nextId) && store.views == old(store.views)
    {
      if g + [name] !in store.groups {
        var _ := store.CreateGroup(g, name);
      }
    }

    /**
     * The named-buffers Group holds a View of `name` only as a View of the
     * Buffer it allocated, laid out from element 0 without gaps.
     */
    predicate NamedBufferShape(name: string)
      reads store
    {
      var k := ViewKey(namedBuffers, name);
      k in store.views ==>
        && store.views[k].BufferView?
        && (store.views[k].desc.Some? ==> store.views[k].desc.value.offset == 0 && store.views[k].desc.value.stride == 1)
    }

    /** What `AllocNamedBuffer(name, _, t)` demands: room for the View, and an existing one of type `t`. */
    predicate NamedBufferAllocatable(name: string, t: TypeId)
      reads store
    {
      && namedBuffers + [name] !in store.groups
      && NamedBufferShape(name)
      && (ViewKey(namedBuffers, name) in store.views ==> store.ViewTypeId(ViewKey(namedBuffers, name)) == Some(t))
    }

    /** The named View is applied and already holds `n` elements, so it is reused. */
    predicate NamedBufferReusable(name: string, n: nat)
      reads store
    {
      var k := ViewKey(namedBuffers, name);
      k in store.views && IsApplied(store.views[k]) && store.ViewNumElements(k) >= n
    }

    /**
     * `AllocNamedBuffer(name, sz, type)`: a negative size counts as 0. An
     * applied named View of at least that many elements is reused
     * unchanged; otherwise the View is destroyed with its data (if it
     * exists) and created again with a new Buffer of exactly that many
     * elements. Either way the named View is applied to a Buffer of at least
     * that size.
     */
    method AllocNamedBuffer(name: string, sz: int, t: TypeId) returns (id: BufferId)
      requires Valid() && NamedBufferAllocatable(name, t)
      modifies store
      ensures Valid() && NamedBufferAllocatable(name, t)
      ensures var k := ViewKey(namedBuffers, name);
        var n := if sz < 0 then 0 else sz;
        && k in store.views && store.views[k].BufferView? && store.views[k].buffer == id && store.views[k].applied
        && store.ViewTypeId(k) == Some(t) && store.ViewNumElements(k) >= n
        && id in store.buffers && store.buffers[id].data.Some? && Bytes(t, n) <= BufferBytes(store.buffers[id])
      ensures var k := ViewKey(namedBuffers, name);
        var n := if sz < 0 then 0 else sz;
        if old(NamedBufferReusable(name, n)) then
          store.views == old(store.views) && store.buffers == old(store.buffers) && store.nextId == old(store.nextId)
        else
          && id == old(store.nextId) && store.nextId == id + 1
          && store.views == old(store.views)[k := BufferView(id, Some(Compact(t, n)), true)]
          && store.buffers == (if k in old(store.views) then BuffersAfterDestroy(old(store.buffers), old(store.views)[k])
                               else old(store.buffers))[id := Buffer(Some(Declaration(t, n)), Some(Zeros(n)), 1)]
      ensures store.groups == old(store.groups)
    {
      var n := if sz < 0 then 0 else sz;
      var k := ViewKey(namedBuffers, name);
      if k !in store.views {
        var r := store.CreateViewAndAllocate(namedBuffers, name, t, n);
        id := r.value;
      } else if !IsApplied(store.views[k]) || store.ViewNumElements(k) < n {
        var _ := store.DestroyViewAndData(k);
        var r := store.CreateViewAndAllocate(namedBuffers, name, t, n);
        id := r.value;
      } else {
        id := store.views[k].buffer;
        var b := store.AttachedBuffer(k);
      }
    }

    /** The Group `coordsets/coords` of the Blueprint. */
    function CoordsGroup(): Path
    {
      bp + ["coordsets", "coords"]
    }

    /** The Group `coordsets/coords/values` of the Blueprint. */
    function CoordValuesGroup(): Path
    {
      bp + ["coordsets", "coords", "values"]
    }

    /** The View `coordsets/coords/values/<x, y or z>` of coordinate `c`. */
    function CoordKey(c: nat): ViewKey
      requires c < NumCoords
    {
      ViewKey(CoordValuesGroup(), CoordName(c))
    }

    /**
     * The mesh dimension `reconstructMesh` reads back: 3 when the z View of
     * the coordinate set exists, else 2 when the y View does, else 1.
     */
    function ReconstructedDimension(): (dim: nat)
      reads store
      ensures 1 <= dim <= NumCoords
      ensures dim == 3 <==> CoordKey(2) in store.views
      ensures dim == 2 <==> CoordKey(2) !in store.views && CoordKey(1) in store.views
    {
      if ViewKey(bp + ["coordsets", "coords", "values"], "z") in store.views then 3
      else if ViewKey(bp + ["coordsets", "coords", "values"], "y") in store.views then 2
      else 1
    }

    /**
     * The Blueprint children a mesh without a Blueprint gets: the Groups
     * `state`, `coordsets`, `topologies` and `fields`. A Blueprint Group
     * with no Views and no Groups, the case `SetMesh` passes as `!hasBP`,
     * has all four names free.
     */
    predicate StubsCreatable()
      reads store
    {
      && store.NameFree(bp, "state") && store.NameFree(bp, "coordsets")
      && store.NameFree(bp, "topologies") && store.NameFree(bp, "fields")
    }

    /** `createMeshBlueprintStubs`: the four Blueprint Groups, unless the Blueprint is already there. */
    method CreateMeshBlueprintStubs(hasBP: bool)
      requires Valid() && (!hasBP ==> StubsCreatable())
      modifies store
      ensures Valid()
      ensures store.groups == if hasBP then old(store.groups)
                              else old(store.groups) + {bp + ["state"], bp + ["coordsets"], bp + ["topologies"], bp + ["fields"]}
      ensures store.buffers == old(store.buffers) && store.nextId == old(store.nextId) && store.views == old(store.views)
    {
      if !hasBP {
        AppendInjective(bp, "state", bp, "coordsets");
        AppendInjective(bp, "state", bp, "topologies");
        AppendInjective(bp, "state", bp, "fields");
        AppendInjective(bp, "coordsets", bp, "topologies");
        AppendInjective(bp, "coordsets", bp, "fields");
        AppendInjective(bp, "topologies", bp, "fields");
        var _ := store.CreateGroup(bp, "state");
        var _ := store.CreateGroup(bp, "coordsets");
        var _ := store.CreateGroup(bp, "topologies");
        var _ := store.CreateGroup(bp, "fields");
      }
    }

    /**
     * The start of the coordinate set: `createViewString` on the path
     * `coordsets/coords/type` finds or creates the Groups `coordsets` and
     * `coords` along it, then adds the string View `type` = "explicit". The
     * Group `coordsets` may already exist, as the Blueprint stubs leave it.
     */
    method CreateCoordsetType()
      requires Valid() && CoordsGroup() !in store.groups
      requires ViewKey(bp, "coordsets") !in store.views && ViewKey(bp + ["coordsets"], "coords") !in store.views
      modifies store
      ensures Valid()
      ensures store.groups == old(store.groups) + {bp + ["coordsets"], CoordsGroup()}
      ensures store.views == old(store.views)[ViewKey(CoordsGroup(), "type") := StringView("explicit")]
      ensures store.buffers == old(store.buffers) && store.nextId == old(store.nextId)
    {
      var rel := ["coordsets", "coords"];
      assert bp + rel[..0] == bp && bp + rel[..1] == bp + ["coordsets"] && bp + rel[..2] == CoordsGroup();
      FreshGroupEmpty(store.buffers, store.nextId, store.groups, store.views, CoordsGroup(), "type");
      forall i | 0 <= i < |rel|
        ensures ViewKey(bp + rel[..i], rel[i]) !in store.views
      {
        if i == 0 {
          assert ViewKey(bp + rel[..i], rel[i]) == ViewKey(bp, "coordsets");
        } else {
          assert ViewKey(bp + rel[..i], rel[i]) == ViewKey(bp + ["coordsets"], "coords");
        }
      }
      var r := store.MakeGroupPath(bp, rel);
      assert r.Pass?;
      assert bp + rel[..1] in store.groups && bp + rel[..2] in store.groups;
      forall p | p in store.groups
        ensures p in old(store.groups) || p == bp + ["coordsets"] || p == CoordsGroup()
      {
        if p !in old(store.groups) {
          assert p in store.groups - old(store.groups);
          var i :| 0 < i <= |rel| && p == bp + rel[..i];
        }
      }
      assert store.groups == old(store.groups) + {bp + ["coordsets"], CoordsGroup()};
      var _ := store.CreateViewString(CoordsGroup(), "type", "explicit");
    }

    /**
     * The Group `coordsets/coords/values` and, for each coordinate below the
     * mesh dimension, its View described by the interleaved layout.
     */
    method CreateCoordViews(dim: nat, numVertices: nat)
      requires Valid() && 1 <= dim <= NumCoords
      requires CoordsGroup() in store.groups && CoordValuesGroup() !in store.groups
      requires ViewKey(CoordsGroup(), "values") !in store.views
      modifies store
      ensures Valid()
      ensures store.groups == old(store.groups) + {CoordValuesGroup()}
      ensures forall c :: 0 <= c < NumCoords ==> (CoordKey(c) in store.views <==> c < dim)
      ensures forall c :: 0 <= c < dim ==> store.views[CoordKey(c)] == EmptyView(Some(CoordDescriptor(c, numVertices)))
      ensures forall k: ViewKey :: k.group != CoordValuesGroup() ==>
                (k in store.views <==> k in old(store.views)) && (k in store.views ==> store.views[k] == old(store.views)[k])
      ensures store.buffers == old(store.buffers) && store.nextId == old(store.nextId)
    {
      var values := CoordValuesGroup();
      assert CoordsGroup() + ["values"] == values;
      FreshGroupEmpty(store.buffers, store.nextId, store.groups, store.views, values, "x");
      FreshGroupEmpty(store.buffers, store.nextId, store.groups, store.views, values, "y");
      FreshGroupEmpty(store.buffers, store.nextId, store.groups, store.views, values, "z");
      var _ := store.CreateGroup(CoordsGroup(), "values");
      var _ := store.CreateView(values, "x", Some(CoordDescriptor(0, numVertices)));
      if dim >= 2 {
        var _ := store.CreateView(values, "y", Some(CoordDescriptor(1, numVertices)));
      }
      if dim >= 3 {
        var _ := store.CreateView(values, "z", Some(CoordDescriptor(2, numVertices)));
      }
    }

    /** Attaches the coordinate Views below the mesh dimension to the vertex Buffer `id`. */
    method AttachCoordViews(dim: nat, numVertices: nat, id: BufferId)
      requires Valid() && 1 <= dim <= NumCoords
      requires forall c :: 0 <= c < dim ==>
                 CoordKey(c) in store.views && store.views[CoordKey(c)] == EmptyView(Some(CoordDescriptor(c, numVertices)))
      requires id in store.buffers && store.buffers[id].data.Some?
      requires Bytes(DoubleId, NumCoords * numVertices) <= BufferBytes(store.buffers[id])
      modifies store
      ensures Valid()
      ensures store.views.Keys == old(store.views.Keys)
      ensures forall c :: 0 <= c < dim ==> store.views[CoordKey(c)] == BufferView(id, Some(CoordDescriptor(c, numVertices)), true)
      ensures forall k :: k in store.views && k.group != CoordValuesGroup() ==> store.views[k] == old(store.views)[k]
      ensures store.buffers == old(store.buffers)[id := old(store.buffers)[id].(numViews := old(store.buffers)[id].numViews + dim)]
      ensures store.groups == old(store.groups) && store.nextId == old(store.nextId)
    {
      var _ := store.AttachBuffer(CoordKey(0), id);
      if dim >= 2 {
        var _ := store.AttachBuffer(CoordKey(1), id);
      }
      if dim >= 3 {
        var _ := store.AttachBuffer(CoordKey(2), id);
      }
    }

    /** Binds the coordinate Views below the mesh dimension to the caller's vertex array. */
    method SetExternalCoords(dim: nat, numVertices: nat, vertices: Address)
      requires Valid() && 1 <= dim <= NumCoords
      requires forall c :: 0 <= c < dim ==>
                 CoordKey(c) in store.views && store.views[CoordKey(c)] == EmptyView(Some(CoordDescriptor(c, numVertices)))
      modifies store
      ensures Valid()
      ensures store.views.Keys == old(store.views.Keys)
      ensures forall c :: 0 <= c < dim ==> store.views[CoordKey(c)] == ExternalView(vertices, Some(CoordDescriptor(c, numVertices)))
      ensures forall k :: k in store.views && k.group != CoordValuesGroup() ==> store.views[k] == old(store.views)[k]
      ensures store.buffers == old(store.buffers) && store.groups == old(store.groups) && store.nextId == old(store.nextId)
    {
      var _ := store.SetExternalDataPtr(CoordKey(0), None, vertices);
      if dim >= 2 {
        var _ := store.SetExternalDataPtr(CoordKey(1), None, vertices);
      }
      if dim >= 3 {
        var _ := store.SetExternalDataPtr(CoordKey(2), None, vertices);
      }
    }

    /** What creating the coordinate set demands of the store. */
    predicate CoordsetCreatable(ownsData: bool)
      reads store
    {
      && CoordsGroup() !in store.groups
      && ViewKey(bp, "coordsets") !in store.views && ViewKey(bp + ["coordsets"], "coords") !in store.views
      && (ownsData ==> NamedBufferAllocatable("vertex_coords", DoubleId) && namedBuffers != CoordValuesGroup())
    }

    /**
     * `createMeshBlueprintCoordset`: unless the Blueprint is already there,
     * the explicit coordinate set of a mesh of dimension `dim` with
     * `numVertices` vertices: one View per coordinate below the dimension,
     * coordinate c at element c with stride 3. When the collection owns the
     * mesh data the Views share the named Buffer "vertex_coords" of at least
     * 3 * numVertices doubles, otherwise they all bind the mesh's vertex
     * array. The dimension read back from the Views is `dim`.
     */
    method CreateMeshBlueprintCoordset(hasBP: bool, dim: nat, numVertices: nat, ownsData: bool, vertices: Address)
      returns (coordBuffer: Option<BufferId>)
      requires Valid() && 1 <= dim <= NumCoords
      requires !hasBP ==> CoordsetCreatable(ownsData)
      modifies store
      ensures Valid()
      ensures hasBP ==> && coordBuffer == None
                        && store.views == old(store.views) && store.buffers == old(store.buffers)
                        && store.groups == old(store.groups) && store.nextId == old(store.nextId)
      ensures !hasBP ==>
        && store.groups == old(store.groups) + {bp + ["coordsets"], CoordsGroup(), CoordValuesGroup()}
        && ViewKey(CoordsGroup(), "type") in store.views
        && store.views[ViewKey(CoordsGroup(), "type")] == StringView("explicit")
        && (forall c :: 0 <= c < NumCoords ==> (CoordKey(c) in store.views <==> c < dim))
        && (coordBuffer.Some? <==> ownsData)
        && (forall c :: 0 <= c < dim ==>
              store.views[CoordKey(c)] ==
                if ownsData then BufferView(coordBuffer.value, Some(CoordDescriptor(c, numVertices)), true)
                else ExternalView(vertices, Some(CoordDescriptor(c, numVertices))))
        && ReconstructedDimension() == dim
      ensures !hasBP && ownsData ==>
        var k := ViewKey(namedBuffers, "vertex_coords");
        && k in store.views && store.views[k].BufferView? && store.views[k].buffer == coordBuffer.value
        && store.ViewNumElements(k) >= NumCoords * numVertices
    {
      if hasBP {
        return None;
      }
      var cs := bp + ["coordsets"];
      assert CoordsGroup() == cs + ["coords"] && CoordValuesGroup() == CoordsGroup() + ["values"];
      FreshGroupEmpty(store.buffers, store.nextId, store.groups, store.views, CoordsGroup(), "values");
      CreateCoordsetType();
      CreateCoordViews(dim, numVertices);
      if ownsData {
        AppendInjective(namedBuffers, "vertex_coords", bp, "coordsets");
        AppendInjective(namedBuffers, "vertex_coords", cs, "coords");
        AppendInjective(namedBuffers, "vertex_coords", CoordsGroup(), "values");
        var id := AllocNamedBuffer("vertex_coords", NumCoords * numVertices, DoubleId);
        AttachCoordViews(dim, numVertices, id);
        coordBuffer := Some(id);
      } else {
        SetExternalCoords(dim, numVertices, vertices);
        coordBuffer := None;
      }
    }

    /**
     * The Blueprint part of `SetMesh`: the stubs, then the coordinate set,
     * on the stubbed Group `coordsets`. The state Views created between the
     * two touch only the Group `state` and are not part of this model.
     */
    method SetMeshBlueprint(hasBP: bool, dim: nat, numVertices: nat, ownsData: bool, vertices: Address)
      returns (coordBuffer: Option<BufferId>)
      requires Valid() && 1 <= dim <= NumCoords
      requires !hasBP ==> StubsCreatable()
      requires !hasBP && ownsData ==> NamedBufferAllocatable("vertex_coords", DoubleId) && namedBuffers != CoordValuesGroup()
      modifies store
      ensures Valid()
      ensures hasBP ==> coordBuffer == None && store.views == old(store.views) && store.groups == old(store.groups)
      ensures !hasBP ==>
        && store.groups == old(store.groups) + {bp + ["state"], bp + ["coordsets"], bp + ["topologies"], bp + ["fields"],
                                                CoordsGroup(), CoordValuesGroup()}
        && ViewKey(CoordsGroup(), "type") in store.views
        && store.views[ViewKey(CoordsGroup(), "type")] == StringView("explicit")
        && (forall c :: 0 <= c < NumCoords ==> (CoordKey(c) in store.views <==> c < dim))
        && (coordBuffer.Some? <==> ownsData)
        && ReconstructedDimension() == dim
    {
      if !hasBP {
        var cs := bp + ["coordsets"];
        assert CoordsGroup() == cs + ["coords"];
        FreshGroupEmpty(store.buffers, store.nextId, store.groups, store.views, cs, "coords");
        AppendInjective(namedBuffers, "vertex_coords", bp, "state");
        AppendInjective(namedBuffers, "vertex_coords", bp, "coordsets");
        AppendInjective(namedBuffers, "vertex_coords", bp, "topologies");
        AppendInjective(namedBuffers, "vertex_coords", bp, "fields");
      }
      CreateMeshBlueprintStubs(hasBP);
      coordBuffer := CreateMeshBlueprintCoordset(hasBP, dim, numVertices, ownsData, vertices);
    }

    /** The Group `fields/<name>` of a field in the Blueprint. */
    function FieldGroup(fieldName: string): Path
    {
      bp + ["fields", fieldName]
    }

    /**
     * What the scalar and vector fields demand of a named Buffer the data
     * was loaded into: an applied View of at least `n` doubles from element 0.
     */
    predicate LoadedFieldBuffer(name: string, n: nat)
      reads store
    {
      var k := ViewKey(namedBuffers, name);
      k in store.views ==>
        && store.views[k].BufferView? && store.views[k].applied && store.views[k].desc.Some?
        && store.views[k].desc.value.typ == DoubleId && store.views[k].desc.value.offset == 0
        && store.views[k].desc.value.stride == 1 && store.views[k].desc.value.count >= n
    }

    /**
     * The second half of `addScalarBasedGridFunction`: the field's View
     * `values` is got or created; when the named Buffer's View exists, an
     * empty `values` is attached to its Buffer with `numDofs` doubles from
     * element `offset`; otherwise `values` is bound to the grid function's
     * data. Only `values` and the attached Buffer's View count change.
     */
    method BindScalarValues(fieldName: string, numDofs: nat, gfData: Option<Address>, bufferName: string, offset: nat)
      requires Valid() && FieldGroup(fieldName) in store.groups && FieldGroup(fieldName) + ["values"] !in store.groups
      requires FieldGroup(fieldName) != namedBuffers
      requires LoadedFieldBuffer(bufferName, offset + numDofs)
      requires ViewKey(namedBuffers, bufferName) !in store.views ==> gfData.Some?
      modifies store
      ensures Valid()
      ensures var vk := ViewKey(FieldGroup(fieldName), "values");
        var nk := ViewKey(namedBuffers, bufferName);
        var wasEmpty := vk !in old(store.views) || old(store.views)[vk].EmptyView?;
        && vk in store.views && vk != nk
        && store.views == old(store.views)[vk := store.views[vk]]
        && (nk in store.views ==> store.views[nk].BufferView? && store.views[nk].buffer in old(store.buffers))
        && (nk in store.views && wasEmpty ==>
              && store.views[vk] == BufferView(store.views[nk].buffer, Some(Descriptor(DoubleId, numDofs, offset, 1)), true)
              && store.buffers == old(store.buffers)[store.views[nk].buffer :=
                   old(store.buffers)[store.views[nk].buffer].(numViews := old(store.buffers)[store.views[nk].buffer].numViews + 1)])
        && (nk !in store.views && (wasEmpty || old(store.views)[vk].ExternalView?) ==>
              store.views[vk] == ExternalView(gfData.value, Some(Compact(DoubleId, numDofs))))
        && (!wasEmpty && (nk in store.views || !old(store.views)[vk].ExternalView?) ==>
              store.views[vk] == old(store.views)[vk])
        && (!(nk in store.views && wasEmpty) ==> store.buffers == old(store.buffers))
      ensures store.groups == old(store.groups) && store.nextId == old(store.nextId)
    {
      var vk := ViewKey(FieldGroup(fieldName), "values");
      var nk := ViewKey(namedBuffers, bufferName);
      assert vk != nk;
      AllocView(FieldGroup(fieldName), "values");
      if nk in store.views {
        var id := store.views[nk].buffer;
        var b := store.AttachedBuffer(nk);
        if store.views[vk].EmptyView? {
          var _ := store.AttachBuffer(vk, id);
          var _ := store.Apply(vk, Descriptor(DoubleId, numDofs, offset, 1));
        }
      } else {
        var _ := store.SetExternalDataPtr(vk, Some(Compact(DoubleId, numDofs)), gfData.value);
      }
    }

    /**
     * `addScalarBasedGridFunction`: a grid function without data of its own
     * gets the named Buffer `bufferName` of `offset + numDofs` doubles. The
     * field's View `values` is then, when a named Buffer exists, attached to
     * it with `numDofs` doubles from element `offset` (if the View was
     * empty), and otherwise bound to the grid function's data. No other
     * View changes, and only the named Buffers old and new change.
     */
    method AddScalarBasedGridFunction(fieldName: string, numDofs: nat, gfData: Option<Address>,
                                      bufferName: string, offset: nat)
      requires Valid() && FieldGroup(fieldName) in store.groups && FieldGroup(fieldName) + ["values"] !in store.groups
      requires FieldGroup(fieldName) != namedBuffers
      requires gfData.None? ==> NamedBufferAllocatable(bufferName, DoubleId)
      requires gfData.Some? ==> LoadedFieldBuffer(bufferName, offset + numDofs)
      modifies store
      ensures Valid()
      ensures ViewKey(FieldGroup(fieldName), "values") in store.views
      ensures var vk := ViewKey(FieldGroup(fieldName), "values");
        var nk := ViewKey(namedBuffers, bufferName);
        var wasEmpty := vk !in old(store.views) || old(store.views)[vk].EmptyView?;
        && (nk in store.views <==> (gfData.None? || nk in old(store.views)))
        && (nk in store.views && wasEmpty ==>
              && store.views[nk].BufferView?
              && store.views[vk] == BufferView(store.views[nk].buffer, Some(Descriptor(DoubleId, numDofs, offset, 1)), true)
              && store.ViewNumElements(vk) == numDofs)
        && (nk !in store.views && (wasEmpty || old(store.views)[vk].ExternalView?) ==>
              store.views[vk] == ExternalView(gfData.value, Some(Compact(DoubleId, numDofs))))
        && (!wasEmpty && (nk in store.views || !old(store.views)[vk].ExternalView?) ==>
              store.views[vk] == old(store.views)[vk])
      ensures gfData.None? ==> LoadedFieldBuffer(bufferName, offset + numDofs)
      ensures var vk := ViewKey(FieldGroup(fieldName), "values");
        var nk := ViewKey(namedBuffers, bufferName);
        forall k :: k != vk && k != nk ==>
          (k in store.views <==> k in old(store.views)) && (k in store.views ==> store.views[k] == old(store.views)[k])
      ensures var nk := ViewKey(namedBuffers, bufferName);
        forall id :: id in old(store.buffers)
                     && !(nk in old(store.views) && old(store.views)[nk].BufferView? && id == old(store.views)[nk].buffer)
                     && !(nk in store.views && store.views[nk].BufferView? && id == store.views[nk].buffer) ==>
          id in store.buffers && store.buffers[id] == old(store.buffers)[id]
      ensures var nk := ViewKey(namedBuffers, bufferName);
        forall id :: id in store.buffers && id !in old(store.buffers) ==>
          nk in store.views && store.views[nk].BufferView? && id == store.views[nk].buffer
      ensures store.groups == old(store.groups)
    {
      if gfData.None? {
        var _ := AllocNamedBuffer(bufferName, offset + numDofs, DoubleId);
      }
      BindScalarValues(fieldName, numDofs, gfData, bufferName, offset);
    }

    /** The Group `fields/<name>/values` holding the component Views of a vector field. */
    function ComponentGroup(fieldName: string): Path
    {
      FieldGroup(fieldName) + ["values"]
    }

    /** The View `fields/<name>/values/x<d>` of component `d`. */
    function ComponentKey(fieldName: string, d: nat): ViewKey
    {
      ViewKey(ComponentGroup(fieldName), ComponentName(d))
    }

    /** The Views of the first `vdim` components. */
    function ComponentKeys(fieldName: string, vdim: nat): set<ViewKey>
    {
      set d | 0 <= d < vdim :: ComponentKey(fieldName, d)
    }

    /**
     * What the component loop demands: no component name is taken by a
     * Group, and a component View that exists already has the layout the
     * field gives it, with components from element `start`.
     */
    predicate ComponentsMatch(fieldName: string, o: Ordering, vdim: nat, ndof: nat, start: nat)
      reads store
    {
      forall d :: 0 <= d < vdim ==> ComponentMatches(store.groups, store.views, fieldName, o, vdim, ndof, start, d)
    }

    /** Component `d`'s name is not taken by a Group, and its View, if any, has the component's layout. */
    predicate ComponentMatches(groups: set<Path>, views: map<ViewKey, View>, fieldName: string, o: Ordering,
                               vdim: nat, ndof: nat, start: nat, d: nat)
    {
      && ComponentGroup(fieldName) + [ComponentName(d)] !in groups
      && (ComponentKey(fieldName, d) in views ==>
            && IsDescribed(views[ComponentKey(fieldName, d)])
            && views[ComponentKey(fieldName, d)].desc == Some(ComponentDescriptor(o, vdim, ndof, start, d)))
    }

    /** The components' Views are distinct. */
    lemma ComponentKeysDistinct(fieldName: string, d: nat)
      ensures forall j :: ComponentKey(fieldName, j) == ComponentKey(fieldName, d) ==> j == d
    {
      forall j | ComponentKey(fieldName, j) == ComponentKey(fieldName, d) ensures j == d {
        ComponentNameInjective(j, d);
      }
    }

    /**
     * The Views after the first `d` components of the named-Buffer branch:
     * each component View that is missing or empty becomes an applied View
     * of Buffer `id` with the component's layout; other Views stay.
     */
    function AttachedComponents(views: map<ViewKey, View>, fieldName: string, o: Ordering, vdim: nat, ndof: nat,
                                offset: nat, id: BufferId, d: nat): map<ViewKey, View>
    {
      if d == 0 then views
      else
        var prev := AttachedComponents(views, fieldName, o, vdim, ndof, offset, id, d - 1);
        var k := ComponentKey(fieldName, d - 1);
        if k !in prev || prev[k].EmptyView? then prev[k := BufferView(id, Some(ComponentDescriptor(o, vdim, ndof, offset, d - 1)), true)]
        else prev
    }

    /**
     * The Views after the first `d` components of the external-data branch:
     * each component View that is missing, empty or external becomes bound
     * to `ptr` with the component's layout; Views of Buffers stay.
     */
    function BoundComponents(views: map<ViewKey, View>, fieldName: string, o: Ordering, vdim: nat, ndof: nat,
                             ptr: Address, d: nat): map<ViewKey, View>
    {
      if d == 0 then views
      else
        var prev := BoundComponents(views, fieldName, o, vdim, ndof, ptr, d - 1);
        var k := ComponentKey(fieldName, d - 1);
        if k !in prev || !prev[k].BufferView? then prev[k := ExternalView(ptr, Some(ComponentDescriptor(o, vdim, ndof, 0, d - 1)))]
        else prev
    }

    /**
     * After the named-Buffer branch, component `j` is an applied View of
     * Buffer `id` with its layout if it was missing or empty before, and is
     * unchanged otherwise; every other View is unchanged.
     */
    lemma AttachedComponentsAt(views: map<ViewKey, View>, fieldName: string, o: Ordering, vdim: nat,
                                                  ndof: nat, offset: nat, id: BufferId, d: nat)
      ensures var r := AttachedComponents(views, fieldName, o, vdim, ndof, offset, id, d);
        && (forall j :: 0 <= j < d ==>
              var k := ComponentKey(fieldName, j);
              k in r && r[k] == if k !in views || views[k].EmptyView?
                                then BufferView(id, Some(ComponentDescriptor(o, vdim, ndof, offset, j)), true)
                                else views[k])
        && (forall k :: k !in ComponentKeys(fieldName, d) ==> (k in r <==> k in views) && (k in r ==> r[k] == views[k]))
    {
      var r := AttachedComponents(views, fieldName, o, vdim, ndof, offset, id, d);
      forall j | 0 <= j < d
        ensures var k := ComponentKey(fieldName, j);
          k in r && r[k] == if k !in views || views[k].EmptyView? then BufferView(id, Some(ComponentDescriptor(o, vdim, ndof, offset, j)), true) else views[k]
      {
        AttachedComponentAt(views, fieldName, o, vdim, ndof, offset, id, d, j);
      }
      forall k | k !in ComponentKeys(fieldName, d)
        ensures (k in r <==> k in views) && (k in r ==> r[k] == views[k])
      {
        AttachedOthers(views, fieldName, o, vdim, ndof, offset, id, d, k);
      }
    }

    /** Component `j` below `d`, through the first `d` steps. */
    lemma {:induction false} AttachedComponentAt(views: map<ViewKey, View>, fieldName: string, o: Ordering, vdim: nat,
                                               ndof: nat, offset: nat, id: BufferId, d: nat, j: nat)
      requires j < d
      ensures var r := AttachedComponents(views, fieldName, o, vdim, ndof, offset, id, d);
        var k := ComponentKey(fieldName, j);
        k in r && r[k] == if k !in views || views[k].EmptyView? then BufferView(id, Some(ComponentDescriptor(o, vdim, ndof, offset, j)), true) else views[k]
    {
      if j == d - 1 {
        AttachedFrame(views, fieldName, o, vdim, ndof, offset, id, d - 1, d - 1);
      } else {
        AttachedComponentAt(views, fieldName, o, vdim, ndof, offset, id, d - 1, j);
        ComponentKeysDistinct(fieldName, j);
      }
    }

    /** A View that is not one of the first `d` components, through the first `d` steps. */
    lemma {:induction false} AttachedOthers(views: map<ViewKey, View>, fieldName: string, o: Ordering, vdim: nat,
                                          ndof: nat, offset: nat, id: BufferId, d: nat, k: ViewKey)
      requires k !in ComponentKeys(fieldName, d)
      ensures var r := AttachedComponents(views, fieldName, o, vdim, ndof, offset, id, d);
        (k in r <==> k in views) && (k in r ==> r[k] == views[k])
    {
      if d > 0 {
        assert k != ComponentKey(fieldName, d - 1) && k !in ComponentKeys(fieldName, d - 1);
        AttachedOthers(views, fieldName, o, vdim, ndof, offset, id, d - 1, k);
      }
    }

    /**
     * After the external-data branch, component `j` is bound to `ptr` with
     * its layout if it was missing, empty or external before, and is
     * unchanged otherwise; every other View is unchanged.
     */
    lemma BoundComponentsAt(views: map<ViewKey, View>, fieldName: string, o: Ordering, vdim: nat,
                                               ndof: nat, ptr: Address, d: nat)
      ensures var r := BoundComponents(views, fieldName, o, vdim, ndof, ptr, d);
        && (forall j :: 0 <= j < d ==>
              var k := ComponentKey(fieldName, j);
              k in r && r[k] == if k !in views || !views[k].BufferView?
                                then ExternalView(ptr, Some(ComponentDescriptor(o, vdim, ndof, 0, j)))
                                else views[k])
        && (forall k :: k !in ComponentKeys(fieldName, d) ==> (k in r <==> k in views) && (k in r ==> r[k] == views[k]))
    {
      var r := BoundComponents(views, fieldName, o, vdim, ndof, ptr, d);
      forall j | 0 <= j < d
        ensures var k := ComponentKey(fieldName, j);
          k in r && r[k] == if k !in views || !views[k].BufferView? then ExternalView(ptr, Some(ComponentDescriptor(o, vdim, ndof, 0, j))) else views[k]
      {
        BoundComponentAt(views, fieldName, o, vdim, ndof, ptr, d, j);
      }
      forall k | k !in ComponentKeys(fieldName, d)
        ensures (k in r <==> k in views) && (k in r ==> r[k] == views[k])
      {
        BoundOthers(views, fieldName, o, vdim, ndof, ptr, d, k);
      }
    }

    /** Component `j` below `d`, through the first `d` steps. */
    lemma {:induction false} BoundComponentAt(views: map<ViewKey, View>, fieldName: string, o: Ordering, vdim: nat,
                                               ndof: nat, ptr: Address, d: nat, j: nat)
      requires j < d
      ensures var r := BoundComponents(views, fieldName, o, vdim, ndof, ptr, d);
        var k := ComponentKey(fieldName, j);
        k in r && r[k] == if k !in views || !views[k].BufferView? then ExternalView(ptr, Some(ComponentDescriptor(o, vdim, ndof, 0, j))) else views[k]
    {
      if j == d - 1 {
        BoundFrame(views, fieldName, o, vdim, ndof, ptr, d - 1, d - 1);
      } else {
        BoundComponentAt(views, fieldName, o, vdim, ndof, ptr, d - 1, j);
        ComponentKeysDistinct(fieldName, j);
      }
    }

    /** A View that is not one of the first `d` components, through the first `d` steps. */
    lemma {:induction false} BoundOthers(views: map<ViewKey, View>, fieldName: string, o: Ordering, vdim: nat,
                                          ndof: nat, ptr: Address, d: nat, k: ViewKey)
      requires k !in ComponentKeys(fieldName, d)
      ensures var r := BoundComponents(views, fieldName, o, vdim, ndof, ptr, d);
        (k in r <==> k in views) && (k in r ==> r[k] == views[k])
    {
      if d > 0 {
        assert k != ComponentKey(fieldName, d - 1) && k !in ComponentKeys(fieldName, d - 1);
        BoundOthers(views, fieldName, o, vdim, ndof, ptr, d - 1, k);
      }
    }

    /** The components after the first `d` keep their Views through the named-Buffer branch. */
    lemma {:induction false} AttachedFrame(views: map<ViewKey, View>, fieldName: string, o: Ordering, vdim: nat,
                                           ndof: nat, offset: nat, id: BufferId, d: nat, e: nat)
      requires d <= e
      ensures var r := AttachedComponents(views, fieldName, o, vdim, ndof, offset, id, d);
        var k := ComponentKey(fieldName, e);
        (k in r <==> k in views) && (k in r ==> r[k] == views[k])
    {
      if d > 0 {
        AttachedFrame(views, fieldName, o, vdim, ndof, offset, id, d - 1, e);
        ComponentKeysDistinct(fieldName, e);
      }
    }

    /** The components after the first `d` keep their Views through the external-data branch. */
    lemma {:induction false} BoundFrame(views: map<ViewKey, View>, fieldName: string, o: Ordering, vdim: nat,
                                        ndof: nat, ptr: Address, d: nat, e: nat)
      requires d <= e
      ensures var r := BoundComponents(views, fieldName, o, vdim, ndof, ptr, d);
        var k := ComponentKey(fieldName, e);
        (k in r <==> k in views) && (k in r ==> r[k] == views[k])
    {
      if d > 0 {
        BoundFrame(views, fieldName, o, vdim, ndof, ptr, d - 1, e);
        ComponentKeysDistinct(fieldName, e);
      }
    }

    /**
     * The named-Buffer branch of the component loop: for each component,
     * get or create its View with the running layout, which starts at
     * element `offset` and advances by the component stride, and attach it
     * to Buffer `id`.
     */
    method AttachComponents(fieldName: string, o: Ordering, vdim: nat, ndof: nat, offset: nat, id: BufferId)
      requires Valid() && ComponentGroup(fieldName) in store.groups
      requires ComponentsMatch(fieldName, o, vdim, ndof, offset)
      requires id in store.buffers && store.buffers[id].data.Some?
      requires Bytes(DoubleId, offset + vdim * ndof) <= BufferBytes(store.buffers[id])
      modifies store
      ensures Valid()
      ensures store.views == AttachedComponents(old(store.views), fieldName, o, vdim, ndof, offset, id, vdim)
      ensures id in store.buffers && store.buffers == old(store.buffers)[id := old(store.buffers)[id].(numViews := store.buffers[id].numViews)]
      ensures store.groups == old(store.groups) && store.nextId == old(store.nextId)
    {
      var desc := ComponentDescriptor(o, vdim, ndof, offset, 0);
      var d := 0;
      while d < vdim
        invariant 0 <= d <= vdim
        invariant Valid()
        invariant desc == ComponentDescriptor(o, vdim, ndof, offset, d)
        invariant store.views == AttachedComponents(old(store.views), fieldName, o, vdim, ndof, offset, id, d)
        invariant store.groups == old(store.groups) && store.nextId == old(store.nextId)
        invariant id in store.buffers && store.buffers == old(store.buffers)[id := old(store.buffers)[id].(numViews := store.buffers[id].numViews)]
      {
        AttachedFrame(old(store.views), fieldName, o, vdim, ndof, offset, id, d, d);
        assert ComponentMatches(old(store.groups), old(store.views), fieldName, o, vdim, ndof, offset, d);
        ComponentExtent(o, vdim, ndof, offset, d);
        AttachComponent(fieldName, d, desc, id);
        ComponentStep(o, vdim, ndof, offset, d);
        desc := desc.(offset := desc.offset + ComponentStride(o, ndof));
        d := d + 1;
      }
    }

    /** One step of the named-Buffer branch: get or create the View of component `d`, then attach it. */
    method AttachComponent(fieldName: string, d: nat, desc: Descriptor, id: BufferId)
      requires Valid() && ComponentGroup(fieldName) in store.groups
      requires ComponentGroup(fieldName) + [ComponentName(d)] !in store.groups
      requires ComponentKey(fieldName, d) in store.views ==>
                 IsDescribed(store.views[ComponentKey(fieldName, d)]) && store.views[ComponentKey(fieldName, d)].desc == Some(desc)
      requires id in store.buffers && store.buffers[id].data.Some?
      requires Bytes(desc.typ, Extent(desc)) <= BufferBytes(store.buffers[id])
      modifies store
      ensures Valid()
      ensures var k := ComponentKey(fieldName, d);
        store.views == if k !in old(store.views) || old(store.views)[k].EmptyView?
                       then old(store.views)[k := BufferView(id, Some(desc), true)] else old(store.views)
      ensures id in store.buffers && store.buffers == old(store.buffers)[id := old(store.buffers)[id].(numViews := store.buffers[id].numViews)]
      ensures store.groups == old(store.groups) && store.nextId == old(store.nextId)
    {
      AllocViewTyped(ComponentGroup(fieldName), ComponentName(d), desc);
      var _ := store.AttachBuffer(ComponentKey(fieldName, d), id);
    }

    /**
     * The external-data branch of the component loop: for each component,
     * get or create its View with the running layout, which starts at
     * element 0 and advances by the component stride, and bind it to the
     * grid function's data `ptr`.
     */
    method BindComponents(fieldName: string, o: Ordering, vdim: nat, ndof: nat, ptr: Address)
      requires Valid() && ComponentGroup(fieldName) in store.groups
      requires ComponentsMatch(fieldName, o, vdim, ndof, 0)
      modifies store
      ensures Valid()
      ensures store.views == BoundComponents(old(store.views), fieldName, o, vdim, ndof, ptr, vdim)
      ensures store.buffers == old(store.buffers) && store.groups == old(store.groups) && store.nextId == old(store.nextId)
    {
      var desc := ComponentDescriptor(o, vdim, ndof, 0, 0);
      var d := 0;
      while d < vdim
        invariant 0 <= d <= vdim
        invariant Valid()
        invariant desc == ComponentDescriptor(o, vdim, ndof, 0, d)
        invariant store.views == BoundComponents(old(store.views), fieldName, o, vdim, ndof, ptr, d)
        invariant store.buffers == old(store.buffers) && store.groups == old(store.groups) && store.nextId == old(store.nextId)
      {
        BoundFrame(old(store.views), fieldName, o, vdim, ndof, ptr, d, d);
        assert ComponentMatches(old(store.groups), old(store.views), fieldName, o, vdim, ndof, 0, d);
        BindComponent(fieldName, d, desc, ptr);
        ComponentStep(o, vdim, ndof, 0, d);
        desc := desc.(offset := desc.offset + ComponentStride(o, ndof));
        d := d + 1;
      }
    }

    /** One step of the external-data branch: get or create the View of component `d`, then bind it. */
    method BindComponent(fieldName: string, d: nat, desc: Descriptor, ptr: Address)
      requires Valid() && ComponentGroup(fieldName) in store.groups
      requires ComponentGroup(fieldName) + [ComponentName(d)] !in store.groups
      requires ComponentKey(fieldName, d) in store.views ==>
                 IsDescribed(store.views[ComponentKey(fieldName, d)]) && store.views[ComponentKey(fieldName, d)].desc == Some(desc)
      modifies store
      ensures Valid()
      ensures var k := ComponentKey(fieldName, d);
        store.views == if k !in old(store.views) || !old(store.views)[k].BufferView?
                       then old(store.views)[k := ExternalView(ptr, Some(desc))] else old(store.views)
      ensures store.buffers == old(store.buffers) && store.groups == old(store.groups) && store.nextId == old(store.nextId)
    {
      AllocViewTyped(ComponentGroup(fieldName), ComponentName(d), desc);
      var _ := store.SetExternalDataPtr(ComponentKey(fieldName, d), None, ptr);
    }

    /**
     * `addVectorBasedGridFunction`: a grid function of `vdim` components of
     * `ndof` entries each, ordered by `o`. Without data of its own it gets
     * the named Buffer `bufferName` of `offset + vdim * ndof` doubles. The
     * Group `values` of the field then holds one View `x<d>` per component:
     * when a named Buffer exists, each missing or empty one is attached to
     * it, applied with the component's layout from element `offset`, and
     * otherwise each one not holding a Buffer is bound to the grid
     * function's data with the component's layout from element 0. No other
     * View but the named one changes.
     */
    method AddVectorBasedGridFunction(fieldName: string, o: Ordering, vdim: nat, ndof: nat, gfData: Option<Address>,
                                      bufferName: string, offset: nat)
      requires Valid() && FieldGroup(fieldName) in store.groups && ViewKey(FieldGroup(fieldName), "values") !in store.views
      requires FieldGroup(fieldName) != namedBuffers && ComponentGroup(fieldName) != namedBuffers
      requires gfData.None? ==> NamedBufferAllocatable(bufferName, DoubleId)
      requires gfData.Some? ==> LoadedFieldBuffer(bufferName, offset + vdim * ndof)
      requires ComponentsMatch(fieldName, o, vdim, ndof,
                               if gfData.None? || ViewKey(namedBuffers, bufferName) in store.views then offset else 0)
      modifies store
      ensures Valid()
      ensures store.groups == old(store.groups) + {ComponentGroup(fieldName)}
      ensures var nk := ViewKey(namedBuffers, bufferName);
        (nk in store.views <==> (gfData.None? || nk in old(store.views)))
      ensures var nk := ViewKey(namedBuffers, bufferName);
        nk in store.views ==>
          && store.views[nk].BufferView?
          && forall d :: 0 <= d < vdim ==>
               var k := ComponentKey(fieldName, d);
               k in store.views && store.views[k] == if k !in old(store.views) || old(store.views)[k].EmptyView?
                                                     then BufferView(store.views[nk].buffer, Some(ComponentDescriptor(o, vdim, ndof, offset, d)), true)
                                                     else old(store.views)[k]
      ensures var nk := ViewKey(namedBuffers, bufferName);
        nk !in store.views ==>
          && gfData.Some?
          && forall d :: 0 <= d < vdim ==>
               var k := ComponentKey(fieldName, d);
               k in store.views && store.views[k] == if k !in old(store.views) || !old(store.views)[k].BufferView?
                                                     then ExternalView(gfData.value, Some(ComponentDescriptor(o, vdim, ndof, 0, d)))
                                                     else old(store.views)[k]
      ensures forall k :: k != ViewKey(namedBuffers, bufferName) && k !in ComponentKeys(fieldName, vdim) ==>
                (k in store.views <==> k in old(store.views)) && (k in store.views ==> store.views[k] == old(store.views)[k])
    {
      var nk := ViewKey(namedBuffers, bufferName);
      var start := if gfData.None? || nk in store.views then offset else 0;
      ghost var V0 := store.views;
      if gfData.None? {
        var _ := AllocNamedBuffer(bufferName, offset + vdim * ndof, DoubleId);
      }
      AllocGroup(FieldGroup(fieldName), "values");
      ghost var V1 := store.views;
      forall d | 0 <= d < vdim
        ensures ComponentMatches(store.groups, store.views, fieldName, o, vdim, ndof, start, d)
      {
        assert ComponentMatches(old(store.groups), V0, fieldName, o, vdim, ndof, start, d);
        assert ComponentKey(fieldName, d) != nk;
        assert |ComponentGroup(fieldName) + [ComponentName(d)]| != |ComponentGroup(fieldName)|;
      }
      if nk in store.views {
        var b := store.AttachedBuffer(nk);
        var id := store.views[nk].buffer;
        AttachComponents(fieldName, o, vdim, ndof, offset, id);
        AttachedComponentsAt(V1, fieldName, o, vdim, ndof, offset, id, vdim);
        assert nk !in ComponentKeys(fieldName, vdim);
        forall d | 0 <= d < vdim
          ensures var k := ComponentKey(fieldName, d); (k in V1 <==> k in V0) && (k in V1 ==> V1[k] == V0[k])
        {
          assert ComponentKey(fieldName, d) != nk;
        }
      } else {
        BindComponents(fieldName, o, vdim, ndof, gfData.value);
        BoundComponentsAt(V1, fieldName, o, vdim, ndof, gfData.value, vdim);
        forall d | 0 <= d < vdim
          ensures var k := ComponentKey(fieldName, d); (k in V1 <==> k in V0) && (k in V1 ==> V1[k] == V0[k])
        {
          assert ComponentKey(fieldName, d) != nk;
        }
      }
    }
  }
}
