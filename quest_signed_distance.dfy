/**
 * The lifecycle of Quest's signed distance query: a single query object
 * whose options can be set only while it is uninitialized, which is
 * initialized from an STL file or from a surface mesh, which answers
 * signed distance evaluations and mesh-bounds requests only while it is
 * initialized, and which finalize returns to the uninitialized state.
 *
 * A call that the library aborts on is modelled as a `Fail` outcome that
 * leaves the query unchanged.
 */
module QuestSignedDistance {
  import opened Wrappers

  /** The geometry types and their count: the watertight geometry is the only one. */
  const WATERTIGHT: int := 0
  const NUM_GEOMETRY_TYPES: int := 1

  /** A geometry type is a value of the enumeration, below its count. */
  predicate IsGeometryType(t: int)
  {
    0 <= t < NUM_GEOMETRY_TYPES
  }

  /** The watertight geometry is the only geometry type. */
  lemma OnlyWatertight(t: int)
    ensures IsGeometryType(t) <==> t == WATERTIGHT
  {
  }

  /**
   * An oriented surface mesh: its bounding box (one coordinate per
   * dimension) and the signed distance function it defines.
   */
  datatype SurfaceMesh = SurfaceMesh(lo: seq<real>, hi: seq<real>, distance: (real, real, real) -> real)
  {
    predicate Valid()
    {
      |lo| == |hi|
    }
  }

  /** The status `init` returns when it fails. */
  const InitError: int := -1

  class SignedDistanceQuery {
    var initialized: bool
    var dimension: int
    var geometry: int
    var maxLevels: int
    var maxOccupancy: int
    var verbose: bool
    /** The surface mesh the query was initialized with, if any. */
    var mesh: Option<SurfaceMesh>

    /** The query holds a mesh exactly while it is initialized. */
    predicate Valid()
      reads this
    {
      initialized == mesh.Some?
      && (mesh.Some? ==> mesh.value.Valid())
      && maxOccupancy >= 1
    }

    /**
     * A query before its first `init`: uninitialized, three-dimensional,
     * watertight and not verbose; the tree bounds start at the given
     * defaults.
     */
    constructor(defaultMaxLevels: int, defaultMaxOccupancy: int)
      requires defaultMaxOccupancy >= 1
      ensures Valid() && !initialized
      ensures dimension == 3 && geometry == WATERTIGHT && !verbose
      ensures maxLevels == defaultMaxLevels && maxOccupancy == defaultMaxOccupancy
    {
      initialized := false;
      dimension := 3;
      geometry := WATERTIGHT;
      maxLevels := defaultMaxLevels;
      maxOccupancy := defaultMaxOccupancy;
      verbose := false;
      mesh := None;
    }

    /** `initialized()`: whether the query has been initialized and not finalized. */
    function Initialized(): (b: bool)
      reads this
      requires Valid()
      ensures b <==> mesh.Some?
    {
      initialized
    }

    /**
     * `init` from an STL file. The readable files are given as a map from
     * file name to the mesh read from it. An empty name or a file that
     * cannot be read gives a non-zero status and leaves the query
     * unchanged; otherwise the status is 0 and the query is initialized with
     * the file's mesh.
     */
    method InitFromFile(file: string, readable: map<string, SurfaceMesh>) returns (rc: int)
      requires Valid() && !initialized
      requires forall f :: f in readable ==> readable[f].Valid()
      modifies this
      ensures Valid()
      ensures rc == 0 <==> file != "" && file in readable
      ensures rc != 0 ==> rc == InitError && unchanged(this)
      ensures rc == 0 ==> initialized && mesh == Some(readable[file])
      ensures dimension == old(dimension) && geometry == old(geometry)
      ensures maxLevels == old(maxLevels) && maxOccupancy == old(maxOccupancy) && verbose == old(verbose)
    {
      if file == "" || file !in readable {
        return InitError;
      }
      mesh := Some(readable[file]);
      initialized := true;
      return 0;
    }

    /** `init` from a surface mesh: the status is 0 and the query is initialized with that mesh. */
    method InitFromMesh(m: SurfaceMesh) returns (rc: int)
      requires Valid() && !initialized && m.Valid()
      modifies this
      ensures Valid() && rc == 0
      ensures initialized && mesh == Some(m)
      ensures dimension == old(dimension) && geometry == old(geometry)
      ensures maxLevels == old(maxLevels) && maxOccupancy == old(maxOccupancy) && verbose == old(verbose)
    {
      mesh := Some(m);
      initialized := true;
      return 0;
    }

    /** `set_dimension`: aborts once the query is initialized; otherwise records the dimension. */
    method SetDimension(dim: int) returns (r: Outcome<string>)
      requires Valid()
      modifies this
      ensures Valid()
      ensures r.Fail? <==> old(initialized)
      ensures r.Fail? ==> unchanged(this)
      ensures r.Pass? ==> (dimension == dim && geometry == old(geometry) && maxLevels == old(maxLevels)
        && maxOccupancy == old(maxOccupancy) && verbose == old(verbose)
        && initialized == old(initialized) && mesh == old(mesh))
    {
      if initialized {
        return Fail("set_dimension called after init");
      }
      dimension := dim;
      return Pass;
    }

    /** `set_geometry`: aborts once the query is initialized; otherwise records the geometry type. */
    method SetGeometry(t: int) returns (r: Outcome<string>)
      requires Valid()
      modifies this
      ensures Valid()
      ensures r.Fail? <==> old(initialized)
      ensures r.Fail? ==> unchanged(this)
      ensures r.Pass? ==> (geometry == t && dimension == old(dimension) && maxLevels == old(maxLevels)
        && maxOccupancy == old(maxOccupancy) && verbose == old(verbose)
        && initialized == old(initialized) && mesh == old(mesh))
    {
      if initialized {
        return Fail("set_geometry called after init");
      }
      geometry := t;
      return Pass;
    }

    /** `set_max_levels`: aborts once the query is initialized; otherwise records the tree depth bound. */
    method SetMaxLevels(levels: int) returns (r: Outcome<string>)
      requires Valid()
      modifies this
      ensures Valid()
      ensures r.Fail? <==> old(initialized)
      ensures r.Fail? ==> unchanged(this)
      ensures r.Pass? ==> (maxLevels == levels && dimension == old(dimension) && geometry == old(geometry)
        && maxOccupancy == old(maxOccupancy) && verbose == old(verbose)
        && initialized == old(initialized) && mesh == old(mesh))
    {
      if initialized {
        return Fail("set_max_levels called after init");
      }
      maxLevels := levels;
      return Pass;
    }

    /**
     * `set_max_occupancy`: the threshold is at least one; aborts once the
     * query is initialized; otherwise records the bucket bound.
     */
    method SetMaxOccupancy(threshold: int) returns (r: Outcome<string>)
      requires Valid() && threshold >= 1
      modifies this
      ensures Valid()
      ensures r.Fail? <==> old(initialized)
      ensures r.Fail? ==> unchanged(this)
      ensures r.Pass? ==> (maxOccupancy == threshold && dimension == old(dimension) && geometry == old(geometry)
        && maxLevels == old(maxLevels) && verbose == old(verbose)
        && initialized == old(initialized) && mesh == old(mesh))
    {
      if initialized {
        return Fail("set_max_occupancy called after init");
      }
      maxOccupancy := threshold;
      return Pass;
    }

    /** `set_verbose`: aborts once the query is initialized; otherwise records the flag. */
    method SetVerbose(status: bool) returns (r: Outcome<string>)
      requires Valid()
      modifies this
      ensures Valid()
      ensures r.Fail? <==> old(initialized)
      ensures r.Fail? ==> unchanged(this)
      ensures r.Pass? ==> (verbose == status && dimension == old(dimension) && geometry == old(geometry)
        && maxLevels == old(maxLevels) && maxOccupancy == old(maxOccupancy)
        && initialized == old(initialized) && mesh == old(mesh))
    {
      if initialized {
        return Fail("set_verbose called after init");
      }
      verbose := status;
      return Pass;
    }

    /**
     * `get_mesh_bounds`: aborts before init or when either output buffer is
     * null; otherwise writes the mesh's lower and upper corner into the
     * first entries of `lo` and `hi`, which hold at least one entry per
     * dimension.
     */
    method GetMeshBounds(lo: Option<array<real>>, hi: Option<array<real>>) returns (r: Outcome<string>)
      requires Valid()
      requires initialized && lo.Some? ==> |mesh.value.lo| <= lo.value.Length
      requires initialized && hi.Some? ==> |mesh.value.hi| <= hi.value.Length
      requires lo.Some? && hi.Some? ==> lo.value != hi.value
      modifies if lo.Some? then {lo.value} else {}, if hi.Some? then {hi.value} else {}
      ensures r.Fail? <==> !initialized || lo.None? || hi.None?
      ensures r.Fail? && lo.Some? ==> lo.value[..] == old(lo.value[..])
      ensures r.Fail? && hi.Some? ==> hi.value[..] == old(hi.value[..])
      ensures r.Pass? ==> (lo.value[..|mesh.value.lo|] == mesh.value.lo
        && lo.value[|mesh.value.lo|..] == old(lo.value[|mesh.value.lo|..]))
      ensures r.Pass? ==> (hi.value[..|mesh.value.hi|] == mesh.value.hi
        && hi.value[|mesh.value.hi|..] == old(hi.value[|mesh.value.hi|..]))
    {
      if !initialized {
        return Fail("get_mesh_bounds called before init");
      }
      if lo.None? || hi.None? {
        return Fail("get_mesh_bounds called with a null buffer");
      }
      var box := mesh.value;
      CopyInto(lo.value, box.lo);
      CopyInto(hi.value, box.hi);
      return Pass;
    }

    /**
     * `evaluate` at one point: aborts before init; otherwise the signed
     * distance of the mesh at that point.
     */
    method Evaluate(x: real, y: real, z: real) returns (r: Result<real, string>)
      requires Valid()
      ensures r.Err? <==> !initialized
      ensures r.Ok? ==> r.value == mesh.value.distance(x, y, z)
    {
      if !initialized {
        return Err("evaluate called before init");
      }
      return Ok(mesh.value.distance(x, y, z));
    }

    /** `evaluate(x, y)`: the call with the default `z = 0.0`. */
    method EvaluateXY(x: real, y: real) returns (r: Result<real, string>)
      requires Valid()
      ensures r.Err? <==> !initialized
      ensures r.Ok? ==> r.value == mesh.value.distance(x, y, 0.0)
    {
      r := Evaluate(x, y, 0.0);
    }

    /**
     * `evaluate` on a batch of points: aborts before init, leaving `phi`
     * unchanged; otherwise entry `i` of `phi` becomes the signed distance
     * at point `i`, for each of the first `npoints` entries.
     */
    method EvaluateBatch(x: array<real>, y: array<real>, z: array<real>, npoints: nat, phi: array<real>)
      returns (r: Outcome<string>)
      requires Valid()
      requires npoints <= x.Length && npoints <= y.Length && npoints <= z.Length && npoints <= phi.Length
      modifies phi
      ensures r.Fail? <==> !initialized
      ensures r.Fail? ==> phi[..] == old(phi[..])
      ensures r.Pass? ==> forall i :: 0 <= i < npoints ==>
        phi[i] == mesh.value.distance(old(x[i]), old(y[i]), old(z[i]))
      ensures phi[npoints..] == old(phi[npoints..])
    {
      if !initialized {
        return Fail("evaluate called before init");
      }
      var f := mesh.value.distance;
      var i := 0;
      while i < npoints
        invariant 0 <= i <= npoints
        invariant forall j :: 0 <= j < i ==> phi[j] == f(old(x[j]), old(y[j]), old(z[j]))
        invariant forall j :: i <= j < phi.Length ==> phi[j] == old(phi[j])
        invariant forall j :: i <= j < x.Length ==> x[j] == old(x[j])
        invariant forall j :: i <= j < y.Length ==> y[j] == old(y[j])
        invariant forall j :: i <= j < z.Length ==> z[j] == old(z[j])
      {
        phi[i] := f(x[i], y[i], z[i]);
        i := i + 1;
      }
      return Pass;
    }

    /** `finalize`: the query is no longer initialized and drops its mesh; its options are kept. */
    method Finalize()
      requires Valid()
      modifies this
      ensures Valid() && !initialized
      ensures dimension == old(dimension) && geometry == old(geometry)
      ensures maxLevels == old(maxLevels) && maxOccupancy == old(maxOccupancy) && verbose == old(verbose)
    {
      initialized := false;
      mesh := None;
    }
  }

  /** Writes `values` into the first entries of `a`, leaving the rest as it was. */
  method CopyInto(a: array<real>, values: seq<real>)
    requires |values| <= a.Length
    modifies a
    ensures a[..|values|] == values
    ensures a[|values|..] == old(a[|values|..])
  {
    var i := 0;
    while i < |values|
      invariant 0 <= i <= |values|
      invariant a[..i] == values[..i]
      invariant a[|values|..] == old(a[|values|..])
    {
      a[i] := values[i];
      i := i + 1;
    }
  }

  // -----------------------------------------------------------------------
  // The interface tests, as call sequences on one query.
  // -----------------------------------------------------------------------

  /**
   * Mesh bounds before init abort; after init from a mesh, a null lower or
   * upper buffer aborts; finalize leaves the query uninitialized.
   */
  method GetMeshBoundsInvalidCalls(q: SignedDistanceQuery, m: SurfaceMesh, lo: array<real>, hi: array<real>)
    requires q.Valid() && !q.Initialized() && m.Valid()
    requires lo != hi && |m.lo| <= lo.Length && |m.hi| <= hi.Length
    modifies q, lo, hi
    ensures q.Valid() && !q.Initialized()
    ensures lo[..] == old(lo[..]) && hi[..] == old(hi[..])
  {
    var r := q.GetMeshBounds(Some(lo), Some(hi));
    assert r.Fail?;
    var rc := q.InitFromMesh(m);
    assert rc == 0 && q.Initialized();
    r := q.GetMeshBounds(None, Some(hi));
    assert r.Fail?;
    r := q.GetMeshBounds(Some(lo), None);
    assert r.Fail?;
    q.Finalize();
  }

  /** Single and batch evaluation abort before init. */
  method CallEvaluateBeforeInit(q: SignedDistanceQuery, x: array<real>, y: array<real>, z: array<real>, phi: array<real>)
    requires q.Valid() && !q.Initialized()
    requires x.Length == y.Length == z.Length == phi.Length
    modifies phi
    ensures phi[..] == old(phi[..])
  {
    var single := q.Evaluate(0.0, 0.0, 0.0);
    assert single.Err?;
    var batch := q.EvaluateBatch(x, y, z, x.Length, phi);
    assert batch.Fail?;
  }

  /** After init every option setter aborts and leaves the query unchanged; then finalize. */
  method SetParamsAfterInit(q: SignedDistanceQuery, m: SurfaceMesh)
    requires q.Valid() && !q.Initialized() && m.Valid()
    modifies q
    ensures q.Valid() && !q.Initialized()
    ensures q.dimension == old(q.dimension) && q.geometry == old(q.geometry)
    ensures q.maxLevels == old(q.maxLevels) && q.maxOccupancy == old(q.maxOccupancy) && q.verbose == old(q.verbose)
  {
    var rc := q.InitFromMesh(m);
    assert q.Initialized();
    var r := q.SetDimension(3);
    assert r.Fail?;
    r := q.SetGeometry(WATERTIGHT);
    assert r.Fail?;
    r := q.SetMaxLevels(5);
    assert r.Fail?;
    r := q.SetMaxOccupancy(5);
    assert r.Fail?;
    r := q.SetVerbose(true);
    assert r.Fail?;
    q.Finalize();
  }

  /**
   * `init("")` and `init` on an unreadable file fail and leave the query
   * uninitialized; after setting the dimension, `init` on a readable file
   * succeeds; finalize leaves the query uninitialized.
   */
  method Initialize(q: SignedDistanceQuery, file: string, readable: map<string, SurfaceMesh>)
    requires q.Valid() && !q.Initialized()
    requires forall f :: f in readable ==> readable[f].Valid()
    requires file != "" && file in readable && "badfile.stl" !in readable
    modifies q
    ensures q.Valid() && !q.Initialized() && q.dimension == 3
  {
    var rc := q.InitFromFile("", readable);
    assert rc != 0 && !q.Initialized();
    rc := q.InitFromFile("badfile.stl", readable);
    assert rc != 0 && !q.Initialized();
    var r := q.SetDimension(3);
    assert r.Pass?;
    rc := q.InitFromFile(file, readable);
    assert rc == 0 && q.Initialized();
    q.Finalize();
  }

  /**
   * After init from a mesh, the bounds written are the mesh's bounding box;
   * finalize leaves the query uninitialized.
   */
  method GetMeshBoundsAfterInit(q: SignedDistanceQuery, m: SurfaceMesh, lo: array<real>, hi: array<real>)
    requires q.Valid() && !q.Initialized() && m.Valid()
    requires lo != hi && |m.lo| == lo.Length && |m.hi| == hi.Length
    modifies q, lo, hi
    ensures q.Valid() && !q.Initialized()
    ensures lo[..] == m.lo && hi[..] == m.hi
  {
    var rc := q.InitFromMesh(m);
    var r := q.GetMeshBounds(Some(lo), Some(hi));
    assert r.Pass?;
    assert lo[..] == lo[..|m.lo|];
    assert hi[..] == hi[..|m.hi|];
    q.Finalize();
  }
}
