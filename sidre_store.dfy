/**
 * An abstract model of the Sidre data store: a pool of Buffers with stable
 * integer ids, a tree of Groups, and named Views that describe typed windows
 * (type, count, offset, stride) into Buffers or bind external, opaque or
 * inline data.
 *
 * Groups are identified by their root-relative path, Views by the path of
 * their Group and their name; the non-owning relations (View -> Buffer,
 * Buffer -> number of Views) are ids and counts into the store's own maps.
 * Offsets and strides are counted in elements of the View's type; the byte
 * offset is `offset * ElementBytes(typ)`.
 */
module SidreStore {
  import opened Wrappers

  type BufferId = nat

  /** The value of a caller-owned pointer; the store never dereferences it. */
  type Address = nat

  /** A root-relative group path: the sequence of group names from the root. */
  type Path = seq<string>

  datatype TypeId = IntId | LongId | FloatId | DoubleId

  /** `sizeof` of each element type on an LP64 platform. */
  function ElementBytes(t: TypeId): (n: nat)
    ensures n == 4 || n == 8
    ensures (t == IntId || t == FloatId ==> n == 4) && (t == LongId || t == DoubleId ==> n == 8)
  {
    match t
    case IntId => 4
    case LongId => 8
    case FloatId => 4
    case DoubleId => 8
  }

  /** The size in bytes of `n` elements of type `t`, `n * ElementBytes(t)`. */
  function Bytes(t: TypeId, n: nat): (b: nat)
    ensures b == n * ElementBytes(t)
  {
    match t
    case IntId => 4 * n
    case LongId => 8 * n
    case FloatId => 4 * n
    case DoubleId => 8 * n
  }

  datatype StoreError =
    | StateError          // operation invalid for the current View or Buffer state
    | DuplicateName       // sibling name collision
    | NotFound            // missing group, view or buffer
    | SchemaMismatch      // layout does not fit the Buffer
    | AllocationError     // allocation without a description
    | SharedBufferError   // exclusive-ownership operation on a shared Buffer

  /** A layout: `count` elements of `typ`, the first at `offset`, `stride` apart. */
  datatype Descriptor = Descriptor(typ: TypeId, count: nat, offset: nat, stride: nat)

  /** The layout `DataType(typ, count)`: contiguous, starting at element 0. */
  function Compact(t: TypeId, n: nat): Descriptor
  {
    Descriptor(t, n, 0, 1)
  }

  /** The index of element `i` of a layout. */
  function IndexOf(d: Descriptor, i: nat): nat
  {
    d.offset + i * d.stride
  }

  /** One past the last element index the layout touches (0 for an empty layout). */
  function Extent(d: Descriptor): nat
  {
    if d.count == 0 then 0 else IndexOf(d, d.count - 1) + 1
  }

  datatype Declaration = Declaration(typ: TypeId, count: nat)

  /**
   * A Buffer: its declared type and element count, its storage once
   * allocated, and the number of Views attached to it.
   */
  datatype Buffer = Buffer(decl: Option<Declaration>, data: Option<seq<int>>, numViews: nat)

  predicate BufferWellFormed(b: Buffer)
  {
    b.data.Some? ==> b.decl.Some? && |b.data.value| == b.decl.value.count
  }

  function BufferNumElements(b: Buffer): nat
  {
    if b.decl.Some? then b.decl.value.count else 0
  }

  function BufferBytes(b: Buffer): nat
  {
    if b.decl.Some? then Bytes(b.decl.value.typ, b.decl.value.count) else 0
  }

  /** A layout fits an allocated Buffer when every byte it touches lies inside the allocation. */
  predicate Fits(d: Descriptor, b: Buffer)
  {
    b.data.Some? && Bytes(d.typ, Extent(d)) <= BufferBytes(b)
  }

  function Zeros(n: nat): (s: seq<int>)
    ensures |s| == n && forall i :: 0 <= i < n ==> s[i] == 0
  {
    seq(n, _ => 0)
  }

  /** The storage after a reallocation: the common prefix is kept, new elements are zero. */
  function Resized(data: seq<int>, n: nat): (r: seq<int>)
    ensures |r| == n
    ensures forall i :: 0 <= i < n && i < |data| ==> r[i] == data[i]
    ensures forall i :: |data| <= i < n ==> r[i] == 0
  {
    if n <= |data| then data[..n] else data + Zeros(n - |data|)
  }

  /**
   * The state of a View, as a tagged union: empty (possibly described),
   * attached to a Buffer (described or applied), bound to external memory,
   * holding an opaque pointer, or holding an inline scalar or string.
   */
  datatype View =
    | EmptyView(desc: Option<Descriptor>)
    | BufferView(buffer: BufferId, desc: Option<Descriptor>, applied: bool)
    | ExternalView(ptr: Address, desc: Option<Descriptor>)
    | OpaqueView(ptr: Address)
    | ScalarView(scalar: int)
    | StringView(text: string)

  function BufferOf(v: View): Option<BufferId>
  {
    if v.BufferView? then Some(v.buffer) else None
  }

  /** `isApplied`: the View has a layout it can be read through. */
  predicate IsApplied(v: View)
  {
    match v
    case EmptyView(_) => false
    case BufferView(_, _, applied) => applied
    case ExternalView(_, desc) => desc.Some?
    case OpaqueView(_) => false
    case ScalarView(_) => true
    case StringView(_) => true
  }

  predicate IsDescribed(v: View)
  {
    (v.EmptyView? || v.BufferView? || v.ExternalView?) && v.desc.Some?
  }

  datatype ViewKey = ViewKey(group: Path, name: string)


  /** The Views attached to Buffer `id`. */
  ghost function ViewsOn(views: map<ViewKey, View>, id: BufferId): set<ViewKey>
  {
    set k | k in views && BufferOf(views[k]) == Some(id)
  }

  /** The path of the Group holding the Group at `g`. */
  function ParentPath(g: Path): Path
    requires g != []
  {
    g[..|g| - 1]
  }

  /** A Group other than the root has its parent Group in the tree. */
  ghost predicate GroupOk(groups: set<Path>, g: Path)
  {
    g in groups && g != [] ==> ParentPath(g) in groups
  }

  /**
   * A Buffer's id lies below the next id, its storage matches its
   * declaration, and its view count is the number of Views attached to it.
   */
  ghost predicate BufferOk(buffers: map<BufferId, Buffer>, nextId: BufferId, views: map<ViewKey, View>, id: BufferId)
  {
    id in buffers ==>
      && id < nextId
      && BufferWellFormed(buffers[id])
      && buffers[id].numViews == |ViewsOn(views, id)|
  }

  /**
   * A View lives in an existing Group, no sibling Group shares its name, its
   * Buffer exists, and an applied View's layout fits that Buffer.
   */
  ghost predicate ViewOk(groups: set<Path>, buffers: map<BufferId, Buffer>, views: map<ViewKey, View>, k: ViewKey)
  {
    k in views ==>
      && k.group in groups
      && k.group + [k.name] !in groups
      && (views[k].BufferView? ==>
            && views[k].buffer in buffers
            && (views[k].applied ==> views[k].desc.Some? && Fits(views[k].desc.value, buffers[views[k].buffer])))
  }

  ghost predicate TreeShaped(groups: set<Path>)
  {
    [] in groups && forall g :: GroupOk(groups, g)
  }

  ghost predicate StoreInvariant(buffers: map<BufferId, Buffer>, nextId: BufferId,
                                 groups: set<Path>, views: map<ViewKey, View>)
  {
    && TreeShaped(groups)
    && (forall id :: BufferOk(buffers, nextId, views, id))
    && (forall k :: ViewOk(groups, buffers, views, k))
  }

  lemma ViewsOnInsert(views: map<ViewKey, View>, k: ViewKey, v: View, id: BufferId)
    requires k !in views
    ensures ViewsOn(views[k := v], id) == ViewsOn(views, id) + (if BufferOf(v) == Some(id) then {k} else {})
  {
  }

  lemma ViewsOnReplace(views: map<ViewKey, View>, k: ViewKey, v: View, id: BufferId)
    requires k in views
    ensures ViewsOn(views[k := v], id) ==
            (ViewsOn(views, id) - {k}) + (if BufferOf(v) == Some(id) then {k} else {})
  {
  }

  /** Giving a View that uses no Buffer a Buffer adds it to that Buffer's Views only. */
  lemma ViewsOnFill(views: map<ViewKey, View>, k: ViewKey, v: View, id: BufferId)
    requires k in views && BufferOf(views[k]) == None
    ensures k !in ViewsOn(views, id)
    ensures ViewsOn(views[k := v], id) == ViewsOn(views, id) + (if BufferOf(v) == Some(id) then {k} else {})
  {
  }

  lemma ViewsOnRemove(views: map<ViewKey, View>, k: ViewKey, id: BufferId)
    ensures ViewsOn(views - {k}, id) == ViewsOn(views, id) - {k}
  {
  }

  /** A Buffer with exactly one attached View is attached to that View only. */
  lemma SoleView(s: set<ViewKey>, k: ViewKey)
    requires k in s && |s| == 1
    ensures s == {k}
  {
    var rest := s - {k};
    assert |rest| == 0;
    assert rest == {};
  }

  class DataStore {
    /** The Buffer pool, by id. */
    var buffers: map<BufferId, Buffer>
    /** The id the next created Buffer receives; ids are never reused. */
    var nextId: BufferId
    /** The Group tree, as the set of paths of its Groups; `[]` is the root. */
    var groups: set<Path>
    /** The Views, by Group path and name. */
    var views: map<ViewKey, View>

    ghost predicate Valid()
      reads this
    {
      StoreInvariant(buffers, nextId, groups, views)
    }

    /** A new store: a root Group and no Buffers. */
    constructor ()
      ensures Valid()
      ensures buffers == map[] && nextId == 0 && groups == {[]} && views == map[]
    {
      buffers := map[];
      nextId := 0;
      groups := {[]};
      views := map[];
    }

    function NumBuffers(): nat
      reads this
    {
      |buffers|
    }

    /** Whether `name` is free among the children of Group `g`. */
    predicate NameFree(g: Path, name: string)
      reads this
    {
      ViewKey(g, name) !in views && g + [name] !in groups
    }

    /** `createBuffer`: an empty, undescribed Buffer with a fresh id. */
    method CreateBuffer() returns (id: BufferId)
      requires Valid()
      modifies this
      ensures Valid()
      ensures id == old(nextId) && id !in old(buffers) && nextId == id + 1
      ensures buffers == old(buffers)[id := Buffer(None, None, 0)]
      ensures groups == old(groups) && views == old(views)
    {
      id := nextId;
      NewBufferKeeps(buffers, nextId, groups, views, Buffer(None, None, 0));
      assert BufferOk(buffers, nextId, views, id);
      buffers := buffers[id := Buffer(None, None, 0)];
      nextId := nextId + 1;
    }

    /** `declare(type, n)`: records the description of an unallocated Buffer. */
    method DeclareBuffer(id: BufferId, t: TypeId, n: nat) returns (r: Outcome<StoreError>)
      requires Valid()
      modifies this
      ensures Valid()
      ensures r == (if id !in old(buffers) then Fail(NotFound)
                    else if old(buffers)[id].data.Some? then Fail(StateError)
                    else Pass)
      ensures r.Pass? ==> buffers == old(buffers)[id := old(buffers)[id].(decl := Some(Declaration(t, n)))]
      ensures r.Fail? ==> buffers == old(buffers)
      ensures nextId == old(nextId) && groups == old(groups) && views == old(views)
    {
      if id !in buffers {
        return Fail(NotFound);
      }
      if buffers[id].data.Some? {
        return Fail(StateError);
      }
      var b := buffers[id];
      StorageKeeps(buffers, nextId, groups, views, id, b.(decl := Some(Declaration(t, n))));
      buffers := buffers[id := b.(decl := Some(Declaration(t, n)))];
      r := Pass;
    }

    /** `allocate()`: commits zero-filled storage sized from the Buffer's description. */
    method AllocateBuffer(id: BufferId) returns (r: Outcome<StoreError>)
      requires Valid()
      modifies this
      ensures Valid()
      ensures r == (if id !in old(buffers) then Fail(NotFound)
                    else if old(buffers)[id].decl.None? then Fail(AllocationError)
                    else if old(buffers)[id].data.Some? then Fail(StateError)
                    else Pass)
      ensures r.Pass? ==> buffers == old(buffers)[id := old(buffers)[id].(data := Some(Zeros(old(buffers)[id].decl.value.count)))]
      ensures r.Fail? ==> buffers == old(buffers)
      ensures nextId == old(nextId) && groups == old(groups) && views == old(views)
    {
      if id !in buffers {
        return Fail(NotFound);
      }
      if buffers[id].decl.None? {
        return Fail(AllocationError);
      }
      if buffers[id].data.Some? {
        return Fail(StateError);
      }
      var b := buffers[id];
      StorageKeeps(buffers, nextId, groups, views, id, b.(data := Some(Zeros(b.decl.value.count))));
      buffers := buffers[id := b.(data := Some(Zeros(b.decl.value.count)))];
      r := Pass;
    }

    /** A write through the Buffer's data pointer. */
    method WriteBufferElement(id: BufferId, i: nat, value: int)
      requires Valid()
      requires id in buffers && buffers[id].data.Some? && i < |buffers[id].data.value|
      modifies this
      ensures Valid()
      ensures buffers == old(buffers)[id := old(buffers)[id].(data := Some(old(buffers)[id].data.value[i := value]))]
      ensures nextId == old(nextId) && groups == old(groups) && views == old(views)
    {
      var b := buffers[id];
      var b' := b.(data := Some(b.data.value[i := value]));
      assert BufferOk(buffers, nextId, views, id);
      StorageKeeps(buffers, nextId, groups, views, id, b');
      buffers := buffers[id := b'];
    }

    /** `createGroup(name)` under Group `parent`. */
    method CreateGroup(parent: Path, name: string) returns (r: Outcome<StoreError>)
      requires Valid()
      modifies this
      ensures Valid()
      ensures r == (if parent !in old(groups) then Fail(NotFound)
                    else if !old(NameFree(parent, name)) then Fail(DuplicateName)
                    else Pass)
      ensures groups == if r.Pass? then old(groups) + {parent + [name]} else old(groups)
      ensures buffers == old(buffers) && nextId == old(nextId) && views == old(views)
    {
      if parent !in groups {
        return Fail(NotFound);
      }
      if !NameFree(parent, name) {
        return Fail(DuplicateName);
      }
      AddGroupKeeps(buffers, nextId, groups, views, parent, name);
      groups := groups + {parent + [name]};
      r := Pass;
    }

    /**
     * Walks `rel` below Group `base`, creating every missing Group on the way,
     * as a slash-separated path in `createView`/`createGroup` does. Fails when a
     * View stands where a Group is needed; Groups created before that remain.
     */
    method MakeGroupPath(base: Path, rel: seq<string>) returns (r: Outcome<StoreError>)
      requires Valid() && base in groups
      modifies this
      ensures Valid()
      ensures r.Pass? <==> forall i :: 0 <= i <= |rel| ==> base + rel[..i] in groups
      ensures r.Pass? ==> base + rel in groups
      ensures r.Fail? ==> r.error == DuplicateName
      ensures r.Fail? ==> exists i :: 0 <= i < |rel| && ViewKey(base + rel[..i], rel[i]) in views
      ensures old(groups) <= groups
      ensures forall p :: p in groups - old(groups) ==> exists i :: 0 < i <= |rel| && p == base + rel[..i]
      ensures r.Pass? && old(base + rel in groups) ==> groups == old(groups)
      ensures buffers == old(buffers) && nextId == old(nextId) && views == old(views)
    {
      var i := 0;
      assert base + rel[..0] == base;
      while i < |rel|
        invariant Valid()
        invariant 0 <= i <= |rel|
        invariant forall j :: 0 <= j <= i ==> base + rel[..j] in groups
        invariant old(groups) <= groups
        invariant forall p :: p in groups - old(groups) ==> exists j :: 0 < j <= i && p == base + rel[..j]
        invariant old(base + rel in groups) ==> groups == old(groups)
        invariant buffers == old(buffers) && nextId == old(nextId) && views == old(views)
      {
        var parent := base + rel[..i];
        var p := base + rel[..i + 1];
        assert p == parent + [rel[i]];
        if old(base + rel in groups) {
          PrefixOfMember(base, rel, i + 1, old(groups));
        }
        ghost var before := groups;
        if p !in groups {
          if ViewKey(parent, rel[i]) in views {
            r := Fail(DuplicateName);
            assert base + rel[..i + 1] !in groups;
            assert ViewKey(base + rel[..i], rel[i]) in views;
            return;
          }
          var _ := CreateGroup(parent, rel[i]);
        }
        assert groups <= before + {p};
        forall q | q in groups - old(groups) ensures exists j :: 0 < j <= i + 1 && q == base + rel[..j] {
          if q == p {
            assert q == base + rel[..i + 1];
          } else {
            assert q in before - old(groups);
          }
        }
        i := i + 1;
      }
      assert rel[..|rel|] == rel;
      r := Pass;
    }

    /** Adds a View that uses no Buffer under a free name. */
    method AddView(g: Path, name: string, v: View) returns (r: Outcome<StoreError>)
      requires Valid() && !v.BufferView?
      modifies this
      ensures Valid()
      ensures r == (if g !in old(groups) then Fail(NotFound)
                    else if !old(NameFree(g, name)) then Fail(DuplicateName)
                    else Pass)
      ensures views == if r.Pass? then old(views)[ViewKey(g, name) := v] else old(views)
      ensures buffers == old(buffers) && nextId == old(nextId) && groups == old(groups)
    {
      if g !in groups {
        return Fail(NotFound);
      }
      if !NameFree(g, name) {
        return Fail(DuplicateName);
      }
      InsertViewKeeps(buffers, nextId, groups, views, ViewKey(g, name), v);
      views := views[ViewKey(g, name) := v];
      r := Pass;
    }

    /** `createView(name)` or `createView(name, dtype)`: an empty, possibly described View. */
    method CreateView(g: Path, name: string, desc: Option<Descriptor>) returns (r: Outcome<StoreError>)
      requires Valid()
      modifies this
      ensures Valid()
      ensures r == (if g !in old(groups) then Fail(NotFound)
                    else if !old(NameFree(g, name)) then Fail(DuplicateName)
                    else Pass)
      ensures views == if r.Pass? then old(views)[ViewKey(g, name) := EmptyView(desc)] else old(views)
      ensures buffers == old(buffers) && nextId == old(nextId) && groups == old(groups)
    {
      r := AddView(g, name, EmptyView(desc));
    }

    /** `createViewString(name, value)`. */
    method CreateViewString(g: Path, name: string, text: string) returns (r: Outcome<StoreError>)
      requires Valid()
      modifies this
      ensures Valid()
      ensures r == (if g !in old(groups) then Fail(NotFound)
                    else if !old(NameFree(g, name)) then Fail(DuplicateName)
                    else Pass)
      ensures views == if r.Pass? then old(views)[ViewKey(g, name) := StringView(text)] else old(views)
      ensures buffers == old(buffers) && nextId == old(nextId) && groups == old(groups)
    {
      r := AddView(g, name, StringView(text));
    }

    /** `createOpaqueView(name, ptr)`: binds a caller pointer; no Buffer is created. */
    method CreateOpaqueView(g: Path, name: string, ptr: Address) returns (r: Outcome<StoreError>)
      requires Valid()
      modifies this
      ensures Valid()
      ensures r == (if g !in old(groups) then Fail(NotFound)
                    else if !old(NameFree(g, name)) then Fail(DuplicateName)
                    else Pass)
      ensures views == if r.Pass? then old(views)[ViewKey(g, name) := OpaqueView(ptr)] else old(views)
      ensures buffers == old(buffers) && nextId == old(nextId) && groups == old(groups)
    {
      r := AddView(g, name, OpaqueView(ptr));
    }

    /**
     * `createViewAndAllocate(name, type, n)`: a new Buffer with the next id,
     * declared as (type, n) and allocated, and a View applied to all of it.
     */
    method CreateViewAndAllocate(g: Path, name: string, t: TypeId, n: nat) returns (r: Result<BufferId, StoreError>)
      requires Valid()
      modifies this
      ensures Valid()
      ensures r == (if g !in old(groups) then Err(NotFound)
                    else if !old(NameFree(g, name)) then Err(DuplicateName)
                    else Ok(old(nextId)))
      ensures r.Ok? ==> && nextId == old(nextId) + 1
                        && buffers == old(buffers)[r.value := Buffer(Some(Declaration(t, n)), Some(Zeros(n)), 1)]
                        && views == old(views)[ViewKey(g, name) := BufferView(r.value, Some(Compact(t, n)), true)]
      ensures r.Err? ==> buffers == old(buffers) && nextId == old(nextId) && views == old(views)
      ensures groups == old(groups)
    {
      if g !in groups {
        return Err(NotFound);
      }
      if !NameFree(g, name) {
        return Err(DuplicateName);
      }
      var id := nextId;
      var k := ViewKey(g, name);
      var b := Buffer(Some(Declaration(t, n)), Some(Zeros(n)), 0);
      NewBufferKeeps(buffers, nextId, groups, views, b);
      ExtentOfCompact(t, n);
      var buffers' := buffers[id := b];
      InsertBufferedKeeps(buffers', nextId + 1, groups, views, k, BufferView(id, Some(Compact(t, n)), true));
      assert buffers'[id := b.(numViews := 1)] == buffers[id := b.(numViews := 1)];
      buffers := buffers[id := b.(numViews := 1)];
      views := views[k := BufferView(id, Some(Compact(t, n)), true)];
      nextId := nextId + 1;
      r := Ok(id);
    }

    /** `createView(name, buffer)`: a View attached to an existing Buffer, not yet applied. */
    method CreateViewIntoBuffer(g: Path, name: string, id: BufferId) returns (r: Outcome<StoreError>)
      requires Valid()
      modifies this
      ensures Valid()
      ensures r == (if g !in old(groups) then Fail(NotFound)
                    else if !old(NameFree(g, name)) then Fail(DuplicateName)
                    else if id !in old(buffers) then Fail(NotFound)
                    else Pass)
      ensures r.Pass? ==> && views == old(views)[ViewKey(g, name) := BufferView(id, None, false)]
                          && buffers == old(buffers)[id := old(buffers)[id].(numViews := old(buffers)[id].numViews + 1)]
      ensures r.Fail? ==> buffers == old(buffers) && views == old(views)
      ensures nextId == old(nextId) && groups == old(groups)
    {
      if g !in groups {
        return Fail(NotFound);
      }
      if !NameFree(g, name) {
        return Fail(DuplicateName);
      }
      if id !in buffers {
        return Fail(NotFound);
      }
      var k := ViewKey(g, name);
      var b := buffers[id];
      InsertBufferedKeeps(buffers, nextId, groups, views, k, BufferView(id, None, false));
      buffers := buffers[id := b.(numViews := b.numViews + 1)];
      views := views[k := BufferView(id, None, false)];
      r := Pass;
    }

    /**
     * `attachBuffer(buffer)`: attaches an empty View to a Buffer; a described
     * View is applied at once when its layout fits the allocated Buffer.
     */
    method AttachBuffer(k: ViewKey, id: BufferId) returns (r: Outcome<StoreError>)
      requires Valid()
      modifies this
      ensures Valid()
      ensures r == (if k !in old(views) then Fail(NotFound)
                    else if !old(views)[k].EmptyView? then Fail(StateError)
                    else if id !in old(buffers) then Fail(NotFound)
                    else Pass)
      ensures r.Pass? ==>
        var desc := old(views)[k].desc;
        && views == old(views)[k := BufferView(id, desc, desc.Some? && Fits(desc.value, old(buffers)[id]))]
        && buffers == old(buffers)[id := old(buffers)[id].(numViews := old(buffers)[id].numViews + 1)]
      ensures r.Fail? ==> buffers == old(buffers) && views == old(views)
      ensures nextId == old(nextId) && groups == old(groups)
    {
      if k !in views {
        return Fail(NotFound);
      }
      if !views[k].EmptyView? {
        return Fail(StateError);
      }
      if id !in buffers {
        return Fail(NotFound);
      }
      var desc := views[k].desc;
      var b := buffers[id];
      var v := BufferView(id, desc, desc.Some? && Fits(desc.value, b));
      AttachKeeps(buffers, nextId, groups, views, k, v);
      buffers := buffers[id := b.(numViews := b.numViews + 1)];
      views := views[k := v];
      r := Pass;
    }

    /**
     * `apply(type, n, offset, stride)`: gives a View attached to a Buffer a
     * new layout, which must fit the allocated Buffer.
     */
    method Apply(k: ViewKey, d: Descriptor) returns (r: Outcome<StoreError>)
      requires Valid()
      modifies this
      ensures Valid()
      ensures r == (if k !in old(views) then Fail(NotFound)
                    else if !old(views)[k].BufferView? then Fail(StateError)
                    else if !Fits(d, old(AttachedBuffer(k))) then Fail(SchemaMismatch)
                    else Pass)
      ensures views == if r.Pass? then old(views)[k := BufferView(old(views)[k].buffer, Some(d), true)] else old(views)
      ensures buffers == old(buffers) && nextId == old(nextId) && groups == old(groups)
    {
      if k !in views {
        return Fail(NotFound);
      }
      if !views[k].BufferView? {
        return Fail(StateError);
      }
      assert ViewOk(groups, buffers, views, k);
      var id := views[k].buffer;
      if !Fits(d, buffers[id]) {
        return Fail(SchemaMismatch);
      }
      ReplaceViewKeeps(buffers, nextId, groups, views, k, BufferView(id, Some(d), true));
      views := views[k := BufferView(id, Some(d), true)];
      r := Pass;
    }

    /**
     * `setExternalDataPtr(ptr)` or `setExternalDataPtr(type, n, ptr)`: binds
     * caller-owned memory to an empty or external View, keeping its old
     * description when `desc` is None.
     */
    method SetExternalDataPtr(k: ViewKey, desc: Option<Descriptor>, ptr: Address) returns (r: Outcome<StoreError>)
      requires Valid()
      modifies this
      ensures Valid()
      ensures r == (if k !in old(views) then Fail(NotFound)
                    else if !(old(views)[k].EmptyView? || old(views)[k].ExternalView?) then Fail(StateError)
                    else Pass)
      ensures views == if r.Pass? then old(views)[k := ExternalView(ptr, if desc.Some? then desc else old(views)[k].desc)]
                       else old(views)
      ensures buffers == old(buffers) && nextId == old(nextId) && groups == old(groups)
    {
      if k !in views {
        return Fail(NotFound);
      }
      if !(views[k].EmptyView? || views[k].ExternalView?) {
        return Fail(StateError);
      }
      var v := ExternalView(ptr, if desc.Some? then desc else views[k].desc);
      ReplaceViewKeeps(buffers, nextId, groups, views, k, v);
      views := views[k := v];
      r := Pass;
    }

    /**
     * `reallocate(n)`: resizes the Buffer of a described View to `n` elements
     * of the View's type, keeping the common prefix. Refused when the Buffer is
     * shared with other Views, since that would change what they see.
     */
    method Reallocate(k: ViewKey, n: nat) returns (r: Outcome<StoreError>)
      requires Valid()
      modifies this
      ensures Valid()
      ensures r == (if k !in old(views) then Fail(NotFound)
                    else if !old(views)[k].BufferView? || old(views)[k].desc.None? then Fail(StateError)
                    else if old(AttachedBuffer(k)).numViews != 1 then Fail(SharedBufferError)
                    else if old(AttachedBuffer(k)).data.None? then Fail(StateError)
                    else Pass)
      ensures r.Pass? ==>
        var id := old(views)[k].buffer;
        var t := old(views)[k].desc.value.typ;
        var b := Buffer(Some(Declaration(t, n)), Some(Resized(old(AttachedBuffer(k)).data.value, n)), 1);
        && buffers == old(buffers)[id := b]
        && views == old(views)[k := BufferView(id, Some(Compact(t, n)), true)]
      ensures r.Fail? ==> buffers == old(buffers) && views == old(views)
      ensures nextId == old(nextId) && groups == old(groups)
    {
      if k !in views {
        return Fail(NotFound);
      }
      if !views[k].BufferView? || views[k].desc.None? {
        return Fail(StateError);
      }
      assert ViewOk(groups, buffers, views, k);
      var id := views[k].buffer;
      if buffers[id].numViews != 1 {
        return Fail(SharedBufferError);
      }
      if buffers[id].data.None? {
        return Fail(StateError);
      }
      var t := views[k].desc.value.typ;
      ReallocateKeeps(buffers, nextId, groups, views, k, n);
      buffers := buffers[id := Buffer(Some(Declaration(t, n)), Some(Resized(buffers[id].data.value, n)), 1)];
      views := views[k := BufferView(id, Some(Compact(t, n)), true)];
      r := Pass;
    }

    /**
     * `destroyViewAndData(name)`: removes a View and detaches it from its
     * Buffer, destroying the Buffer when no other View is attached to it.
     */
    method DestroyViewAndData(k: ViewKey) returns (r: Outcome<StoreError>)
      requires Valid()
      modifies this
      ensures Valid()
      ensures r == if k in old(views) then Pass else Fail(NotFound)
      ensures views == old(views) - {k}
      ensures buffers == if r.Pass? then BuffersAfterDestroy(old(buffers), old(views)[k]) else old(buffers)
      ensures nextId == old(nextId) && groups == old(groups)
    {
      if k !in views {
        return Fail(NotFound);
      }
      assert ViewOk(groups, buffers, views, k);
      DestroyKeeps(buffers, nextId, groups, views, k);
      if views[k].BufferView? && views[k].buffer in buffers {
        var id := views[k].buffer;
        var b := buffers[id];
        if b.numViews <= 1 {
          buffers := buffers - {id};
        } else {
          buffers := buffers[id := b.(numViews := b.numViews - 1)];
        }
      }
      views := views - {k};
      r := Pass;
    }

    /** The Buffer a View is attached to; the invariant says that it exists and holds the View's applied layout. */
    function AttachedBuffer(k: ViewKey): (b: Buffer)
      reads this
      requires Valid() && k in views && views[k].BufferView?
      ensures views[k].buffer in buffers && b == buffers[views[k].buffer]
      ensures BufferWellFormed(b)
      ensures views[k].applied ==> views[k].desc.Some? && Fits(views[k].desc.value, b)
    {
      assert ViewOk(groups, buffers, views, k);
      assert BufferOk(buffers, nextId, views, views[k].buffer);
      buffers[views[k].buffer]
    }

    /** `getNumElements()` of a Buffer: its declared element count. */
    function BufferNumElementsOf(id: BufferId): nat
      reads this
    {
      if id in buffers then BufferNumElements(buffers[id]) else 0
    }

    /** `getTotalBytes()` of a Buffer: its declared element count times the element size. */
    function BufferTotalBytesOf(id: BufferId): nat
      reads this
    {
      if id in buffers then BufferBytes(buffers[id]) else 0
    }

    /** `getNumViews()` of a Buffer. */
    function BufferNumViewsOf(id: BufferId): nat
      reads this
    {
      if id in buffers then buffers[id].numViews else 0
    }

    /** `getTypeID()` of a described View. */
    function ViewTypeId(k: ViewKey): Option<TypeId>
      reads this
    {
      if k in views && IsDescribed(views[k]) then Some(views[k].desc.value.typ) else None
    }

    /** `getNumElements()` of a View: the element count of its description. */
    function ViewNumElements(k: ViewKey): nat
      reads this
    {
      if k in views && IsDescribed(views[k]) then views[k].desc.value.count else 0
    }

    /** `getTotalBytes()` of a View: the bytes its description covers, element size times count. */
    function ViewTotalBytes(k: ViewKey): nat
      reads this
    {
      if k in views && IsDescribed(views[k]) then Bytes(views[k].desc.value.typ, views[k].desc.value.count) else 0
    }

    /** `getBuffer()->getIndex()` of a View attached to a Buffer. */
    function ViewBufferId(k: ViewKey): Option<BufferId>
      reads this
    {
      if k in views then BufferOf(views[k]) else None
    }

    /** `getOpaque()` of a View: the pointer an opaque View holds. */
    function GetOpaque(k: ViewKey): Option<Address>
      reads this
    {
      if k in views && views[k].OpaqueView? then Some(views[k].ptr) else None
    }

    /**
     * The elements a View applied to a Buffer of its own type sees:
     * element `i` is Buffer element `offset + i * stride`.
     */
    function ViewElements(k: ViewKey): (s: seq<int>)
      reads this
      requires Valid() && k in views && views[k].BufferView? && views[k].applied
      requires AttachedBuffer(k).decl.value.typ == views[k].desc.value.typ
      ensures |s| == views[k].desc.value.count
      ensures forall i :: 0 <= i < |s| ==>
        IndexOf(views[k].desc.value, i) < |AttachedBuffer(k).data.value| &&
        s[i] == AttachedBuffer(k).data.value[IndexOf(views[k].desc.value, i)]
    {
      var d := views[k].desc.value;
      var b := AttachedBuffer(k);
      FitsSameType(d, b);
      IndicesBelow(d, |b.data.value|);
      seq(d.count, i requires 0 <= i < d.count => b.data.value[IndexOf(d, i)])
    }
  }

  // Preservation of the store invariant, one lemma per kind of update.

  /** A new Buffer with no Views, stored under the next id, keeps the invariant. */
  lemma NewBufferKeeps(buffers: map<BufferId, Buffer>, nextId: BufferId, groups: set<Path>,
                       views: map<ViewKey, View>, b: Buffer)
    requires StoreInvariant(buffers, nextId, groups, views)
    requires BufferWellFormed(b) && b.numViews == 0
    ensures nextId !in buffers && ViewsOn(views, nextId) == {}
    ensures StoreInvariant(buffers[nextId := b], nextId + 1, groups, views)
  {
    assert BufferOk(buffers, nextId, views, nextId);
    forall k | k in views ensures BufferOf(views[k]) != Some(nextId) {
      assert ViewOk(groups, buffers, views, k);
    }
    assert ViewsOn(views, nextId) == {};
    var bs := buffers[nextId := b];
    var next := nextId + 1;
    forall id ensures BufferOk(bs, next, views, id) {
      assert BufferOk(buffers, nextId, views, id);
    }
    forall k ensures ViewOk(groups, bs, views, k) {
      assert ViewOk(groups, buffers, views, k);
    }
  }

  /**
   * Replacing a Buffer's declaration or storage keeps the invariant when the
   * view count stays and an allocated Buffer keeps its declaration and storage.
   */
  lemma StorageKeeps(buffers: map<BufferId, Buffer>, nextId: BufferId, groups: set<Path>,
                     views: map<ViewKey, View>, id: BufferId, nb: Buffer)
    requires StoreInvariant(buffers, nextId, groups, views)
    requires id in buffers && BufferWellFormed(nb) && nb.numViews == buffers[id].numViews
    requires buffers[id].data.Some? ==> nb.decl == buffers[id].decl && nb.data.Some?
    ensures StoreInvariant(buffers[id := nb], nextId, groups, views)
  {
    var bs := buffers[id := nb];
    forall i ensures BufferOk(bs, nextId, views, i) {
      assert BufferOk(buffers, nextId, views, i);
    }
    forall k ensures ViewOk(groups, bs, views, k) {
      assert ViewOk(groups, buffers, views, k);
    }
  }

  /** A new Group under an existing Group, in a free name, keeps the invariant. */
  lemma AddGroupKeeps(buffers: map<BufferId, Buffer>, nextId: BufferId, groups: set<Path>,
                      views: map<ViewKey, View>, parent: Path, name: string)
    requires StoreInvariant(buffers, nextId, groups, views)
    requires parent in groups && ViewKey(parent, name) !in views && parent + [name] !in groups
    ensures StoreInvariant(buffers, nextId, groups + {parent + [name]}, views)
  {
    var p := parent + [name];
    var gs := groups + {p};
    assert ParentPath(p) == parent;
    forall g ensures GroupOk(gs, g) {
      assert GroupOk(groups, g);
    }
    forall k ensures ViewOk(gs, buffers, views, k) {
      assert ViewOk(groups, buffers, views, k);
      AppendInjective(k.group, k.name, parent, name);
    }
  }

  /** A new View that uses no Buffer, placed under a free name, keeps the invariant. */
  lemma InsertViewKeeps(buffers: map<BufferId, Buffer>, nextId: BufferId, groups: set<Path>,
                        views: map<ViewKey, View>, k: ViewKey, v: View)
    requires StoreInvariant(buffers, nextId, groups, views)
    requires k !in views && k.group in groups && k.group + [k.name] !in groups
    requires !v.BufferView?
    ensures StoreInvariant(buffers, nextId, groups, views[k := v])
  {
    var vs := views[k := v];
    forall id ensures BufferOk(buffers, nextId, vs, id) {
      assert BufferOk(buffers, nextId, views, id);
      ViewsOnInsert(views, k, v, id);
    }
    forall k' ensures ViewOk(groups, buffers, vs, k') {
      assert ViewOk(groups, buffers, views, k');
    }
  }

  /**
   * A new View on an existing Buffer, placed under a free name, keeps the
   * invariant once that Buffer's view count goes up by one.
   */
  lemma InsertBufferedKeeps(buffers: map<BufferId, Buffer>, nextId: BufferId, groups: set<Path>,
                            views: map<ViewKey, View>, k: ViewKey, v: View)
    requires StoreInvariant(buffers, nextId, groups, views)
    requires k !in views && k.group in groups && k.group + [k.name] !in groups
    requires v.BufferView? && v.buffer in buffers
    requires v.applied ==> v.desc.Some? && Fits(v.desc.value, buffers[v.buffer])
    ensures StoreInvariant(buffers[v.buffer := buffers[v.buffer].(numViews := buffers[v.buffer].numViews + 1)],
                           nextId, groups, views[k := v])
  {
    var id := v.buffer;
    var bs := buffers[id := buffers[id].(numViews := buffers[id].numViews + 1)];
    var vs := views[k := v];
    forall i ensures BufferOk(bs, nextId, vs, i) {
      assert BufferOk(buffers, nextId, views, i);
      ViewsOnInsert(views, k, v, i);
      assert k !in ViewsOn(views, i);
    }
    forall k' ensures ViewOk(groups, bs, vs, k') {
      assert ViewOk(groups, buffers, views, k');
    }
  }

  /** Attaching an empty View to an existing Buffer keeps the invariant. */
  lemma AttachKeeps(buffers: map<BufferId, Buffer>, nextId: BufferId, groups: set<Path>,
                    views: map<ViewKey, View>, k: ViewKey, v: View)
    requires StoreInvariant(buffers, nextId, groups, views)
    requires k in views && views[k].EmptyView?
    requires v.BufferView? && v.buffer in buffers
    requires v.applied ==> v.desc.Some? && Fits(v.desc.value, buffers[v.buffer])
    ensures StoreInvariant(buffers[v.buffer := buffers[v.buffer].(numViews := buffers[v.buffer].numViews + 1)],
                           nextId, groups, views[k := v])
  {
    var id := v.buffer;
    var bs := buffers[id := buffers[id].(numViews := buffers[id].numViews + 1)];
    var vs := views[k := v];
    forall i ensures BufferOk(bs, nextId, vs, i) {
      assert BufferOk(buffers, nextId, views, i);
      ViewsOnFill(views, k, v, i);
    }
    forall k' ensures ViewOk(groups, bs, vs, k') {
      assert ViewOk(groups, buffers, views, k');
    }
  }

  /** Replacing a View by one on the same Buffer, if any, keeps the invariant. */
  lemma ReplaceViewKeeps(buffers: map<BufferId, Buffer>, nextId: BufferId, groups: set<Path>,
                         views: map<ViewKey, View>, k: ViewKey, v: View)
    requires StoreInvariant(buffers, nextId, groups, views)
    requires k in views && BufferOf(v) == BufferOf(views[k])
    requires v.BufferView? && v.applied ==> v.desc.Some? && v.buffer in buffers && Fits(v.desc.value, buffers[v.buffer])
    ensures StoreInvariant(buffers, nextId, groups, views[k := v])
  {
    var vs := views[k := v];
    forall i ensures BufferOk(buffers, nextId, vs, i) {
      assert BufferOk(buffers, nextId, views, i);
      ViewsOnReplace(views, k, v, i);
      assert ViewsOn(vs, i) == ViewsOn(views, i);
    }
    forall k' ensures ViewOk(groups, buffers, vs, k') {
      assert ViewOk(groups, buffers, views, k');
    }
  }

  /**
   * Resizing the Buffer of a View that is its only View, and applying the
   * View to all of it, keeps the invariant.
   */
  lemma ReallocateKeeps(buffers: map<BufferId, Buffer>, nextId: BufferId, groups: set<Path>,
                        views: map<ViewKey, View>, k: ViewKey, n: nat)
    requires StoreInvariant(buffers, nextId, groups, views)
    requires k in views && views[k].BufferView? && views[k].desc.Some?
    requires views[k].buffer in buffers
    requires buffers[views[k].buffer].numViews == 1 && buffers[views[k].buffer].data.Some?
    ensures
      var id := views[k].buffer;
      var t := views[k].desc.value.typ;
      StoreInvariant(buffers[id := Buffer(Some(Declaration(t, n)), Some(Resized(buffers[id].data.value, n)), 1)],
                     nextId, groups, views[k := BufferView(id, Some(Compact(t, n)), true)])
  {
    var id := views[k].buffer;
    var t := views[k].desc.value.typ;
    var nb := Buffer(Some(Declaration(t, n)), Some(Resized(buffers[id].data.value, n)), 1);
    var v := BufferView(id, Some(Compact(t, n)), true);
    var bs := buffers[id := nb];
    var vs := views[k := v];
    assert BufferOk(buffers, nextId, views, id);
    assert k in ViewsOn(views, id);
    SoleView(ViewsOn(views, id), k);
    ExtentOfCompact(t, n);
    forall i ensures BufferOk(bs, nextId, vs, i) {
      assert BufferOk(buffers, nextId, views, i);
      ViewsOnReplace(views, k, v, i);
      assert ViewsOn(vs, i) == ViewsOn(views, i);
    }
    forall k' ensures ViewOk(groups, bs, vs, k') {
      assert ViewOk(groups, buffers, views, k');
      assert (k' in ViewsOn(views, id)) == (k' in views && BufferOf(views[k']) == Some(id));
    }
  }

  /** The Buffers after a View is destroyed with its data. */
  function BuffersAfterDestroy(buffers: map<BufferId, Buffer>, v: View): map<BufferId, Buffer>
  {
    if v.BufferView? && v.buffer in buffers then
      if buffers[v.buffer].numViews <= 1 then buffers - {v.buffer}
      else buffers[v.buffer := buffers[v.buffer].(numViews := buffers[v.buffer].numViews - 1)]
    else buffers
  }

  /** Destroying a View with its data keeps the invariant. */
  lemma DestroyKeeps(buffers: map<BufferId, Buffer>, nextId: BufferId, groups: set<Path>,
                     views: map<ViewKey, View>, k: ViewKey)
    requires StoreInvariant(buffers, nextId, groups, views)
    requires k in views
    ensures StoreInvariant(BuffersAfterDestroy(buffers, views[k]), nextId, groups, views - {k})
  {
    assert ViewOk(groups, buffers, views, k);
    if views[k].BufferView? {
      var id := views[k].buffer;
      assert BufferOk(buffers, nextId, views, id);
      assert k in ViewsOn(views, id);
      if buffers[id].numViews <= 1 {
        DestroyLastKeeps(buffers, nextId, groups, views, k);
      } else {
        DestroySharedKeeps(buffers, nextId, groups, views, k);
      }
    } else {
      var vs := views - {k};
      forall i ensures BufferOk(buffers, nextId, vs, i) {
        assert BufferOk(buffers, nextId, views, i);
        ViewsOnRemove(views, k, i);
        assert ViewsOn(vs, i) == ViewsOn(views, i);
      }
      forall k' ensures ViewOk(groups, buffers, vs, k') {
        assert ViewOk(groups, buffers, views, k');
      }
    }
  }

  lemma DestroyLastKeeps(buffers: map<BufferId, Buffer>, nextId: BufferId, groups: set<Path>,
                         views: map<ViewKey, View>, k: ViewKey)
    requires StoreInvariant(buffers, nextId, groups, views)
    requires k in views && views[k].BufferView? && views[k].buffer in buffers
    requires buffers[views[k].buffer].numViews <= 1
    ensures StoreInvariant(buffers - {views[k].buffer}, nextId, groups, views - {k})
  {
    var id := views[k].buffer;
    var bs := buffers - {id};
    var vs := views - {k};
    assert BufferOk(buffers, nextId, views, id);
    assert k in ViewsOn(views, id);
    SoleView(ViewsOn(views, id), k);
    forall i ensures BufferOk(bs, nextId, vs, i) {
      assert BufferOk(buffers, nextId, views, i);
      ViewsOnRemove(views, k, i);
      assert ViewsOn(vs, i) == ViewsOn(views, i) - {k};
      assert i != id ==> ViewsOn(views, i) - {k} == ViewsOn(views, i);
    }
    forall k' ensures ViewOk(groups, bs, vs, k') {
      assert ViewOk(groups, buffers, views, k');
      assert (k' in ViewsOn(views, id)) == (k' in views && BufferOf(views[k']) == Some(id));
    }
  }

  lemma DestroySharedKeeps(buffers: map<BufferId, Buffer>, nextId: BufferId, groups: set<Path>,
                           views: map<ViewKey, View>, k: ViewKey)
    requires StoreInvariant(buffers, nextId, groups, views)
    requires k in views && views[k].BufferView? && views[k].buffer in buffers
    requires buffers[views[k].buffer].numViews > 1
    ensures
      var id := views[k].buffer;
      StoreInvariant(buffers[id := buffers[id].(numViews := buffers[id].numViews - 1)], nextId, groups, views - {k})
  {
    var id := views[k].buffer;
    var bs := buffers[id := buffers[id].(numViews := buffers[id].numViews - 1)];
    var vs := views - {k};
    assert BufferOk(buffers, nextId, views, id);
    assert k in ViewsOn(views, id);
    forall i ensures BufferOk(bs, nextId, vs, i) {
      assert BufferOk(buffers, nextId, views, i);
      ViewsOnRemove(views, k, i);
      assert i != id ==> ViewsOn(views, i) - {k} == ViewsOn(views, i);
    }
    forall k' ensures ViewOk(groups, bs, vs, k') {
      assert ViewOk(groups, buffers, views, k');
    }
  }

  lemma ExtentOfCompact(t: TypeId, n: nat)
    ensures Extent(Compact(t, n)) == n
    ensures Fits(Compact(t, n), Buffer(Some(Declaration(t, n)), Some(Zeros(n)), 1))
  {
  }

  /** Every element index of a layout lies below its extent. */
  lemma IndexBelowExtent(d: Descriptor, i: nat)
    requires i < d.count
    ensures IndexOf(d, i) < Extent(d)
  {
    MulMonotone(i, d.count - 1, d.stride);
  }

  /** Every element index of a layout lies below any bound on its extent. */
  lemma IndicesBelow(d: Descriptor, m: nat)
    requires Extent(d) <= m
    ensures forall i :: 0 <= i < d.count ==> IndexOf(d, i) < m
  {
    forall i | 0 <= i < d.count ensures IndexOf(d, i) < m {
      IndexBelowExtent(d, i);
    }
  }

  lemma MulMonotone(a: nat, b: nat, c: nat)
    requires a <= b
    ensures a * c <= b * c
  {
  }

  /** For a layout of the Buffer's own type, fitting means staying within its element count. */
  lemma FitsSameType(d: Descriptor, b: Buffer)
    requires BufferWellFormed(b) && b.data.Some? && b.decl.value.typ == d.typ
    ensures Fits(d, b) <==> Extent(d) <= |b.data.value|
  {
  }

  /** A path that is not a Group has no child Groups and holds no Views. */
  lemma FreshGroupEmpty(buffers: map<BufferId, Buffer>, nextId: BufferId, groups: set<Path>,
                        views: map<ViewKey, View>, g: Path, name: string)
    requires StoreInvariant(buffers, nextId, groups, views) && g !in groups
    ensures g + [name] !in groups && ViewKey(g, name) !in views
  {
    assert GroupOk(groups, g + [name]);
    assert ParentPath(g + [name]) == g;
    assert ViewOk(groups, buffers, views, ViewKey(g, name));
  }

  lemma AppendInjective(a: Path, x: string, b: Path, y: string)
    ensures a + [x] == b + [y] ==> a == b && x == y
  {
    if a + [x] == b + [y] {
      assert a == (a + [x])[..|a|];
      assert b == (b + [y])[..|b|];
    }
  }

  /** A path that extends a walked path is in the Group set, given the full path was. */
  lemma PrefixOfMember(base: Path, rel: seq<string>, i: nat, groups: set<Path>)
    requires TreeShaped(groups) && base + rel in groups && i <= |rel|
    ensures base + rel[..i] in groups
    decreases |rel| - i
  {
    if i < |rel| {
      PrefixOfMember(base, rel, i + 1, groups);
      var p := base + rel[..i + 1];
      assert GroupOk(groups, p);
      assert ParentPath(p) == base + rel[..i];
    } else {
      assert rel[..i] == rel;
    }
  }
}
