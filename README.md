# Axom core logic in Dafny

This project models eight pieces of Axom, the LLNL toolkit of computer-science infrastructure for simulation codes, and proves properties of them:

- **Sidre's data store.** A tree of Groups holding Views. Views describe windows onto Buffers: a type, a count, an offset and a stride. An opaque View or an external View points at caller memory instead. The C interface tests pin down how the store behaves (`SidreStore`, `SidreViewScenarios`).
- **The MFEM Sidre data collection.** It lays a finite-element mesh and its fields out in that tree (`MfemLayout`, `MfemCollection`):
  - file names;
  - get-or-create helpers;
  - the grow-or-reuse rule for named Buffers;
  - interleaved x/y/z coordinates;
  - vector-field components placed by node or by component;
  - the adjacency neighbour list;
  - element-shape names;
  - the dimension read back from a saved mesh.
- **Slam's unstructured hex-mesh example.** It reads the zone-to-node relation of a hexahedral mesh, then transposes it into a node-to-zone relation in compressed-row form: a "begins" vector and an "offsets" vector (`SlamRelation`).
- **Slam's subsetting policies.** Whether an ordered set is a subset of a parent set, and whether its elements all belong to that parent (`SlamSubsetting`).
- **Quest's signed-distance interface.** A module-level query object that is initialized once from a surface mesh, whose options may be set only before initialization, and that answers distance queries (`QuestSignedDistance`).
- **Klee's geometry operators.** The dimensions each operator maps between. A composite operator is an ordered list of operators; visiting an operator calls the visitor overload for its own kind (`KleeOperators`).
- **The Fortran splicer generator of Sidre's C interface.** It enumerates the (type, rank) pairs, fills the format dictionary of each pair, emits the rank-dependent routines, and lays out generic bindings across continuation lines (`FortranSplicer`).

Supporting modules:

- `Wrappers` holds `Option`, `Result` and `Outcome`.
- `Decimal` holds decimal rendering and zero padding.

I/O, MPI and foreign libraries are replaced by parameters:

- A readable STL file becomes a map from file names to surface meshes.
- A caller pointer becomes an abstract `Address`.
- The mesh file's tokens become sequences of integers.

## Model

| member | source | states |
|---|---|---|
| SidreStore.ElementBytes | src/components/sidre/tests/C_sidre_view.cpp:418-419 | each element type has its platform size: 4 bytes for int and float, 8 for long and double |
| SidreStore.Bytes | src/components/sidre/tests/C_sidre_view.cpp:418-419 | the size of `n` elements is `n` times the element size of their type |
| SidreStore.Zeros | src/components/sidre/tests/C_sidre_view.cpp:96-106 | the storage the model gives a fresh allocation: `n` elements, all zero (a modelling choice, see Left out) |
| SidreStore.Resized | src/components/sidre/tests/C_sidre_view.cpp:422-432 | reallocated storage has the new length and keeps the common prefix; the model starts the new elements at zero |
| SidreStore.DataStore.constructor | src/components/sidre/tests/C_sidre_view.cpp:19-20 | a new store has only a root Group, no Buffers and no Views, and the next id is 0 |
| SidreStore.DataStore.CreateBuffer | src/components/sidre/tests/C_sidre_view.cpp:93 | a new undescribed, unallocated Buffer with no Views gets the next id, and ids go up by one |
| SidreStore.DataStore.DeclareBuffer | src/components/sidre/tests/C_sidre_view.cpp:95 | an unallocated Buffer records type and count; declaring an allocated or unknown Buffer is an error that changes nothing |
| SidreStore.DataStore.AllocateBuffer | src/components/sidre/tests/C_sidre_view.cpp:96-106 | a declared Buffer gets storage of its declared count (zero-filled in the model), so it holds n elements of n * sizeof(type) bytes; the error cases change nothing |
| SidreStore.DataStore.WriteBufferElement | src/components/sidre/tests/C_sidre_view.cpp:99-102 | a write through the data pointer changes exactly one element of one Buffer |
| SidreStore.DataStore.CreateGroup | src/components/sidre/tests/C_sidre_view.cpp:243 | a child Group is added under an existing Group when the name is free; otherwise an error that changes nothing |
| SidreStore.DataStore.MakeGroupPath | src/axom/sidre/core/MFEMSidreDataCollection.cpp:305 | every Group along a slash-separated path exists afterwards, unless a View is in the way; Views and Buffers never change |
| SidreStore.DataStore.AddView | src/axom/sidre/core/MFEMSidreDataCollection.cpp:130 | the new View is stored under its free name and nothing else changes; a name already in use is an error |
| SidreStore.DataStore.CreateView | src/axom/sidre/core/MFEMSidreDataCollection.cpp:128-131 | an empty View, with or without a description, stored under a free name |
| SidreStore.DataStore.CreateViewString | src/axom/sidre/core/MFEMSidreDataCollection.cpp:297 | a string View holding the given text |
| SidreStore.DataStore.CreateOpaqueView | src/components/sidre/tests/C_sidre_view.cpp:468-471 | an opaque View of the pointer; the set of Buffers is unchanged |
| SidreStore.DataStore.CreateViewAndAllocate | src/components/sidre/tests/C_sidre_view.cpp:22-33 | a new Buffer under the next id, declared and allocated (zero-filled in the model), with one View applied compactly to all of it |
| SidreStore.DataStore.CreateViewIntoBuffer | src/components/sidre/tests/C_sidre_view.cpp:109-115 | a View attached to an existing Buffer but not applied; the Buffer's view count goes up by one |
| SidreStore.DataStore.AttachBuffer | src/axom/sidre/core/MFEMSidreDataCollection.cpp:324 | an empty View is attached to the Buffer and the Buffer's view count goes up by one; a described View is applied when its layout fits |
| SidreStore.DataStore.Apply | src/components/sidre/tests/C_sidre_view.cpp:117-118 | a View attached to a Buffer takes the given count, offset and stride when the layout fits the allocation; otherwise an error that changes nothing |
| SidreStore.DataStore.SetExternalDataPtr | src/axom/sidre/core/MFEMSidreDataCollection.cpp:338 | an empty or external View becomes external over the pointer, keeping its description when none is given |
| SidreStore.DataStore.Reallocate | src/components/sidre/tests/C_sidre_view.cpp:422-423 | the sole View of a Buffer resizes it to n elements of its type, keeping the prefix, and is applied to all of it; a shared Buffer is refused |
| SidreStore.DataStore.DestroyViewAndData | src/axom/sidre/core/MFEMSidreDataCollection.cpp:232 | the View is removed and its Buffer loses one view; the Buffer is destroyed when that was its last View |
| SidreStore.DataStore.AttachedBuffer | src/components/sidre/tests/C_sidre_view.cpp:29-30 | the Buffer of an applied View is in the pool and holds the View's layout |
| SidreStore.DataStore.ViewElements | src/components/sidre/tests/C_sidre_view.cpp:125-131 | element i of an applied View is Buffer element offset + i * stride |
| SidreStore.NewBufferKeeps | src/components/sidre/tests/C_sidre_view.cpp:93 | adding a Buffer with no Views keeps the store invariant |
| SidreStore.StorageKeeps | src/components/sidre/tests/C_sidre_view.cpp:95-96 | declaring or allocating a Buffer keeps the store invariant |
| SidreStore.AddGroupKeeps | src/components/sidre/tests/C_sidre_view.cpp:243 | adding a Group keeps the store invariant |
| SidreStore.InsertViewKeeps | src/components/sidre/tests/C_sidre_view.cpp:468 | adding a View that uses no Buffer keeps the store invariant |
| SidreStore.InsertBufferedKeeps | src/components/sidre/tests/C_sidre_view.cpp:109-112 | adding a View on a Buffer, and counting it, keeps the store invariant |
| SidreStore.AttachKeeps | src/axom/sidre/core/MFEMSidreDataCollection.cpp:324 | attaching an empty View keeps the store invariant |
| SidreStore.ReplaceViewKeeps | src/components/sidre/tests/C_sidre_view.cpp:117-118 | re-describing a View on the same Buffer keeps the store invariant |
| SidreStore.ReallocateKeeps | src/components/sidre/tests/C_sidre_view.cpp:422-423 | resizing the Buffer of a sole View keeps the store invariant |
| SidreStore.DestroyKeeps | src/axom/sidre/core/MFEMSidreDataCollection.cpp:232 | destroying a View with its data keeps the store invariant |
| SidreStore.DestroyLastKeeps | src/axom/sidre/core/MFEMSidreDataCollection.cpp:232 | destroying the last View of a Buffer removes the Buffer and keeps the invariant |
| SidreStore.DestroySharedKeeps | src/axom/sidre/core/MFEMSidreDataCollection.cpp:232 | destroying one of several Views of a Buffer keeps the Buffer and the invariant |
| SidreViewScenarios.Fill | src/components/sidre/tests/C_sidre_view.cpp:434-443 | the write loop replaces the Buffer elements from `start` on by the values and changes nothing else |
| SidreViewScenarios.CreateViews | src/components/sidre/tests/C_sidre_view.cpp:17-35 | two allocated Views get Buffer ids 0 and 1 |
| SidreViewScenarios.IntBufferFromView | src/components/sidre/tests/C_sidre_view.cpp:39-85 | a View of 10 ints has type int, 40 bytes, and sees the squares written into it |
| SidreViewScenarios.NewIntBuffer | src/components/sidre/tests/C_sidre_view.cpp:93-102 | create, declare, allocate and write give one Buffer holding exactly the values |
| SidreViewScenarios.ViewIntoBuffer | src/components/sidre/tests/C_sidre_view.cpp:109-118 | a View created into a Buffer and applied sees the elements its layout selects, and the Buffer counts one more View |
| SidreViewScenarios.IntArrayMultiView | src/components/sidre/tests/C_sidre_view.cpp:89-162 | 40 bytes; view counts 2 then 4; the even Views see 0, 2, ..., 8, and the odd Views see 1, 3, ..., 9 |
| SidreViewScenarios.IntArrayDepthView | src/components/sidre/tests/C_sidre_view.cpp:166-220 | 40 elements and 4 Views; every element of depth View d is d |
| SidreViewScenarios.AllocatedView | src/components/sidre/tests/C_sidre_view.cpp:245-269 | an allocated View written with values is the only View of a new Buffer holding exactly those values |
| SidreViewScenarios.IntArrayMultiViewResize | src/components/sidre/tests/C_sidre_view.cpp:224-270 | Group r_old is created, and its base View holds 1, 2, 3 and 4 in sections of 10 |
| SidreViewScenarios.ReallocateAndRead | src/components/sidre/tests/C_sidre_view.cpp:422-446 | after reallocation a View sees the resized storage and covers n * sizeof(type) bytes |
| SidreViewScenarios.FillAndRead | src/components/sidre/tests/C_sidre_view.cpp:434-446 | writes through a compact View's data pointer replace the elements from `start` on, and the View then reads the new contents and keeps its size |
| SidreViewScenarios.IntArrayRealloc | src/components/sidre/tests/C_sidre_view.cpp:390-452 | 20 bytes each before; after reallocation the prefix holds 5 and -5 (the new elements are the model's zeros); after the writes of 10, -10 and -15 the Views hold 5 x 5 then 5 x 10, and -5, -10, -15 in runs of five; the sizes are 40 and 60 bytes |
| SidreViewScenarios.SimpleOpaque | src/components/sidre/tests/C_sidre_view.cpp:456-484 | an opaque View needs no Buffer, is opaque, and returns the pointer it was given |
| Decimal.DigitChar | src/axom/sidre/core/MFEMSidreDataCollection.cpp:197-198 | a digit below ten renders as a decimal digit character |
| Decimal.NatToString | src/axom/sidre/core/MFEMSidreDataCollection.cpp:197-198 | a cycle renders as a non-empty string of digits |
| Decimal.ValueOfNatToString | src/axom/sidre/core/MFEMSidreDataCollection.cpp:197-198 | the digits read back give the number |
| Decimal.NatToStringInjective | src/axom/sidre/core/MFEMSidreDataCollection.cpp:197-198 | different numbers render differently |
| Decimal.Repeat | src/axom/sidre/core/MFEMSidreDataCollection.cpp:197 | n copies of the fill character |
| Decimal.ZeroPad | src/axom/sidre/core/MFEMSidreDataCollection.cpp:197 | zero padding to a width gives at least that many characters and ends with the given text |
| Decimal.ValueLeadingZero | src/axom/sidre/core/MFEMSidreDataCollection.cpp:197 | a leading zero does not change a digit string's value |
| Decimal.ValueOfZeroPad | src/axom/sidre/core/MFEMSidreDataCollection.cpp:197 | zero padding does not change a digit string's value |
| MfemLayout.FilePathParts | src/axom/sidre/core/MFEMSidreDataCollection.cpp:188-202 | the path is prefix + filename; for a cycle of at least 0, "_" and at least padDigits digits whose value is the cycle follow, and otherwise nothing does |
| MfemLayout.Split | src/axom/sidre/core/MFEMSidreDataCollection.cpp:197 | the pieces of prefix + "_" + digits can be taken apart again |
| MfemLayout.FilePathInjective | src/axom/sidre/core/MFEMSidreDataCollection.cpp:195-198 | different cycles at or above 0 give different file paths |
| MfemLayout.ElementName | src/axom/sidre/core/MFEMSidreDataCollection.cpp:1272-1298 | the six named shapes map to point/line/tri/quad/tet/hex, other shapes map to "unknown", and a known name reads back as the shape's geometry |
| MfemLayout.GeometryFromName | src/axom/sidre/core/MFEMSidreDataCollection.cpp:1300-1319 | the six Blueprint names map to their geometries, and any other string is invalid |
| MfemLayout.ElementNameInjective | src/axom/sidre/core/MFEMSidreDataCollection.cpp:1279-1318 | distinct named shapes get distinct names |
| MfemLayout.CoordDescriptor | src/axom/sidre/core/MFEMSidreDataCollection.cpp:299-316 | coordinate c is numVertices doubles from element c with stride 3 |
| MfemLayout.CoordsInterleave | src/axom/sidre/core/MFEMSidreDataCollection.cpp:289-316 | the coordinate layouts never share an element of the vertex Buffer, and element j holds coordinate j % 3 of vertex j / 3 |
| MfemLayout.CoordsCover | src/axom/sidre/core/MFEMSidreDataCollection.cpp:289-292 | every element of the 3 * numVertices Buffer belongs to some coordinate |
| MfemLayout.ComponentStep | src/axom/sidre/core/MFEMSidreDataCollection.cpp:971 | each component starts one component stride after the previous one |
| MfemLayout.ComponentsPartition | src/axom/sidre/core/MFEMSidreDataCollection.cpp:952-972 | by node or by component, every entry of every component lies inside the field's vdim * ndof elements from offset, and no two entries share an element |
| MfemLayout.ComponentExtent | src/axom/sidre/core/MFEMSidreDataCollection.cpp:929-931 | every component layout ends within offset + vdim * ndof |
| MfemLayout.MixedRadixBound | src/axom/sidre/core/MFEMSidreDataCollection.cpp:953-954 | a component index and an entry index combine below vdim * ndof |
| MfemLayout.MixedRadixUnique | src/axom/sidre/core/MFEMSidreDataCollection.cpp:953-954 | the combined index determines the component and the entry |
| MfemLayout.RemoteRanks | src/axom/sidre/core/MFEMSidreDataCollection.cpp:539-550 | the neighbour ranks with the local domain dropped: as many as the non-local entries, in list order |
| MfemLayout.RemoteRanksMembers | src/axom/sidre/core/MFEMSidreDataCollection.cpp:539-550 | a rank is in the output if and only if a non-local neighbour has it |
| MfemLayout.RemotePrefix | src/axom/sidre/core/MFEMSidreDataCollection.cpp:541-549 | the write index ni - noff never passes the number of non-local entries seen |
| MfemLayout.CompactNeighbors | src/axom/sidre/core/MFEMSidreDataCollection.cpp:531-550 | the loop writes the remote ranks densely, in order, into an array of length num_gneighbors - 1; the remaining slots stay zero |
| MfemCollection.ComponentNameInjective | src/axom/sidre/core/MFEMSidreDataCollection.cpp:968 | different components get different View names x<d> |
| MfemCollection.DataCollection.constructor | src/axom/sidre/core/MFEMSidreDataCollection.cpp:68-86 | the collection keeps the store, the Blueprint Group and the named-buffers Group it is given |
| MfemCollection.DataCollection.AllocView | src/axom/sidre/core/MFEMSidreDataCollection.cpp:123-141 | get-or-create: a missing View is created empty, and an existing one is left as it is, so a second call adds nothing |
| MfemCollection.DataCollection.AllocViewTyped | src/axom/sidre/core/MFEMSidreDataCollection.cpp:144-164 | get-or-create with a description: a missing View is created with it, and an existing View must already have it |
| MfemCollection.DataCollection.AllocGroup | src/axom/sidre/core/MFEMSidreDataCollection.cpp:167-185 | get-or-create for a Group: afterwards the child exists, and nothing else changes |
| MfemCollection.DataCollection.AllocNamedBuffer | src/axom/sidre/core/MFEMSidreDataCollection.cpp:204-238 | a negative size counts as 0; an applied View of at least that size is reused unchanged; otherwise the View is destroyed and recreated with exactly that size; either way it is applied with at least that size |
| MfemCollection.DataCollection.ReconstructedDimension | src/axom/sidre/core/MFEMSidreDataCollection.cpp:1367-1377 | 3 if the z View exists, else 2 if the y View exists, else 1 |
| MfemCollection.DataCollection.CreateMeshBlueprintStubs | src/axom/sidre/core/MFEMSidreDataCollection.cpp:241-249 | without Blueprint data, the four stub Groups state, coordsets, topologies and fields are created below the Blueprint Group; with it, nothing changes |
| MfemCollection.DataCollection.CreateCoordsetType | src/axom/sidre/core/MFEMSidreDataCollection.cpp:297 | the path's missing Groups are created, whether or not the coordsets stub already exists, and the type View holds "explicit" |
| MfemCollection.DataCollection.CreateCoordViews | src/axom/sidre/core/MFEMSidreDataCollection.cpp:299-316 | one described View per coordinate below the dimension, with the interleaved layout; y only from dimension 2 and z only from 3 |
| MfemCollection.DataCollection.AttachCoordViews | src/axom/sidre/core/MFEMSidreDataCollection.cpp:318-333 | each coordinate View below the dimension is attached to the vertex Buffer, which counts one View more for each |
| MfemCollection.DataCollection.SetExternalCoords | src/axom/sidre/core/MFEMSidreDataCollection.cpp:334-347 | each coordinate View below the dimension is bound to the mesh's vertex array with its own layout |
| MfemCollection.DataCollection.CreateMeshBlueprintCoordset | src/axom/sidre/core/MFEMSidreDataCollection.cpp:283-348 | with an owned mesh, the coordinate Views share the Buffer "vertex_coords" of at least 3 * numVertices doubles; otherwise they bind the vertex array; the dimension read back is the mesh dimension; the coordsets stub may already exist |
| MfemCollection.DataCollection.SetMeshBlueprint | src/axom/sidre/core/MFEMSidreDataCollection.cpp:600-612 | the stubs and then the coordset, as SetMesh calls them: without Blueprint data, the stub and coordset Groups exist, the type is "explicit", coordinate Views exist exactly below the dimension, a Buffer is made exactly when the mesh owns its data, and the dimension read back is the mesh dimension; with Blueprint data, Groups and Views are unchanged |
| MfemCollection.DataCollection.BindScalarValues | src/axom/sidre/core/MFEMSidreDataCollection.cpp:876-901 | values is got or created; an empty values is attached to the named Buffer with (double, numDofs, offset) and the Buffer counts one more View; without a named Buffer, an empty or external values is bound to the grid function's data; a values View that cannot take the data is left as it was; no other View changes |
| MfemCollection.DataCollection.AddScalarBasedGridFunction | src/axom/sidre/core/MFEMSidreDataCollection.cpp:850-910 | values is attached with (double, numDofs, offset) to the named Buffer if it was empty, and otherwise bound to the grid function's data; a non-empty values View the data cannot go into is unchanged; when the function has no data the named View holds at least offset + numDofs doubles from element 0; no View but values and the named one changes, and no Buffer but the named View's old and new Buffers |
| MfemCollection.DataCollection.ComponentKeysDistinct | src/axom/sidre/core/MFEMSidreDataCollection.cpp:966-984 | the component Views of a field are distinct Views |
| MfemCollection.DataCollection.AttachedComponentsAt | src/axom/sidre/core/MFEMSidreDataCollection.cpp:966-972 | after the named-Buffer loop, component j is unchanged if it was already attached; otherwise it is applied to the Buffer with its layout |
| MfemCollection.DataCollection.BoundComponentsAt | src/axom/sidre/core/MFEMSidreDataCollection.cpp:978-984 | after the external loop, component j is bound to the data with its layout unless it holds a Buffer |
| MfemCollection.DataCollection.AttachedFrame | src/axom/sidre/core/MFEMSidreDataCollection.cpp:966-972 | the named-Buffer loop does not touch components it has not reached |
| MfemCollection.DataCollection.BoundFrame | src/axom/sidre/core/MFEMSidreDataCollection.cpp:978-984 | the external loop does not touch components it has not reached |
| MfemCollection.DataCollection.AttachComponents | src/axom/sidre/core/MFEMSidreDataCollection.cpp:964-972 | the loop with its running offset gives every component the layout from offset + d * vdim_stride and attaches it |
| MfemCollection.DataCollection.AttachComponent | src/axom/sidre/core/MFEMSidreDataCollection.cpp:968-970 | one step: get or create the component View, then attach it |
| MfemCollection.DataCollection.BindComponents | src/axom/sidre/core/MFEMSidreDataCollection.cpp:978-984 | the loop gives every component the layout from d * vdim_stride and binds it to the grid function's data |
| MfemCollection.DataCollection.BindComponent | src/axom/sidre/core/MFEMSidreDataCollection.cpp:980-982 | one step: get or create the component View, then bind it |
| MfemCollection.DataCollection.AddVectorBasedGridFunction | src/axom/sidre/core/MFEMSidreDataCollection.cpp:913-1001 | the values Group holds one View x<d> per component with the byNODES/byVDIM strides, attached to the named Buffer or bound to the data; no other View changes |
| SlamRelation.ZoneNodes | src/components/slam/examples/UnstructMeshField.cpp:294-299 | zone z's nodes are the eight offsets from 8 * z |
| SlamRelation.InsertZone | src/components/slam/examples/UnstructMeshField.cpp:294-299 | inserting a zone appends it to each of its nodes' lists and to no other list |
| SlamRelation.Transposed | src/components/slam/examples/UnstructMeshField.cpp:289-310 | the dynamic relation has one list per node |
| SlamRelation.InsertZoneCount | src/components/slam/examples/UnstructMeshField.cpp:294-299 | after an insertion, node n's list holds zone y once more for each time n is among the zone's nodes |
| SlamRelation.TransposedCount | src/components/slam/examples/UnstructMeshField.cpp:289-310 | counting multiplicity, zone y is in node n's list exactly as often as n is among the nodes of y |
| SlamRelation.TransposedZonesInRange | src/components/slam/examples/UnstructMeshField.cpp:289-310 | every listed zone is one of the zones inserted |
| SlamRelation.FlatAppend | src/components/slam/examples/UnstructMeshField.cpp:297-298 | one insertion adds one entry to the relation |
| SlamRelation.InsertZoneSize | src/components/slam/examples/UnstructMeshField.cpp:294-299 | inserting a zone adds one entry per node of the zone |
| SlamRelation.FlatEmpty | src/components/slam/examples/UnstructMeshField.cpp:287 | the fresh dynamic relation is empty |
| SlamRelation.TransposedSize | src/components/slam/examples/UnstructMeshField.cpp:288-310 | the relation holds exactly numZonesOfNode = 8 * numZones entries |
| SlamRelation.FlatSnoc | src/components/slam/examples/UnstructMeshField.cpp:323-331 | flattening one more list appends that list |
| SlamRelation.FlatPrefix | src/components/slam/examples/UnstructMeshField.cpp:323-331 | the flattening of a prefix of lists is a prefix of the flattening |
| SlamRelation.CompressedRows | src/components/slam/examples/UnstructMeshField.cpp:320-338 | the begins vector starts at 0, never decreases, ends at the entry count, and row n of the offsets is list n |
| SlamRelation.ZonesOfNodes | src/components/slam/examples/UnstructMeshField.cpp:287-311 | step 1 builds the transposed relation and counts 8 * numZones insertions |
| SlamRelation.Linearize | src/components/slam/examples/UnstructMeshField.cpp:316-338 | step 2 fills begins with the row starts and offsets with the flattened lists; the count ends at numZonesOfNode |
| SlamRelation.CellNodes | src/components/slam/examples/UnstructMeshField.cpp:240-251 | the nodes read from the cell records, eight per zone, in order |
| SlamRelation.CellNodesOfZone | src/components/slam/examples/UnstructMeshField.cpp:240-251 | zone z of the relation read has exactly the nodes of the z-th cell record |
| SlamRelation.SliceOfConcat | src/components/slam/examples/UnstructMeshField.cpp:249 | a slice inside the first part of a concatenation is a slice of that part |
| SlamRelation.ConstantBegins | src/components/slam/examples/UnstructMeshField.cpp:228-232 | the begins vector of the branch compiled without USE_CONSTANT_RELATION: numZones + 1 entries, entry i equal to 8 * i, the row starts of the stride-8 relation the live build uses |
| SlamRelation.HexMesh.constructor | src/components/slam/examples/UnstructMeshField.cpp:82-139 | an empty mesh with no nodes and no zones |
| SlamRelation.HexMesh.LoadNodes | src/components/slam/examples/UnstructMeshField.cpp:175-182 | the node set gets the number of nodes read |
| SlamRelation.HexMesh.LoadHexToNodesRelation | src/components/slam/examples/UnstructMeshField.cpp:194-264 | fails unless listSize - numZones == 8 * numZones, every record has 8 nodes, and every node is in range; on success zone z has the z-th record's nodes and all offsets are filled |
| SlamRelation.HexMesh.GenerateNodeZoneRelation | src/components/slam/examples/UnstructMeshField.cpp:277-341 | begins has numNodes + 1 entries, starts at 0, never decreases and ends at the incidence count; node n's row lists, in zone order, the zones having n as a node, as often as n occurs in each |
| SlamRelation.TransposedEntries | src/components/slam/examples/UnstructMeshField.cpp:311 | the transposed relation has one entry per incidence, each a zone of the mesh |
| SlamRelation.CompressedRowsOf | src/components/slam/examples/UnstructMeshField.cpp:332-337 | begins vectors of row starts cut the offsets back into the original lists |
| SlamRelation.BeginsMonotone | src/components/slam/examples/UnstructMeshField.cpp:325 | row starts never decrease |
| SlamRelation.TransposedCounts | src/components/slam/examples/UnstructMeshField.cpp:289-331 | zone z is in node n's row as often as n is a node of z |
| SlamRelation.RowStartMonotone | src/components/slam/examples/UnstructMeshField.cpp:325-329 | a later row starts no earlier than an earlier one |
| SlamRelation.FlatInRange | src/components/slam/examples/UnstructMeshField.cpp:337 | flattening lists of valid indices gives valid indices |
| SlamSubsetting.ChildWithinParent | src/components/slam/src/policies/SubsettingPolicies.hpp:81-106 | true exactly when every child element is an element of the parent; an empty child is valid |
| SlamSubsetting.EmptyParentRejects | src/components/slam/src/policies/SubsettingPolicies.hpp:86-89 | a non-empty child is never within an empty parent |
| SlamSubsetting.NoSubset.IsValid | src/components/slam/src/policies/SubsettingPolicies.hpp:52-56 | always valid; not a subset; no parent |
| SlamSubsetting.ConcreteParentSubset.IsValid | src/components/slam/src/policies/SubsettingPolicies.hpp:123-161 | valid exactly when the parent is null or every child element is in the parent |
| SlamSubsetting.DefaultConcreteParentSubset | src/components/slam/src/policies/SubsettingPolicies.hpp:118 | the default parent is null, so the set is not a subset |
| SlamSubsetting.VirtualParentSubset.IsSubsetAsWritten | src/components/slam/src/policies/SubsettingPolicies.hpp:70 | dereferencing a null parent is an error; otherwise a subset exactly when the parent holds elements, unlike the null set |
| SlamSubsetting.VirtualParentSubset.IsValidAsWritten | src/components/slam/src/policies/SubsettingPolicies.hpp:75-107 | as written: a null parent fails in isSubset before the null check; otherwise valid exactly when not a subset or every child element is in the parent |
| SlamSubsetting.VirtualParentSubset.IsValid | src/components/slam/src/policies/SubsettingPolicies.hpp:77-107 | with the null check first: valid exactly when the parent is null, the set is not a subset, or every child element is in the parent |
| SlamSubsetting.DefaultVirtualParentSubset | src/components/slam/src/policies/SubsettingPolicies.hpp:65 | the default parent is the null set, so the set is not a subset |
| SlamSubsetting.NullCheckUnreachable | src/components/slam/src/policies/SubsettingPolicies.hpp:78 | whenever the subset test succeeds the pointer is not null, so the null check never holds |
| QuestSignedDistance.OnlyWatertight | src/components/quest/src/interface/signed_distance.hpp:104-108 | WATERTIGHT is the only geometry type below NUM_GEOMETRY_TYPES |
| QuestSignedDistance.SignedDistanceQuery.constructor | src/components/quest/tests/quest_signed_distance_interface.cpp:142 | the query starts uninitialized, in three dimensions, watertight and not verbose |
| QuestSignedDistance.SignedDistanceQuery.Initialized | src/components/quest/src/interface/signed_distance.hpp:161 | true exactly when a surface mesh is held |
| QuestSignedDistance.SignedDistanceQuery.InitFromFile | src/components/quest/src/interface/signed_distance.hpp:121-132 | returns 0 exactly when the file name is non-empty and readable, and then holds that mesh; otherwise returns non-zero and changes nothing |
| QuestSignedDistance.SignedDistanceQuery.InitFromMesh | src/components/quest/src/interface/signed_distance.hpp:141-153 | returns 0 and is initialized with the mesh; options unchanged |
| QuestSignedDistance.SignedDistanceQuery.SetDimension | src/components/quest/src/interface/signed_distance.hpp:185-187 | fails exactly after init, changing nothing; otherwise sets the dimension only |
| QuestSignedDistance.SignedDistanceQuery.SetGeometry | src/components/quest/src/interface/signed_distance.hpp:193-198 | fails exactly after init, changing nothing; otherwise sets the geometry only |
| QuestSignedDistance.SignedDistanceQuery.SetMaxLevels | src/components/quest/src/interface/signed_distance.hpp:204-206 | fails exactly after init, changing nothing; otherwise sets the maximum levels only |
| QuestSignedDistance.SignedDistanceQuery.SetMaxOccupancy | src/components/quest/src/interface/signed_distance.hpp:214-218 | requires a threshold of at least 1; fails exactly after init; otherwise sets the occupancy only |
| QuestSignedDistance.SignedDistanceQuery.SetVerbose | src/components/quest/src/interface/signed_distance.hpp:224-229 | fails exactly after init, changing nothing; otherwise sets verbosity only |
| QuestSignedDistance.SignedDistanceQuery.GetMeshBounds | src/components/quest/src/interface/signed_distance.hpp:170-175 | fails exactly when not initialized or lo or hi is null; otherwise copies the mesh bounds into lo and hi |
| QuestSignedDistance.SignedDistanceQuery.Evaluate | src/components/quest/src/interface/signed_distance.hpp:245 | an error before init; otherwise the mesh's signed distance at the point |
| QuestSignedDistance.SignedDistanceQuery.EvaluateXY | src/components/quest/src/interface/signed_distance.hpp:245 | the two-coordinate call evaluates at z = 0.0: an error before init, otherwise the mesh's signed distance at (x, y, 0) |
| QuestSignedDistance.SignedDistanceQuery.EvaluateBatch | src/components/quest/src/interface/signed_distance.hpp:256-265 | fails before init, leaving phi unchanged; otherwise phi[i] is the distance at point i for every i below npoints, and the rest of phi is unchanged |
| QuestSignedDistance.SignedDistanceQuery.Finalize | src/components/quest/src/interface/signed_distance.hpp:273-276 | afterwards not initialized; options kept |
| QuestSignedDistance.CopyInto | src/components/quest/src/interface/signed_distance.hpp:170-175 | the array's prefix holds the values, and its other elements are unchanged |
| QuestSignedDistance.GetMeshBoundsInvalidCalls | src/components/quest/tests/quest_signed_distance_interface.cpp:140-174 | bounds fail before init, and after init with a null lo or hi |
| QuestSignedDistance.CallEvaluateBeforeInit | src/components/quest/tests/quest_signed_distance_interface.cpp:177-190 | single and batch evaluation fail before init |
| QuestSignedDistance.SetParamsAfterInit | src/components/quest/tests/quest_signed_distance_interface.cpp:193-232 | every setter fails after init |
| QuestSignedDistance.Initialize | src/components/quest/tests/quest_signed_distance_interface.cpp:235-265 | init("") and init of a missing file fail and leave the query uninitialized; a valid init returns 0 and initializes; finalize uninitializes |
| QuestSignedDistance.GetMeshBoundsAfterInit | src/components/quest/tests/quest_signed_distance_interface.cpp:268-302 | after init the bounds equal the mesh's bounds |
| KleeOperators.Operator.StartDims | src/axom/klee/tests/klee_geometry_operators.cpp:88-95 | a slice starts in three dimensions; other fixed-kind operators start in their constructor's dimensions |
| KleeOperators.Operator.EndDims | src/axom/klee/tests/klee_geometry_operators.cpp:117-124 | a slice ends in two dimensions; other fixed-kind operators end in their constructor's dimensions |
| KleeOperators.OnlySliceChangesDimensions | src/axom/klee/tests/klee_geometry_operators.cpp:340-341 | among fixed-kind operators, start differs from end exactly for a slice, which goes from three to two |
| KleeOperators.ListStartDims | src/axom/klee/tests/klee_geometry_operators.cpp:282-297 | an empty list is an error; otherwise the first operator's start |
| KleeOperators.ListEndDims | src/axom/klee/tests/klee_geometry_operators.cpp:282-319 | an empty list is an error; otherwise the last operator's end |
| KleeOperators.AppendDims | src/axom/klee/tests/klee_geometry_operators.cpp:301-319 | appending keeps a non-empty list's start, and the list then ends where the appended part ends |
| KleeOperators.SingletonDims | src/axom/klee/tests/klee_geometry_operators.cpp:296-299 | a one-operator list starts and ends where that operator does |
| KleeOperators.NestedDims | src/axom/klee/tests/klee_geometry_operators.cpp:289-319 | a composite of non-empty composites, and the flat list of all their operators, start where the first inner composite starts and end where the last one ends |
| KleeOperators.CompositeOperator.constructor | src/axom/klee/tests/klee_geometry_operators.cpp:283-286 | a new composite has no operators |
| KleeOperators.CompositeOperator.AddOperator | src/axom/klee/tests/klee_geometry_operators.cpp:295 | the operator is appended after those already added |
| KleeOperators.CompositeOperator.GetOperators | src/axom/klee/tests/klee_geometry_operators.cpp:300 | the operators in insertion order |
| KleeOperators.CompositeOperator.StartDims | src/axom/klee/tests/klee_geometry_operators.cpp:284 | throws when empty; otherwise the first operator's start |
| KleeOperators.CompositeOperator.EndDims | src/axom/klee/tests/klee_geometry_operators.cpp:285 | throws when empty; otherwise the last operator's end |
| KleeOperators.RecordingVisitor.constructor | src/axom/klee/tests/klee_geometry_operators.cpp:112 | a new visitor has recorded no calls |
| KleeOperators.RecordingVisitor.Visit | src/axom/klee/tests/klee_geometry_operators.cpp:113 | records one call |
| KleeOperators.Accept | src/axom/klee/tests/klee_geometry_operators.cpp:223-229 | exactly one call, to the overload of the operator's own kind, with the operator itself |
| KleeOperators.AcceptComposite | src/axom/klee/tests/klee_geometry_operators.cpp:324-330 | exactly one call, to the composite overload, with the composite itself |
| KleeOperators.EmptyComposite | src/axom/klee/tests/klee_geometry_operators.cpp:282-287 | an empty composite has no start, no end and no operators |
| KleeOperators.AddOperators | src/axom/klee/tests/klee_geometry_operators.cpp:289-321 | after adding 2-to-3, 3-to-3 and 3-to-2 operators, the composite starts in two, ends in two, and lists them in order |
| FortranSplicer.NumMetabuffers | src/components/sidre/src/capi/genfsidresplicer.py:19-20 | four types times two ranks: 8 |
| FortranSplicer.Fields | src/components/sidre/src/capi/genfsidresplicer.py:133-137 | formatting succeeds exactly when every key is in the dictionary, giving the rendered values in order; otherwise a KeyError for the first missing key |
| FortranSplicer.Colons | src/components/sidre/src/capi/genfsidresplicer.py:152-153 | n colon entries |
| FortranSplicer.LBounds | src/components/sidre/src/capi/genfsidresplicer.py:152-154 | entry k is "lbound(value,k+1)" |
| FortranSplicer.Entries | src/components/sidre/src/capi/genfsidresplicer.py:159-186 | the enumeration has NumMetabuffers dictionaries |
| FortranSplicer.EntryAt | src/components/sidre/src/capi/genfsidresplicer.py:160-186 | dictionary t * 2 + r is the dictionary of type t and rank r |
| FortranSplicer.SetRankTwice | src/components/sidre/src/capi/genfsidresplicer.py:171-185 | setting the rank keys twice keeps only the second setting |
| FortranSplicer.SetTypeOverRank | src/components/sidre/src/capi/genfsidresplicer.py:161 | the type keys and the rank keys are disjoint, so they can be set in either order |
| FortranSplicer.EntryOrder | src/components/sidre/src/capi/genfsidresplicer.py:159-181 | entry i has index i, the typename of type i / 2 and rank i % 2, so it is type-major |
| FortranSplicer.EntryShapes | src/components/sidre/src/capi/genfsidresplicer.py:173-185 | rank 0 is "scalar" with empty shape and lower bound; rank 1 is "1d" with shape "(:)" and lower bound "(lbound(value,1))" |
| FortranSplicer.LBoundOne | src/components/sidre/src/capi/genfsidresplicer.py:153 | the lower bound of dimension 1 renders as "lbound(value,1)" |
| FortranSplicer.ShapeChars | src/components/sidre/src/capi/genfsidresplicer.py:184 | the shape of rank n has n colons separated by commas inside parentheses |
| FortranSplicer.KeywordArguments | src/components/sidre/src/capi/genfsidresplicer.py:155-158 | every keyword argument that the loop does not set reaches every entry, and the suffix is "" unless given |
| FortranSplicer.Run | src/components/sidre/src/capi/genfsidresplicer.py:146-186 | one output per entry up to the first failure, which is reported |
| FortranSplicer.RunStep | src/components/sidre/src/capi/genfsidresplicer.py:177-186 | one more entry appends its output or stops at its error |
| FortranSplicer.RunFailStays | src/components/sidre/src/capi/genfsidresplicer.py:177-186 | once a template fails, the later entries do not change the outcome |
| FortranSplicer.RunAllOk | src/components/sidre/src/capi/genfsidresplicer.py:177-186 | when the template succeeds on every entry, the run appends all of the outputs in order and passes |
| FortranSplicer.LineList.constructor | src/components/sidre/src/capi/genfsidresplicer.py:192 | a new line list is empty |
| FortranSplicer.ScalarEntry | src/components/sidre/src/capi/genfsidresplicer.py:171-177 | the dictionary in the scalar step is entry 2 * t |
| FortranSplicer.ArrayEntry | src/components/sidre/src/capi/genfsidresplicer.py:179-186 | the dictionary in the array step is entry 2 * t + nd |
| FortranSplicer.EmitEntry | src/components/sidre/src/capi/genfsidresplicer.py:177 | appending one template output is one run step |
| FortranSplicer.ForeachValue | src/components/sidre/src/capi/genfsidresplicer.py:146-186 | the nested loops append exactly the run of the template over the eight entries, and report its failure |
| FortranSplicer.GenericName | src/components/sidre/src/capi/genfsidresplicer.py:136-137 | the name is stem_typename_nd followed by the suffix |
| FortranSplicer.PartBindsGeneric | src/components/sidre/src/capi/genfsidresplicer.py:133-137 | the procedure line binds the generic name to wrap_class_ plus the same name |
| FortranSplicer.TypeBoundProcedures | src/components/sidre/src/capi/genfsidresplicer.py:133-186 | with stem and wrap_class given, all eight procedure lines are produced, naming the eight (type, rank) pairs |
| FortranSplicer.EntryProcedure | src/components/sidre/src/capi/genfsidresplicer.py:133-134 | the procedure line of one entry |
| FortranSplicer.GenericBlock | src/components/sidre/src/capi/genfsidresplicer.py:139-143 | a header, then one line per generic; every line but the last ends with ",  &" |
| FortranSplicer.GenericPost | src/components/sidre/src/capi/genfsidresplicer.py:139-143 | appends the generic block, and fails (after the header) on an empty list |
| FortranSplicer.GenericBlockRoundTrip | src/components/sidre/src/capi/genfsidresplicer.py:139-143 | the generic names can be read back from the block |
| FortranSplicer.ArrayViewSize | src/components/sidre/src/capi/genfsidresplicer.py:28-31 | "1_C_LONG" exactly for rank 0; otherwise "size(value, kind=1_C_LONG)" |
| FortranSplicer.CreateArrayView | src/components/sidre/src/capi/genfsidresplicer.py:23-67 | succeeds exactly when the keys it formats are present and "size" is not among them; a dictionary with "size" raises the TypeError of a keyword given twice |
| FortranSplicer.PrintGetValue | src/components/sidre/src/capi/genfsidresplicer.py:95-130 | succeeds exactly for rank 0 or 1 with its keys present; any other rank raises "rank too large in print_get_value" |
| FortranSplicer.PrintAllocateAllocatable | src/components/sidre/src/capi/genfsidresplicer.py:420-438 | succeeds exactly for rank 0 or 1 with its keys present and no "size" key; any other rank raises NotImplementedError; a "size" key raises the TypeError of a keyword given twice |
| FortranSplicer.PrintSizeAllocatable | src/components/sidre/src/capi/genfsidresplicer.py:347-371 | succeeds exactly when its keys are present |
| FortranSplicer.EntriesComplete | src/components/sidre/src/capi/genfsidresplicer.py:171-185 | every entry has rank 0 or 1 and all keys the templates format |
| FortranSplicer.RankTemplatesNeverFail | src/components/sidre/src/capi/genfsidresplicer.py:17 | since the enumeration stops at rank 1, none of the rank-dependent templates fails on it, provided the extra keywords hold no "size" |
| FortranSplicer.SizeKeywordFails | src/components/sidre/src/capi/genfsidresplicer.py:66-67 | extra keywords, which are copied into every entry (line 158), holding "size" make both size-formatting templates fail with the TypeError on the first entry |

## Left out

- MPI, parallel I/O, saving and loading, the Blueprint index Group, Conduit verification and MFEM mesh construction: transport, file I/O and foreign libraries. Communicator ranks are given as a sequence.
- The MFEM data collection's constructors create their Groups. The model's constructor takes the Groups as already created.
- MfemCollection.DataCollection.SetMeshBlueprint: createMeshBlueprintState (MFEMSidreDataCollection.cpp:262-275), which creates the scalar Views of the state Group between the stubs and the coordset, is not modelled; the state scalars are not read anywhere in the model. The grid functions and the topology SetMesh sets up after the coordset are the separate operations above.
- SidreStore.Zeros: the store starts freshly allocated and newly reallocated elements at zero. The allocation code is not part of this model, and the tests write those elements before they read them (C_sidre_view.cpp:99-102, 434-443), so the zeros are a modelling choice, not a promise of the source.
- Numbers stored in Buffers are integers. Float and double values (5.0 in the reallocation test) are modelled by their integer values, because no arithmetic is done on them.
- SidreViewScenarios.IntArrayMultiView: the test reads the odd View through a data pointer it advances by hand. The model reads each View as Buffer element offset + i * stride, which selects the same elements.
- SidreViewScenarios.IntArrayMultiViewResize: the copy into larger sections is disabled in the test and is not modelled.
- The Group/View/Buffer implementation is not part of this model. The store's behaviour beyond what the tests and the data collection rely on is a modelling choice (for example, reallocation is refused for a shared Buffer).
- Printing of Views, Buffers and stores, and the duplicate test that reads a View through Conduit: output only.
- MfemCollection.DataCollection.AllocNamedBuffer: the default type argument, DOUBLE, is an explicit parameter.
- MfemCollection.DataCollection.AddVectorBasedGridFunction: re-attaching an already attached component View to the same Buffer is modelled as leaving it unchanged. What Sidre does there is part of the hidden implementation.
- The grid functions' own data pointers after attachment (NewDataAndSize) and the debug assertions on View data addresses: raw memory.
- The boundary attributes, element indices and mesh creation of reconstructMesh. Only its dimension inference is modelled.
- SlamRelation: the example always defines USE_CONSTANT_RELATION (UnstructMeshField.cpp:46-48), so the live zone-to-node relation has the constant stride NODES_PER_ZONE (224-225); ZoneNodes and LoadHexToNodesRelation model that stride. ConstantBegins models the begins vector of the `#else` branch (228-232), which that build does not compile.
- Debug assertions: SLIC_ASSERT_MSG aborts a debug build and is compiled out of a release build, which reads on regardless. The model takes the debug build's view. The reading checks of the hex reader (UnstructMeshField.cpp:207, 244, 262) are Fail outcomes of SlamRelation.HexMesh.LoadHexToNodesRelation. The relation checks at 311 and 337-338 are proved to hold by GenerateNodeZoneRelation's contract. The data collection's assertions (MFEMSidreDataCollection.cpp:857, 884-888, 920, 960-963) and the length of the stream the hex reader reads from are preconditions: FieldGroup in the Groups, LoadedFieldBuffer, and CellRecord * numZonesRead <= |cells|. What a release build computes after a violated assertion is not modelled.
- SlamRelation: the relations' own isValid and the stream reading of positions are given as sequences and range checks. Floating-point barycenters, the radius field and the nodal error are left out.
- SlamSubsetting: Sets compare equal when they hold the same elements, so a parent with no elements counts as the null set. The set comparison itself is not part of this model.
- SlamSubsetting: the verbose messages are left out; they do not change any result.
- QuestSignedDistance: the surface mesh is an abstract bounding box plus a distance function. The octree, the BVH and the distance numerics are left out.
- QuestSignedDistance: the default maximum levels and occupancy are constructor parameters.
- QuestSignedDistance: STL reading is a map from readable file names to meshes, and errors inside mesh construction are not modelled.
- QuestSignedDistance.SignedDistanceQuery.InitFromFile: calling init on an initialized query is a precondition, as the header states, not a failure path.
- QuestSignedDistance.SignedDistanceQuery.InitFromMesh: calling init on an initialized query is a precondition, as the header states, not a failure path.
- QuestSignedDistance: the analytic-sphere test compares floating-point distances and is left out.
- KleeOperators: toMatrix and all matrix numerics are left out.
- KleeOperators: the getters of rotation, scale and slice (klee_geometry_operators.cpp:121-127, 332-337) are the fields of the Operator datatype; no lemma restates them.
- KleeOperators.Accept: a Custom operator, standing for a test mock, is not visited.
- KleeOperators: operators shared between composites are values, so aliasing of shared operator objects is not captured.
- FortranSplicer: each template body is reduced to its dictionary-dependent lines. The fixed Fortran text around them is left out.
- FortranSplicer: print_lines, print_switch, gen_fortran, create_allocatable_view and the remaining address, deallocate and reallocate templates (with their C headers) are left out. They format more text over the same enumeration.

## Findings

| source | as written | input that shows it | evidently intended | confidence | as-written member | corrected member |
|---|---|---|---|---|---|---|
| src/components/slam/src/policies/SubsettingPolicies.hpp:70-78 | `isValid` calls `isSubset()`, which dereferences the parent pointer, before it compares that pointer with null | a VirtualParentSubset whose parent pointer is null (set through the non-const `parentSet()` accessor): `isValid` dereferences null instead of returning true | test the pointer for null first, as the comment "We allow parent sets to be null" says | not executed | SlamSubsetting.VirtualParentSubset.IsValidAsWritten | SlamSubsetting.VirtualParentSubset.IsValid |
