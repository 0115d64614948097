# OSKAR core, modelled in Dafny

This project models four sequential parts of the OSKAR radio-telescope simulator and proves properties of them.

- **`oskar_Mem`** (`mem.dfy`, `mem_scenarios.dfy`). A typed memory block. It has a type tag (precision × kind), a location tag and an array of elements. A real element holds one component, a complex element two, and a 2×2 complex matrix eight. The block's implementation is not part of this model, so the class is specified by what the unit test `Test_Mem.cpp` asserts:
  - `realloc`, `append` and copy-construction to another location;
  - `scale_real` and `oskar_mem_add`, with its error codes;
  - the three type predicates.

  Each use case of the test is a method whose postconditions are the test's assertions, including those it makes between steps. Location is only a tag, so a copy "to the GPU" is a copy.
- **`oskar_apply_element_taper_gaussian`** (`element_taper.dfy`). A status and tag validator dispatches to four in-place loops. Each loop multiplies every component of the first `num_sources` Jones elements by a per-source factor. The factor is a parameter of the model: a function of `(theta[i], fwhm)`.
- **`oskar_station_model_free`** (`station_model_free.dfy`). The recursive teardown of a station record:
  1. twelve status-checked buffer frees;
  2. the optional element pattern;
  3. the child stations, in index order;
  4. clearing the scalar fields.

  `oskar_mem_free` and `oskar_element_model_free` are parameters that return a status. A ghost trace records the release calls made. Each record has a ghost plan: the full list of calls its teardown would make. The teardown's status is that of the plan's first failing call, and the calls made are the plan up to that call.
- **`oskar_SettingsModel`** (`settings_model.dfy`). The tree of settings behind the settings editor. Paths are `/`-separated. `registerSetting` and `setCaption` walk a key's segments, reusing the first child with each short key or appending a caption-only group. The items live in an arena (`seq<Item>`) held by a class. The `getChild` search loop and the segment loop are methods proved against spec functions (`GetChildSpec`, `Walk`, `Register`, `Caption`). Lemmas about those functions state path resolution, the frame, shadowing and the flags rules.

`status.dfy` holds the shared `Status` datatype. The numeric values of the `OSKAR_ERR_*` codes are not in the modelled files, so errors are named, not numbered.

## Model

| member | source | states |
|---|---|---|
| MemBuffer.TypePredicateTable | utility/test/src/Test_Mem.cpp:141-203 | For each of the six type tags, `is_double` holds exactly for the double tags, `is_complex` for the complex and matrix tags, and `is_scalar` is false only for the matrix tags |
| MemBuffer.IsDoubleType | utility/test/src/Test_Mem.cpp:141-203 | `is_double(type)` holds exactly for DOUBLE, DOUBLE_COMPLEX and DOUBLE_COMPLEX_MATRIX |
| MemBuffer.IsComplexType | utility/test/src/Test_Mem.cpp:141-203 | `is_complex(type)` holds iff an element of the tag has at least two components |
| MemBuffer.IsScalarType | utility/test/src/Test_Mem.cpp:141-203 | `is_scalar(type)` holds iff an element of the tag has at most two components, so it fails only for matrices |
| MemScenarios.TestTypeCheck | utility/test/src/Test_Mem.cpp:141-203 | For a new block of any tag, the instance forms `mem.is_double()`, `mem.is_complex()` and `mem.is_scalar()` give the same answers as the tag forms |
| MemBuffer.ScaleElementComponents | utility/test/src/Test_Mem.cpp:205-241 | Scaling multiplies every real and imaginary component of an element by the factor, all eight for a matrix |
| MemBuffer.AddElement | utility/test/src/Test_Mem.cpp:527-538 | The sum of two elements of one kind keeps that kind, and each component is the sum of the operands' components |
| MemBuffer.ScaledTwice | utility/test/src/Test_Mem.cpp:217-241 | Scaling a block by f and then by g equals scaling it once by f·g, so 2 then 2 gives 4 |
| MemBuffer.ScaledByOne | utility/test/src/Test_Mem.cpp:205-241 | Scaling by 1 leaves every element unchanged |
| MemBuffer.SumCommutes | utility/test/src/Test_Mem.cpp:500-538 | `add(C, A, B)` and `add(C, B, A)` give the same C |
| MemBuffer.SumWithZerosIsIdentity | utility/test/src/Test_Mem.cpp:541-581 | Adding a zero-initialised block of the same kind, on either side, gives the other operand |
| MemBuffer.AddStatusOrder | utility/test/src/Test_Mem.cpp:585-603 | A length mismatch is reported whatever the types and locations are. Operands of equal length and type in different places give LOCATION_MISMATCH, and all-GPU operands give BAD_LOCATION. `add` succeeds iff the lengths agree, the types agree, all three blocks are on the host and the tag is floating |
| MemBuffer.ReallocStatus | utility/test/src/Test_Mem.cpp:52-69 | In this model `realloc` succeeds on the host and on the device, as the test expects of both, and fails only for an unknown location |
| MemBuffer.AppendStatus | utility/test/src/Test_Mem.cpp:72-137 | In this model `append` succeeds iff the source type equals the block's and both locations are known. A type mismatch is reported first |
| MemBuffer.ScaleStatus | utility/test/src/Test_Mem.cpp:205-241 | In this model `scale_real` succeeds iff the location is known and the tag is floating. An unknown location is reported first |
| MemBuffer.Mem.constructor | utility/test/src/Test_Mem.cpp:541-565 | A new block has the given tags and n elements, every component zero |
| MemBuffer.Mem.CopyOf | utility/test/src/Test_Mem.cpp:104-137 | The copy to another location has the source's type, the new location tag and identical contents |
| MemBuffer.Mem.Realloc | utility/test/src/Test_Mem.cpp:52-69 | On success the length becomes n, and type, location and the first min(old length, n) elements are kept. In this model only an unknown location fails, with BAD_LOCATION, and it leaves the block unchanged |
| MemBuffer.Mem.Append | utility/test/src/Test_Mem.cpp:72-137 | The block is its old contents followed by the first `count` source elements. Its type and location are kept, including host data appended into a device block, and a type mismatch is refused |
| MemBuffer.Mem.ScaleReal | utility/test/src/Test_Mem.cpp:205-241 | The new contents are the old ones with every component multiplied by s |
| MemBuffer.Add | utility/test/src/Test_Mem.cpp:500-603 | C[i] = A[i] + B[i] on success, even when C is A or B. On an error C is unchanged and the status is the one `AddStatus` orders |
| MemScenarios.TestRealloc | utility/test/src/Test_Mem.cpp:52-69 | Both reallocations succeed with lengths 500 and 1000 and tags DOUBLE and DOUBLE_COMPLEX |
| MemScenarios.TestAppendCpu | utility/test/src/Test_Mem.cpp:72-100 | After the first append: length 10, host, DOUBLE, every value the first data. After the second: length 15, host, DOUBLE, the first 10 values the first data and the last 5 the second |
| MemScenarios.TestAppendGpu | utility/test/src/Test_Mem.cpp:102-137 | After the first append: success, length 10, GPU, SINGLE, and the copy back holds the first data. After the second: success, length 15, GPU, SINGLE, and the copy back holds both data sets in order |
| MemScenarios.TestScaleReal | utility/test/src/Test_Mem.cpp:205-497 | For any floating tag and contents, scaling by 2 on the host gives 2× every component. Copying to the device, scaling by 2 again and copying back gives 4× every component |
| MemScenarios.TestAdd | utility/test/src/Test_Mem.cpp:502-538 | Two host matrix blocks add component-wise into a third |
| MemScenarios.TestAddInPlace | utility/test/src/Test_Mem.cpp:541-581 | A freshly allocated B has every component zero, and `add(B, A, B)` then succeeds and leaves B equal to A |
| MemScenarios.TestAddOnGpu | utility/test/src/Test_Mem.cpp:585-593 | All-device operands give BAD_LOCATION |
| MemScenarios.TestAddDimensionMismatch | utility/test/src/Test_Mem.cpp:595-603 | A length mismatch with C on the device gives DIMENSION_MISMATCH |
| ElementTaper.Tapered | oskar/telescope/station/element/src/oskar_apply_element_taper_gaussian.c:42-125 | The tapered block has the same length and element kinds, and elements at index ≥ num_sources are unchanged |
| ElementTaper.TaperedComponents | oskar/telescope/station/element/src/oskar_apply_element_taper_gaussian.c:42-82 | Every component of a tapered element below num_sources is the original component times factor(theta[i], fwhm), the same factor for all its components |
| ElementTaper.TaperedAt | oskar/telescope/station/element/src/oskar_apply_element_taper_gaussian.c:48-57 | Element i below num_sources becomes the original scaled by its own factor |
| ElementTaper.TaperWithConstantFactorIsScale | oskar/telescope/station/element/src/oskar_apply_element_taper_gaussian.c:42-125 | When the factor does not depend on theta, tapering every element equals `scale_real` by that constant |
| ElementTaper.TaperTwice | oskar/telescope/station/element/src/oskar_apply_element_taper_gaussian.c:42-125 | Tapering twice scales each tapered element by the product of the two factors |
| ElementTaper.TaperScalar | oskar/telescope/station/element/src/oskar_apply_element_taper_gaussian.c:42-58 | The loop multiplies the x and y of each element below num_sources by its factor. The array ends as `Tapered` of its old contents, so later elements are untouched. The _d variant (85-101) is the same loop |
| ElementTaper.TaperMatrix | oskar/telescope/station/element/src/oskar_apply_element_taper_gaussian.c:60-82 | The loop leaves the array as `Tapered` of its old contents: all eight components scaled below num_sources, the rest untouched. The _d variant (103-125) is the same loop |
| ElementTaper.TaperStatus | oskar/telescope/station/element/src/oskar_apply_element_taper_gaussian.c:133-250 | A non-zero incoming status is returned unchanged. The wrapper ends with Success iff the status was clear, the tags agree, and either the precision is neither single nor double or a loop runs |
| ElementTaper.TaperRunsIffSuccess | oskar/telescope/station/element/src/oskar_apply_element_taper_gaussian.c:128-250 | A loop runs iff the status is clear, the tags agree, the precision is single or double and the wrapper's status stays Success. A non-zero incoming status is returned unchanged |
| ElementTaper.TaperCheckOrder | oskar/telescope/station/element/src/oskar_apply_element_taper_gaussian.c:141-250 | The location mismatch is checked before the type mismatch. A precision that is neither single nor double falls through with status 0 and no loop run |
| ElementTaper.ApplyElementTaperGaussian | oskar/telescope/station/element/src/oskar_apply_element_taper_gaussian.c:128-250 | Status as `TaperStatus` orders it: incoming status, LOCATION_MISMATCH, TYPE_MISMATCH, CUDA_NOT_AVAILABLE, BAD_LOCATION, BAD_DATA_TYPE. Jones is tapered iff a loop runs, and is unchanged otherwise |
| Station.ExecutedIsPrefixToFirstFailure | station/src/oskar_station_model_free.c:47-90 | The calls made are a prefix of the plan. Success iff every call succeeds, and then the whole plan ran. On failure every earlier call succeeded and the status is the last call's |
| Station.RunConcatenation | station/src/oskar_station_model_free.c:47-90 | Running p then q: q runs only if all of p succeeded |
| Station.ThreeStages | station/src/oskar_station_model_free.c:46-95 | Buffers, then pattern, then children: each stage runs only after the earlier ones succeeded |
| Station.Advance | station/src/oskar_station_model_free.c:47-72 | One more status-checked free either ends the run with its error or extends the successful prefix |
| Station.ChildStep | station/src/oskar_station_model_free.c:86-90 | One loop turn: child i's error ends the run, and its success leaves the plans of the later children |
| Station.FreeOwnedBuffers | station/src/oskar_station_model_free.c:47-72 | The twelve buffers are freed from x_signal to total_receiver_noise, and the first error is returned at once |
| Station.FreePattern | station/src/oskar_station_model_free.c:74-80 | The pattern is freed only if present and cleared only after its free succeeded. The children are not touched |
| Station.FreeChildAt | station/src/oskar_station_model_free.c:88-89 | Child i is torn down recursively, and the later siblings, which the loop still has to visit, keep their invariants and plans |
| Station.FreeChildRange | station/src/oskar_station_model_free.c:85-90 | The children are torn down in ascending order and the first child error ends the loop |
| Station.FreeChildren | station/src/oskar_station_model_free.c:83-90 | The loop over `child[0 .. num_elements)` of an owned record |
| Station.ClearRecord | station/src/oskar_station_model_free.c:92-106 | `child` becomes NULL and the nine scalar fields are reset to zero or NULL |
| Station.FreeStation | station/src/oskar_station_model_free.c:38-109 | NULL gives INVALID_ARGUMENT. Otherwise the status is the plan's first error and the calls made are the plan up to it. `child` is NULL iff it succeeded, the pattern is NULL iff it was already or its free was reached and succeeded, and the scalar fields are cleared on success and kept on any error |
| Station.StationModel.constructor | station/src/oskar_station_model_free.c:47-71 | A childless record over twelve buffers plans exactly their twelve frees |
| Settings.Split | widgets/src/oskar_SettingsModel.cpp:115 | `key.split('/')` gives at least one segment, none containing '/' |
| Settings.JoinSplit | widgets/src/oskar_SettingsModel.cpp:115 | Joining the segments with '/' gives the key back |
| Settings.SplitJoin | widgets/src/oskar_SettingsModel.cpp:115 | Splitting segments joined with '/' gives the segments back |
| Settings.ItemOf | widgets/src/oskar_SettingsModel.cpp:219-228 | A valid index names its item and an invalid index names the root |
| Settings.IndexOf | widgets/src/oskar_SettingsModel.cpp:70-82 | `index(row, column, parent)` is valid iff the parent is invalid or in column 0 and the row exists. It then names that child |
| Settings.FindIn | widgets/src/oskar_SettingsModel.cpp:233-240 | The result is the first position whose short key matches, or -1 iff none does |
| Settings.AppendChild | widgets/src/oskar_SettingsModel.cpp:20-30 | Exactly one item is added, as the parent's last child. Every other item is unchanged, and the tree stays well formed |
| Settings.SetItemData | widgets/src/oskar_SettingsModel.cpp:192-193 | Storing succeeds iff the column exists. The item then differs from the old one only in that column, which reads back the value. Every other item is unchanged, and a refused store changes nothing |
| Settings.Walk | widgets/src/oskar_SettingsModel.cpp:120-136 | The segment walk keeps the tree well formed and returns a parent the walk can stand on |
| Settings.Flags | widgets/src/oskar_SettingsModel.cpp:48-59 | None for an invalid index. Enabled and selectable for any valid index. Editable iff the column is not 0 and the item is not caption-only |
| Settings.Data | widgets/src/oskar_SettingsModel.cpp:37-46 | A non-empty value needs a valid index and the Display or Edit role |
| Settings.ResolveFrame | widgets/src/oskar_SettingsModel.cpp:230-241 | Resolving a path depends only on short keys and on the children of the items before its end |
| Settings.WalkFrame | widgets/src/oskar_SettingsModel.cpp:120-136 | The walk keeps every existing entry and the items before its start, and it only appends to children lists. Each item it creates is a CAPTION_ONLY group holding the full key, one of the segments, and that segment in column 0 |
| Settings.WalkExisting | widgets/src/oskar_SettingsModel.cpp:120-136 | When the whole path already exists below the start, the walk reuses an existing child at every segment. It creates nothing and ends at the item the path resolves to |
| Settings.WalkResolves | widgets/src/oskar_SettingsModel.cpp:120-136 | After the walk, resolving the segments by first-match `getChild` from the start ends at the parent the walk returns |
| Settings.SettingsModel.RowCount | widgets/src/oskar_SettingsModel.cpp:143-146 | For a parent in column 0 or the root, `index(row, 0, parent)` is valid exactly for the rows below `rowCount(parent)` |
| Settings.SettingsModel.GetChild | widgets/src/oskar_SettingsModel.cpp:230-241 | The linear search returns the index of the first child, in row order, with the short key, or an invalid index |
| Settings.SettingsModel.Append | widgets/src/oskar_SettingsModel.cpp:20-30 | The parent's item gains the new item as its last child and keeps its earlier children |
| Settings.SettingsModel.Descend | widgets/src/oskar_SettingsModel.cpp:122-135 | One pass of the segment loop is one step of `Walk` |
| Settings.SettingsModel.WalkGroups | widgets/src/oskar_SettingsModel.cpp:119-136 | The loop leaves the arena and the parent exactly as `Walk` says |
| Settings.SettingsModel.RegisterSetting | widgets/src/oskar_SettingsModel.cpp:112-141 | The new arena is `Register` of the old one |
| Settings.SettingsModel.SetCaption | widgets/src/oskar_SettingsModel.cpp:148-184 | The new arena is `Caption` of the old one |
| Settings.SettingsModel.SetData | widgets/src/oskar_SettingsModel.cpp:186-199 | Any role other than Edit returns false and changes nothing. Edit stores into the index's column |
| Settings.SettingsModel.constructor | widgets/src/oskar_SettingsModel.cpp:6-13 | The model holds only the root, with columns "Setting" and "Value" |
| Settings.PreparedResolves | widgets/src/oskar_SettingsModel.cpp:151-175 | After the walk, the key's groups resolve to the walk's parent, and the full key resolves to the child `getChild` finds for the last segment |
| Settings.RegisterAppendsLeaf | widgets/src/oskar_SettingsModel.cpp:138-140 | Exactly one item is appended after the walk: the leaf, with the leaf segment, type and caption. It is the last child of the group the key's groups resolve to |
| Settings.RegisterKeepsEntries | widgets/src/oskar_SettingsModel.cpp:120-141 | Existing entries keep key, short key, type and data, and every item registered holds the full key |
| Settings.RegisterShadowsDuplicate | widgets/src/oskar_SettingsModel.cpp:138-140 | With the leaf's short key already present, a second child is still appended, and `getChild` still finds the first |
| Settings.CaptionExisting | widgets/src/oskar_SettingsModel.cpp:174-177 | For an existing leaf no item is added after the walk, and only the leaf's column 0 changes, to the caption. The full key resolves to that leaf |
| Settings.KnownKeyWalk | widgets/src/oskar_SettingsModel.cpp:151-175 | For a key that already names an item, the walk over its groups creates nothing, and `getChild` finds the leaf |
| Settings.CaptionKnownKey | widgets/src/oskar_SettingsModel.cpp:148-184 | For a key that already names an item, the arena keeps its size, and the key still resolves to that item. Only the item's column 0 changes, to the caption, and every other item is unchanged |
| Settings.CaptionAppended | widgets/src/oskar_SettingsModel.cpp:178-183 | For a missing leaf exactly one CAPTION_ONLY item with the caption is appended. The full key then resolves to it, and it is editable under no index |
| Settings.WalkGroupsNotEditable | widgets/src/oskar_SettingsModel.cpp:120-136 | The groups a walk creates are editable under no index |
| Settings.SetDataThenData | widgets/src/oskar_SettingsModel.cpp:186-199 | After a successful store, `data` in the Display or Edit role returns the stored value |

## Left out

- CUDA memory transfers, device kernels and `oskar_device_check_error`. A location is only a tag, and GPU code paths are the host loops.
- Floating-point width and rounding, and the test tolerances. Components are `real`, so single and double precision share one loop per kind.
- The taper's `expf`/`exp` value: the factor is a function parameter, and no numeric property of the Gaussian is stated.
- The `Integer` precision exists only so that the taper's "neither single nor double" fall-through and `BAD_DATA_TYPE` in `scale_real`/`add` can occur. It has no elements of its own kind.
- MemBuffer.AddStatus: the body of `oskar_mem_add` is not part of this model. The order after the dimension check is a choice: type, then location mismatch, then a location off the host, then data type. Only "dimension before location" and "all-GPU gives BAD_LOCATION" are fixed by the test.
- MemBuffer.ReallocStatus: the body of `oskar_mem_realloc` is not part of this model. "Only an unknown location fails" is a choice, and allocation failures and device errors, which the test reports as CUDA errors, are not modelled.
- MemBuffer.AppendStatus: the body of `oskar_mem_append` is not part of this model. The check order (type, then location) is a choice, and allocation and device failures are not modelled.
- MemBuffer.ScaleStatus: the body of `oskar_mem_scale_real` is not part of this model. The check order (location, then data type) is a choice, and device failures are not modelled.
- MemBuffer.Mem.CopyOf: construction, like the plain constructor `MemBuffer.Mem.constructor`, is modelled as always succeeding, even at an unknown location. The status that `oskar_mem_init_copy` reports, and any allocation, location or device failure of the constructors, are not modelled.
- MemBuffer.Mem.Realloc: the contents of a grown tail are not promised, as C `realloc` leaves them uninitialised.
- MemBuffer.Mem.Append: source elements are given as values, so aliasing between source and destination is not modelled.
- Station.FreeStation: what `oskar_mem_free` and `oskar_element_model_free` do to memory is not modelled, only the status they return. After the teardown the record's `Valid()` invariant is not re-established, because its buffers are released.
- Station: `free(model->child)` is the assignment of NULL. The array itself is not deallocated, since Dafny has no deallocation.
- ElementTaper.ApplyElementTaperGaussian: when a loop runs, the model requires `num_sources` to be at most the lengths of `jones` and `theta`. The C code never checks this, and a longer count reads and writes out of bounds there.
- ElementTaper.TaperMatrix: the component-wise effect is stated through `jones[..] == Tapered(...)` together with `TaperedComponents`, not as its own per-component postcondition.
- Settings: Qt machinery is left out: `beginInsertRows`/`endInsertRows`, the `dataChanged` signal, `headerData`, and the `parent()` and `columnCount()` plumbing. `parent()` is not needed by any modelled operation.
- Settings: `oskar_SettingsItem` is not part of this model. Its `data(column)` is taken to return an empty value outside the row, and `setData(column, value)` to store and return true exactly when the column exists. `columnCount()` is taken to be the length of the root's data row, and `child(row)` to return NULL for a row outside the children, which `index` then turns into an invalid index.
- Settings: the numeric value of `OSKAR_SETTINGS_CAPTION_ONLY` is not part of this model. Types are `CaptionOnly` or another code, and the root's type 0 is taken to be another code.
- Settings: `registerSetting`'s `options` argument is not used by the modelled code and is left out.
- Settings.ItemOf: a model index that names no item of the arena is treated like a null internal pointer, that is, as the root. Indices forged outside the model have no counterpart in the source.
- Settings: items live in an arena and are named by position, so pointer aliasing between items is not modelled. Each item has exactly one parent by construction.
