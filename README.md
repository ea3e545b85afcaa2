# Smilei core: staggered fields, particle boundary dispatch, parameter helpers

A Dafny model of three pieces of the Smilei particle-in-cell code.

- **Field2D** (`field2d.dfy`, module `Fields`): a two-dimensional field component on a
  staggered (Yee) mesh. It is a class with the fields `dims_`, `isPrimal_`, the contiguous buffer
  `data_2D` and the row table `data_`. Both `allocateDims` overloads are methods with their `for`
  loops. The row table holds offsets into the buffer instead of pointers.
- **PartBoundCond::apply** (`part_bound_cond.dfy`, module `ParticleBoundaries`): decides which of
  the six optional face handlers is called for a particle, with which `limit_pos`, and whether
  `apply` returns 0 or 1. Handlers are a type parameter `H`; a null pointer is `None`. The call is
  returned as a value instead of being performed.
- **Params** (`params.dfy`, module `Params`): `setDimensions`, the one-to-two copy of
  `bc_em_type_*`, the `thermT` normalisation, `extract3Profiles`, `FindSpecies` and the
  patch-count exponent loop. Values the source takes from the embedded Python interpreter are
  parameters.

`wrappers.dfy` holds `Option` and `Result`. A `Failure` stands for the source's fatal `ERROR`
and carries its message. `vectors.dfy` holds `Resize`, the semantics of `std::vector::resize`. `arith.dfy` holds one
monotonicity fact about products that both the field layout and the exponent proofs use.

In three places the code does something other than one might expect, and the model follows the code:

- The unstaggered `allocateDims` does not reset the per-axis flags to 0. `isPrimal_.resize`
  keeps the entries that are already there.
- The staggered overload only ever raises flags to 1.
- Axis 1 of `apply` is switched on by the south handler alone. Axis 2 is switched on by the
  bottom handler once axis 1 is on. The north and up handlers switch nothing on.

## Model

| member | source | states |
|---|---|---|
| `Fields.Field2D.constructor` | src/Field2D.cpp:15-18 | the default constructor allocates nothing: no buffer, no row table, empty dims and flags |
| `Fields.Field2D.WithDims` | src/Field2D.cpp:21-24 | with rank 2: a valid fresh layout with the given sizes and flags [0,0]; otherwise the fatal error with only dims_ written |
| `Fields.Field2D.Staggered` | src/Field2D.cpp:34-38 | with rank 2: flags from empty by the staggering rule, sizes = requested + flag, fresh buffer; otherwise the fatal error |
| `Fields.Field2D.AllocateBuffer` | src/Field2D.cpp:111-117 | installs a fresh buffer of dims_[0]*dims_[1] cells and a fresh row table with row i at offset i*dims_[1]; sizes and flags unchanged |
| `Fields.Field2D.AllocateDims` | src/Field2D.cpp:65-85 | fails exactly when the rank is not 2, and then only dims_ has been overwritten; otherwise dims_ == dims, flags are the old flags resized to 2, and the layout is valid with fresh arrays |
| `Fields.Field2D.AllocateDimsStaggered` | src/Field2D.cpp:91-121 | fails exactly when the rank is not 2; otherwise the flags are the old flags resized to 2 with every dual axis raised to 1, each size is the requested size plus its flag, and the layout is valid with fresh arrays |
| `Fields.Field2D.ElementOffset` | src/Field2D.cpp:114-117 | the cell (i, j) reached through the row table is at row-major offset i*dims_[1]+j, inside the buffer |
| `Fields.DualFlags` | src/Field2D.cpp:100-106 | the flags after the staggered loop: two of them, every dual axis flagged, and no flag that was set is cleared |
| `Fields.StaggeredSizes` | src/Field2D.cpp:108-109 | one stored size per axis, never below the requested size, and equal to it on every axis whose flag is 0 |
| `Fields.IsDualIsExclusiveOr` | src/Field2D.cpp:101-106 | the two-branch staggering test is true exactly when (j == mainDim) differs from isPrimal |
| `Fields.DualFlagsFromEmpty` | src/Field2D.cpp:100-106 | from an empty isPrimal_, flag j is 1 exactly when (j == mainDim) != isPrimal and 0 otherwise |
| `Fields.DualFlagsOnlyRaise` | src/Field2D.cpp:100-106 | each new flag is either 1 or the old (resized) flag; a flag that was 1 stays 1; every dual axis is 1 |
| `Fields.StaggeredSizeExamples` | src/Field2D.cpp:108-109 | dims [4,4], main axis 0 gives sizes [5,4] when dual there and [4,5] when primal there |
| `Fields.OffsetInBounds` | src/Field2D.cpp:111-117 | for i < rows and j < cols the offset i*cols+j is below rows*cols, the buffer length |
| `Fields.OffsetInjective` | src/Field2D.cpp:111-117 | two cells of one layout with the same offset are the same cell |
| `Fields.BufferLengthAsWritten` | src/Field2D.cpp:74 | the buffer length as the source computes it: below 2^32, and the exact product only when that product fits in 32 bits |
| `Fields.WrappedBufferTooSmall` | src/Field2D.cpp:74 | as written, the 32-bit product for a 65536 x 65536 field is 0, so even cell (0,0) lies outside the buffer |
| `ParticleBoundaries.PartBoundCond.ReadAxes` | src/PartBoundCond.h:40-51 | y is read only when the south handler is set; z only when the south and bottom handlers are set |
| `ParticleBoundaries.PartBoundCond.Apply` | src/PartBoundCond.h:30-65 | the result is 0 or 1; 0 means no handler was called, and a called handler means 1; 0 never happens for a particle inside every tested wall |
| `ParticleBoundaries.ApplyIsFirstViolation` | src/PartBoundCond.h:30-65 | the nested if-chain equals a scan of the configured axes in order in which the first wall crossed decides |
| `ParticleBoundaries.ApplyBelowXMin` | src/PartBoundCond.h:32-35 | below x_min: 0 when bc_west is null, otherwise bc_west is called with 2*x_min and the result is 1 |
| `ParticleBoundaries.ApplyAtOrAboveXMax` | src/PartBoundCond.h:36-39 | with x_min <= x and x >= x_max: 0 when bc_east is null, otherwise bc_east is called with 2*x_max and the result is 1 |
| `ParticleBoundaries.XViolationShortCircuits` | src/PartBoundCond.h:32-40 | when axis 0 is violated only a west or east handler can be called, and the outcome does not depend on y, z, their walls or their handlers |
| `ParticleBoundaries.NoSouthHandlerKeeps` | src/PartBoundCond.h:40-64 | x inside and bc_south null: result 1 and no call, whatever bc_north is |
| `ParticleBoundaries.YViolations` | src/PartBoundCond.h:40-48 | below y_min the south handler is always called (the null test at line 43 never succeeds); above y_max a null bc_north gives 0, otherwise bc_north is called with 2*y_max |
| `ParticleBoundaries.ZViolations` | src/PartBoundCond.h:51-60 | a z handler is called only when x and y are inside and bc_bottom is set; below z_min bc_bottom is called with 2*z_min; above z_max a null bc_up gives 0, otherwise bc_up is called with 2*z_max |
| `ParticleBoundaries.ApplyStatusMeaning` | src/PartBoundCond.h:30-65 | inside every tested wall the result is 1 with no call; the result is 0 exactly when the first crossed face of a tested axis has a null handler |
| `Params.SetDimensions` | src/Params/Params.cpp:495-512 | succeeds exactly for 1d3v, 2d3v, 3d3v and 2drz; then 1 <= nDim_field <= nDim_particle <= 3, equal except for 2drz; otherwise the fatal error message |
| `Params.SetDimensionsTable` | src/Params/Params.cpp:497-508 | the four geometries map to (1,1), (2,2), (3,3) and (3,2) |
| `Params.SetDimensionsRoundTrip` | src/Params/Params.cpp:497-511 | the dimension pair of an accepted geometry determines that geometry |
| `Params.ReadGeometry` | src/Params/Params.cpp:52-56 | the constructor lets only 1d3v and 2d3v through to setDimensions, so its counts are equal, 1 or 2 |
| `Params.NormaliseBoundaryTypes` | src/Params/Params.cpp:115-117 | a one-entry list becomes two copies of its entry; other lists are unchanged |
| `Params.NormaliseBoundaryTypesIdempotent` | src/Params/Params.cpp:115-117 | normalising twice is normalising once; the result never has one entry and holds only input entries |
| `Params.NormaliseThermT` | src/Params/Params.cpp:321-331 | a defined one-entry thermT becomes three copies of it; a defined list of another length is kept; an undefined one becomes [0,0,0] |
| `Params.Extract3Profiles` | src/Params/Params.cpp:389-404 | succeeds exactly for 1 or 3 components; one component is used for x, y and z, three go to x, y, z in order; otherwise the fatal error message |
| `Params.SpeciesTypes` | src/Params/Params.cpp:562-565 | the list of existing species names has one entry per species, entry i being species i's type, in declaration order |
| `Params.InsertSorted` | src/Params/Params.cpp:575-583 | inserting into a strictly increasing list keeps it strictly increasing and adds exactly the new index, with no duplicate |
| `Params.FindSpecies` | src/Params/Params.cpp:554-591 | succeeds exactly when every requested name is some species' type; then the result is strictly increasing, indexes species_param, and holds es exactly when species es has a requested type; otherwise the error names the first requested name that matches nothing |
| `Params.PatchExponent` | src/Params/Params.cpp:170 | the loop stops at the least mi with (n >> mi) <= 1 |
| `Params.ShiftRight` | src/Params/Params.cpp:170 | `n >> k` on an unsigned count, as k halvings: never above n, and strictly below a positive n once k >= 1 |
| `Params.ShiftRightBounds` | src/Params/Params.cpp:170 | 2^k·(n>>k) ≤ n < 2^k·((n>>k)+1), so n>>k = floor(n/2^k) |
| `Params.ShiftRightIsDivision` | src/Params/Params.cpp:170 | n >> k equals floor(n / 2^k) |
| `Params.PatchExponentIsFloorLog2` | src/Params/Params.cpp:170 | for n >= 1 the exponent is floor(log2 n), 2^mi <= n < 2^(mi+1); for n = 0 it is 0 |
| `Params.PatchExponentFitsUnsigned` | src/Params/Params.cpp:170 | for a 32-bit count the exponent is below 32, so no shift is by the full width |
| `Params.PatchExponents` | src/Params/Params.cpp:169-174 | mi has three entries; mi[0] is the exponent of the first count, mi[1] that of the second when there is one and 0 otherwise, and mi[2] is always 0 because the `else if` branch cannot be taken |
| `Params.PatchExponentsMissesThirdAxis` | src/Params/Params.cpp:173-174 | for counts [1,1,4] the computed mi[2] is 0, not the exponent 2 of 4 |
| `Params.PatchExponentsIntended` | src/Params/Params.cpp:169-174 | each of the first three axes that has a count gets its exponent, the others 0 |

## Left out

- The file stream opened by the constructors that take a file name, and the stream closed in the destructor: these are I/O.
- The `DEBUG(10, …)` statements at src/Field2D.cpp:57, :83 and :119 are logging and are not modelled. When debug output is compiled in, :83 and :119 print `data_[0]` and `data_[1]`, and these read past the end of the `dims_[0]`-entry row table: `data_[1]` whenever `dims_[0] < 2`, and both entries when `dims_[0] == 0`.
- `Field2D::dump`: it writes `data_[i]`, which is the address of a row and not its values, to a file. The defect is I/O only, and the model has no stream.
- The leak of the row-pointer array `data_`, which is never deleted. The model's row table is garbage-collected.
- `Fields.Field2D.WithDims`: the constructors at src/Field2D.cpp:21 and :27 leave `data_2D` uninitialised before calling `allocateDims`, which then tests and deletes that garbage pointer. The model starts those constructors with no buffer.
- `Fields.Field2D.AllocateDims`: sizes are unbounded naturals. The source computes `dims_[0]*dims_[1]` and `i*dims_[1]` in 32-bit unsigned arithmetic. The wrap is shown separately under Findings.
- `Fields.Field2D.AllocateDimsStaggered`: the 32-bit wrap of `dims_[j] += isPrimal_[j]` when dims[j] = 2^32-1 is not modelled.
- Field.h and Field.cpp are not part of this model. The model's constructors take the base class to leave `isPrimal_` empty.
- Buffer cell values: the model states nothing about them, as `new double[n]` leaves them undefined.
- The bodies of the boundary handlers (reflect, periodic, thermalize) and the `PartBoundCond` constructor that binds them are not shown in the source. The model only records which handler is called and with which `limit_pos`.
- `ParticleBoundaries.PartBoundCond.Apply`: requires as many coordinates as the configured axes (`ReadAxes`), even on inputs where `apply` stops at axis 0 and reads only `position(0)`. The source does not check the length; a species' particles all have `nDim_particle` coordinates.
- `ParticleBoundaries.PartBoundCond.Apply`: positions and walls are exact `real`s, not `double`s. Lost cases: a NaN coordinate fails both `<` and `>=` (src/PartBoundCond.h:32, :36 and the y and z tests), so the source treats that axis as inside; for example, a NaN x with a null `bc_south` returns 1 and calls nothing. Infinite coordinates and walls, and `2.*x_min` overflowing to infinity, cannot happen in the model either.
- The Python interpreter lifecycle (`initPython`, `pyRunScript`, `cleanup`) and every `PyTools::extract` call are foreign calls. Their results are parameters: the geometry string, the count lists, the `thermT` list with its defined flag, and the profile vector.
- Reading the namelist files, the MPI broadcast and writing `smilei.py`: these are I/O and communication.
- `Params::compute`, `Params::computeSpecies` and the CFL check: they use `round`, `sqrt` and floating-point division.
- `Params::print`: logging only.
- The rest of `readSpecies` is out of scope: string checks, defaults and warnings. The decision whether `thermT` is defined (lines 311-320) is an input to `NormaliseThermT`.
- The `PyTools::toProfile` loop of `extract3Profiles` is a foreign call. Profiles are a type parameter.
- `Params.PatchExponents`: requires at least one count, because the source reads `number_of_patches[0]` unconditionally.

## Findings

| source | as written | input that shows it | evidently intended | confidence | as-written member | corrected member |
|---|---|---|---|---|---|---|
| src/Params/Params.cpp:171-174 | the loop for axis 2 sits in an `else if (size > 2)` after `if (size > 1)`, so it can never run | number_of_patches = [1, 1, 4] leaves mi[2] = 0, while 4 >> 0 = 4 > 1 | an independent `if (size > 2)`, giving mi[2] = 2 | not executed; medium (3D is rejected elsewhere in this version) | `Params.PatchExponentsMissesThirdAxis` | `Params.PatchExponentsIntended` |
| src/Field2D.cpp:74 | the buffer length `dims_[0]*dims_[1]` is an `unsigned int` product and wraps modulo 2^32 (`Fields.BufferLengthAsWritten`) | dims = [65536, 65536] allocates 0 cells, while the row table addresses 2^32 | the exact product, so every cell offset lies inside the buffer (`Fields.Field2D.ElementOffset` uses it) | not executed; low (needs a 32 GiB field) | `Fields.WrappedBufferTooSmall` | `Fields.OffsetInBounds` |
