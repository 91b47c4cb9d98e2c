# A verified model of Meep's control layer

Meep solves Maxwell's equations; around the solvers lies a layer of Python and C++ that prepares
grids, tensors, cells and chunk layouts, drives runs, and post-processes fields and bands. This
project models the algorithms of that layer in Dafny and proves what they promise. It is checked
with `dafny verify dfyconfig.toml`.

- **Fields and tensors of the MPB binding.** The canonical phase of a field and its eigenvector
  (`FieldPhase`); Kottke averaging at a material interface (`NeighbourScan`, `Kottke`, `Tensors`,
  `MeanEpsMu`), shown to be the one tensor that relates averaged D to averaged E
  (`EffectiveMedium`); the two periodic resamplers (`ResampleAxis`, `Resample`, `MapData`,
  `Tiling`, `TilingExact`, `BlochField`, `BlochPhase`); energy densities that overwrite the field they come from
  (`FieldEnergy`); bands solved in blocks, with columns moved in place (`EvectMatrices`,
  `BandBlocks`).
- **Search and bands.** Reduction of a k-point to the first Brillouin zone (`Brillouin`,
  `BrillouinGlobal`, `BrillouinExact`), band ranges and gaps (`BandGaps`), bracketed Newton with lazy bounds and a
  memo table (`Newton`), grid sizes without large prime factors (`SmoothGrid`).
- **Chunk balancing.** Binary partitions and the measurements on them (`Partitions`, `Tilings`),
  the balancer (`Balancer`), exactly when its layouts stay valid (`Containment`), and its objects
  (`ChunkLayouts`).
- **Cells and runs.** Absorbing layers as faces, edges and corners (`Boundary`,
  `BoundaryPartition`, `BoundaryVolumes`), step functions and the run loop (`StepFunctions`,
  `RunLoop`, `Simulations`).
- **Output lattices.** Rectification of a lattice (`OutputLattice`).

`Reals`, `Integers`, `Vectors`, `Complexes` and `Options` hold what these share.

Numbers are exact reals. A square root is any function with its defining equation; the cosine
and sine of the phases are a pair of functions of which only the value at zero, and for Bloch's
theorem the addition theorem and the unit circle, is assumed. Code that overwrites buffers, arrays, closures or
objects is modelled by methods that do so, each proved against a specification function; the
properties are then proved of the specification. Where an exception or an early return is
possible it is part of the result (`Option`, an `ok` flag, or an outcome).

What the eigensolver answers, which object lies at a point, the normal there and the overlap of a
pixel with an object are parameters. Of the last, a fill in [0, 1] is assumed; of the objects,
that an id determines the material; of MPB's rotation routine, that it is a congruence.

## Where the code differs from its documentation

- `first_brillouin_zone` is documented to return a point of the first Brillouin zone. It returns a
  point that no listed step shortens; `BrillouinGlobal.SkewedIsNotGlobal` is a lattice where that
  is not in the zone, and `BrillouinExact.FirstZoneIsGlobalIff` says for which lattices it always is.
- `at_every` is documented to round up to the next time step. It rounds dt/h to the nearest number
  of steps, halves downwards: ceil(dt/h - 1/2) (`RunLoop.AtEverySchedule`); dt <= h/2 passes every
  step (`RunLoop.AtEveryTiny`). `RunLoop.RoundsDown` is an input where the schedule is not dt
  rounded up, `RunLoop.RoundsUpIff` says for every dt > 0 exactly when it is.
- `after_time`, `at_time` and `before_time` are documented to count from the start of the run. They
  compare the absolute time: `RunLoop.SecondRun` is an input, `RunLoop.AfterTimeFromStartIff`,
  `RunLoop.AtTimeFromStartIff` and `RunLoop.BeforeTimeFromStartIff` are the exact conditions.
- `at_time` and `at_beginning` are documented to evaluate their functions once. A two-argument
  function under `at_time` also gets the finish (`RunLoop.AtTimeOnceIff`), one under
  `at_beginning` does not (`RunLoop.AtBeginningSchedule`).
- The comment in `fix_field_phase` calls the phase one that maximises a sum. When the sum of
  squares is zero every phase does, and the result depends on the incoming phase
  (`FieldPhase.CircularShows` is such a field; `FieldPhase.CanonicalIff` is the exact condition).
- `multiply_bloch_phase` is meant to turn a periodic part into the same field as multiplying before
  the conversion (python/tests/test_mpb.py:2087-2107 compares the two). Between the last grid point
  of a cell and the first of the next, the neighbour in the next cell gets one phase too many
  (`BlochPhase.SeamShows` and `BlochPhase.NearestShows` are inputs; `BlochPhase.MultiplyIff` and,
  with pick_nearest, `BlochPhase.NearestIff` are the exact conditions).
- Numeric stop conditions in a list all compare with the last number, since the closures share the
  loop variable (`Simulations.LaterNumberWins` is a list that stops late,
  `Simulations.SeveralConditions` says which lists do not).
- Whether `mean_epsmu` gives up can depend on the order in which the corners of a pixel are sampled
  (`NeighbourScan.OrderMatters` is an input, `NeighbourScan.OrderMattersIff` the exact condition).
- `find_root_deriv` need not end, even with a bracketed root and no zero slope
  (`Newton.RunNeedNotEnd`).
- A negative block size with zero bands divides by zero (`BandBlocks.BlockSizeFits`). The recursion
  of `divby` does not end for zero (`SmoothGrid.ReturnsIff`), so `next_factor2357` has a result
  exactly for n >= 1 (`SmoothGrid.NextFactor2357`); for other n Python raises RecursionError.
- `strchr` finds the terminating NUL, so an all-zero field type passes the tests for a loaded
  field.

## Model

| member | source | states |
|---|---|---|
| FieldPhase.ModeSolver.FixFieldPhase | libpympb/pympb.cpp:2016-2126 | the buffers afterwards: the field times one signed phase, the column of the band in H times the same phase, every other entry of H as before; nothing changes when no field is loaded |
| FieldPhase.ModeSolver.SumOfSquares | libpympb/pympb.cpp:2037-2042 | the loop leaves the sum of the squared components |
| FieldPhase.ModeSolver.LargestRealPart | libpympb/pympb.cpp:2066-2070 | the loop finds the largest absolute real part of the rotated field |
| FieldPhase.ModeSolver.SignOfLastBig | libpympb/pympb.cpp:2074-2082 | the downward loop finds the sign at the last entry with at least half of that |
| FieldPhase.ModeSolver.MultiplyField | libpympb/pympb.cpp:2112-2117 | every component is multiplied in place |
| FieldPhase.ModeSolver.MultiplyColumn | libpympb/pympb.cpp:2118-2125 | exactly the entries of one column of the row-major buffer are multiplied |
| FieldPhase.Canonical | libpympb/pympb.cpp:2034-2102 | two fields that differ by any unit phase become the same field, whichever of the two halved angles is taken, if the sum of squares is not zero |
| FieldPhase.Idempotent | libpympb/pympb.cpp:2034-2102 | a fixed field is not changed by fixing it again |
| FieldPhase.CanonicalIff | libpympb/pympb.cpp:2034-2102 | the result is independent of the incoming phase if and only if the sum of squares is nonzero or the field is zero |
| FieldPhase.NotCanonicalAtZero | libpympb/pympb.cpp:2048-2050 | with a vanishing sum of squares a nonzero field multiplied by i is fixed to something else |
| FieldPhase.CircularSum | libpympb/pympb.cpp:2034-2050 | a nonzero field with a vanishing sum of squares |
| FieldPhase.CircularShows | libpympb/pympb.cpp:2034-2102 | that field and the field times i, the same mode, are fixed to different fields |
| FieldPhase.FixedIsMaximal | libpympb/pympb.cpp:2034-2050 | every modulus is kept, the sum of squares becomes real and non-negative, and no unit phase gives a larger sum of squared real parts |
| FieldPhase.FixedSign | libpympb/pympb.cpp:2052-2082 | the last entry with at least half the largest real part is positive; with a nonzero sum of squares such an entry exists |
| MeanEpsMu.MeanEpsmu | libpympb/pympb.cpp:288-559 | the whole call: gives up without touching its outputs exactly when the scan or the material test does, returns the material and a zero normal for one material, 0 for a vanishing normal; otherwise the image with the larger id gives the normal, the part of the pixel that it overlaps is the share of its material, and the result is the effective tensor of the interface for that share, finite exactly when no division is by zero and positive definite for positive-definite materials |
| MeanEpsMu.OneMaterialFills | libpympb/pympb.cpp:440-447 | an interface pixel that the object on top fills, or does not touch, gets the tensor of one material |
| MeanEpsMu.PixelsTile | libpympb/pympb.cpp:288-310 | neighbouring pixels meet and the cell is centred on the origin |
| MeanEpsMu.NonAnalyzableIff | libpympb/pympb.cpp:404-413 | the material test gives up exactly if one of the two materials to be averaged is a function or a file |
| MeanEpsMu.MaterialUsed | libpympb/pympb.cpp:353-365 | the material of a sample is that of its object, or the default one in the background and for files |
| MeanEpsMu.InterfaceAverage | libpympb/pympb.cpp:449-552 | fails only for a zero normal; otherwise the tensor is finite exactly when neither normal component nor their average vanishes, and then it is the effective tensor for the Cartesian normal; positive definite for positive-definite materials and fill in [0,1] |
| MeanEpsMu.AverageInFrame | libpympb/pympb.cpp:491-550 | in the frame held by the array: the averaged tensor turned back, or a division by zero, exactly as the specification says |
| MeanEpsMu.BuildFrame | libpympb/pympb.cpp:456-489 | for every nonzero normal the array becomes a right-handed orthonormal frame whose first column points along the normal, without a division by zero |
| MeanEpsMu.TransposeInPlace | libpympb/pympb.cpp:546-549 | the three swaps transpose the array |
| MeanEpsMu.ThirdAxisFits | libpympb/pympb.cpp:469-478 | both choices of the third axis are orthogonal to the normal and nonzero |
| MeanEpsMu.SamplesAreCorners | libpympb/pympb.cpp:302-351 | a point is sampled if and only if it is the centre of the pixel or one of its corners in the counted dimensions |
| MeanEpsMu.SamplesInOrder | libpympb/pympb.cpp:302-351 | the samples of a pixel in the order in which they are visited, on which the scan may depend |
| Reals.OrTinyIs | libpympb/pympb.cpp:426-428 | the divisor is the lattice size, or 1e-20 for zero |
| MeanEpsMu.SamplesDistinct | libpympb/pympb.cpp:302-351 | no point is sampled twice unless the pixel is flat |
| NeighbourScan.ScanNeighbours | libpympb/pympb.cpp:345-394 | the loop computes the scan, and fails exactly when the scan gives up |
| NeighbourScan.ScanExplains | libpympb/pympb.cpp:366-393 | when the scan does not give up, every visited sample is the picked image with the larger id or has the material of the other picked object |
| NeighbourScan.ScanSound | libpympb/pympb.cpp:345-402 | then no third material was seen, for any sequence of samples |
| NeighbourScan.SomeOrderFails | libpympb/pympb.cpp:377-393 | two materials below the largest id, or an object met in two images above another one, make the scan give up in some order |
| NeighbourScan.SucceedsInEveryOrder | libpympb/pympb.cpp:377-393 | the scan succeeds in every order of the samples if and only if all samples below the largest id share a material and an object met in several images has the lowest id |
| NeighbourScan.SucceedsInSomeOrder | libpympb/pympb.cpp:366-393 | the scan succeeds in some order if and only if all samples share a material, or all but one image do and that image has a larger id than one of them |
| NeighbourScan.OrderMattersIff | libpympb/pympb.cpp:366-393 | one order succeeds and another gives up if and only if the second condition holds and the first does not |
| NeighbourScan.OrderMatters | libpympb/pympb.cpp:366-393 | three samples that succeed in one order and make the scan give up in another |
| Kottke.MeanPositive | libpympb/pympb.cpp:491-550 | positive-definite materials and fill in [0,1]: no division by zero, and a positive-definite average |
| Kottke.PositiveIff | libpympb/pympb.cpp:495-515 | positive definiteness seen in the averaged variables, both ways |
| Kottke.UntauTau | libpympb/pympb.cpp:495-538 | the change to the averaged variables is undone by the change back |
| Kottke.MeanOfOne | libpympb/pympb.cpp:495-550 | a tensor averaged with itself is itself; fill 1 and 0 give the first and the second |
| Kottke.MeanSwaps | libpympb/pympb.cpp:495-550 | exchanging the materials and the fill changes nothing |
| EffectiveMedium.MeanIsEffective | libpympb/pympb.cpp:491-550 | the averaged tensor maps the average of E to the average of D for all fields that are continuous at the interface |
| EffectiveMedium.EffectiveIsUnique | libpympb/pympb.cpp:491-550 | no other tensor does |
| EffectiveMedium.EffectiveSwaps | libpympb/pympb.cpp:491-550 | exchanging the materials and the fill gives the same effective tensors |
| EffectiveMedium.LayeredMedium | libpympb/pympb.cpp:491-550 | for two isotropic materials it is the arithmetic mean along the interface and the harmonic mean across it |
| EffectiveMedium.FilledByOne | libpympb/pympb.cpp:491-550 | with fill 1 it is the tensor of the first material |
| EffectiveMedium.MeanIgnoresFrame | libpympb/pympb.cpp:469-489 | the sign of the normal and the choice of the tangential axes do not matter |
| Tensors.FormRotate | libpympb/pympb.cpp:492-493 | the assumed effect of the rotation routine: congruence, so that forms are kept |
| Tensors.RotateKeepsPositive | libpympb/pympb.cpp:550 | rotation keeps positive definiteness |
| ResampleAxis.ModfIsFloor | libpympb/pympb.cpp:2501-2511 | the macro with truncation gives the floor and the fraction in [0, 1) |
| ResampleAxis.AdjPointMoves | libpympb/pympb.cpp:2513-2537 | for any index and either direction the neighbour is one grid step away counting wrapped cells, and its weight is the length of dx |
| ResampleAxis.AxisInRange | libpympb/pympb.cpp:2513-2537 | for every n >= 1 both neighbours are indices, they are one grid step apart counting wrapped cells, the weight is in [0, 1), and the position lies between them |
| ResampleAxis.NearestIsNearest | libpympb/pympb.cpp:2630-2635 | with pick_nearest the kept neighbour is within half a grid step, the lower one on ties |
| ResampleAxis.PeriodAxisSamples | libpympb/pympb.cpp:2570-2625 | the neighbours, cell and weight at every output index when n points are repeated m times |
| ResampleAxis.OddPeriodsTile | libpympb/pympb.cpp:2570-2625 | for odd m: sample i mod n, weight zero, cell i div n counted from the middle one |
| ResampleAxis.TilesIff | libpympb/pympb.cpp:2570-2625 | an output index reads only sample i mod n if and only if m is odd or n is 1, with or without pick_nearest |
| Resample.RealPointBounds | libpympb/pympb.cpp:2669-2676 | a real output stays between any bounds of the input |
| Resample.NearestIsSample | libpympb/pympb.cpp:2630-2676 | with pick_nearest every real output is exactly one input sample |
| Resample.FormulasAgree | libpympb/pympb.cpp:1770-1775 | the sum of eight products and the nested interpolations are the same function |
| Resample.InterpAxisAgrees | libpympb/pympb.cpp:1741-1766 | interp_val finds the same neighbours and weight as map_data |
| Resample.ResamplersAgree | libpympb/pympb.cpp:1731-1778 | interp_val at a point is map_data without pick_nearest at the corresponding point of the unit cell |
| Resample.IndexInjective | libpympb/pympb.cpp:2645 | different grid points have different flat indices |
| Resample.StridedIndex | libpympb/pympb.cpp:1717-1729 | the strided index of get_val stays inside the data |
| MapData.PhaseCache.AddTimesPhase | libpympb/pympb.cpp:2539-2552 | one output entry gains the sample times its phase times its weight, all others stay; the static cache keeps matching recomputation |
| MapData.WritePoint | libpympb/pympb.cpp:2646-2664 | the eight additions leave the sum over the corners at one output index |
| MapData.MapComplex | libpympb/pympb.cpp:2554-2681 | every complex output is the value at its source point, computed from the input on entry |
| MapData.MapReal | libpympb/pympb.cpp:2554-2681 | every real output is the value at its source point |
| Tiling.OutputSizes | python/mpb_data.py:75-91 | the sizes after the three overwriting loops, for both kinds of resolution |
| Tiling.SizesAreNearest | python/mpb_data.py:75-91 | with a resolution an axis gets the nearest number of points to length times resolution, halves upward, at least one |
| Tiling.SizesTruncate | python/mpb_data.py:75-91 | without one it gets the whole part of multiplier times points, at least one |
| Tiling.SizesArePeriods | python/mpb_data.py:83-91 | resolution 0 and a whole multiplier m give n*m points, and 1 beyond the rank |
| Tiling.HandleDataset | python/mpb_data.py:60-131 | real data: each output is its source point value; with resolution 0, a multiplying map and odd multipliers it is the tiled input |
| Tiling.HandleComplex | python/mpb_data.py:60-129 | complex data: each output is its source point value times the constant factor; with resolution 0, a multiplying map and odd multipliers it is the tile times the Bloch phase of its cell times that factor |
| Tiling.RealTiles | libpympb/pympb.cpp:2570-2676 | out[i,j,k] = in[i mod n0, j mod n1, k mod n2] for odd period counts |
| TilingExact.TiledOutputIff | python/mpb_data.py:60-131 | over whole periods the output is the tiled input for all real data if and only if every axis has an odd number of periods or a single point, with or without pick_nearest |
| TilingExact.UnitPoint | libpympb/pympb.cpp:2666-2676 | for data that is 1 at one sample and 0 elsewhere the sum of eight products is the product of the shares that the axes take from that sample |
| Tiling.ComplexTiles | libpympb/pympb.cpp:2570-2664 | for complex data without multiply_bloch_phase: the tile times the phase of its cell |
| Tiling.OnePeriodIsIdentity | libpympb/pympb.cpp:2570-2664 | one period in every direction gives the input back |
| Tiling.OutputIsBloch | libpympb/pympb.cpp:2574-2579 | going any whole numbers of cells along the three axes multiplies the output by exp(2 pi i k.(a,b,e)) |
| Tiling.TilesWithoutK | libpympb/pympb.cpp:2574-2579 | without a Bloch vector complex data is tiled unchanged |
| BlochField.SourceIsCentred | libpympb/pympb.cpp:2570-2606 | coord_map is applied about the middle of the output cell, whose image is the middle of the unit cell, for every coord_map |
| BlochField.NeighboursInCells | libpympb/pympb.cpp:2513-2537 | the two neighbours are consecutive points of the grid continued to all cells, each with its own cell number |
| BlochField.InterpolatesContinued | libpympb/pympb.cpp:2646-2664 | without multiply_bloch_phase the complex output is the trilinear interpolation of the samples continued to all cells by Bloch phases |
| BlochField.ComplexIsTwoReals | libpympb/pympb.cpp:2646-2677 | without a Bloch vector the complex branch computes what the real branch does for each part |
| BlochPhase.MultipliedPoint | libpympb/pympb.cpp:2611-2664 | with multiply_bloch_phase: exp(i k.x) times the neighbours, those in the next cell with one more phase of a cell |
| BlochPhase.SeamlessIsBlochWave | libpympb/pympb.cpp:2611-2664 | where no weighted neighbour lies in the next cell, or the phase of a cell is one, the output is exp(i k.x) times the interpolated periodic part |
| BlochPhase.MultiplyIff | libpympb/pympb.cpp:2611-2664 | without pick_nearest it is so for all data on any grid if and only if on every axis the neighbour in the next cell has no weight or the phase of a cell is one |
| BlochPhase.NearestIff | libpympb/pympb.cpp:2611-2664 | with pick_nearest it is so for all data if and only if the cells that the picked sample lies beyond have phase one |
| BlochPhase.NearestShows | libpympb/pympb.cpp:2611-2664 | four points and x = 15/16: the same with pick_nearest |
| BlochPhase.SeamShows | libpympb/pympb.cpp:2611-2664 | four points and x = 7/8: with a phase of a cell other than one, some data does not give a Bloch wave |
| OutputLattice.MPBData.InitOutputLattice | python/mpb_data.py:229-314 | succeeds exactly for independent lattice vectors and an admissible direction, else changes nothing; the output vectors are the rectified ones (those of OutputLattice.RectifiedIsUnique) stretched by the multipliers, volume times the multipliers is kept, the coordinate map takes input to output vectors, the first vector keeps direction and length without ve |
| OutputLattice.MPBData.Rectify | python/mpb_data.py:263-290 | orthogonal vectors of the same determinant, the first along the wanted direction; the second differs from c2 - c1 by a multiple of the first, the third from c3 - c1 by a combination of the first two; and a Cartesian map that turns them onto the axes |
| OutputLattice.RectifiedIsUnique | python/mpb_data.py:263-290 | these conditions determine all three vectors |
| OutputLattice.MPBData.DirectionTest | python/mpb_data.py:272-278 | the divisor is zero exactly for a direction in the plane of the two differences |
| OutputLattice.Rectified | python/mpb_data.py:275-285 | one rectification keeps the triple product and gives orthogonal vectors |
| OutputLattice.SecondVector | python/mpb_data.py:281-284 | c2 is nonzero before it is divided by |
| OutputLattice.CartesianFrame | python/mpb_data.py:287-290 | the inverse of the three unit vectors keeps lengths and maps the vectors onto the axes |
| OutputLattice.ScaledLatticeMap | python/mpb_data.py:292-312 | without rectification the coordinate map is the diagonal of the multipliers |
| FieldEnergy.ModeSolver.ComputeFieldEnergyInternal | libpympb/pympb.cpp:1599-1646 | total, six component sums and the first N reals are those of the field on entry although the buffer is overwritten on the way; the rest of the buffer is kept and the type becomes upper case |
| FieldEnergy.ModeSolver.ComputeFieldEnergy | libpympb/pympb.cpp:1664-1701 | returns nothing and changes nothing without a loaded field of the right type, else seven numbers: the sum over the points times the volume divided by their number, and six shares which times the sum are the component sums; a second call returns nothing unless the type is the NUL that strchr also accepts |
| FieldEnergy.ModeSolver.LoadField | libpympb/pympb.cpp:1612-1622 | the weighted field at a point: inverse permittivity for d, the field itself for h, inverse permeability for b, if there is one |
| FieldEnergy.DensityOfOne | libpympb/pympb.cpp:1624-1637 | without a tensor the density is the squared modulus of the field |
| FieldEnergy.ToUpperIs | libpympb/pympb.cpp:1643 | a lower-case letter becomes its upper-case one, everything else stays |
| FieldEnergy.ComponentsAddUp | libpympb/pympb.cpp:1624-1637 | the six component sums account for the whole energy |
| FieldEnergy.DensitySign | libpympb/pympb.cpp:1610-1637 | densities of positive-definite tensors are non-negative and vanish only with the field |
| FieldEnergy.EnergySign | libpympb/pympb.cpp:1635-1637 | the total is zero exactly for the zero field |
| FieldEnergy.SharesAddUp | libpympb/pympb.cpp:1682-1698 | the six returned shares add up to one, or to zero for the zero field |
| BandBlocks.BlockSizeFits | libpympb/pympb.cpp:747-758 | the block size lies between 1 and the number of bands; it is undefined exactly for zero bands and a negative request, where the code divides by zero |
| BandBlocks.GuessedBlockSize | libpympb/pympb.cpp:751-755 | for a request of -B: the smallest size that needs no more than ceil(n/B) blocks, and it needs exactly that many |
| BandBlocks.PositiveRequest | libpympb/pympb.cpp:747-758 | a positive request is met up to the number of bands; no request is all bands |
| BandBlocks.BlocksTile | libpympb/pympb.cpp:1108-1121 | every band lies in exactly one block and no block runs past the last band |
| BandBlocks.BlockCount | libpympb/pympb.cpp:1108 | number of blocks |
| BandBlocks.SolvedShape | libpympb/pympb.cpp:1108-1187 | bands found stay as they are, and all others get a column and a value |
| BandBlocks.EveryBlockSolved | libpympb/pympb.cpp:1133-1178 | each block of the finished matrix is the eigensolver answer for the starting vectors in its place and the finished bands before it |
| BandBlocks.EachBandOnce | libpympb/pympb.cpp:1108-1178 | so is each single band |
| BandBlocks.ModeSolver.SolveKpoint | libpympb/pympb.cpp:1085-1214 | in place: the constant bands in the first columns with value 0, then the solved bands, no column lost, all working sizes restored |
| BandBlocks.ModeSolver.SolveRest | libpympb/pympb.cpp:1108-1187 | the block loop computes the block-by-block specification, with H and the block sharing memory or not |
| BandBlocks.ModeSolver.SolveBlock | libpympb/pympb.cpp:1133-1178 | one block |
| BandBlocks.ModeSolver.SetWidths | libpympb/pympb.cpp:1114-1121 | all working sizes change together |
| BandBlocks.ModeSolver.PutConstants | libpympb/pympb.cpp:1195-1202 | resize, right shift and constant columns: the solved columns follow the constant ones |
| BandBlocks.ModeSolver.RemoveConstants | libpympb/pympb.cpp:1085-1093 | left shift and resize drop the first columns and keep the others in order |
| BandBlocks.ModeSolver.constructor | libpympb/pympb.cpp:808-823 | a block as large as the matrix shares its memory |
| EvectMatrices.EvectMatrix.ShiftLeft | libpympb/pympb.cpp:1087-1091 | columns move k to the left in place |
| EvectMatrices.EvectMatrix.ShiftRight | libpympb/pympb.cpp:1197-1201 | columns move k to the right in place |
| EvectMatrices.EvectMatrix.Resize | libpympb/pympb.cpp:1092 | assumed of MPB: the row width changes and the columns are kept on demand |
| EvectMatrices.EvectMatrix.LoadBlock | libpympb/pympb.cpp:1133-1139 | columns of H become the columns of the block |
| EvectMatrices.EvectMatrix.SaveBlock | libpympb/pympb.cpp:1172-1178 | columns of the block replace columns of H, the others stay |
| EvectMatrices.MovedColumns | libpympb/pympb.cpp:1087-1092 | a finished in-place move read as columns |
| Brillouin.TryPlus | python/solver.py:1127-1128 | terminates for every k and every regular lattice; the result is k or a strictly closer translate |
| Brillouin.Try | python/solver.py:1130-1131 | leaves k alone exactly if neither direction brings it closer |
| Brillouin.TryAll | python/solver.py:1149-1150 | leaves k alone exactly if no listed step in either direction brings it closer |
| Brillouin.TryAllAndRepeat | python/solver.py:1152-1154 | terminates in a point that no listed step brings closer |
| Brillouin.FirstZone | python/solver.py:1118-1158 | the result differs from k by integers, is no farther out than k and k - round(k), and no listed step in either direction shortens it |
| Brillouin.FirstBrillouinZone | python/solver.py:1118-1158 | from the lattice: refused exactly for dependent basis vectors, else the same three properties for a reciprocal map that is dual to the scaled lattice |
| Brillouin.CloserIff | python/solver.py:1127-1154 | the set that shrinks: all lattice translates strictly closer to the origin, and it is finite |
| Brillouin.CloserShrinks | python/solver.py:1127-1154 | moving to a closer translate leaves strictly fewer |
| Brillouin.NormComparison | python/solver.py:1124-1128 | comparing norms is comparing squared norms |
| Brillouin.ReciprocalOf | python/geom.py:1718-1724 | defined exactly for independent basis vectors; the image of k times the lattice point n is k.n for all k and n, and the inverse map undoes it |
| BrillouinGlobal.FirstZoneIsGlobal | python/solver.py:1118-1158 | for reduced lattices the result is closest to the origin among all translates: the documented first Brillouin zone |
| BrillouinExact.FirstZoneIsGlobalIff | python/solver.py:1118-1158 | the result is in the first Brillouin zone for every k-point if and only if every lattice vector is a combination of the basis with entries -1, 0, 1 or is split by a lattice vector into two nonzero parts v + h and -h with |v + 2h| <= |v| |
| BrillouinExact.SufficientSteps | python/solver.py:1133-1147 | under that condition a point that no listed step shortens is shortened by no lattice vector |
| BrillouinExact.Stuck | python/solver.py:1118-1158 | for a vector without such a split there is a point that is returned unchanged although that vector brings it closer |
| BrillouinExact.FiniteTest | python/solver.py:1133-1147 | the condition needs a look only at the finitely many vectors shorter than the representative of their class modulo two |
| BrillouinExact.ReducedSuffices | python/solver.py:1118-1158 | reduced lattices meet it |
| BrillouinGlobal.LocalIsGlobal | python/solver.py:1133-1147 | for reduced lattices a point that no listed step improves is closest of all |
| BrillouinGlobal.ObtuseIsReduced | python/solver.py:1133-1147 | bases that are obtuse as given, orthogonal ones among them, are reduced |
| BrillouinGlobal.SkewedIsNotGlobal | python/solver.py:1118-1158 | a skewed lattice where the result is not in the first Brillouin zone |
| BandGaps.UpdateBrdAt | python/solver.py:506-519 | the update band by band; bands beyond the new list keep their entries |
| BandGaps.FoldExtremes | python/solver.py:506-519 | after any k-points the stored ranges hold the extremes of every band and the first k-point that attains each; a band without a frequency below 1e20 keeps the missing minimum, one without a frequency above -1e20 the missing maximum |
| BandGaps.OutputGapsIsGapList | python/solver.py:532-563 | the reversed accumulator read in triples is the list of gaps in order; it fails exactly when a gap has midpoint zero |
| BandGaps.GapsAreExact | python/solver.py:532-563 | the gaps are ordered and disjoint, and a frequency lies strictly inside one if and only if it separates two neighbouring bands at every k-point and lies between -1e20 and 1e20 |
| BandGaps.GapsHoldNoSample | python/solver.py:532-563 | no sampled frequency lies strictly inside a gap |
| BandGaps.RetrievedIsReported | python/solver.py:565-572 | the percentage is the one reported, and positive exactly for a gap when frequencies are positive |
| BandGaps.RetrievedFromTheEnd | python/solver.py:565-572 | for all other arguments: ValueError from the last band on, IndexError below, and negative indices count from the end, so 0 compares the last band with the first |
| BandGaps.PercentOfMiddle | python/solver.py:545-572 | the percentage is that of the width in the middle frequency |
| BandGaps.ModeSolver.RunParity | python/solver.py:892-961 | the loop leaves the fold over all k-points, all frequencies, and the gap list for more than one k-point |
| Newton.StepKeepsBracket | python/geom.py:1845-1880 | one call: bounds keep their signs and range, the inner raise does not happen, a point is returned for a zero value or |dx| < |tol*x|, a Newton step lands strictly between the bounds tested, a bisection goes to the middle of the old forced bracket and moves its ends as the sign says, pick_bound fails only without an endpoint of that sign |
| Newton.RunKeepsBracket | python/geom.py:1845-1890 | the same over every run, from any guess: all points and bounds stay in the hull of the endpoints and the guess; the only other error is a zero slope there |
| Newton.ForcedBrackets | python/geom.py:1823-1840 | a forced pair of bounds has values of opposite sign, unless an endpoint of that sign does not exist; the lower endpoint is preferred |
| Newton.ReturnsRootIff | python/geom.py:1845-1853 | a call returns its point if and only if the value there is zero or |dx| < |tol*x| |
| Newton.RootReached | python/geom.py:1845-1890 | a root that a run returns is a zero or was reached by a step shorter than tol times it |
| Newton.InBoundsIff | python/geom.py:1842-1843 | the product test holds if and only if the slope is not zero and the Newton step lands strictly between the two bounds |
| Newton.ErrorsIff | python/geom.py:1855-1880 | exactly when a call that does not return raises: a slope of zero after the first call, or no endpoint with the sign of a bound that the step needs and that is not yet known |
| Newton.FlatIsOutOfBounds | python/geom.py:1842-1843 | with slope zero no Newton step is taken |
| Newton.RunNeedNotEnd | python/geom.py:1845-1890 | endpoints of opposite sign and no zero slope, and yet Newton steps that go on for ever: the lazy bound is never replaced |
| Newton.Memo.Call | python/geom.py:1800-1812 | the value of f, with one evaluation for each new argument and none for a known one |
| Newton.RootFinder.NewtonStep | python/geom.py:1845-1880 | one call with lazy bounds computes the step; besides x it evaluates f at the endpoints only, and only if a bound is forced |
| Newton.RootFinder.AdvanceStep | python/geom.py:1866-1880 | the Newton step if it stays in bounds, else bisection, with their evaluations |
| Newton.RootFinder.Pick | python/geom.py:1826-1840 | evaluates both endpoints before choosing |
| Newton.RootFinder.CheckBracket | python/geom.py:1859-1864 | the bracket check, and the evaluations it needs |
| Newton.RootFinder.BisectStep | python/geom.py:1874-1880 | bisection of the old bracket |
| Newton.RootFinder.FindRoot | python/geom.py:1817-1890 | any number of calls from the guess or the middle, with both bounds lazy: f is never evaluated twice at a point nor outside the hull of the endpoints and the guess, which is the interval for a guess inside it; a root returned is a zero or was reached by a step shorter than tol times it |
| SmoothGrid.NextIsLeastSmooth | python/solver.py:871-880 | the least number at or above n of the form 2^a 3^b 5^c 7^d, below 2n |
| SmoothGrid.NextFactor2357 | python/solver.py:871-880 | returns exactly for n >= 1, with the least number at or above n that passes the test; negative numbers climb to zero, where the recursion does not end |
| SmoothGrid.ChainIsSmooth | python/solver.py:872-876 | the chain of divisions ends in 1 if and only if the number has that form |
| SmoothGrid.DivByIs | python/solver.py:873-874 | divby takes out a power of p and leaves nothing divisible |
| SmoothGrid.ReturnsIff | python/solver.py:873-874 | the recursion of divby returns if and only if its argument is not zero |
| SmoothGrid.ZeroCallsAgain | python/solver.py:873-874 | divby(0, p) calls itself with the same arguments after any number of calls |
| SmoothGrid.DistanceShrinks | python/solver.py:880 | the distance to the next power of two shrinks |
| Partitions.NumChunksIsLeafCount | python/simulation.py:6779-6785 | numchunks is the number of leaves |
| Partitions.DuplicatesIff | python/binary_partition_utils.py:39-49 | the count test finds exactly the trees with a repeated id |
| Partitions.TotalWeightIs | python/binary_partition_utils.py:52-76 | the weight is the sum over the leaves, refused exactly for duplicate ids |
| Partitions.VolumesAddUp | python/binary_partition_utils.py:120-205 | volumes of the two sides add up to that of the node plus what they share; nothing is shared for distinct ids |
| Partitions.TotalVolumePerProcess | python/binary_partition_utils.py:208-236 | one entry for each leaf id, with the pixels of its chunks |
| Partitions.PixelsAddUp | python/binary_partition_utils.py:114-117 | cutting a chunk across any axis cuts its pixels; a chunk without a third dimension counts like one of thickness one |
| Partitions.ProcessVolumesAddUp | python/binary_partition_utils.py:208-236 | with distinct ids the entries add up to the volume of the tree |
| Partitions.BoxRanges | python/binary_partition_utils.py:239-285 | the six extremes over the chunks of the leaves, attained; fails exactly when there is none |
| Partitions.RangeIsProper | python/binary_partition_utils.py:239-285 | the range of chunks with ordered corners has ordered corners |
| Tilings.LeafBoxesTile | python/chunk_balancer.py:236-246 | a point of the box off the split planes lies in exactly one leaf box, when every split lies in its box |
| Tilings.LeafBoxesCover | python/chunk_balancer.py:236-246 | every point of the box lies in a leaf box |
| Tilings.LeafVolumesAddUp | python/chunk_balancer.py:236-246 | leaf box volumes add up to the volume of the box |
| Tilings.LeafBoxesProper | python/chunk_balancer.py:236-246 | no leaf box has a negative extent |
| Balancer.ShapeKept | python/chunk_balancer.py:162-269 | the new layout has the shape, split axes and process ids of the old one |
| Balancer.InstantChangeTiles | python/chunk_balancer.py:223-246 | with sensitivity 1 every new split lies in its box |
| Containment.ContainedIff | python/chunk_balancer.py:202-246 | rebalancing keeps every split in its box for all measured times if and only if the two extreme layouts do, or the sensitivity is one |
| Containment.SafeKeepsInside | python/chunk_balancer.py:202-246 | the sufficient half, for every load |
| Containment.SomeEscape | python/chunk_balancer.py:225-246 | where an extreme layout fails, some fractions move a split out of its box |
| Containment.Realize | python/chunk_balancer.py:213-225 | every choice of fractions is what some positive times measure |
| Containment.RebalancedIsLayout | python/chunk_balancer.py:223-267 | the layout depends on the measurements through the fractions only |
| Containment.AxesOnceIsSafe | python/chunk_balancer.py:202-246 | trees that split no axis twice on a path are safe for every sensitivity when old splits lie in the root box |
| Containment.NewLayoutTiles | python/chunk_balancer.py:162-269 | under that condition the leaf boxes of the new layout tile the box: one leaf for every point off the split planes, no negative extent, volumes that add up |
| Balancer.RepeatedAxisEscapes | python/chunk_balancer.py:229-246 | an example with a repeated axis and sensitivity 1/2 whose lower split leaves its box |
| Balancer.UnchangedIff | python/chunk_balancer.py:227-234 | the layout is unchanged if and only if the sensitivity is zero or every split is at its target |
| Balancer.BalancedIsFixed | python/chunk_balancer.py:215-234 | even times per chunk and splits at the volume fractions: nothing moves, whatever the sensitivity |
| Balancer.RatioIsVolumeRatio | python/chunk_balancer.py:223-225 | for positive volumes the target is the volume fraction if and only if the times per chunk are equal |
| Balancer.TargetEqualises | python/chunk_balancer.py:223-229 | of all fractions only the target gives equal predicted times per chunk |
| Balancer.TwoChunks | python/chunk_balancer.py:213-225 | two chunks of v0 and v1 pixels with times t0 and t1: the fraction is v0*t1 / (v0*t1 + v1*t0) |
| Balancer.OneThird | python/chunk_balancer.py:213-225 | 10 x 10 x 10 and 10 x 10 x 20 pixels with equal times: a third |
| Balancer.FractionRange | python/chunk_balancer.py:223-225 | the fraction is in [0,1] for non-negative times |
| ChunkLayouts.ComputeNewChunkLayout | python/chunk_balancer.py:162-269 | the old tree is unchanged; a leaf is returned itself; exactly when there is a ValueError (no chunks, or an id twice on one side), an IndexError (an id without a time), a split that is not a number (a zero divisor), and otherwise a fresh tree that holds the rebalanced layout |
| ChunkLayouts.Rebalance | python/chunk_balancer.py:213-267 | the recursion overwrites split_pos of the new tree only; every split is a number exactly when no node divides by zero, and then the tree is the rebalanced layout |
| ChunkLayouts.DeepCopy | python/chunk_balancer.py:190-193 | a fresh copy of the same tree |
| ChunkLayouts.WorkingTimes | python/chunk_balancer.py:271-290 | the time of each process is the sum of its six working categories, by name |
| Boundary.SideThickness | python/simulation.py:1875-1901 | the last layer that applies to a side decides its thickness |
| Boundary.LaterLayersWin | python/simulation.py:1875-1901 | among any layers the later ones decide for the sides that they apply to |
| Boundary.Overlap0Is | python/simulation.py:1908-1949 | a face box is the product of its layer and the two middle zones |
| Boundary.Overlap1Is | python/simulation.py:1951-1993 | an edge box is the product of two layers and a middle zone, missing for zero thickness |
| Boundary.Overlap2Is | python/simulation.py:1995-2010 | a corner box is the product of three layers, missing for zero thickness |
| Boundary.BoundariesToVols | python/simulation.py:2012-2035 | the three filtered lists, side by side in order |
| Boundary.FaceOrder | python/simulation.py:2012-2035 | the order of the faces: top, bottom, left, right, near, far |
| Boundary.EdgeOrder | python/simulation.py:2012-2035 | the order of the twelve edges |
| Boundary.CornerOrder | python/simulation.py:2012-2035 | the order of the eight corners |
| BoundaryPartition.EachZoneOnce | python/simulation.py:2012-2035 | each combination of existing layers is listed once, in the list of its rank |
| BoundaryPartition.LayersPartition | python/simulation.py:1874-2035 | a cell point off the box faces covered by j layers lies in exactly one box of the j-th list and in none of the others, if layers at both ends of an axis are no thicker than the cell together |
| BoundaryPartition.PartitionsIff | python/simulation.py:1874-2035 | for thicknesses and sizes that are not negative this holds at every point if and only if on every axis one of the two layers is missing or both together are no thicker than the cell |
| BoundaryPartition.PartitionLayers | python/simulation.py:1874-2035 | the same for the lists that the call returns |
| BoundaryPartition.OneLayer | python/simulation.py:1874-1949 | one layer object covers exactly the points within its thickness of the ends that it names, High being the end of large coordinates |
| BoundaryVolumes.VolumesFillCell | python/simulation.py:1874-2035 | the box volumes and the interior add up to the cell volume |
| Simulations.Simulation.RunUntil | python/simulation.py:2934-2982 | for numbers and functions as stop conditions: ends at the first step number at which one holds; the step functions get "step" at every step number up to it, the last one included, then one "finish" |
| Simulations.Simulation.EvalStepFunc | python/simulation.py:5285-5433 | one call of a combinator: which calls its functions get, and its closure afterwards |
| Simulations.Simulation.EvalStepFuncs | python/simulation.py:2971-2972 | all functions in order |
| Simulations.FunctionStops | python/simulation.py:2943-2968 | a function among the conditions stops the run when it says so, and adds nothing else |
| Simulations.FieldSteps | python/simulation.py:2948-2973 | the number of field steps is at most k exactly if k steps reach the stop time: ceil(T/h), at least 0 |
| Simulations.SeveralConditions | python/simulation.py:2943-2951 | a list of numbers stops as soon as one of them, read on its own, is reached if and only if the last in the list is reached first |
| Simulations.LaterNumberWins | python/simulation.py:2943-2951 | the list 1, 3 stops a run at 3 although 1 is reached |
| Simulations.NumericStops | python/simulation.py:2944-2951 | a list of numbers stops when its last number is reached |
| Simulations.OneNumberStops | python/simulation.py:2944-2973 | a single number always stops the run, after ceil(T/h) steps |
| StepFunctions.CombinatorFilters | python/simulation.py:5285-5433 | over any sequence of calls a combinator is its functions on the calls it forwards |
| StepFunctions.BodySees | python/simulation.py:5293-5302 | a function of two arguments sees every call, one of one argument the steps only |
| StepFunctions.EvalAllConcat | python/simulation.py:2971-2972 | the functions of a list are called in its order |
| StepFunctions.TwoBodies | python/simulation.py:2971-2972 | of two user functions the first one gets the step first |
| RunLoop.AtEverySchedule | python/simulation.py:5390-5404 | dt > h/2: steps exactly at the positive multiples of ceil(dt/h - 1/2), and the finish |
| RunLoop.RoundsUpIff | python/simulation.py:5390-5404 | for every dt > 0 the schedule is dt rounded up to the next time step, over runs of any length, if and only if dt/h is at most one half, whole, or has a fractional part above one half |
| RunLoop.IntervalRoundsUpIff | python/simulation.py:5399 | ceil(dt/h - 1/2) is dt/h rounded up if and only if dt/h is whole or its fractional part exceeds one half |
| RunLoop.RoundsDown | python/simulation.py:5390-5404 | dt = 1.25 with time steps of 1 passes every step, not every second one |
| RunLoop.EveryMultiple | python/simulation.py:5390-5404 | these are all multiples up to the last step number |
| RunLoop.AtEveryLateRun | python/simulation.py:5390-5404 | in a run that begins at step number n: the first step if the interval is over by then, and every interval after it |
| RunLoop.AtEveryTiny | python/simulation.py:5390-5404 | dt <= h/2 lets every step through |
| RunLoop.AtTimeSchedule | python/simulation.py:5407-5420 | one step, the first due one, if the run gets there; the finish always |
| RunLoop.AtTimeFromStartIff | python/simulation.py:5407-5420 | at_time counts from the start of a later run under exactly the condition of after_time |
| RunLoop.AtBeginningSchedule | python/simulation.py:5359-5372 | the first step and nothing else |
| RunLoop.AtEndSchedule | python/simulation.py:5375-5387 | one step at the end, then the finish |
| RunLoop.AfterTimeSchedule | python/simulation.py:5347-5356 | the steps from the first due one on, and the finish |
| RunLoop.AfterTimeFromStartIff | python/simulation.py:5347-5356 | the time counts from the start of a run that begins at step number n, as documented, if and only if n is zero or the time is due at once |
| RunLoop.SecondRun | python/simulation.py:5347-5356 | in a second run that begins at time 5, after_time(3) passes the first step |
| RunLoop.BeforeTimeSchedule | python/simulation.py:5423-5433 | the steps before the first due one, and the finish |
| RunLoop.BeforeTimeFromStartIff | python/simulation.py:5423-5433 | before_time too counts from the start of the run under exactly that condition |
| RunLoop.BodyAtEvery | python/simulation.py:5390-5404 | the calls of a body under at_every over a whole run from time 0 |
| RunLoop.BodyAtTime | python/simulation.py:5407-5420 | the calls of a body under at_time over a whole run from time 0 |
| RunLoop.AtTimeOnceIff | python/simulation.py:5407-5420 | a body whose time is reached is called once if and only if it takes one argument |
| RunLoop.CombinedSchedule | python/simulation.py:5285-5290 | combining functions passes on every call |

## Left out

- Floating-point rounding, NaN and infinities: results are over exact reals and exact time. The second test in MODF_POSITIVE, which exists for rounding, is there but never taken.
- The Hermitian variant of the dielectric tensor (WITH_HERMITIAN_EPSILON) and inversion-symmetric builds with real fields.
- MeanEpsMu.MeanEpsmu: which entries of the tensor are infinite or NaN after a division by zero. The temporary replacement of zero lattice sizes by 1e-20 around one library call, the sample limit 100/tol and the inverse-tensor output are not modelled.
- Containment.ContainedIff: for distinct ids and chunks on both sides of every node; the times range over all that can be used, the volumes are the given ones.
- Balancer: the lemmas about layouts are for Measured trees, whose ids have times and whose nodes do not divide by zero; ChunkLayouts.ComputeNewChunkLayout covers the other cases as outcomes, without the NaN splits themselves. More owners than chunk volumes are excluded.
- Newton.RootFinder.FindRoot: runs are bounded by a number of calls, and what holds is stated for every such number, since a run need not end (Newton.RunNeedNotEnd); for which functions it ends is not characterised.
- Newton.RunKeepsBracket: a zero derivative away from the first call raises ZeroDivisionError; it is an outcome, not excluded.
- BandBlocks: the operators, preconditioners, constraints and iteration counts of the eigensolver, the copy of H multiplied by 1/mu that serves deflation when mu is present, and the conversion of eigenvalues to frequencies.
- EvectMatrices.EvectMatrix.Resize: MPB's routine is not part of this repository; the body given here meets the contract that its callers rely on.
- Simulations.Simulation.RunUntil: a function among the stop conditions answers by the step number, and some condition holds at some time; runs that never end, and stop functions with side effects on the fields, are not modelled.
- SmoothGrid.NextFactor2357: Python's recursion limit, which long climbs also reach.
- Simulations: closures are values inside the step functions, so one combinator object used twice in a run, or kept for a second run, is not modelled; functions with other than one or two arguments raise ValueError and are not modelled; sources, harmonic inversion and progress display are left out.
- BoundaryPartition: cylindrical cells and one-dimensional cells; points on the faces of boxes; negative thicknesses.
- Tiling: what even period counts give beyond ResampleAxis.PeriodAxisSamples; datasets of vectors, and rectified or resampled output beyond the pointwise statements.
- FieldPhase: the sign factor and index that MPI would combine over several processes; in one process the reductions are copies.
- Resample: interpolation of complex and vector values, which calls the same function for each part.
- FieldEnergy: printing; the other statistics of the fields.
- Partitions: construction from nested lists and printing of partitions; the equality test of two partitions, which is equality of the values here.
- CUDA residency, transports, HDF5, signals, plotting, material tables, Bessel and Hankel beams, Mie series and documentation: data, special functions or glue.
