# Point-cloud loader and z-slicer, modelled in Dafny

This project models the core of `PointProcessor`, the engine of a point-cloud
viewer. `PointProcessor` works in four stages:

- It reads a text file of `x y z` triples.
- A failed load stores one of four messages.
- It computes the bounding box and sorts the points by `z`.
- On a worker thread, it partitions the sorted points into slices along `z`.
  The slices are given by a list of widths, and the result is one boundary
  index per slice.

The model is sequential. Each call the worker or the UI makes is one method of
the class `Processor.PointProcessor`.

Modules:

- `Geometry`: `Point` (the source's `vec3<float>`, with `real` coordinates),
  componentwise min/max, and the predicates `InBox`, `BoundsAttained` and
  `SortedByZ`.
- `Parser`: the file as a stream of `%f` fields, each delimited where the
  conversion stops rather than at whitespace (`Num(r)`, `NaN`, or a `Bad`
  field that `%f` rejects), `fscanf("%f%f%f")` over it, the parse loop both as a function
  (`Scan`) and as a loop (`ReadTriples`), and the load outcome (`Load`). It
  also holds the properties of the parse: which inputs load, one point per
  triple in input order, and an encoder whose output loads back to the same
  points.
- `Statistics`: the bounding-box pass and the sort by `z` (an in-place
  insertion sort on an array).
- `Partition`: a reference definition of every entry of `section_indices`
  (`Boundary`, `SectionIndices`), its properties, and the scan of
  `ProcessingFunction` proved equal to it.
- `Processor`: class `PointProcessor`, with the fields the source updates
  (`points`, `sections`, `sectionIndices`, `isLoaded`, `mustUpdate`,
  `failedToLoad`, `fileLoadError`, the bounding box, `fileSize`,
  `memoryUsed`). It has the load, the worker step, `SetSections` and the
  asserting getters. The invariant `Valid()` ties these together:
  - a failed load is never marked loaded;
  - a loaded processor has sorted points inside an attained bounding box;
  - once the worker has caught up, `sectionIndices` equals
    `SectionIndices(points, sections)`.

The code does the following, and the model follows it:

- **Unreached entries stay 0.** If the points run out before every slice
  closes, the current slice's entry is the number of points. Every later entry
  keeps the 0 that `resize` put there, not the number of points. So the vector
  can decrease: widths `[1.5, 2.0, 1e6]` over `z = 0, 1, 2` give `[2, 3, 0]`
  (`Partition.ThreeWidthsExample`). `Partition.OpenEntries` states the general
  case.
- **One width.** With a single width `w`, the one entry is the index of the
  first point whose `z` exceeds `w`, not always the number of points
  (`Partition.SingleSection`).
- **A point closes at most one slice.** After a slice closes at point `i`, the
  next slice is tested from point `i + 1` on, even when `z[i]` also exceeds
  the next bound.
- **Failed loads keep points.** A failed load keeps the points pushed before
  the failure (`LoadFile`'s postcondition), instead of discarding them.
- **Stale indices.** `section_indices` has the length of the widths only after
  the worker has run on them. Before the first width list it is empty. Between
  `SetSections` and the next worker step, it still has the previous list's
  length.

## Model

| member | source | states |
|---|---|---|
| Geometry.MinReal | PointProcessor.hpp:103 | the minimum is at most both arguments and is one of them |
| Geometry.MaxReal | PointProcessor.hpp:102 | the maximum is at least both arguments and is one of them |
| Geometry.PointMin | PointProcessor.hpp:103 | the componentwise minimum is at most both points in every coordinate, and each coordinate comes from one of them |
| Geometry.PointMax | PointProcessor.hpp:102 | the componentwise maximum is at least both points in every coordinate, and each coordinate comes from one of them |
| Geometry.PermutedBox | PointProcessor.hpp:126 | reordering the points (the sort) keeps every point inside the box and keeps each bound attained |
| Parser.Message | PointProcessor.hpp:56-85 | the message of each failure kind is one of the four literals the source stores, and none is empty |
| Parser.MessagesDistinct | PointProcessor.hpp:56-85 | two failure kinds have the same message if and only if they are the same kind |
| Parser.Converted | PointProcessor.hpp:62 | `%f` converts a prefix of the tokens: every converted token is a number or NaN, and the conversion stops at the first rejected token |
| Parser.Fscanf3 | PointProcessor.hpp:62-66 | `fscanf` returns EOF exactly at end of input; otherwise it returns 0 to 3, and the returned count of fields are the next tokens, all converted; with a count below 3 the token after them, if any, is one `%f` rejects; it returns 3 exactly when the next three tokens all convert |
| Parser.Scan | PointProcessor.hpp:60-81 | the parse loop never accepts more points than whole triples in the input |
| Parser.ScanSpec | PointProcessor.hpp:60-81 | the i-th accepted point is the i-th triple, and that triple is all numbers; the loop ends at EOF exactly when every token was used; it stops with a format error exactly when the next triple is short or has a rejected token, and with a value error exactly when the triple converts but holds a NaN |
| Parser.ReadTriples | PointProcessor.hpp:60-81 | the `fscanf` loop returns the points and the stop reason that `Scan` defines |
| Parser.Load | PointProcessor.hpp:53-87 | an unopenable file, and only that, gives the open error; an empty field stream, and only that, gives the empty-file error; a success holds at least one point, three tokens per point |
| Parser.LoadSucceedsIff | PointProcessor.hpp:53-87 | a load succeeds if and only if the file opens and holds a positive multiple of three tokens, all numbers; the points are then the triples in input order |
| Parser.ScanEncode | PointProcessor.hpp:60-81 | scanning the field stream of any point sequence accepts exactly that sequence and ends at EOF |
| Parser.LoadEncode | PointProcessor.hpp:53-87 | loading the encoding of any non-empty point sequence yields that sequence |
| Parser.TrailingNumberExample | PointProcessor.hpp:62-72 | a fourth number after a full triple is a format error, and the first point stays accepted |
| Parser.NaNExample | PointProcessor.hpp:73-78 | a NaN among three converted fields is a value error |
| Statistics.BoundingBox | PointProcessor.hpp:88-103 | every point lies between the low and high corners, and each of the six bounds is a coordinate of some point |
| Statistics.SortByZ | PointProcessor.hpp:126 | the array ends ascending in z and holds the same multiset of points |
| Statistics.SortedByZCopy | PointProcessor.hpp:126 | the result is ascending in z and is a permutation of the input |
| Partition.UpperBound | PointProcessor.hpp:154-164 | the running threshold `pos` of slice k; with non-negative widths it is at least the width of slice k |
| Partition.UpperBoundIsSum | PointProcessor.hpp:154-164 | the threshold of slice k is the sum of the first k + 1 widths |
| Partition.UpperBoundIncreases | PointProcessor.hpp:154-164 | with positive widths the thresholds of the slices strictly increase |
| Partition.FirstAbove | PointProcessor.hpp:155-160 | the index found lies between the start and the end of the points, and a point found there has z above the threshold |
| Partition.FirstAboveSkips | PointProcessor.hpp:155-160 | every point skipped before the found index has z at most the threshold |
| Partition.Boundary | PointProcessor.hpp:151-166 | a slice boundary never exceeds the number of points |
| Partition.IndexEntry | PointProcessor.hpp:153-168 | one entry of `section_indices` is at most the number of points, and the entry of a slice after a closed slice is positive |
| Partition.SectionIndices | PointProcessor.hpp:151-169 | one entry per width, each at most the number of points |
| Partition.BoundaryMonotone | PointProcessor.hpp:155-165 | boundaries never decrease with the slice number, and they strictly increase after a slice that closed, so a point closes at most one slice |
| Partition.ClosedCount | PointProcessor.hpp:155-168 | the slices that close during the scan are exactly a prefix of the widths |
| Partition.ClosedBefore | PointProcessor.hpp:155-168 | among the first n slices, the ones that close form a prefix |
| Partition.ClosedPrefix | PointProcessor.hpp:155-165 | once a slice closes, every earlier slice closed too |
| Partition.ReachedEntry | PointProcessor.hpp:158-168 | the entry of a slice the scan reached is that slice's boundary |
| Partition.ClosedEntriesIncrease | PointProcessor.hpp:155-168 | the recorded entries (those of the closed slices and of the first open one) strictly increase |
| Partition.OpenEntries | PointProcessor.hpp:153 | when the points run out first, the current slice's entry is the number of points and every later entry is 0 |
| Partition.ClosedEntryIsFirstAbove | PointProcessor.hpp:154-165 | a closed slice's entry is the first index after the previous entry (or from 0) whose z exceeds `sections[0] + ... + sections[k]` |
| Partition.SortedClosedEntrySeparates | PointProcessor.hpp:155-165 | over points sorted by z, every point from a closed slice's entry on lies above that slice's upper bound |
| Partition.SortedBoundarySeparates | PointProcessor.hpp:155-165 | over points sorted by z, every point from a closed slice's boundary on lies above that slice's upper bound |
| Partition.SingleSection | PointProcessor.hpp:151-168 | with one width `w`, the entry is the first index with z above `w`, and it equals the number of points exactly when no z exceeds `w` |
| Partition.Partition | PointProcessor.hpp:149-169 | the scan over a zero-filled buffer, with its early break and its final fill of the number of points, returns exactly `SectionIndices` |
| Partition.ThreeWidthsExample | PointProcessor.hpp:151-168 | widths 1.5, 2.0, 1e6 over z = 0, 1, 2 give `[2, 3, 0]` |
| Processor.PointProcessor.constructor | PointProcessor.hpp:29-34 | a new processor is not loaded, has not failed, has `mustUpdate` set, and holds no points, widths or indices |
| Processor.PointProcessor.SetLoadError | PointProcessor.hpp:44-50 | sets `failedToLoad` and stores the failure's message, and changes nothing else |
| Processor.PointProcessor.LoadFile | PointProcessor.hpp:51-130 | returns true exactly when `Load` succeeds; on success the points are the parsed ones, sorted by z, inside an attained bounding box, with `memoryUsed` 12 bytes per point; on failure `failedToLoad` is set, the message matches the error, and the points accepted before the failure remain; a failure leaves `memoryUsed` and the bounding box as they were |
| Processor.PointProcessor.Summarize | PointProcessor.hpp:88-128 | after the statistics passes the points are a sorted permutation of the parsed ones, the box holds and is attained, and `memoryUsed` is 12 bytes per point |
| Processor.PointProcessor.WorkerStep | PointProcessor.hpp:145-173 | afterwards the processor is loaded with `mustUpdate` cleared; with at least one width the indices are `SectionIndices(points, sections)`, otherwise unchanged; a step with nothing pending leaves the indices identical |
| Processor.PointProcessor.Run | PointProcessor.hpp:131-173 | a failed load leaves the processor failed and never loaded; a successful one is loaded after the first step, with no indices yet |
| Processor.PointProcessor.SetSections | PointProcessor.hpp:255-262 | requires a loaded processor and a non-empty width list; replaces the whole list, sets `mustUpdate` and leaves the indices for the worker |
| Processor.PointProcessor.GetSectionIndices | PointProcessor.hpp:269-273 | requires a loaded processor; every index is at most the number of points, and when the worker is caught up the indices are exactly `SectionIndices` for the current widths |
| Processor.PointProcessor.GetPointsSorted | PointProcessor.hpp:263-267 | requires a loaded processor; the points are non-empty, ascending in z, and inside the bounding box |
| Processor.PointProcessor.GetLoadFailureError | PointProcessor.hpp:205-209 | requires a failed load; the message is one of the four load-error messages |

## Left out

- Threads and the locks (`Lock`, `Unlock`, `TryLock`), the condition variable, `ProcessorNotify`, the `exit` flag and the destructor's join are not modelled. They exist only for concurrency. `WorkerStep` is one wake-up of the worker loop, done atomically. `Run` is the worker from its start to its first wait.
- Processor.PointProcessor.WorkerStep: does not model the wait on `must_update` or the exit check before the copy, because both are thread synchronisation.
- Processor.PointProcessor.WorkerStep: is atomic, which is an idealisation. The source clears `must_update` under the lock (line 147) but stores `section_indices` without it (line 169), so a UI thread can see `must_update` false together with the previous indices. `GetSectionIndices`'s clause for a worker that has caught up holds only for the atomic step.
- File I/O (`fopen`, `fclose`, `std::filesystem::file_size`) is replaced by the `FileInput` parameter: either unopenable, or a byte size and a stream of `%f` fields.
- The split of the text into `%f` fields is not modelled. This includes a word that holds two numbers (`1-2` is the two fields 1 and -2) and a number followed by text that `%f` rejects (`3abc` is the field 3 followed by a rejected field).
- Processor.PointProcessor.constructor: `fileSize` and `memoryUsed` have no initialiser in the source, so the constructor leaves them unspecified, and nothing is promised about them before `LoadFile` sets them. After an open failure, `fileSize` is still whatever the constructor left.
- Coordinates and widths are exact reals. Float rounding, and the rounding of the running threshold `pos += ...`, are not modelled. Infinities, which `%f` also produces, are not representable. NaN appears only as a token kind.
- The float statistics are not modelled: `center_average`, `center_bounding`, the two furthest-distance passes (`length()`), and the progress figures `loading_state_*` with `LoadingState`.
- `file_name`, `path` and the constructor's path handling (`GetFileName`, `GetFilePath`) are not modelled, because they are file-system calls.
- The getters that only read a field (`IsLoaded`, `HasFailedToLoad`, `GetFileSize`, `GetMemoryUsage`, `GetNPoints`, the bounding-box and centre getters) are not modelled separately. The model reads the fields directly.
- `size_t` and `int` widths are unbounded here. `memoryUsed` cannot overflow, and neither can `current_section`.
- `Geometry.PointSize` is 12, which assumes `vec3<float>` is three 4-byte floats without padding. `vec3` comes from a library that is not part of this model.
- Statistics.SortByZ: states what `std::sort` promises (ascending in z and a permutation). It is an insertion sort, so points with equal z may end in another order than the source's sort leaves them.
- Processor.PointProcessor.LoadFile: collects the parsed points in `ReadTriples` and assigns them to `points` at the end of the loop, rather than pushing each point into the field. A reader on another thread could see the difference; a sequential caller cannot.
- Processor.PointProcessor.SetLoadError: takes the error kind rather than free text. The source calls it only with the four fixed messages, and `Parser.Message` gives those messages exactly.
- Processor.PointProcessor.LoadFile: requires a processor that has not started, because the source calls it once, at the start of the worker.
- `main.cpp` (window, rendering and its own unchecked file reader `Load_Points`) and `camera.hpp` are not part of this model.
