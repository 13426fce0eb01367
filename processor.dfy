// The PointProcessor object without its threads: the load that runs first on
// the worker, the worker step that recomputes the section indices, and the
// calls the UI thread makes under the lock.

module Processor {
  import opened Geometry
  import opened Parser
  import opened Statistics
  import opened Partition

  class PointProcessor {
    var fileSize: nat
    var memoryUsed: nat
    /** Ascending in z once the load has succeeded. */
    var points: seq<Point>
    var sections: seq<real>
    var sectionIndices: seq<nat>
    var isLoaded: bool
    var mustUpdate: bool
    var failedToLoad: bool
    var fileLoadError: string
    var boundingBoxLow: Point
    var boundingBoxHigh: Point

    /** What a successful LoadFile leaves: at least one point, sorted by z,
        a bounding box that holds and is attained, and the memory figure. */
    predicate LoadSucceeded()
      reads this
    {
      && !failedToLoad
      && |points| > 0
      && SortedByZ(points)
      && InBox(points, boundingBoxLow, boundingBoxHigh)
      && BoundsAttained(points, boundingBoxLow, boundingBoxHigh)
      && memoryUsed == PointSize * |points|
    }

    /** The state before the worker has run: nothing loaded, no widths. */
    predicate Unstarted()
      reads this
    {
      && points == [] && sections == [] && sectionIndices == []
      && !isLoaded && mustUpdate && !failedToLoad
    }

    /** The invariant every public call keeps. */
    predicate Valid()
      reads this
    {
      && (failedToLoad ==> !isLoaded && IsLoadErrorMessage(fileLoadError))
      && (isLoaded ==> LoadSucceeded())
      && (|sections| > 0 ==> isLoaded)
      && (forall k :: 0 <= k < |sectionIndices| ==> sectionIndices[k] <= |points|)
      && (isLoaded && !mustUpdate && |sections| > 0 ==>
            sectionIndices == SectionIndices(points, sections))
    }

    /** The fields as the constructor leaves them before the worker starts.
        fileSize and memoryUsed have no initialiser and stay unspecified
        until LoadFile sets them. */
    constructor()
      ensures Valid() && Unstarted()
      ensures fileLoadError == ""
    {
      points := [];
      sections := [];
      sectionIndices := [];
      isLoaded := false;
      mustUpdate := true;
      failedToLoad := false;
      fileLoadError := "";
      boundingBoxLow := Point(0.0, 0.0, 0.0);
      boundingBoxHigh := Point(0.0, 0.0, 0.0);
    }

    /** Records a failed load with the message of its kind. */
    method SetLoadError(e: LoadError)
      modifies this
      ensures failedToLoad && fileLoadError == Message(e)
      ensures points == old(points) && sections == old(sections)
      ensures sectionIndices == old(sectionIndices) && isLoaded == old(isLoaded)
      ensures mustUpdate == old(mustUpdate) && fileSize == old(fileSize)
      ensures memoryUsed == old(memoryUsed)
      ensures boundingBoxLow == old(boundingBoxLow) && boundingBoxHigh == old(boundingBoxHigh)
    {
      failedToLoad := true;
      fileLoadError := Message(e);
    }

    /** Opens the input, parses triples until end of input, and on success
        computes the bounding box, sorts by z and records the memory used.
        A failure records its message and keeps the points pushed so far. */
    method LoadFile(input: FileInput) returns (ok: bool)
      requires Valid() && Unstarted()
      modifies this
      ensures Valid()
      ensures ok <==> Load(input).LoadOk?
      ensures ok ==> LoadSucceeded() && multiset(points) == multiset(Load(input).points)
      ensures !ok ==> failedToLoad && fileLoadError == Message(Load(input).error)
      ensures !ok ==> points == (if input.Readable? then Scan(input.tokens).accepted else [])
      ensures input.Readable? ==> fileSize == input.size
      ensures input.Unopenable? ==> fileSize == old(fileSize)
      ensures !ok ==> memoryUsed == old(memoryUsed)
      ensures !ok ==> boundingBoxLow == old(boundingBoxLow) && boundingBoxHigh == old(boundingBoxHigh)
      ensures !isLoaded && mustUpdate && sections == [] && sectionIndices == []
    {
      if input.Unopenable? {
        SetLoadError(OpenError);
        return false;
      }
      fileSize := input.size;
      var stop;
      points, stop := ReadTriples(input.tokens);
      if stop.StoppedBy? {
        SetLoadError(stop.error);
        return false;
      }
      if |points| == 0 {
        SetLoadError(EmptyFileError);
        return false;
      }
      Summarize();
      return true;
    }

    /** The statistics passes LoadFile makes over the parsed points: the
        bounding box, the sort by z, and the memory figure. */
    method Summarize()
      requires !failedToLoad && |points| > 0
      modifies this
      ensures LoadSucceeded()
      ensures multiset(points) == old(multiset(points))
      ensures isLoaded == old(isLoaded) && mustUpdate == old(mustUpdate)
      ensures sections == old(sections) && sectionIndices == old(sectionIndices)
      ensures fileLoadError == old(fileLoadError) && fileSize == old(fileSize)
    {
      var parsed := points;
      var low, high := BoundingBox(parsed);
      var sorted := SortedByZCopy(parsed);
      PermutedBox(parsed, sorted, low, high);
      boundingBoxLow, boundingBoxHigh := low, high;
      points := sorted;
      memoryUsed := PointSize * |sorted|;
    }

    /** One pass of the worker loop after it wakes: copy the widths and clear
        mustUpdate, partition the points when there is at least one width,
        commit, and mark the processor loaded. */
    method WorkerStep()
      requires Valid() && LoadSucceeded()
      modifies this
      ensures Valid() && isLoaded && !mustUpdate
      ensures points == old(points) && sections == old(sections)
      ensures |sections| > 0 ==> sectionIndices == SectionIndices(points, sections)
      ensures |sections| == 0 ==> sectionIndices == old(sectionIndices)
      ensures old(isLoaded) && !old(mustUpdate) ==> sectionIndices == old(sectionIndices)
      ensures failedToLoad == old(failedToLoad) && fileLoadError == old(fileLoadError)
      ensures boundingBoxLow == old(boundingBoxLow) && boundingBoxHigh == old(boundingBoxHigh)
      ensures memoryUsed == old(memoryUsed) && fileSize == old(fileSize)
    {
      var widths := sections;
      mustUpdate := false;
      if |widths| != 0 {
        var indices := Partition.Partition(points, widths);
        sectionIndices := indices;
      }
      isLoaded := true;
    }

    /** The worker from its start up to its first wait: load, and on success
        run the first step, which finds mustUpdate set and no widths. */
    method Run(input: FileInput) returns (ok: bool)
      requires Valid() && Unstarted()
      modifies this
      ensures Valid()
      ensures ok <==> Load(input).LoadOk?
      ensures ok ==> isLoaded && !mustUpdate && sectionIndices == []
      ensures ok ==> multiset(points) == multiset(Load(input).points)
      ensures !ok ==> failedToLoad && !isLoaded && fileLoadError == Message(Load(input).error)
    {
      ok := LoadFile(input);
      if !ok {
        return;
      }
      WorkerStep();
    }

    /** Replaces the widths (no queueing) and asks the worker to recompute. */
    method SetSections(spec: seq<real>)
      requires Valid() && isLoaded && |spec| > 0
      modifies this
      ensures Valid()
      ensures sections == spec && mustUpdate
      ensures points == old(points) && sectionIndices == old(sectionIndices) && isLoaded
      ensures failedToLoad == old(failedToLoad) && fileLoadError == old(fileLoadError)
      ensures boundingBoxLow == old(boundingBoxLow) && boundingBoxHigh == old(boundingBoxHigh)
      ensures memoryUsed == old(memoryUsed) && fileSize == old(fileSize)
    {
      sections := spec;
      mustUpdate := true;
    }

    /** The indices the worker last committed; they match the current widths
        whenever the worker is not behind. */
    function GetSectionIndices(): (r: seq<nat>)
      requires Valid() && isLoaded
      reads this
      ensures forall k :: 0 <= k < |r| ==> r[k] <= |points|
      ensures !mustUpdate && |sections| > 0 ==>
                |r| == |sections| && r == SectionIndices(points, sections)
    {
      sectionIndices
    }

    /** The loaded points, ascending in z. */
    function GetPointsSorted(): (r: seq<Point>)
      requires Valid() && isLoaded
      reads this
      ensures |r| > 0 && SortedByZ(r)
      ensures InBox(r, boundingBoxLow, boundingBoxHigh)
    {
      points
    }

    /** The message of a failed load. */
    function GetLoadFailureError(): (r: string)
      requires Valid() && failedToLoad
      reads this
      ensures IsLoadErrorMessage(r)
    {
      fileLoadError
    }
  }
}
