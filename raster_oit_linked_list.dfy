/** Host side of the per-pixel linked-list transparency pass: the table of
    fragment-count buckets and one sort pass per bucket, the per-frame reset
    of the list heads and counters, the node-buffer reallocation rule and the
    choice between the bucketed sort passes and the general one. */
module RasterOITLinkedList {
  import opened UInt32

  /** uint32_t(-1): the head value that marks an empty pixel list. */
  const Sentinel: int := 0xFFFF_FFFF

  /** resolveIntervals: fragment-count limits, from the 256 upper limit down;
      the final 0 only serves as the last MIN_FRAGMENT. */
  const ResolveIntervals: seq<int> := [256, 128, 64, 32, 16, 8, 4, 0]

  /** A compiled sort-and-blend compute pass: the general one, or one
      specialised by its MAX_FRAGMENT and MIN_FRAGMENT defines. */
  datatype SortPass = General | Optimized(maxFragment: int, minFragment: int)

  /** An RGBA colour. */
  datatype Float4 = Float4(r: real, g: real, b: real, a: real)

  /** The colour the output is cleared to before blending. */
  const ClearColor: Float4 := Float4(0.0, 0.0, 0.0, 1.0)

  /** One 16-byte linked-list node (a uint4), written only by the shaders. */
  datatype Uint4 = Uint4(x: int, y: int, z: int, w: int)

  /** What one frame hands to the GPU: the node capacity given to the list
      building and to the sort stage, the OPTIMIZE_SORT define, and the sort
      passes dispatched, in order. */
  datatype FrameResult =
    | NoScene
    | Rendered(buildMaxElements: nat, optimizeSortDefine: int, sortMaxElements: nat, sortPasses: seq<SortPass>)

  predicate StrictlyDescending(s: seq<int>)
  {
    forall i, j :: 0 <= i < j < |s| ==> s[i] > s[j]
  }

  /** The fragment-count range a specialised pass is meant for. */
  predicate Covers(p: SortPass, count: int)
  {
    p.Optimized? && p.minFragment < count <= p.maxFragment
  }

  /** Pass i is built from the consecutive limits i and i + 1. */
  predicate PassesFromIntervals(intervals: seq<int>, passes: seq<SortPass>)
  {
    |intervals| >= 1 && |passes| == |intervals| - 1 &&
    forall i :: 0 <= i < |passes| ==> passes[i] == Optimized(intervals[i], intervals[i + 1])
  }

  /** The constructor's loop: one specialised pass per consecutive pair of limits. */
  method MakeOptimizedSortPasses(intervals: seq<int>) returns (passes: seq<SortPass>)
    requires |intervals| >= 1
    ensures |passes| == |intervals| - 1
    ensures forall i :: 0 <= i < |passes| ==> passes[i] == Optimized(intervals[i], intervals[i + 1])
  {
    passes := [];
    for i := 0 to |intervals| - 1
      invariant |passes| == i
      invariant forall j :: 0 <= j < i ==> passes[j] == Optimized(intervals[j], intervals[j + 1])
    {
      passes := passes + [Optimized(intervals[i], intervals[i + 1])];
    }
  }

  /** The limit table descends strictly from 256 to 0 and yields seven passes. */
  lemma ResolveIntervalsShape()
    ensures StrictlyDescending(ResolveIntervals)
    ensures ResolveIntervals[0] == 256 && ResolveIntervals[|ResolveIntervals| - 1] == 0
    ensures |ResolveIntervals| - 1 == 7
  {
  }

  /** Passes built from strictly descending limits have MAX > MIN, and each
      pass's MIN is the next pass's MAX, so the ranges abut. */
  lemma PassesAbut(intervals: seq<int>, passes: seq<SortPass>)
    requires StrictlyDescending(intervals) && PassesFromIntervals(intervals, passes)
    ensures forall i :: 0 <= i < |passes| ==> passes[i].Optimized? && passes[i].maxFragment > passes[i].minFragment
    ensures forall i :: 0 <= i < |passes| - 1 ==> passes[i].minFragment == passes[i + 1].maxFragment
  {
    forall i | 0 <= i < |passes|
      ensures passes[i].Optimized? && passes[i].maxFragment > passes[i].minFragment
    {
      assert passes[i] == Optimized(intervals[i], intervals[i + 1]);
    }
    forall i | 0 <= i < |passes| - 1
      ensures passes[i].minFragment == passes[i + 1].maxFragment
    {
      assert passes[i] == Optimized(intervals[i], intervals[i + 1]);
      assert passes[i + 1] == Optimized(intervals[i + 1], intervals[i + 2]);
    }
  }

  /** Every fragment count between the last and the first limit falls in the
      range of exactly one pass: the ranges leave no gap and do not overlap. */
  lemma {:induction false} PassRangesPartition(intervals: seq<int>, passes: seq<SortPass>, count: int) returns (k: nat)
    requires StrictlyDescending(intervals) && PassesFromIntervals(intervals, passes)
    requires intervals[|intervals| - 1] < count <= intervals[0]
    ensures k < |passes| && Covers(passes[k], count)
    ensures forall i :: 0 <= i < |passes| && Covers(passes[i], count) ==> i == k
    decreases |intervals|
  {
    if count <= intervals[1] {
      var rest := PassRangesPartition(intervals[1..], passes[1..], count);
      k := rest + 1;
      assert passes[0] == Optimized(intervals[0], intervals[1]);
      forall i | 1 <= i < |passes| ensures passes[i] == passes[1..][i - 1] {
      }
    } else {
      k := 0;
      forall i | 1 <= i < |passes| ensures passes[i].Optimized? && passes[i].maxFragment <= intervals[1] {
        assert passes[i] == Optimized(intervals[i], intervals[i + 1]);
      }
    }
  }

  /** The "Size in MB" shown for a node count: 16 bytes a node, rounded down. */
  function SizeInMB(nodeCount: u32): (mb: nat)
    ensures mb * 1048576 <= nodeCount as int * 16 < (mb + 1) * 1048576
  {
    (nodeCount as int * 16) / 1048576
  }

  class RasterOITLinkedList {
    /** mpCountBuffer: the one global node counter. */
    var countBuffer: array<int>
    /** mpDataBuffer: the node buffer, null until first allocated. */
    var dataBuffer: array?<Uint4>
    /** mDataBufferSize: the configured node capacity. */
    var dataBufferSize: u32
    var optimizeSort: bool
    var hasScene: bool
    /** mpOptimizedSortPasses. */
    var optimizedSortPasses: seq<SortPass>

    ghost predicate Valid()
      reads this
    {
      countBuffer.Length == 1 &&
      PassesFromIntervals(ResolveIntervals, optimizedSortPasses)
    }

    /** The settings of the header are not part of this model; they arrive here. */
    constructor (dataBufferSize: u32, optimizeSort: bool)
      ensures Valid()
      ensures this.dataBufferSize == dataBufferSize && this.optimizeSort == optimizeSort
      ensures fresh(countBuffer)
      ensures !hasScene && dataBuffer == null
      ensures |optimizedSortPasses| == 7
    {
      countBuffer := new int[1];
      dataBuffer := null;
      this.dataBufferSize := dataBufferSize;
      this.optimizeSort := optimizeSort;
      hasScene := false;
      var passes := MakeOptimizedSortPasses(ResolveIntervals);
      optimizedSortPasses := passes;
    }

    method SetScene(scene: bool)
      modifies this`hasScene
      ensures hasScene == scene
    {
      hasScene := scene;
    }

    /** The sort stage: every specialised pass in table order, or the single general pass. */
    method DispatchSortPasses() returns (dispatched: seq<SortPass>)
      ensures optimizeSort ==> dispatched == optimizedSortPasses
      ensures !optimizeSort ==> dispatched == [General]
    {
      if optimizeSort {
        dispatched := [];
        for i := 0 to |optimizedSortPasses|
          invariant dispatched == optimizedSortPasses[..i]
        {
          dispatched := dispatched + [optimizedSortPasses[i]];
        }
      } else {
        dispatched := [General];
      }
    }

    /** One frame: clear the output, the heads, the node counter and the pixel
        counters; stop if there is no scene; otherwise make sure the node
        buffer has the configured size, then build and sort the lists. */
    method Execute(color: array<Float4>, head: array<int>, pixelCount: array<int>) returns (frame: FrameResult)
      requires Valid()
      requires head != pixelCount && head != countBuffer && pixelCount != countBuffer
      modifies this`dataBuffer, color, head, pixelCount, countBuffer
      ensures Valid()
      ensures forall p :: 0 <= p < color.Length ==> color[p] == ClearColor
      ensures forall p :: 0 <= p < head.Length ==> head[p] == Sentinel
      ensures forall p :: 0 <= p < pixelCount.Length ==> pixelCount[p] == 0
      ensures countBuffer[0] == 0
      ensures !hasScene ==> frame == NoScene && dataBuffer == old(dataBuffer)
      ensures hasScene ==> dataBuffer != null && dataBuffer.Length == dataBufferSize as int
      ensures hasScene ==>
        (dataBuffer != old(dataBuffer) <==> old(dataBuffer) == null || old(dataBuffer).Length != dataBufferSize as int)
      ensures hasScene && dataBuffer != old(dataBuffer) ==> fresh(dataBuffer)
      ensures hasScene ==> frame == Rendered(dataBuffer.Length, if optimizeSort then 1 else 0, dataBuffer.Length,
                                             if optimizeSort then optimizedSortPasses else [General])
    {
      // the output, the heads and both counters are cleared every frame
      forall p | 0 <= p < color.Length { color[p] := ClearColor; }
      forall p | 0 <= p < head.Length { head[p] := Sentinel; }
      countBuffer[0] := 0;
      forall p | 0 <= p < pixelCount.Length { pixelCount[p] := 0; }

      if !hasScene {
        return NoScene;
      }

      if dataBuffer == null || dataBuffer.Length != dataBufferSize as int {
        dataBuffer := new Uint4[dataBufferSize];
      }

      // the lists themselves are built by the shaders; they only see the capacity
      var buildMaxElements := dataBuffer.Length;
      var optimizeSortDefine := if optimizeSort then 1 else 0;

      // the sort stage sees the same capacity
      var sortMaxElements := dataBuffer.Length;
      var passes := DispatchSortPasses();
      frame := Rendered(buildMaxElements, optimizeSortDefine, sortMaxElements, passes);
    }
  }

  /** A new pass given a scene renders its first frame with a node buffer of
      the configured size, and sorts with the seven specialised passes in
      table order or with the general pass. */
  method RenderFirstFrame(dataBufferSize: u32, optimizeSort: bool,
                          color: array<Float4>, head: array<int>, pixelCount: array<int>)
    returns (frame: FrameResult)
    requires head != pixelCount
    modifies color, head, pixelCount
    ensures frame.Rendered? && frame.buildMaxElements == dataBufferSize as int == frame.sortMaxElements
    ensures frame.optimizeSortDefine == (if optimizeSort then 1 else 0)
    ensures optimizeSort ==> PassesFromIntervals(ResolveIntervals, frame.sortPasses)
    ensures !optimizeSort ==> frame.sortPasses == [General]
    ensures forall p :: 0 <= p < head.Length ==> head[p] == Sentinel
  {
    var pass := new RasterOITLinkedList(dataBufferSize, optimizeSort);
    pass.SetScene(true);
    frame := pass.Execute(color, head, pixelCount);
  }
}
