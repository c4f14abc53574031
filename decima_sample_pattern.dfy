/** The two-sample temporal anti-aliasing jitter pattern: a counter that
    cycles through a constant table of two sub-pixel offsets. */
module DecimaSamplePattern {
  import opened UInt32

  /** A sub-pixel offset; the two table entries are exact in binary, so real
      numbers represent them without rounding. */
  datatype Float2 = Float2(x: real, y: real)

  /** kSampleCount. */
  const SampleCount: u32 := 2

  /** kPattern: the left edge, then the top edge. */
  const Pattern: seq<Float2> := [Float2(-0.5, 0.0), Float2(0.0, -0.5)]

  /** The samples k successive calls of next() return, starting from counter c. */
  function Samples(c: u32, k: nat): (r: seq<Float2>)
    ensures |r| == k
    decreases k
  {
    if k == 0 then [] else [Pattern[c as int % SampleCount as int]] + Samples(Inc(c), k - 1)
  }

  /** The j-th sample from counter c is the pattern entry of parity c + j,
      also when the counter wraps around 2^32 on the way. */
  lemma {:induction false} SampleAt(c: u32, k: nat, j: nat)
    requires j < k
    ensures Samples(c, k)[j] == Pattern[(c as int + j) % 2]
    decreases j
  {
    var tail := Samples(Inc(c), k - 1);
    assert Samples(c, k) == [Pattern[c as int % 2]] + tail;
    if j > 0 {
      assert Samples(c, k)[j] == tail[j - 1];
      SampleAt(Inc(c), k - 1, j - 1);
      IncParity(c);
      assert (Inc(c) as int + (j - 1)) % 2 == (c as int + j) % 2;
    }
  }

  /** After a reset the samples alternate left edge, top edge, left edge, ... */
  lemma SamplesAfterReset(k: nat, j: nat)
    requires j < k
    ensures Samples(0, k)[j] == if j % 2 == 0 then Float2(-0.5, 0.0) else Float2(0.0, -0.5)
  {
    SampleAt(0, k, j);
  }

  /** The output has period 2 from any counter value. */
  lemma PeriodTwo(c: u32, k: nat, j: nat)
    requires j + 2 < k
    ensures Samples(c, k)[j] == Samples(c, k)[j + 2]
    ensures Samples(c, k)[j] != Samples(c, k)[j + 1]
  {
    SampleAt(c, k, j);
    SampleAt(c, k, j + 1);
    SampleAt(c, k, j + 2);
  }

  class DecimaSamplePattern {
    /** mCurSample: how many samples were taken since the last reset, modulo 2^32. */
    var curSample: u32

    /** The requested sample count is ignored; the pattern always has two. */
    constructor (sampleCount: u32)
      ensures curSample == 0
    {
      curSample := 0;
    }

    /** getSampleCount: the size of the pattern table, whatever the constructor got. */
    function GetSampleCount(): (r: u32)
      ensures r as int == |Pattern|
    {
      SampleCount
    }

    /** reset: restarts the pattern; the start index is ignored. */
    method Reset(startID: u32)
      modifies this
      ensures curSample == 0
    {
      curSample := 0;
    }

    /** next: the table entry the counter selects, then the counter advances by one. */
    method Next() returns (s: Float2)
      modifies this
      ensures s == Pattern[old(curSample) as int % 2]
      ensures curSample == Inc(old(curSample))
      ensures forall k: nat :: Samples(old(curSample), k + 1) == [s] + Samples(curSample, k)
    {
      s := Pattern[curSample % SampleCount];
      curSample := Inc(curSample);
    }
  }

  /** Two calls after a reset give the left edge and then the top edge. */
  method ResetThenTwoSamples(p: DecimaSamplePattern, startID: u32) returns (first: Float2, second: Float2)
    modifies p
    ensures first == Float2(-0.5, 0.0) && second == Float2(0.0, -0.5)
    ensures p.curSample == 2
  {
    p.Reset(startID);
    first := p.Next();
    second := p.Next();
  }
}
