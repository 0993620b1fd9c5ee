/** `PathTracer` of src/pathtracer/mod.rs: renders a `width x height` image into a
    buffer of colours, one entry per pixel in row-major order, each the average of
    `samples` traced samples.

    The camera ray and the scene's `trace_ray` are one parameter here, `trace`:
    `trace(x, y, s, depth, sampler)` is the colour sample `s` of pixel `(x, y)` traces
    at the given depth with the given sampler. The random state the source threads
    through the samples is folded into the sample number. The pixels are filled one
    after the other. */
module PathTracers {
  import opened Prelude
  import opened VectorConstGenerics
  import opened Materials

  /** The depth every sample is traced to. */
  const TRACE_DEPTH: nat := 10

  /** The sampler a pixel in column `x` uses: the cosine sampler 1 normally; in debug
      mode the uniform sampler on the left half of the image and the cosine sampler 2
      on the right half. */
  function SamplerFor(debug: bool, x: nat, width: nat): (s: SamplingFunctions)
    ensures !debug ==> s == CosineWeightedSample1
    ensures debug ==> (s == RandomUnitVector <==> x < width / 2)
    ensures debug ==> (s == CosineWeightedSample2 <==> x >= width / 2)
  {
    var isLeft := x < width / 2;
    if debug then
      if isLeft then RandomUnitVector else CosineWeightedSample2
    else CosineWeightedSample1
  }

  /** In debug mode the uniform sampler covers a block of columns starting at the left
      edge: any column left of one that uses it uses it too, and so does column 0 of an
      image at least two pixels wide. */
  lemma DebugSplitIsLeftBlock(x: nat, x': nat, width: nat)
    requires x <= x' && SamplerFor(true, x', width) == RandomUnitVector
    ensures SamplerFor(true, x, width) == RandomUnitVector
    ensures width >= 2 ==> SamplerFor(true, 0, width) == RandomUnitVector
  {
  }

  /** The column and row of pixel `index`: `index % width` and `index / width`. */
  function Column(index: nat, width: nat): nat
    requires width > 0
  {
    index % width
  }

  function Row(index: nat, width: nat): nat
    requires width > 0
  {
    index / width
  }

  lemma {:induction false} MultiplyBelow(a: nat, b: nat, c: nat)
    requires a < b
    ensures a * c <= b * c - c
  {
    var d := b - a - 1;
    assert b == a + 1 + d;
    assert (a + 1 + d) * c == a * c + c + d * c;
  }

  /** Pixel `index` of a `width x height` image lies at column `x < width` and row
      `y < height` with `y·width + x == index`; conversely every `(x, y)` in the image
      is the pixel at `y·width + x`. */
  lemma IndexMapping(index: nat, width: nat, height: nat)
    requires index < width * height
    ensures width > 0
    ensures Column(index, width) < width && Row(index, width) < height
    ensures Row(index, width) * width + Column(index, width) == index
  {
    if width == 0 {
      assert false;
    }
    var x, y := Column(index, width), Row(index, width);
    if y >= height {
      MultiplyBelow(height, y + 1, width);
      assert false;
    }
  }

  /** The converse of `IndexMapping`. */
  lemma PixelIndex(x: nat, y: nat, width: nat, height: nat)
    requires x < width && y < height
    ensures y * width + x < width * height
    ensures Column(y * width + x, width) == x && Row(y * width + x, width) == y
  {
    MultiplyBelow(y, height, width);
    var index := y * width + x;
    var q, r := index / width, index % width;
    assert q * width + r == y * width + x;
    if q < y {
      MultiplyBelow(q, y, width);
      assert false;
    } else if y < q {
      MultiplyBelow(y, q, width);
      assert false;
    }
  }

  /** The sum of the first `n` samples of pixel `(x, y)`, in sample order. */
  function SampleSum(trace: (nat, nat, nat, nat, SamplingFunctions) -> Float3, debug: bool,
                     width: nat, x: nat, y: nat, n: nat): Float3
  {
    if n == 0 then Zero(3)
    else Plus(SampleSum(trace, debug, width, x, y, n - 1),
              trace(x, y, n - 1, TRACE_DEPTH, SamplerFor(debug, x, width)))
  }

  /** The value of pixel `index`: its sample sum scaled by `1 / samples`. */
  function Pixel(trace: (nat, nat, nat, nat, SamplingFunctions) -> Float3, debug: bool,
                 width: nat, samples: nat, index: nat): Float3
    requires width > 0 && samples > 0
  {
    Scale(SampleSum(trace, debug, width, Column(index, width), Row(index, width), samples),
          1.0 / samples as real)
  }

  /** When every sample of a pixel traces the same colour `c`, the pixel is `c`. */
  lemma EqualSamplesGiveThatColor(trace: (nat, nat, nat, nat, SamplingFunctions) -> Float3,
                                  debug: bool, width: nat, samples: nat, index: nat, c: Float3)
    requires width > 0 && samples > 0
    requires forall s :: 0 <= s < samples ==>
      trace(Column(index, width), Row(index, width), s, TRACE_DEPTH,
            SamplerFor(debug, Column(index, width), width)) == c
    ensures Pixel(trace, debug, width, samples, index) == c
  {
    var x, y := Column(index, width), Row(index, width);
    SumOfEqualSamples(trace, debug, width, x, y, samples, c);
    var n := samples as real;
    var p := Pixel(trace, debug, width, samples, index);
    forall k | 0 <= k < 3 ensures p[k] == c[k] {
      assert p[k] == (c[k] * n) * (1.0 / n);
    }
  }

  lemma {:induction false} SumOfEqualSamples(trace: (nat, nat, nat, nat, SamplingFunctions) -> Float3,
                                             debug: bool, width: nat, x: nat, y: nat, n: nat,
                                             c: Float3)
    requires forall s :: 0 <= s < n ==>
      trace(x, y, s, TRACE_DEPTH, SamplerFor(debug, x, width)) == c
    ensures SampleSum(trace, debug, width, x, y, n) == Scale(c, n as real)
  {
    if n > 0 {
      SumOfEqualSamples(trace, debug, width, x, y, n - 1, c);
      var m := (n - 1) as real;
      var previous := SampleSum(trace, debug, width, x, y, n - 1);
      assert previous == Scale(c, m);
      var lhs := SampleSum(trace, debug, width, x, y, n);
      assert lhs == Plus(previous, c);
      forall k | 0 <= k < 3 ensures lhs[k] == Scale(c, n as real)[k] {
        assert lhs[k] == c[k] * m + c[k];
        assert c[k] * m + c[k] == c[k] * (m + 1.0);
      }
    } else {
      var zero := Scale(c, 0.0);
      forall k | 0 <= k < 3 ensures Zero(3)[k] == zero[k] { }
    }
  }

  class PathTracer {
    const width: nat
    const height: nat
    const samples: nat

    /** `new`: the tracer for a `width x height` image at `samples` samples per pixel. */
    constructor (width: nat, height: nat, samples: nat)
      ensures this.width == width && this.height == height && this.samples == samples
    {
      this.width := width;
      this.height := height;
      this.samples := samples;
    }

    /** `trace`: a buffer of `width·height` zero colours, each entry overwritten once with
        the average of its pixel's samples. */
    method Trace(trace: (nat, nat, nat, nat, SamplingFunctions) -> Float3, debug: bool)
      returns (buffer: array<Float3>)
      requires samples > 0
      ensures fresh(buffer) && buffer.Length == width * height
      ensures forall index :: 0 <= index < buffer.Length ==>
        width > 0 && buffer[index] == Pixel(trace, debug, width, samples, index)
    {
      buffer := new Float3[width * height](_ => [0.0, 0.0, 0.0]);
      for index := 0 to buffer.Length
        invariant forall j :: 0 <= j < index ==>
          width > 0 && buffer[j] == Pixel(trace, debug, width, samples, j)
      {
        IndexMapping(index, width, height);
        var x := index % width;
        var y := index / width;
        var color := [0.0, 0.0, 0.0];
        for s := 0 to samples
          invariant color == SampleSum(trace, debug, width, x, y, s)
        {
          var isLeft := x < width / 2;
          var sampleType :=
            if debug then (if isLeft then RandomUnitVector else CosineWeightedSample2)
            else CosineWeightedSample1;
          color := Plus(color, trace(x, y, s, TRACE_DEPTH, sampleType));
        }
        buffer[index] := Scale(color, 1.0 / samples as real);
      }
    }
  }
}
