/**
 The crop, downsample and RGB565-to-RGB888 conversion that feeds the model (src/camera_thread_entry.c):
 nearest-neighbour samples of the centred square of the camera frame.
 */
module CropSampler {
  import opened Arith
  import opened Bytes

  datatype Status = Success | NullPointer | ImgProcess

  // ---------------------------------------------------------------- the sampled row or column

  /** Which of `n` source rows (or columns) output row `k` of `m` shows. */
  function Sample(n: nat, k: nat, m: nat): nat
    requires 0 < m
  {
    Quotient(Times(n, k), m)
  }

  /** Samples stay inside the source. */
  lemma SampleInside(n: nat, k: nat, m: nat)
    requires k < m && 0 < n
    ensures Sample(n, k, m) < n
  {
    hide Times, Quotient;
    TimesPlus(n, k, 1);
    TimesMono(n, k + 1, m);
    DivideSmall(Times(n, k), m, n);
  }

  /** Samples never go back, and when the picture is not enlarged no source row is shown twice. */
  lemma SampleMonotone(n: nat, j: nat, k: nat, m: nat)
    requires 0 < m && j <= k
    ensures Sample(n, j, m) <= Sample(n, k, m)
    ensures m <= n && j < k ==> Sample(n, j, m) < Sample(n, k, m)
  {
    hide Times, Quotient;
    var q := Sample(n, j, m);
    QuotientTimes(Times(n, j), m);
    TimesMono(n, j, k);
    DivideLarge(Times(n, k), m, q);
    if m <= n && j < k {
      TimesPlus(n, j, 1);
      TimesMono(n, j + 1, k);
      TimesPlus(m, q, 1);
      DivideLarge(Times(n, k), m, q + 1);
    }
  }

  ghost predicate NeverRepeats(n: nat, m: nat)
    requires 0 < m
  {
    forall j, k :: 0 <= j < k < m ==> Sample(n, j, m) < Sample(n, k, m)
  }

  lemma {:induction false} StrictlyRising(n: nat, k: nat, m: nat)
    requires k < m && NeverRepeats(n, m)
    ensures k <= Sample(n, k, m)
  {
    hide Sample;
    if k > 0 {
      StrictlyRising(n, k - 1, m);
      assert Sample(n, k - 1, m) < Sample(n, k, m);
    }
  }

  /** No source row is shown twice exactly when the picture is not enlarged. */
  lemma NeverRepeatsIff(n: nat, m: nat)
    requires 0 < m && 0 < n
    ensures NeverRepeats(n, m) <==> m <= n
  {
    hide Sample;
    if m <= n {
      forall j, k | 0 <= j < k < m ensures Sample(n, j, m) < Sample(n, k, m) {
        SampleMonotone(n, j, k, m);
      }
    }
    if NeverRepeats(n, m) {
      StrictlyRising(n, m - 1, m);
      SampleInside(n, m - 1, m);
    }
  }

  // ---------------------------------------------------------------- the output

  /** The source pixel of output pixel (x, y): inside the centred square of the frame. */
  function Source(inW: u16, inH: u16, outW: u16, outH: u16, x: nat, y: nat): nat
    requires x < outW && y < outH && inH <= inW
  {
    (inW - inH) / 2 + Times(inW, Sample(inH, y, outH)) + Sample(inH, x, outW)
  }

  /** A frame of no rows has no pixel to show, so the output must be empty too. */
  predicate Showable(inH: u16, outW: u16, outH: u16) {
    0 < inH || outW == 0 || outH == 0
  }

  lemma SourceInside(inW: u16, inH: u16, outW: u16, outH: u16, x: nat, y: nat)
    requires x < outW && y < outH && 0 < inH <= inW
    ensures Source(inW, inH, outW, outH, x, y) < Times(inW, inH)
    ensures Sample(inH, y, outH) < inH
    ensures (inW - inH) / 2 <= (inW - inH) / 2 + Sample(inH, x, outW) < (inW - inH) / 2 + inH <= inW
  {
    hide Times, Sample;
    SampleInside(inH, y, outH);
    SampleInside(inH, x, outW);
    var row := Sample(inH, y, outH);
    TimesPlus(inW, row, 1);
    TimesMono(inW, row + 1, inH);
  }

  /** The source pixel is one of the frame exactly when the frame has rows. */
  lemma SourceInFrameIff(inW: u16, inH: u16, outW: u16, outH: u16, x: nat, y: nat)
    requires x < outW && y < outH && inH <= inW
    ensures Source(inW, inH, outW, outH, x, y) < Times(inW, inH) <==> 0 < inH
  {
    hide Times, Sample;
    TimesPlus(inW, 0, 0);
    if 0 < inH {
      SourceInside(inW, inH, outW, outH, x, y);
    }
  }

  lemma Largest(a: nat, b: nat)
    requires a < 0x1_0000 && b < 0x1_0000
    ensures Times(a, b) < WORD
  {
    TimesMono(b, a, 0xFFFF);
    TimesMono(0xFFFF, b, 0xFFFF);
    assert Times(0xFFFF, 0xFFFF) == 0xFFFE_0001;
  }

  /** The 32-bit products of the sampler do not wrap. */
  lemma ProductsFit(inW: u16, inH: u16, outW: u16, outH: u16, x: nat, y: nat)
    requires x < outW && y < outH && 0 < inH <= inW
    ensures Times(inH, x) < WORD && Times(inH, y) < WORD
    ensures Times(inW, Sample(inH, y, outH)) < WORD
  {
    hide Sample;
    SampleInside(inH, y, outH);
    Largest(inH, x);
    Largest(inH, y);
    Largest(inW, Sample(inH, y, outH));
  }

  /** A pixel's three channels, stretched to 0..255. */
  function Rgb(p: u16): (s: seq<byte>)
    ensures |s| == 3
  {
    [p / 2048 * 255 / 31, p / 32 % 64 * 255 / 63, p % 32 * 255 / 31]
  }

  /** The first `x` output pixels of a row. */
  function Row(input: seq<u16>, inW: u16, inH: u16, outW: u16, outH: u16, x: nat, y: nat): (s: seq<byte>)
    requires x <= outW && y < outH && inH <= inW && Showable(inH, outW, outH) && Times(inW, inH) <= |input|
    ensures |s| == 3 * x
  {
    if x == 0 then []
    else
      SourceInside(inW, inH, outW, outH, x - 1, y);
      Row(input, inW, inH, outW, outH, x - 1, y) + Rgb(input[Source(inW, inH, outW, outH, x - 1, y)])
  }

  /** The first `y` output rows. */
  function Rows(input: seq<u16>, inW: u16, inH: u16, outW: u16, outH: u16, y: nat): (s: seq<byte>)
    requires y <= outH && inH <= inW && Showable(inH, outW, outH) && Times(inW, inH) <= |input|
    ensures |s| == 3 * Times(outW, y)
  {
    if y == 0 then []
    else
      TimesPlus(outW, y - 1, 1);
      Rows(input, inW, inH, outW, outH, y - 1) + Row(input, inW, inH, outW, outH, outW, y - 1)
  }

  lemma {:induction false} RowAt(input: seq<u16>, inW: u16, inH: u16, outW: u16, outH: u16,
                                 n: nat, x: nat, y: nat, c: nat)
    requires x < n <= outW && y < outH && inH <= inW && Showable(inH, outW, outH) && Times(inW, inH) <= |input| && c < 3
    ensures Source(inW, inH, outW, outH, x, y) < |input|
    ensures Row(input, inW, inH, outW, outH, n, y)[3 * x + c] == Rgb(input[Source(inW, inH, outW, outH, x, y)])[c]
  {
    hide Rgb, Source;
    SourceInside(inW, inH, outW, outH, x, y);
    if x < n - 1 {
      RowAt(input, inW, inH, outW, outH, n - 1, x, y, c);
    }
  }

  /** Every octet of the output: channel c of pixel (x, y) is that of its source pixel. */
  lemma {:induction false} OutputAt(input: seq<u16>, inW: u16, inH: u16, outW: u16, outH: u16,
                                    n: nat, x: nat, y: nat, c: nat)
    requires x < outW && y < n <= outH && inH <= inW && Showable(inH, outW, outH) && Times(inW, inH) <= |input| && c < 3
    ensures Source(inW, inH, outW, outH, x, y) < |input|
    ensures 3 * (Times(outW, y) + x) + c < 3 * Times(outW, n)
    ensures Rows(input, inW, inH, outW, outH, n)[3 * (Times(outW, y) + x) + c]
         == Rgb(input[Source(inW, inH, outW, outH, x, y)])[c]
  {
    hide Rgb, Source, Times, Row;
    SourceInside(inW, inH, outW, outH, x, y);
    TimesPlus(outW, n - 1, 1);
    if y < n - 1 {
      OutputAt(input, inW, inH, outW, outH, n - 1, x, y, c);
    } else {
      RowAt(input, inW, inH, outW, outH, outW, x, y, c);
    }
  }

  method PutRgb(output: array<byte>, p: nat, rgb: seq<byte>) returns (p': nat)
    requires |rgb| == 3 && p + 3 <= output.Length
    modifies output
    ensures p' == p + 3 && output[..p'] == old(output[..p]) + rgb && output[p'..] == old(output[p'..])
  {
    output[p], output[p + 1], output[p + 2] := rgb[0], rgb[1], rgb[2];
    assert output[..p + 3] == output[..p] + output[p..p + 3];
    p' := p + 3;
  }

  lemma SampleIs(n: nat, k: nat, m: nat, q: nat)
    requires 0 < m && q * m <= n * k < (q + 1) * m
    ensures Sample(n, k, m) == q
  {
    QuotientIff(n * k, m, q);
  }

  /** The three bit fields of an RGB565 pixel. */
  lemma Fields(r: nat, g: nat, b: nat)
    requires r < 32 && g < 64 && b < 32
    ensures var p := 2048 * r + 32 * g + b; p / 2048 == r && p / 32 % 64 == g && p % 32 == b
  {
    var p := 2048 * r + 32 * g + b;
    QuotientIff(p, 2048, r);
    QuotientIff(p, 32, 64 * r + g);
    QuotientIff(64 * r + g, 64, r);
  }

  lemma RgbIs(r: nat, g: nat, b: nat)
    requires r < 32 && g < 64 && b < 32
    ensures Rgb(2048 * r + 32 * g + b) == [r * 255 / 31, g * 255 / 63, b * 255 / 31]
  {
    Fields(r, g, b);
  }

  /**
   The same in plain numbers: the octets of output pixel (x, y) are the stretched red, green and blue of the
   pixel in row `row` and, behind the crop, column `col` of the frame.
   */
  lemma OutputPixel(input: seq<u16>, inW: u16, inH: u16, outW: u16, outH: u16, x: nat, y: nat, row: nat, col: nat,
                    r: nat, g: nat, b: nat)
    requires x < outW && y < outH && 0 < inH <= inW && inW * inH <= |input|
    requires row * outH <= inH * y < (row + 1) * outH && col * outW <= inH * x < (col + 1) * outW
    requires r < 32 && g < 64 && b < 32
    requires var at := inW * row + (inW - inH) / 2 + col; 0 <= at < |input| ==> input[at] == 2048 * r + 32 * g + b
    ensures inW * row + (inW - inH) / 2 + col < |input|
    ensures 0 <= outW * y
    ensures var out := Rows(input, inW, inH, outW, outH, outH); var k := 3 * (outW * y + x);
      && k + 2 < |out|
      && out[k] == r * 255 / 31 && out[k + 1] == g * 255 / 63 && out[k + 2] == b * 255 / 31
  {
    hide Rows, Quotient, Sample, Rgb;
    SampleIs(inH, y, outH, row);
    SampleIs(inH, x, outW, col);
    OutputAt(input, inW, inH, outW, outH, outH, x, y, 0);
    OutputAt(input, inW, inH, outW, outH, outH, x, y, 1);
    OutputAt(input, inW, inH, outW, outH, outH, x, y, 2);
    RgbIs(r, g, b);
  }

  /** One output row, written from offset `p` on. */
  method ConvertRow(input: array<u16>, output: array<byte>, inW: u16, inH: u16, outW: u16, outH: u16, y: nat, p0: nat)
    returns (p: nat)
    requires y < outH && inH <= inW && Showable(inH, outW, outH)
    requires Times(inW, inH) <= input.Length && p0 + 3 * outW <= output.Length
    modifies output
    ensures p == p0 + 3 * outW
    ensures output[..p] == old(output[..p0]) + Row(input[..], inW, inH, outW, outH, outW, y)
    ensures output[p..] == old(output[p..])
  {
    hide Times, Sample, Rgb;
    p := p0;
    var cropOffset := (inW - inH) / 2;
    for x := 0 to outW
      invariant p == p0 + 3 * x
      invariant output[..p] == old(output[..p0]) + Row(input[..], inW, inH, outW, outH, x, y)
      invariant output[p..] == old(output[p..])
    {
      SourceInside(inW, inH, outW, outH, x, y);
      ProductsFit(inW, inH, outW, outH, x, y);
      var yOffset := Times(inW, Sample(inH, y, outH));
      var rgb := Rgb(input[cropOffset + yOffset + Sample(inH, x, outW)]);
      p := PutRgb(output, p, rgb);
    }
  }

  /** `image_rgb565_to_rgb888`: exactly 3*outW*outH octets are written, in order. */
  method ImageRgb565ToRgb888(input: array?<u16>, output: array?<byte>, inW: u16, inH: u16, outW: u16, outH: u16)
    returns (status: Status)
    requires input != null && output != null && inH <= inW ==>
      Showable(inH, outW, outH) && Times(inW, inH) <= input.Length && 3 * Times(outW, outH) <= output.Length
    modifies output
    ensures (input == null || output == null) <==> status == NullPointer
    ensures status == ImgProcess <==> input != null && output != null && inW < inH
    ensures status == ImgProcess ==> output[..] == old(output[..])
    ensures status == Success ==>
      && output[..3 * Times(outW, outH)] == Rows(input[..], inW, inH, outW, outH, outH)
      && output[3 * Times(outW, outH)..] == old(output[3 * Times(outW, outH)..])
  {
    hide Times, Row;
    if input == null || output == null {
      return NullPointer;
    }
    if inW < inH {
      return ImgProcess;
    }
    var p: nat := 0;
    TimesPlus(outW, 0, 0);
    for y := 0 to outH
      invariant p == 3 * Times(outW, y) <= output.Length
      invariant output[..p] == Rows(input[..], inW, inH, outW, outH, y)
      invariant output[p..] == old(output[p..])
    {
      TimesPlus(outW, y, 1);
      TimesMono(outW, y + 1, outH);
      p := ConvertRow(input, output, inW, inH, outW, outH, y, p);
    }
    return Success;
  }
}
