/**
 * The grayscale conversion of App.tsx: the loop over a canvas's RGBA buffer,
 * specified pixel by pixel.
 */
module Pixels {

  /** One entry of a canvas `ImageData` buffer (a `Uint8ClampedArray`). */
  type Byte = x: int | 0 <= x < 256

  /**
   * The grey value stored for channels r, g, b: `(r + g + b) / 3` converted by
   * the clamped byte array, which rounds to the nearest integer. The fraction of
   * a sum divided by 3 is never one half, so no tie has to be broken.
   */
  function GreyValue(r: Byte, g: Byte, b: Byte): (v: Byte)
    ensures 3 * v - 1 <= r + g + b <= 3 * v + 1
  {
    (r + g + b + 1) / 3
  }

  /**
   * The byte at index `p + c` after the round of the loop that starts at `p`.
   * A complete pixel gets the grey value in its three colour channels and
   * keeps its alpha; a trailing group of three bytes is converted like a
   * pixel without alpha. In a trailing group of one or two bytes the loop
   * reads `undefined`, the sum is NaN, and the clamped array stores 0.
   */
  function PixelByte(s: seq<Byte>, p: nat, c: nat): Byte
    requires c < 4 && p + c < |s|
  {
    if p + 2 < |s| then
      if c < 3 then GreyValue(s[p], s[p + 1], s[p + 2]) else s[p + c]
    else 0
  }

  /** A pixel is converted from its own bytes only. */
  lemma PixelByteOfSame(s: seq<Byte>, t: seq<Byte>, p: nat, c: nat)
    requires c < 4 && p + c < |s| == |t| && s[p..] == t[p..]
    ensures PixelByte(s, p, c) == PixelByte(t, p, c)
  {
    if p + 2 < |s| {
      assert s[p] == s[p..][0] && s[p + 1] == s[p..][1] && s[p + 2] == s[p..][2];
      assert s[p + c] == s[p..][c];
    }
  }

  /** Byte `j` of the buffer after the grayscale loop, converted as part of its pixel. */
  function GreyByte(s: seq<Byte>, j: nat): Byte
    requires j < |s|
  {
    var k := j / 4;
    PixelByte(s, 4 * k, j - 4 * k)
  }

  /** The whole buffer after the grayscale loop. */
  function Greyscale(s: seq<Byte>): (r: seq<Byte>)
    ensures |r| == |s|
  {
    seq(|s|, j requires 0 <= j < |s| => GreyByte(s, j))
  }

  /** Byte `c` of pixel `k`, at index `4 * k + c`, is converted with the rest of pixel `k`. */
  lemma GreyByteAt(s: seq<Byte>, k: nat, c: nat)
    requires c < 4 && 4 * k + c < |s|
    ensures GreyByte(s, 4 * k + c) == PixelByte(s, 4 * k, c)
  {
  }

  /** The converted byte at `4 * k + c` is byte `c` of pixel `k`, converted. */
  lemma GreyscaleAt(s: seq<Byte>, k: nat, c: nat)
    requires c < 4 && 4 * k + c < |s|
    ensures Greyscale(s)[4 * k + c] == PixelByte(s, 4 * k, c)
  {
    GreyByteAt(s, k, c);
  }

  /** In every complete pixel the three colour channels become equal, and alpha is kept. */
  lemma GreyscalePixel(s: seq<Byte>, k: nat)
    requires 4 * k + 3 < |s|
    ensures var r := Greyscale(s);
      && r[4 * k] == r[4 * k + 1] == r[4 * k + 2] == GreyValue(s[4 * k], s[4 * k + 1], s[4 * k + 2])
      && r[4 * k + 3] == s[4 * k + 3]
  {
    GreyscaleAt(s, k, 0);
    GreyscaleAt(s, k, 1);
    GreyscaleAt(s, k, 2);
    GreyscaleAt(s, k, 3);
  }

  /** A trailing group of one or two bytes is zeroed. */
  lemma GreyscaleShortTail(s: seq<Byte>, k: nat)
    requires 4 * k < |s| <= 4 * k + 2
    ensures Greyscale(s)[4 * k] == 0
    ensures 4 * k + 1 < |s| ==> Greyscale(s)[4 * k + 1] == 0
  {
    GreyscaleAt(s, k, 0);
    if 4 * k + 1 < |s| {
      GreyscaleAt(s, k, 1);
    }
  }

  /** A grey pixel stays the same grey. */
  lemma GreyValueOfGrey(v: Byte)
    ensures GreyValue(v, v, v) == v
  {
  }

  /** Converting byte `c` of pixel `k` a second time gives the same byte. */
  lemma GreyscaleIdempotentAt(s: seq<Byte>, k: nat, c: nat)
    requires c < 4 && 4 * k + c < |s|
    ensures Greyscale(Greyscale(s))[4 * k + c] == Greyscale(s)[4 * k + c]
  {
    var r := Greyscale(s);
    GreyscaleAt(r, k, c);
    GreyscaleAt(s, k, c);
    if 4 * k + 2 < |s| {
      GreyscaleAt(s, k, 0);
      GreyscaleAt(s, k, 1);
      GreyscaleAt(s, k, 2);
      GreyValueOfGrey(r[4 * k]);
    }
  }

  /** Converting an already converted buffer changes nothing. */
  lemma GreyscaleIdempotent(s: seq<Byte>)
    ensures Greyscale(Greyscale(s)) == Greyscale(s)
  {
    forall j | 0 <= j < |s|
      ensures Greyscale(Greyscale(s))[j] == Greyscale(s)[j]
    {
      GreyscaleIdempotentAt(s, j / 4, j - 4 * (j / 4));
    }
  }

  /** `after` is `before` with the pixel at `i` converted and every other byte kept. */
  ghost predicate PixelConverted(before: seq<Byte>, after: seq<Byte>, i: nat)
    requires i < |before|
  {
    && |after| == |before|
    && (forall j :: 0 <= j < |before| && (j < i || i + 3 <= j) ==> after[j] == before[j])
    && (forall c :: 0 <= c < 4 && i + c < |before| ==> after[i + c] == PixelByte(before, i, c))
  }

  /** The bytes of `r` before index `i` are those of the converted `s`, the rest those of `s`. */
  ghost predicate ConvertedUpTo(r: seq<Byte>, s: seq<Byte>, i: nat)
  {
    && |r| == |s|
    && (forall j :: 0 <= j < |s| && j < i ==> r[j] == GreyByte(s, j))
    && (forall j :: i <= j < |s| ==> r[j] == s[j])
  }

  /** Converting the pixel at `i` extends the converted prefix by one pixel. */
  lemma ConvertedStep(s: seq<Byte>, before: seq<Byte>, after: seq<Byte>, k: nat)
    requires 4 * k < |s| && ConvertedUpTo(before, s, 4 * k)
    requires PixelConverted(before, after, 4 * k)
    ensures ConvertedUpTo(after, s, 4 * k + 4)
  {
    var i := 4 * k;
    assert before[i..] == s[i..];
    forall j | i <= j < |s| && j < i + 4
      ensures after[j] == GreyByte(s, j)
    {
      GreyByteAt(s, k, j - i);
      PixelByteOfSame(before, s, i, j - i);
    }
  }

  /**
   * One round of the loop: the pixel at `i` of `data` is converted, and a
   * write past the end of the typed array is dropped.
   */
  method ConvertPixel(data: array<Byte>, i: nat)
    requires i < data.Length
    modifies data
    ensures PixelConverted(old(data[..]), data[..], i)
  {
    var n := data.Length;
    if i + 2 < n {
      var avg := GreyValue(data[i], data[i + 1], data[i + 2]);
      data[i], data[i + 1], data[i + 2] := avg, avg, avg;
    } else {
      // data[i + 1] or data[i + 2] is undefined: the average is NaN, stored as 0.
      data[i] := 0;
      if i + 1 < n {
        data[i + 1] := 0;
      }
    }
  }

  /** `for (let i = 0; i < data.length; i += 4) { ... }`, in place on the canvas buffer. */
  method ToGrayscale(data: array<Byte>)
    modifies data
    ensures data[..] == Greyscale(old(data[..]))
  {
    ghost var s := data[..];
    ghost var k: nat := 0;
    var n := data.Length;
    var i := 0;
    while i < n
      invariant i == 4 * k && (i <= n || n < i < n + 4)
      invariant ConvertedUpTo(data[..], s, i)
    {
      ghost var before := data[..];
      ConvertPixel(data, i);
      ConvertedStep(s, before, data[..], k);
      i, k := i + 4, k + 1;
    }
    assert data[..] == Greyscale(s);
  }
}
