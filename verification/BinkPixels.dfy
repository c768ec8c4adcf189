// The Bink pixel converter of bink_pixels.hpp: the 64-bit guards in front of 32-bit indexing, and
// what the loops leave in the output.
module BinkPixels {
  import opened Division
  import opened Words

  const W32: int := 0x1_0000_0000
  const W64: int := 0x1_0000_0000_0000_0000

  function PixelSurface(flags: bv32): bv32 { flags & !(0x0800_0000 | 0x0400_0000 | 0x8000_0000) }

  function BytesPerPixel(flags: bv32): (bpp: u32)
    ensures bpp <= 4
  {
    var surface := PixelSurface(flags);
    if surface == 1 || surface == 2 then 3
    else if surface == 3 || surface == 4 || surface == 5 || surface == 6 then 4
    else if surface == 9 || surface == 10 then 2
    else 0
  }

  // ---- the guards

  // The input the converter means to accept, in exact arithmetic.
  predicate Fits(source: int, width: u32, height: u32, pitch: u32, bpp: u32, output: int) {
    && bpp != 0 && width != 0 && height != 0 && width * bpp <= pitch
    && pitch * (height - 1) + width * bpp <= source
    && width * height * 4 == output
  }

  // The guard as it is written: each test in 64 bits, and only when the ones before it passed.
  predicate Guard(source: u32, width: u32, height: u32, pitch: u32, bpp: u32, output: u32) {
    !(|| bpp == 0 || width == 0 || height == 0
      || (width * bpp) % W64 > pitch
      || ((pitch * (height - 1)) % W64 + (width * bpp) % W64) % W64 > source
      || ((width * height) % W64 * 4) % W64 != output)
  }

  lemma ProductBound(x: int, y: int, a: int, b: int)
    requires 0 <= x <= a && 0 <= y <= b
    ensures 0 <= x * y <= a * b
  {
  }

  // A picture whose rows fit the source has few enough pixels for four bytes each.
  lemma PixelsBound(source: u32, width: u32, height: u32, pitch: u32, bpp: u32)
    requires bpp >= 2 && width != 0 && height != 0 && width * bpp <= pitch
    requires pitch * (height - 1) + width * bpp <= source
    ensures 0 <= width * height <= source / 2
  {
    ProductBound(2, width, bpp, width);
    ProductBound(2 * width, height - 1, pitch, height - 1);
    assert 2 * (width * height) == 2 * width * (height - 1) + 2 * width;
  }

  // The 64-bit tests never wrap where it matters: the guard decides exactly what it means to.
  lemma GuardIsExact(source: u32, width: u32, height: u32, pitch: u32, bpp: u32, output: u32)
    requires bpp == 0 || 2 <= bpp <= 4
    ensures Guard(source, width, height, pitch, bpp, output) <==> Fits(source, width, height, pitch, bpp, output)
  {
    if bpp != 0 && width != 0 && height != 0 {
      var row, rows, pixels := width * bpp, pitch * (height - 1), width * height;
      ProductBound(width, bpp, W32 - 1, 4);
      ProductBound(pitch, height - 1, W32 - 1, W32 - 2);
      ProductBound(width, height, W32 - 1, W32 - 1);
      if row <= pitch && rows + row <= source {
        PixelsBound(source, width, height, pitch, bpp);
      }
      NoWrap(row, rows, pixels, pitch, source, output);
    }
  }

  lemma NoWrap(row: nat, rows: nat, pixels: nat, pitch: u32, source: u32, output: u32)
    requires row < W64 && rows <= (W32 - 1) * (W32 - 2) && pixels < W64
    requires row <= pitch && rows + row <= source ==> pixels <= source
    ensures row % W64 > pitch <==> row > pitch
    ensures row <= pitch ==> ((rows % W64 + row % W64) % W64 > source <==> rows + row > source)
    ensures row <= pitch && rows + row <= source ==> (((pixels % W64) * 4) % W64 != output <==> pixels * 4 != output)
  {
    Below(row);
    Below(rows);
    Below(pixels);
    if row <= pitch {
      Below(rows + row);
      if rows + row <= source {
        Below(pixels * 4);
      }
    }
  }

  lemma Below(n: nat)
    ensures n < W64 ==> n % W64 == n
  {
  }

  // The last test would not do without the ones before it: four bytes for each of 2^62 pixels
  // wrap to an empty output.
  lemma SizeTestAloneWraps()
    ensures var side: u32 := 0x8000_0000; ((side * side) % W64 * 4) % W64 == 0 != side * side * 4
  {
  }

  // Every index the loops form stays in bounds and below 2^32, for the last byte of each pixel.
  lemma IndexInBounds(source: u32, width: u32, height: u32, pitch: u32, bpp: u32, output: u32, x: nat, y: nat)
    requires Fits(source, width, height, pitch, bpp, output) && x < width && y < height
    ensures 0 <= y * pitch < W32 && 0 <= x * bpp < W32 && y * pitch + x * bpp + bpp <= source
    ensures 0 <= y * width + x < width * height && (y * width + x) * 4 + 4 <= output
  {
    ProductBound(y, pitch, height - 1, pitch);
    ProductBound(x + 1, bpp, width, bpp);
    assert (x + 1) * bpp == x * bpp + bpp;
    ProductBound(x, bpp, width, bpp);
    ProductBound(y + 1, width, height, width);
    assert (y + 1) * width == y * width + width;
    ProductBound(y, width, height, width);
  }

  // ---- one pixel

  // Five or six bits spread over eight: the high bits are repeated below.
  function Spread5(c: bv16): bv8
    requires c < 32
  {
    ((c << 3) | (c >> 2)) as bv8
  }

  function Spread6(c: bv16): bv8
    requires c < 64
  {
    ((c << 2) | (c >> 4)) as bv8
  }

  function Word(low: bv8, high: bv8): bv16 { (low as bv16) | ((high as bv16) << 8) }

  // Blue, green, red and alpha of one pixel from its bytes. Surface 9 packs 5-5-5 bits and surface
  // 10 packs 5-6-5; the even surfaces below store red first.
  function Decode(surface: bv32, p: seq<bv8>): (q: seq<bv8>)
    requires |p| == BytesPerPixel(surface) && |p| != 0
    ensures |q| == 4
  {
    var s := PixelSurface(surface);
    if |p| == 2 then
      var v := Word(p[0], p[1]);
      if s == 10 then [Spread5(v & 31), Spread6((v >> 5) & 63), Spread5((v >> 11) & 31), 255]
      else [Spread5(v & 31), Spread5((v >> 5) & 31), Spread5((v >> 10) & 31), 255]
    else if s == 2 || s == 4 || s == 6 then [p[2], p[1], p[0], 255]
    else [p[0], p[1], p[2], 255]
  }

  function Pack565(q: seq<bv8>): bv16
    requires |q| == 4
  {
    ((q[0] >> 3) as bv16) | (((q[1] >> 2) as bv16) << 5) | (((q[2] >> 3) as bv16) << 11)
  }

  function Pack555(q: seq<bv8>): bv16
    requires |q| == 4
  {
    ((q[0] >> 3) as bv16) | (((q[1] >> 3) as bv16) << 5) | (((q[2] >> 3) as bv16) << 10)
  }

  // The packed formats lose nothing: the high bits of each channel give the word back (but for the
  // unused bit of 5-5-5).
  lemma PackedRoundTrip(surface: bv32, p: seq<bv8>)
    requires |p| == BytesPerPixel(surface) == 2
    ensures PixelSurface(surface) == 10 ==> Pack565(Decode(surface, p)) == Word(p[0], p[1])
    ensures PixelSurface(surface) == 9 ==> Pack555(Decode(surface, p)) == Word(p[0], p[1]) & 0x7FFF
  {
  }

  // The access hints and COPYALL change no layout; every other flag does.
  lemma HintsAreIgnored(flags: bv32, hints: bv32)
    ensures hints & !0x8C00_0000 == 0 ==> PixelSurface(flags | hints) == PixelSurface(flags)
    ensures flags & 0x8C00_0000 == 0 ==> PixelSurface(flags) == flags
  {
  }

  lemma Supported(flags: bv32)
    ensures var s := PixelSurface(flags);
      BytesPerPixel(flags) ==
      if s == 1 || s == 2 then 3 else if 3 <= s <= 6 then 4 else if s == 9 || s == 10 then 2 else 0
  {
  }

  // Every pixel is opaque. In the surfaces of whole bytes each channel is a byte of the source, blue
  // first in the odd ones and red first in the even ones. In the packed ones the low bits of a
  // channel repeat its high bits, which `PackedRoundTrip` says are the word's.
  lemma DecodeIs(surface: bv32, p: seq<bv8>)
    requires |p| == BytesPerPixel(surface) && |p| != 0
    ensures var s, q := PixelSurface(surface), Decode(surface, p);
      && q[3] == 255
      && (s == 1 || s == 3 || s == 5 ==> |p| >= 3 && q[0] == p[0] && q[1] == p[1] && q[2] == p[2])
      && (s == 2 || s == 4 || s == 6 ==> |p| >= 3 && q[0] == p[2] && q[1] == p[1] && q[2] == p[0])
      && (s == 9 || s == 10 ==> |p| == 2 && q[0] & 7 == q[0] >> 5 && q[2] & 7 == q[2] >> 5)
      && (s == 9 ==> q[1] & 7 == q[1] >> 5) && (s == 10 ==> q[1] & 3 == q[1] >> 6)
      && (1 <= s <= 6 || s == 9 || s == 10)
  {
  }

  // Nothing becomes 0 and everything 255, in order, and never one step or more off the exact scale.
  lemma SpreadScales(c: bv16, d: bv16)
    requires c < d < 64
    ensures Spread6(c) < Spread6(d) && (d < 32 ==> Spread5(c) < Spread5(d))
    ensures Spread5(0) == 0 && Spread5(31) == 255 && Spread6(0) == 0 && Spread6(63) == 255
    ensures 255 * d < 63 * (Spread6(d) as bv16) + 63 && 63 * (Spread6(d) as bv16) < 255 * d + 63
    ensures d < 32 ==> 255 * d < 31 * (Spread5(d) as bv16) + 31 && 31 * (Spread5(d) as bv16) < 255 * d + 31
  {
  }

  // ---- the loops

  function PixelOf(output: seq<bv8>, k: nat): seq<bv8>
    requires 4 * k + 4 <= |output|
  {
    output[4 * k..4 * k + 4]
  }

  // Pixel k counts row by row.
  ghost predicate PixelDone(source: seq<bv8>, width: u32, pitch: u32, surface: bv32, output: seq<bv8>, k: nat) {
    && width != 0 && 4 * k + 4 <= |output| && BytesPerPixel(surface) != 0
    && var at := (k / width) * pitch + (k % width) * BytesPerPixel(surface);
       && 0 <= at && at + BytesPerPixel(surface) <= |source|
       && PixelOf(output, k) == Decode(surface, source[at..at + BytesPerPixel(surface)])
  }

  lemma PixelIsDone(
      source: seq<bv8>, width: u32, pitch: u32, surface: bv32, output: seq<bv8>, x: nat, y: nat)
    requires x < width && BytesPerPixel(surface) != 0 && 0 <= y * width
    requires (y * width + x) * 4 + 4 <= |output|
    requires 0 <= y * pitch && y * pitch + x * BytesPerPixel(surface) + BytesPerPixel(surface) <= |source|
    requires var at := y * pitch + x * BytesPerPixel(surface);
             PixelOf(output, y * width + x) == Decode(surface, source[at..at + BytesPerPixel(surface)])
    ensures PixelDone(source, width, pitch, surface, output, y * width + x)
  {
    hide Decode, PixelOf;
    DivisionUnique(y * width + x, width, y, x);
  }

  lemma PixelWritten(source: seq<bv8>, width: u32, pitch: u32, surface: bv32, was: seq<bv8>, output: seq<bv8>, k: nat)
    requires |was| == |output| && 4 * k + 4 <= |was|
    requires forall i :: 0 <= i < |was| && !(4 * k <= i < 4 * k + 4) ==> was[i] == output[i]
    ensures forall j: nat :: j != k && PixelDone(source, width, pitch, surface, was, j) ==>
      PixelDone(source, width, pitch, surface, output, j)
  {
  }

  method ConvertBinkPixels(
      source: seq<bv8>, width: u32, height: u32, pitch: u32, flags: bv32, output: array<bv8>)
      returns (converted: bool)
    requires |source| < W32 && output.Length < W32
    modifies output
    ensures converted <==> Fits(|source|, width, height, pitch, BytesPerPixel(flags), output.Length)
    ensures !converted ==> output[..] == old(output[..])
    ensures converted ==> forall k: nat :: k < width * height ==> PixelDone(source, width, pitch, flags, output[..], k)
  {
    var bpp := BytesPerPixel(flags);
    GuardIsExact(|source|, width, height, pitch, bpp, output.Length);
    if !Guard(|source|, width, height, pitch, bpp, output.Length) {
      return false;
    }
    hide Fits;
    var y := 0;
    while y < height
      invariant 0 <= y <= height
      invariant forall k: nat :: k < y * width ==> PixelDone(source, width, pitch, flags, output[..], k)
    {
      var x := 0;
      while x < width
        invariant 0 <= x <= width
        invariant forall k: nat :: k < y * width + x ==> PixelDone(source, width, pitch, flags, output[..], k)
      {
        IndexInBounds(|source|, width, height, pitch, bpp, output.Length, x, y);
        ConvertPixel(source, width, pitch, flags, output, x, y);
        x := x + 1;
      }
      assert (y + 1) * width == y * width + width;
      y := y + 1;
    }
    return true;
  }

  // Sums in 32 bits.
  function SourceIndex(row: nat, column: nat): (index: nat)
    ensures row + column < W32 ==> index == row + column
  {
    (row % W32 + column % W32) % W32
  }

  function OutputIndex(row: nat, x: nat): (index: nat)
    ensures (row + x) * 4 < W32 ==> index == (row + x) * 4
  {
    ((row % W32 + x) % W32 * 4) % W32
  }

  // One turn of the inner loop, with every index in 32 bits.
  method ConvertPixel(source: seq<bv8>, width: u32, pitch: u32, flags: bv32, output: array<bv8>, x: nat, y: nat)
    requires x < width && BytesPerPixel(flags) != 0
    requires y * pitch < W32 && x * BytesPerPixel(flags) < W32 && (y * width + x) * 4 + 4 <= output.Length < W32
    requires y * pitch + x * BytesPerPixel(flags) + BytesPerPixel(flags) <= |source| < W32
    modifies output
    ensures PixelDone(source, width, pitch, flags, output[..], y * width + x)
    ensures forall k: nat :: k != y * width + x && PixelDone(source, width, pitch, flags, old(output[..]), k) ==>
      PixelDone(source, width, pitch, flags, output[..], k)
  {
    hide Decode, PixelDone, BytesPerPixel;
    ghost var was := output[..];
    var bpp, k := BytesPerPixel(flags), y * width + x;
    var p := SourceIndex(y * pitch, x * bpp);
    var q := OutputIndex(y * width, x);
    var pixel := ConvertBytes(flags, source[p..p + bpp]);
    output[q], output[q + 1], output[q + 2], output[q + 3] := pixel[0], pixel[1], pixel[2], pixel[3];
    assert PixelOf(output[..], k) == pixel;
    PixelIsDone(source, width, pitch, flags, output[..], x, y);
    PixelWritten(source, width, pitch, flags, was, output[..], k);
  }

  method ConvertBytes(flags: bv32, p: seq<bv8>) returns (q: seq<bv8>)
    requires |p| == BytesPerPixel(flags) != 0
    ensures q == Decode(flags, p)
  {
    var surface := PixelSurface(flags);
    if |p| == 2 {
      var v := (p[0] as bv16) | ((p[1] as bv16) << 8);
      var b, r := v & 31, (v >> (if surface == 10 then 11 else 10)) & 31;
      var g := (v >> 5) & (if surface == 10 then 63 else 31);
      q := [((b << 3) | (b >> 2)) as bv8,
            (if surface == 10 then (g << 2) | (g >> 4) else (g << 3) | (g >> 2)) as bv8,
            ((r << 3) | (r >> 2)) as bv8];
    } else {
      var reversed := surface == 2 || surface == 4 || surface == 6;
      q := [p[if reversed then 2 else 0], p[1], p[if reversed then 0 else 2]];
    }
    q := q + [255];
  }
}
