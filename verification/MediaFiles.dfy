/**
 * Shrinking photos before upload (src/promptql/mediaFiles.ts: scaleDims,
 * resizeRgba, encodeJpegUnder, stageImageForUpload, stagePromptQlFiles). The
 * JPEG codec is a pair of functions that may fail; the product that scales a
 * side is any real less than one half away from the exact one.
 */
module MediaFiles {
  import opened Common

  const RECOMPRESS_MAX_BYTES := 900 * 1024
  const MIN_IMAGE_SHARE := 48 * 1024
  const MIN_CAP := 16 * 1024

  // ------------------------------------------------------------------
  // scaleDims
  // ------------------------------------------------------------------

  datatype Dims = Dims(width: nat, height: nat)

  /** side * (to / from) as the machine computes it, with whatever rounding. */
  type Product = (nat, nat, nat) -> real

  /** The product is less than one half away from the exact one; doubles are, by far. */
  ghost predicate Close(product: Product, side: nat, to: nat, from: nat)
    requires from > 0
  {
    var exact := (side * to) as real / from as real;
    exact - 0.5 < product(side, to, from) < exact + 0.5
  }

  /** Math.round, which rounds a half up. */
  function Rounded(x: real): int {
    (x + 0.5).Floor
  }

  function ScaleDims(product: Product, d: Dims, maxEdge: nat): Dims {
    var edge := Max(d.width, d.height);
    if edge <= maxEdge then d
    else Dims(Max(1, Rounded(product(d.width, maxEdge, edge))), Max(1, Rounded(product(d.height, maxEdge, edge))))
  }

  lemma DivBounds(a: nat, b: nat)
    requires b > 0
    ensures b * (a / b) <= a < b * (a / b) + b
  {
  }

  lemma Monotone(a: nat, b: nat, c: nat)
    requires a <= b
    ensures a * c <= b * c && c * a <= c * b
  {
  }

  lemma CancelLess(a: nat, b: nat, c: nat)
    requires c * a < c * b
    ensures a < b
  {
    if a >= b { Monotone(b, a, c); }
  }

  lemma Distribute(a: nat, b: nat)
    ensures a * (b + 1) == a * b + a && (b + 1) * a == b * a + a
  {
  }

  lemma TimesMonotone(a: real, b: real, f: real)
    requires f > 0.0
    ensures a <= b <==> a * f <= b * f
  {
  }

  lemma ShareBounds(part: nat, from: nat, bound: nat)
    requires from > 0
    ensures part <= from * bound <==> part as real / from as real <= bound as real
    ensures part >= from * bound <==> part as real / from as real >= bound as real
  {
    var share := part as real / from as real;
    assert share * from as real == part as real;
    assert bound as real * from as real == (from * bound) as real;
    TimesMonotone(share, bound as real, from as real);
    TimesMonotone(bound as real, share, from as real);
  }

  /** Rounding a share of at most `from` never passes what all of it gives. */
  lemma ScaledBounds(product: Product, side: nat, to: nat, from: nat)
    requires 0 < from && side <= from && Close(product, side, to, from)
    ensures var r := Rounded(product(side, to, from));
            r <= to && (to < from ==> r <= side) && (side == from ==> r == to)
  {
    Monotone(side, from, to);
    ShareBounds(side * to, from, to);
    if to < from {
      Monotone(to, from, side);
      ShareBounds(side * to, from, side);
    }
  }

  /** A scaled side is within one pixel of the exact one. */
  lemma ScaledIsClose(product: Product, side: nat, to: nat, from: nat)
    requires from > 0 && Close(product, side, to, from)
    ensures var exact := (side * to) as real / from as real;
            exact - 1.0 < Rounded(product(side, to, from)) as real < exact + 1.0
  {
  }

  /** Sides stay within 1 and the limit, never grow, the longer side hits the limit
      exactly; whatever the rounding of the products. */
  lemma ScaleIsBounded(product: Product, d: Dims, maxEdge: nat)
    requires d.width >= 1 && d.height >= 1 && maxEdge >= 1
    requires var edge := Max(d.width, d.height);
             Close(product, d.width, maxEdge, edge) && Close(product, d.height, maxEdge, edge)
    ensures var s := ScaleDims(product, d, maxEdge);
            && 1 <= s.width <= maxEdge && 1 <= s.height <= maxEdge
            && s.width <= d.width && s.height <= d.height
            && (s == d <==> Max(d.width, d.height) <= maxEdge)
            && (Max(d.width, d.height) > maxEdge ==> Max(s.width, s.height) == maxEdge)
  {
    var edge := Max(d.width, d.height);
    if edge > maxEdge {
      ScaledBounds(product, d.width, maxEdge, edge);
      ScaledBounds(product, d.height, maxEdge, edge);
    }
  }

  // ------------------------------------------------------------------
  // resizeRgba
  // ------------------------------------------------------------------

  type Side = n: nat | n > 0 witness 1

  /** Math.min(from - 1, Math.floor(i * from / to)) */
  function SourceAt(i: nat, from: Side, to: Side): nat {
    Min(from - 1, i * from / to)
  }

  /** The floor of the scaled coordinate: within the picture nothing is cut off. */
  lemma SourceAtIsFloor(i: nat, from: Side, to: Side)
    requires i < to
    ensures SourceAt(i, from, to) < from && SourceAt(i, from, to) * to <= i * from < (SourceAt(i, from, to) + 1) * to
  {
    DivBounds(i * from, to);
    Monotone(i + 1, to, from);
    Distribute(from, i);
    Distribute(to, i * from / to);
    CancelLess(i * from / to, from, to);
  }

  datatype Resize = Resize(srcW: Side, srcH: Side, dstW: Side, dstH: Side)

  /** Where byte k of the resized picture comes from. */
  function SourceIndex(z: Resize, k: nat): (i: nat) {
    var y, x := k / 4 / z.dstW, k / 4 % z.dstW;
    (SourceAt(y, z.srcH, z.dstH) * z.srcW + SourceAt(x, z.srcW, z.dstW)) * 4 + k % 4
  }

  lemma IndexInBounds(sy: nat, sx: nat, c: nat, w: nat, h: nat)
    requires sy < h && sx < w && c < 4
    ensures (sy * w + sx) * 4 + c < w * h * 4
  {
    Monotone(sy + 1, h, w);
    assert (sy + 1) * w == sy * w + w;
  }

  lemma DivUnique(a: nat, w: nat, y: nat, x: nat)
    requires w > 0 && x < w && a == y * w + x
    ensures a / w == y && a % w == x
  {
    var q := a / w;
    DivBounds(a, w);
    assert w * (y + 1) == y * w + w && w * (q + 1) == w * q + w;
    CancelLess(q, y + 1, w);
    CancelLess(y, q + 1, w);
  }

  lemma PixelSource(z: Resize, y: nat, x: nat, c: nat)
    requires x < z.dstW && c < 4
    ensures SourceIndex(z, (y * z.dstW + x) * 4 + c)
         == (SourceAt(y, z.srcH, z.dstH) * z.srcW + SourceAt(x, z.srcW, z.dstW)) * 4 + c
  {
    var k := (y * z.dstW + x) * 4 + c;
    assert k / 4 == y * z.dstW + x && k % 4 == c;
    DivUnique(y * z.dstW + x, z.dstW, y, x);
  }

  /** Every byte read lies inside the source. */
  lemma SourceInBounds(z: Resize, k: nat)
    ensures SourceIndex(z, k) < z.srcW * z.srcH * 4
  {
    var y, x := k / 4 / z.dstW, k / 4 % z.dstW;
    IndexInBounds(SourceAt(y, z.srcH, z.dstH), SourceAt(x, z.srcW, z.dstW), k % 4, z.srcW, z.srcH);
  }

  lemma MulDiv(i: nat, n: nat)
    requires n > 0
    ensures i * n / n == i
  {
    DivUnique(i * n, n, i, 0);
  }

  /** Equal sizes copy the picture. */
  lemma SameSizeIsIdentity(z: Resize, k: nat)
    requires z.srcW == z.dstW && z.srcH == z.dstH && k < z.dstW * z.dstH * 4
    ensures SourceIndex(z, k) == k
  {
    var w, h, p := z.dstW, z.dstH, k / 4;
    var y, x := p / w, p % w;
    RowInBounds(p, w, h);
    MulDiv(y, h);
    MulDiv(x, w);
    assert SourceAt(y, h, h) == y && SourceAt(x, w, w) == x;
    Recompose(p, w);
  }

  lemma RowInBounds(p: nat, w: Side, h: Side)
    requires p < w * h
    ensures p / w < h
  {
    DivBounds(p, w);
    CancelLess(p / w, h, w);
  }

  lemma Recompose(p: nat, w: Side)
    ensures p / w * w + p % w == p
  {
  }

  /** The first n bytes are in place. */
  ghost predicate Done(src: seq<byte>, out: seq<byte>, n: nat, from: nat -> nat) {
    n <= |out| && forall k | 0 <= k < n :: from(k) < |src| && out[k] == src[from(k)]
  }

  method CopyFour(src: array<byte>, out: array<byte>, si: nat, di: nat)
    requires src != out && si + 4 <= src.Length && di + 4 <= out.Length
    modifies out
    ensures out[..di] == old(out[..di]) && out[di..di+4] == src[si..si+4]
  {
    out[di] := src[si];
    out[di+1] := src[si+1];
    out[di+2] := src[si+2];
    out[di+3] := src[si+3];
  }

  lemma FourMore(src: seq<byte>, before: seq<byte>, out: seq<byte>, si: nat, di: nat, from: nat -> nat)
    requires Done(src, before, di, from) && |before| == |out| && si + 4 <= |src| && di + 4 <= |out|
    requires out[..di] == before[..di] && out[di..di+4] == src[si..si+4]
    requires from(di) == si && from(di+1) == si + 1 && from(di+2) == si + 2 && from(di+3) == si + 3
    ensures Done(src, out, di + 4, from)
  {
    forall k | 0 <= k < di + 4 ensures from(k) < |src| && out[k] == src[from(k)] {
      if k < di {
        assert out[k] == out[..di][k] && before[k] == before[..di][k];
      } else {
        assert out[k] == out[di..di+4][k-di] && src[si..si+4][k-di] == src[si+(k-di)];
      }
    }
  }

  function From(z: Resize): nat -> nat {
    k => SourceIndex(z, k)
  }

  method CopyAt(src: array<byte>, out: array<byte>, si: nat, di: nat, ghost from: nat -> nat)
    requires src != out && si + 4 <= src.Length && di + 4 <= out.Length
    requires Done(src[..], out[..], di, from)
    requires from(di) == si && from(di+1) == si + 1 && from(di+2) == si + 2 && from(di+3) == si + 3
    modifies out
    ensures Done(src[..], out[..], di + 4, from)
  {
    ghost var before := out[..];
    CopyFour(src, out, si, di);
    assert out[..][..di] == before[..di] && out[..][di..di+4] == src[..][si..si+4];
    FourMore(src[..], before, out[..], si, di, from);
  }

  function SourcePixel(z: Resize, y: nat, x: nat): nat {
    (SourceAt(y, z.srcH, z.dstH) * z.srcW + SourceAt(x, z.srcW, z.dstW)) * 4
  }

  function TargetPixel(z: Resize, y: nat, x: nat): nat {
    (y * z.dstW + x) * 4
  }

  lemma PixelFacts(z: Resize, y: nat, x: nat)
    requires y < z.dstH && x < z.dstW
    ensures SourcePixel(z, y, x) + 4 <= z.srcW * z.srcH * 4 && TargetPixel(z, y, x) + 4 <= z.dstW * z.dstH * 4
    ensures var di := TargetPixel(z, y, x);
            && From(z)(di) == SourcePixel(z, y, x) && From(z)(di+1) == SourcePixel(z, y, x) + 1
            && From(z)(di+2) == SourcePixel(z, y, x) + 2 && From(z)(di+3) == SourcePixel(z, y, x) + 3
  {
    IndexInBounds(SourceAt(y, z.srcH, z.dstH), SourceAt(x, z.srcW, z.dstW), 3, z.srcW, z.srcH);
    IndexInBounds(y, x, 3, z.dstW, z.dstH);
    PixelSource(z, y, x, 0);
    PixelSource(z, y, x, 1);
    PixelSource(z, y, x, 2);
    PixelSource(z, y, x, 3);
  }

  lemma NextRow(z: Resize, y: nat)
    ensures TargetPixel(z, y, z.dstW) == TargetPixel(z, y + 1, 0)
    ensures TargetPixel(z, 0, 0) == 0 && TargetPixel(z, z.dstH, 0) == z.dstW * z.dstH * 4
  {
    Distribute(z.dstW, y);
  }

  method CopyRow(z: Resize, src: array<byte>, out: array<byte>, y: nat)
    requires src != out && y < z.dstH
    requires src.Length == z.srcW * z.srcH * 4 && out.Length == z.dstW * z.dstH * 4
    requires Done(src[..], out[..], TargetPixel(z, y, 0), From(z))
    modifies out
    ensures Done(src[..], out[..], TargetPixel(z, y + 1, 0), From(z))
  {
    for x := 0 to z.dstW
      invariant Done(src[..], out[..], TargetPixel(z, y, x), From(z))
    {
      PixelFacts(z, y, x);
      CopyAt(src, out, SourcePixel(z, y, x), TargetPixel(z, y, x), From(z));
      assert TargetPixel(z, y, x) + 4 == TargetPixel(z, y, x + 1);
    }
    NextRow(z, y);
  }

  method CopyRows(z: Resize, src: array<byte>) returns (out: array<byte>)
    requires src.Length == z.srcW * z.srcH * 4
    ensures fresh(out) && out.Length == z.dstW * z.dstH * 4
    ensures Done(src[..], out[..], out.Length, From(z))
  {
    out := new byte[z.dstW * z.dstH * 4];
    NextRow(z, 0);
    for y := 0 to z.dstH
      invariant Done(src[..], out[..], TargetPixel(z, y, 0), From(z))
    {
      CopyRow(z, src, out, y);
    }
    NextRow(z, z.dstH);
  }

  /** Every output byte is the source byte at the scaled floor coordinates; equal sizes copy. */
  method ResizeRgba(z: Resize, src: array<byte>) returns (out: array<byte>)
    requires src.Length == z.srcW * z.srcH * 4
    ensures fresh(out) && out.Length == z.dstW * z.dstH * 4
    ensures forall k | 0 <= k < out.Length :: SourceIndex(z, k) < src.Length && out[k] == src[SourceIndex(z, k)]
    ensures z.srcW == z.dstW && z.srcH == z.dstH ==> out[..] == src[..]
  {
    out := CopyRows(z, src);
    forall k | 0 <= k < out.Length ensures SourceIndex(z, k) < src.Length && out[k] == src[SourceIndex(z, k)] {
      assert From(z)(k) < |src[..]| && out[..][k] == src[..][From(z)(k)];
    }
    if z.srcW == z.dstW && z.srcH == z.dstH {
      forall k | 0 <= k < out.Length ensures out[k] == src[k] {
        SameSizeIsIdentity(z, k);
      }
    }
  }

  // ------------------------------------------------------------------
  // encodeJpegUnder
  // ------------------------------------------------------------------

  /** One try of the encoder: it threw, gave nothing, or gave bytes. */
  datatype Attempt = Threw | Nothing | Out(bytes: seq<byte>)

  /** What to upload: the file as it came, or a fresh JPEG. */
  datatype Choice = Original | Fresh(bytes: seq<byte>)

  function Better(best: Option<seq<byte>>, out: seq<byte>): Option<seq<byte>> {
    if best.None? || |out| < |best.value| then Some(out) else best
  }

  function Settle(best: Option<seq<byte>>, cap: nat, original: nat): Choice {
    if best.Some? && (|best.value| <= cap || |best.value| < original) then Fresh(best.value) else Original
  }

  /** The tries in order, the smallest output so far in `best`. */
  function Pick(tries: seq<Attempt>, best: Option<seq<byte>>, cap: nat, original: nat): Choice {
    if tries == [] then Settle(best, cap, original)
    else match tries[0]
      case Threw => Original
      case Nothing => Pick(tries[1..], best, cap, original)
      case Out(b) => if |b| <= cap then Fresh(b) else Pick(tries[1..], Better(best, b), cap, original)
  }

  predicate Fits(t: Attempt, cap: nat) {
    t.Out? && |t.bytes| <= cap
  }

  predicate NoneFits(tries: seq<Attempt>, cap: nat) {
    forall i | 0 <= i < |tries| :: !Fits(tries[i], cap)
  }

  predicate FirstFit(tries: seq<Attempt>, n: nat, cap: nat) {
    n < |tries| && Fits(tries[n], cap) && forall i | 0 <= i < n :: !Fits(tries[i], cap)
  }

  /** If no try throws: the first output within the cap; without one, the smallest output
      if it beats the original; otherwise the original. */
  lemma {:induction false} PickMeans(tries: seq<Attempt>, best: Option<seq<byte>>, cap: nat, original: nat)
    requires forall i | 0 <= i < |tries| :: !tries[i].Threw?
    requires best.Some? ==> |best.value| > cap
    ensures var r := Pick(tries, best, cap, original);
            && (forall n: nat | FirstFit(tries, n, cap) :: r == Fresh(tries[n].bytes))
            && (NoneFits(tries, cap) ==>
                  var smallest := Smallest(tries, best);
                  r == if smallest.Some? && (|smallest.value| <= cap || |smallest.value| < original) then Fresh(smallest.value) else Original)
    decreases |tries|
  {
    if tries != [] {
      var next := if tries[0].Out? then Better(best, tries[0].bytes) else best;
      if !Fits(tries[0], cap) {
        PickMeans(tries[1..], next, cap, original);
        assert forall i | 0 <= i < |tries[1..]| :: tries[1..][i] == tries[i+1];
        forall n: nat | FirstFit(tries, n, cap) ensures Pick(tries, best, cap, original) == Fresh(tries[n].bytes) {
          assert FirstFit(tries[1..], n - 1, cap);
        }
      }
    }
  }

  /** The smallest output, the earliest of equals, starting from `best`. */
  function Smallest(tries: seq<Attempt>, best: Option<seq<byte>>): Option<seq<byte>> {
    if tries == [] then best
    else Smallest(tries[1..], if tries[0].Out? then Better(best, tries[0].bytes) else best)
  }

  lemma {:induction false} SmallestIsSmallest(tries: seq<Attempt>, best: Option<seq<byte>>)
    ensures var r := Smallest(tries, best);
            && (best.Some? ==> r.Some? && |r.value| <= |best.value|)
            && (forall i | 0 <= i < |tries| && tries[i].Out? :: r.Some? && |r.value| <= |tries[i].bytes|)
            && (r.Some? ==> r == best || exists i | 0 <= i < |tries| :: tries[i] == Out(r.value))
    decreases |tries|
  {
    if tries != [] {
      var next := if tries[0].Out? then Better(best, tries[0].bytes) else best;
      SmallestIsSmallest(tries[1..], next);
      var r := Smallest(tries, best);
      forall i | 0 <= i < |tries| && tries[i].Out? ensures r.Some? && |r.value| <= |tries[i].bytes| {
        if i > 0 { assert tries[1..][i-1] == tries[i]; }
      }
      if r.Some? && r != best && r != next {
        var i :| 0 <= i < |tries[1..]| && tries[1..][i] == Out(r.value);
        assert tries[i+1] == Out(r.value);
      } else if r.Some? && r != best {
        assert tries[0] == Out(r.value);
      }
    }
  }

  function Size(c: Choice, original: nat): nat {
    match c case Original => original case Fresh(b) => |b|
  }

  /** Whatever the codec does, the upload is within the cap or no larger than the original. */
  lemma {:induction false} PickIsBounded(tries: seq<Attempt>, best: Option<seq<byte>>, cap: nat, original: nat)
    ensures Size(Pick(tries, best, cap, original), original) <= Max(cap, original)
    decreases |tries|
  {
    if tries != [] {
      match tries[0] {
        case Threw =>
        case Nothing => PickIsBounded(tries[1..], best, cap, original);
        case Out(b) => PickIsBounded(tries[1..], Better(best, b), cap, original);
      }
    }
  }

  datatype Picture = Picture(dims: Dims, rgba: seq<byte>)

  /** What the decoder returns: four bytes per pixel. */
  type Image = p: Picture | |p.rgba| == p.dims.width * p.dims.height * 4 witness Picture(Dims(0, 0), [])

  type Photo = p: Picture | p.dims.width > 0 && p.dims.height > 0 && |p.rgba| == p.dims.width * p.dims.height * 4
    witness Picture(Dims(1, 1), [0, 0, 0, 0])

  /** The JPEG codec, and the machine's product. */
  datatype Codec = Codec(decode: seq<byte> -> Option<Image>, encode: (Photo, nat) -> Attempt, product: Product)

  function ResizeTo(image: Photo, d: Dims): Resize
    requires d.width > 0 && d.height > 0
  {
    Resize(image.dims.width, image.dims.height, d.width, d.height)
  }

  function ByteAt(z: Resize, src: seq<byte>, k: nat): byte
    requires |src| == z.srcW * z.srcH * 4
  {
    SourceInBounds(z, k);
    src[SourceIndex(z, k)]
  }

  function ResizedBytes(z: Resize, src: seq<byte>, n: nat): seq<byte>
    requires |src| == z.srcW * z.srcH * 4
  {
    seq(n, k requires 0 <= k => ByteAt(z, src, k))
  }

  function Resized(image: Photo, d: Dims): Photo
    requires d.width > 0 && d.height > 0
  {
    Picture(d, ResizedBytes(ResizeTo(image, d), image.rgba, d.width * d.height * 4))
  }

  /** The picture as it is tried at one edge. */
  function AtEdge(product: Product, image: Photo, maxEdge: nat): Photo {
    var d := ScaleDims(product, image.dims, maxEdge);
    if d == image.dims then image else Resized(image, d)
  }

  /** The loops of resizeRgba give that picture. */
  method ShrinkTo(product: Product, image: Photo, maxEdge: nat) returns (r: Photo)
    ensures r == AtEdge(product, image, maxEdge)
  {
    var d := ScaleDims(product, image.dims, maxEdge);
    if d == image.dims { return image; }
    var src := new byte[|image.rgba|](i requires 0 <= i < |image.rgba| => image.rgba[i]);
    var out := ResizeRgba(ResizeTo(image, d), src);
    r := Picture(d, out[..]);
    assert r.rgba == Resized(image, d).rgba;
  }

  /** An answer without data counts as nothing. */
  function Seen(t: Attempt): Attempt {
    if t == Out([]) then Nothing else t
  }

  function AtQualities(c: Codec, image: Photo, qualities: seq<nat>): seq<Attempt> {
    if qualities == [] then [] else [Seen(c.encode(image, qualities[0]))] + AtQualities(c, image, qualities[1..])
  }

  /** All tries, edge by edge, quality by quality. */
  function Tries(c: Codec, image: Photo, edges: seq<nat>, qualities: seq<nat>): seq<Attempt> {
    if edges == [] then []
    else AtQualities(c, AtEdge(c.product, image, edges[0]), qualities) + Tries(c, image, edges[1..], qualities)
  }

  lemma {:induction false} QualityAt(c: Codec, image: Photo, qualities: seq<nat>, q: nat)
    requires q < |qualities|
    ensures |AtQualities(c, image, qualities)| == |qualities|
    ensures AtQualities(c, image, qualities)[q] == Seen(c.encode(image, qualities[q]))
  {
    if |qualities| > 1 { QualityAt(c, image, qualities[1..], if q == 0 then 0 else q - 1); }
  }

  /** A smaller edge is tried after every quality of the larger one; within an edge the qualities
      go in order, and output without data counts as no output. */
  lemma {:induction false} TryAt(c: Codec, image: Photo, edges: seq<nat>, qualities: seq<nat>, e: nat, q: nat)
    requires e < |edges| && q < |qualities|
    ensures e * |qualities| + q < |Tries(c, image, edges, qualities)|
    ensures var out := c.encode(AtEdge(c.product, image, edges[e]), qualities[q]);
            Tries(c, image, edges, qualities)[e * |qualities| + q] == if out == Out([]) then Nothing else out
  {
    QualityAt(c, AtEdge(c.product, image, edges[0]), qualities, q);
    if e > 0 {
      TryAt(c, image, edges[1..], qualities, e - 1, q);
      assert e * |qualities| + q == |qualities| + ((e - 1) * |qualities| + q);
    }
  }

  lemma TriesNext(c: Codec, image: Photo, edges: seq<nat>, e: nat, qualities: seq<nat>, q: nat)
    requires e < |edges| && q < |qualities|
    ensures var more := Tries(c, image, edges[e+1..], qualities);
            var at := AtEdge(c.product, image, edges[e]);
            AtQualities(c, at, qualities[q..]) + more == [Seen(c.encode(at, qualities[q]))] + (AtQualities(c, at, qualities[q+1..]) + more)
  {
    assert qualities[q..][0] == qualities[q] && qualities[q..][1..] == qualities[q+1..];
  }

  lemma FirstTry(one: Attempt, rest: seq<Attempt>)
    ensures ([one] + rest)[0] == one && ([one] + rest)[1..] == rest
  {
  }

  predicate Decodes(c: Codec, original: seq<byte>) {
    c.decode(original).Some? && c.decode(original).value.dims.width > 0 && c.decode(original).value.dims.height > 0
  }

  method EncodeJpegUnder(c: Codec, isJpeg: bool, original: seq<byte>, maxBytes: nat, edges: seq<nat>, qualities: seq<nat>)
    returns (r: Choice)
    ensures !(isJpeg && Decodes(c, original)) ==> r == Original
    ensures isJpeg && Decodes(c, original) ==>
              r == Pick(Tries(c, c.decode(original).value, edges, qualities), None, maxBytes, |original|)
    ensures Size(r, |original|) <= Max(maxBytes, |original|)
  {
    if !isJpeg { return Original; }
    var decoded := c.decode(original);
    if decoded.None? || decoded.value.dims.width == 0 || decoded.value.dims.height == 0 { return Original; }
    var image: Photo := decoded.value;
    ghost var all := Pick(Tries(c, image, edges, qualities), None, maxBytes, |original|);
    PickIsBounded(Tries(c, image, edges, qualities), None, maxBytes, |original|);
    var best: Option<seq<byte>> := None;
    assert edges[0..] == edges;
    for e := 0 to |edges|
      invariant Pick(Tries(c, image, edges[e..], qualities), best, maxBytes, |original|) == all
    {
      var rgba := ShrinkTo(c.product, image, edges[e]);
      ghost var more := Tries(c, image, edges[e+1..], qualities);
      assert edges[e..][0] == edges[e] && edges[e..][1..] == edges[e+1..];
      assert qualities[0..] == qualities;
      for q := 0 to |qualities|
        invariant Pick(AtQualities(c, rgba, qualities[q..]) + more, best, maxBytes, |original|) == all
      {
        TriesNext(c, image, edges, e, qualities, q);
        var encoded := Seen(c.encode(rgba, qualities[q]));
        FirstTry(encoded, AtQualities(c, rgba, qualities[q+1..]) + more);
        match encoded {
          case Threw => return Original;
          case Nothing =>
          case Out(bytes) =>
            if |bytes| <= maxBytes { return Fresh(bytes); }
            best := Better(best, bytes);
        }
      }
      assert AtQualities(c, rgba, qualities[|qualities|..]) + more == more;
    }
    assert edges[|edges|..] == [];
    r := Settle(best, maxBytes, |original|);
  }

  // ------------------------------------------------------------------
  // The budget of one upload
  // ------------------------------------------------------------------

  datatype File = File(isImage: bool, isJpeg: bool, bytes: seq<byte>)

  function Images(files: seq<File>): nat {
    if files == [] then 0 else (if files[0].isImage then 1 else 0) + Images(files[1..])
  }

  /** The share of one image; JavaScript's `|| 1` makes it total. */
  function PerImage(images: nat, budgetBytes: nat): nat {
    var n := if images == 0 then 1 else images;
    Max(MIN_IMAGE_SHARE, Min(RECOMPRESS_MAX_BYTES, budgetBytes / n))
  }

  /** The share is an equal part of the budget, but never below 48 KiB nor above 900 KiB. */
  lemma PerImageMeans(images: nat, budgetBytes: nat)
    requires images > 0
    ensures var share := PerImage(images, budgetBytes);
            && 48 * 1024 <= share <= 900 * 1024
            && (48 * 1024 < share ==> share * images <= budgetBytes)
            && (share < 900 * 1024 ==> budgetBytes < (share + 1) * images)
  {
    var part := budgetBytes / images;
    DivBounds(budgetBytes, images);
    Distribute(images, part);
    if 48 * 1024 < PerImage(images, budgetBytes) { Monotone(PerImage(images, budgetBytes), part, images); }
    if PerImage(images, budgetBytes) < 900 * 1024 { Monotone(part + 1, PerImage(images, budgetBytes) + 1, images); }
  }

  /** The shares fit the budget exactly when the smallest allowed share does. */
  lemma SharesFitIff(images: nat, budgetBytes: nat)
    requires images > 0
    ensures PerImage(images, budgetBytes) * images <= budgetBytes <==> MIN_IMAGE_SHARE * images <= budgetBytes
  {
    var share := budgetBytes / images;
    DivBounds(budgetBytes, images);
    Monotone(MIN_IMAGE_SHARE, PerImage(images, budgetBytes), images);
    if MIN_IMAGE_SHARE * images <= budgetBytes {
      assert images * (share + 1) == images * share + images;
      CancelLess(MIN_IMAGE_SHARE, share + 1, images);
      Monotone(PerImage(images, budgetBytes), share, images);
    }
  }

  function TotalImageBytes(files: seq<File>, sizes: seq<nat>): nat
    requires |sizes| == |files|
  {
    if files == [] then 0 else (if files[0].isImage then sizes[0] else 0) + TotalImageBytes(files[1..], sizes[1..])
  }

  lemma {:induction false} SumOfShares(files: seq<File>, sizes: seq<nat>, share: nat)
    requires |sizes| == |files| && forall i | 0 <= i < |files| && files[i].isImage :: sizes[i] <= share
    ensures TotalImageBytes(files, sizes) <= share * Images(files)
    decreases |files|
  {
    if files != [] {
      SumOfShares(files[1..], sizes[1..], share);
      assert share * (1 + Images(files[1..])) == share + share * Images(files[1..]);
    }
  }

  /** When each image meets its share and the smallest share allows it, the upload is within budget. */
  lemma UploadWithinBudget(files: seq<File>, sizes: seq<nat>, budgetBytes: nat)
    requires |sizes| == |files|
    requires forall i | 0 <= i < |files| && files[i].isImage :: sizes[i] <= PerImage(Images(files), budgetBytes)
    requires MIN_IMAGE_SHARE * Images(files) <= budgetBytes
    ensures TotalImageBytes(files, sizes) <= budgetBytes
  {
    SumOfShares(files, sizes, PerImage(Images(files), budgetBytes));
    if Images(files) > 0 { SharesFitIff(Images(files), budgetBytes); }
  }

  const UPLOAD_EDGES := [1280, 1024, 800, 640]
  const UPLOAD_QUALITIES := [60, 45, 35, 28]

  /** A JPEG that decodes becomes the pick of its re-encodes under `cap`; any other file stays. */
  ghost predicate StagedAs(c: Codec, f: File, cap: nat, choice: Choice) {
    choice == if f.isImage && f.isJpeg && Decodes(c, f.bytes)
              then Pick(Tries(c, c.decode(f.bytes).value, [1280, 1024, 800, 640], [60, 45, 35, 28]), None, cap, |f.bytes|)
              else Original
  }

  function StagedSize(f: File, c: Choice): nat { Size(c, |f.bytes|) }

  /** Every file in place, images shrunk towards their share; a file never grows past
      both its share and its own size. */
  method StagePromptQlFiles(c: Codec, files: seq<File>, budgetBytes: nat) returns (staged: seq<Choice>, ghost sizes: seq<nat>)
    ensures |staged| == |files| == |sizes|
    ensures forall i | 0 <= i < |files| :: sizes[i] == StagedSize(files[i], staged[i])
    ensures forall i | 0 <= i < |files| :: StagedAs(c, files[i], Max(16 * 1024, PerImage(Images(files), budgetBytes)), staged[i])
    ensures forall i | 0 <= i < |files| :: sizes[i] <= Max(PerImage(Images(files), budgetBytes), |files[i].bytes|)
    ensures MIN_IMAGE_SHARE * Images(files) <= budgetBytes
            && (forall i | 0 <= i < |files| && files[i].isImage :: sizes[i] <= PerImage(Images(files), budgetBytes))
            ==> TotalImageBytes(files, sizes) <= budgetBytes
  {
    var perImage := PerImage(Images(files), budgetBytes);
    staged, sizes := [], [];
    for i := 0 to |files|
      invariant |staged| == |sizes| == i
      invariant forall k | 0 <= k < i :: sizes[k] == StagedSize(files[k], staged[k])
      invariant forall k | 0 <= k < i :: StagedAs(c, files[k], Max(MIN_CAP, perImage), staged[k])
      invariant forall k | 0 <= k < i :: sizes[k] <= Max(perImage, |files[k].bytes|)
    {
      var choice := Original;
      if files[i].isImage {
        choice := EncodeJpegUnder(c, files[i].isJpeg, files[i].bytes, Max(MIN_CAP, perImage), UPLOAD_EDGES, UPLOAD_QUALITIES);
      }
      staged, sizes := staged + [choice], sizes + [StagedSize(files[i], choice)];
    }
    if MIN_IMAGE_SHARE * Images(files) <= budgetBytes
       && (forall i | 0 <= i < |files| && files[i].isImage :: sizes[i] <= perImage) {
      UploadWithinBudget(files, sizes, budgetBytes);
    }
  }
}
