/**
 * The RGB frame buffer the wave simulation renders into (wave_sim/src/video.rs):
 * three bytes per pixel, row after row.
 */
module Video {

  /** `RgbColor`. */
  datatype RgbColor = RgbColor(r: bv8, g: bv8, b: bv8)

  const White: RgbColor := RgbColor(255, 255, 255)
  const Black: RgbColor := RgbColor(0, 0, 0)
  const Blue: RgbColor := RgbColor(0, 0, 255)
  const Red: RgbColor := RgbColor(255, 0, 0)

  /** The four colours the renderer uses: white and black are grey levels, blue and red pure primaries. */
  lemma ColorConstants()
    ensures White.r == White.g == White.b == 255 && Black.r == Black.g == Black.b == 0
    ensures Blue.r == 0 && Blue.g == 0 && Blue.b == 255
    ensures Red.r == 255 && Red.g == 0 && Red.b == 0
    ensures White != Black && Blue != Red
  {
  }

  /** The index of the red byte of pixel (x, y) in a buffer `width` pixels wide. */
  function Offset(x: nat, y: nat, width: nat): nat {
    (y * width + x) * 3
  }

  /**
   * `set_pixel` on the bytes: the red, green and blue bytes are written in
   * that order, each only if its index is in range; the first one out of
   * range panics, which ends the call, so every later one is out of range too.
   */
  function Paint(bytes: seq<bv8>, offset: nat, c: RgbColor): (r: seq<bv8>)
    ensures |r| == |bytes|
    ensures forall i :: 0 <= i < |bytes| && !(offset <= i < offset + 3) ==> r[i] == bytes[i]
    ensures offset + 2 < |bytes| ==> r[offset] == c.r && r[offset + 1] == c.g && r[offset + 2] == c.b
    ensures offset >= |bytes| ==> r == bytes
  {
    var s1 := if offset < |bytes| then bytes[offset := c.r] else bytes;
    var s2 := if offset + 1 < |bytes| then s1[offset + 1 := c.g] else s1;
    if offset + 2 < |bytes| then s2[offset + 2 := c.b] else s2
  }

  /** `ImageBuffer`. */
  class ImageBuffer {
    var data: array<bv8>
    const width: nat

    /** `ImageBuffer::new`: `width·height·3` zero bytes. */
    constructor (width: nat, height: nat)
      ensures fresh(data) && this.width == width
      ensures data.Length == width * height * 3
      ensures forall i :: 0 <= i < data.Length ==> data[i] == 0
    {
      this.width := width;
      data := new bv8[width * height * 3](_ => 0);
    }

    /**
     * `set_pixel`: `ok` is false when the write of the blue byte would be
     * out of range, i.e. when the call panics (after whatever writes `Paint`
     * describes).
     */
    method SetPixel(x: nat, y: nat, color: RgbColor) returns (ok: bool)
      modifies data
      ensures ok <==> Offset(x, y, width) + 2 < data.Length
      ensures data[..] == Paint(old(data[..]), Offset(x, y, width), color)
    {
      var offset := (y * width + x) * 3;
      if offset < data.Length {
        data[offset] := color.r;
      }
      if offset + 1 < data.Length {
        data[offset + 1] := color.g;
      }
      if offset + 2 < data.Length {
        data[offset + 2] := color.b;
      }
      ok := offset + 2 < data.Length;
    }
  }

  /** Every pixel of a `width`×`height` frame lies inside the buffer `new(width, height)` allocates. */
  lemma PixelInFrame(x: nat, y: nat, width: nat, height: nat)
    requires x < width && y < height
    ensures Offset(x, y, width) + 2 < width * height * 3
  {
    assert y * width + x < (y + 1) * width;
    assert (y + 1) * width <= height * width by {
      MulLe(y + 1, height, width);
    }
  }

  lemma MulLe(a: nat, b: nat, c: nat)
    requires a <= b
    ensures a * c <= b * c
  {
  }

  /** Two different pixels of a row-major frame own disjoint byte triples. */
  lemma {:induction false} DisjointPixels(x1: nat, y1: nat, x2: nat, y2: nat, width: nat)
    requires x1 < width && x2 < width && (x1, y1) != (x2, y2)
    ensures Offset(x1, y1, width) + 3 <= Offset(x2, y2, width) || Offset(x2, y2, width) + 3 <= Offset(x1, y1, width)
  {
    if y1 < y2 {
      MulLe(y1 + 1, y2, width);
      assert y1 * width + x1 < y2 * width + x2;
    } else if y2 < y1 {
      MulLe(y2 + 1, y1, width);
      assert y2 * width + x2 < y1 * width + x1;
    }
  }

  /** Painting two disjoint triples gives the same bytes in either order. */
  lemma PaintCommutes(bytes: seq<bv8>, o1: nat, c1: RgbColor, o2: nat, c2: RgbColor)
    requires o1 + 3 <= o2 || o2 + 3 <= o1
    ensures Paint(Paint(bytes, o1, c1), o2, c2) == Paint(Paint(bytes, o2, c2), o1, c1)
  {
  }

  /** Painting the same triple twice keeps only the second colour. */
  lemma PaintOverwrites(bytes: seq<bv8>, o: nat, c1: RgbColor, c2: RgbColor)
    ensures Paint(Paint(bytes, o, c1), o, c2) == Paint(bytes, o, c2)
  {
  }

  /** Setting two different pixels of a fresh frame: both calls succeed and both colours stay. */
  method TwoPixels(width: nat, height: nat, x1: nat, y1: nat, c1: RgbColor, x2: nat, y2: nat, c2: RgbColor)
    returns (first: seq<bv8>, second: seq<bv8>)
    requires x1 < width && y1 < height && x2 < width && y2 < height && (x1, y1) != (x2, y2)
    ensures first == [c1.r, c1.g, c1.b] && second == [c2.r, c2.g, c2.b]
  {
    var image := new ImageBuffer(width, height);
    PixelInFrame(x1, y1, width, height);
    PixelInFrame(x2, y2, width, height);
    DisjointPixels(x1, y1, x2, y2, width);
    ghost var blank := image.data[..];
    var ok1 := image.SetPixel(x1, y1, c1);
    var ok2 := image.SetPixel(x2, y2, c2);
    var o1, o2 := Offset(x1, y1, width), Offset(x2, y2, width);
    PaintBoth(blank, o1, c1, o2, c2);
    first := image.data[o1..o1 + 3];
    second := image.data[o2..o2 + 3];
  }

  /** After painting two disjoint triples inside the buffer, each holds its own colour. */
  lemma PaintBoth(bytes: seq<bv8>, o1: nat, c1: RgbColor, o2: nat, c2: RgbColor)
    requires o1 + 3 <= o2 || o2 + 3 <= o1
    requires o1 + 2 < |bytes| && o2 + 2 < |bytes|
    ensures var r := Paint(Paint(bytes, o1, c1), o2, c2);
      r[o1..o1 + 3] == [c1.r, c1.g, c1.b] && r[o2..o2 + 3] == [c2.r, c2.g, c2.b]
  {
    var r := Paint(Paint(bytes, o1, c1), o2, c2);
    assert r[o1..o1 + 3] == [r[o1], r[o1 + 1], r[o1 + 2]];
    assert r[o2..o2 + 3] == [r[o2], r[o2 + 1], r[o2 + 2]];
  }
}
