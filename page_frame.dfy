/** The blank certificate page (utils/pdf-generator.ts, first part of generateCertificatePDF):
    A3 landscape, a light background, a frame of four bands each cut into one segment per palette
    colour, and an inset rounded rule. */
module PageFrame {

  import opened Drawing

  /** A3 landscape, in millimetres. */
  const PageWidth: real := 420.0
  const PageHeight: real := 297.0
  const CenterX: real := PageWidth / 2.0

  const BorderWidth: real := 5.0
  const Background: Rgb := Rgb(248, 250, 252)

  /** The colours of goals 1 to 6, in goal order. */
  const Palette: seq<Rgb> := [
    Rgb(229, 36, 59),
    Rgb(221, 166, 58),
    Rgb(76, 159, 56),
    Rgb(197, 25, 45),
    Rgb(255, 58, 33),
    Rgb(38, 189, 226)
  ]

  const SegmentWidth: real := PageWidth / |Palette| as real
  const SegmentHeight: real := PageHeight / |Palette| as real

  /** The rule drawn 20 mm inside the page edge. */
  const InnerFrame: DrawOp := RoundedRectOp(20.0, 20.0, PageWidth - 40.0, PageHeight - 40.0, 3.0, 3.0)

  /** The place of one frame segment. */
  datatype Box = Box(x: real, y: real, w: real, h: real)

  /** Where iteration `i` of the frame loop puts the segment of band `band`: band 0 is the top,
      1 the bottom, 2 the left and 3 the right edge. */
  function SegmentBox(band: nat, i: nat): Box
    requires band < 4 && i < |Palette|
  {
    if band == 0 then Box(i as real * SegmentWidth, 0.0, SegmentWidth, BorderWidth)
    else if band == 1 then Box(i as real * SegmentWidth, PageHeight - BorderWidth, SegmentWidth, BorderWidth)
    else if band == 2 then Box(0.0, i as real * SegmentHeight, BorderWidth, SegmentHeight)
    else Box(PageWidth - BorderWidth, i as real * SegmentHeight, BorderWidth, SegmentHeight)
  }

  /** The colour of that segment: top and bottom take palette colour `i`, the left band the
      colour two places on and the right band the colour four places on. */
  function SegmentColour(band: nat, i: nat): Rgb
    requires band < 4 && i < |Palette|
  {
    if band < 2 then Palette[i]
    else if band == 2 then Palette[(i + 2) % |Palette|]
    else Palette[(i + 4) % |Palette|]
  }

  /** The rectangle of segment `i` of band `band`; `BorderTiling` states where it lies and
      `BorderColours` which colour fills it in the drawn frame. */
  function Segment(band: nat, i: nat): (op: DrawOp)
    requires band < 4 && i < |Palette|
    ensures op.RectOp?
  {
    var b := SegmentBox(band, i);
    RectOp(b.x, b.y, b.w, b.h, SegmentColour(band, i))
  }

  /** The four rectangles of iteration `i`, in drawing order. */
  function BorderSegments(i: nat): seq<DrawOp>
    requires i < |Palette|
  {
    [Segment(0, i), Segment(1, i), Segment(2, i), Segment(3, i)]
  }

  /** The rectangles of the first `k` iterations of the frame loop; `BorderOpAt` and `FrameOrder`
      state which segment each one is. */
  function BorderOps(k: nat): (ops: seq<DrawOp>)
    requires k <= |Palette|
    ensures |ops| == 4 * k
    ensures forall j :: 0 <= j < |ops| ==> ops[j].RectOp?
  {
    if k == 0 then [] else BorderOps(k - 1) + BorderSegments(k - 1)
  }

  /** Everything drawn before the logos. */
  function PageOps(): seq<DrawOp>
  {
    [RectOp(0.0, 0.0, PageWidth, PageHeight, Background)] + BorderOps(|Palette|) + [InnerFrame]
  }

  /** One iteration of the frame loop: the top, bottom, left and right segment of index `i`, each
      filled with the colour its band takes. */
  method DrawBorderSegments(doc: Doc, i: nat)
    requires i < |Palette|
    modifies doc`ops, doc`fill
    ensures doc.ops == old(doc.ops) + BorderSegments(i)
    ensures doc.fill == Palette[(i + 4) % |Palette|]
  {
    doc.SetFillColor(Palette[i]);
    doc.Rect(i as real * SegmentWidth, 0.0, SegmentWidth, BorderWidth);
    doc.Rect(i as real * SegmentWidth, PageHeight - BorderWidth, SegmentWidth, BorderWidth);
    var leftIndex := (i + 2) % |Palette|;
    doc.SetFillColor(Palette[leftIndex]);
    doc.Rect(0.0, i as real * SegmentHeight, BorderWidth, SegmentHeight);
    var rightIndex := (i + 4) % |Palette|;
    doc.SetFillColor(Palette[rightIndex]);
    doc.Rect(PageWidth - BorderWidth, i as real * SegmentHeight, BorderWidth, SegmentHeight);
  }

  /** Paints the background, the frame (one loop iteration per palette colour) and the inner rule. */
  method DrawPage(doc: Doc)
    modifies doc`ops, doc`fill
    ensures doc.ops == old(doc.ops) + PageOps()
    ensures doc.fill == Palette[(|Palette| - 1 + 4) % |Palette|]
  {
    doc.SetFillColor(Background);
    doc.Rect(0.0, 0.0, PageWidth, PageHeight);
    var i := 0;
    while i < |Palette|
      invariant 0 <= i <= |Palette|
      invariant doc.ops == old(doc.ops) + [RectOp(0.0, 0.0, PageWidth, PageHeight, Background)] + BorderOps(i)
      invariant i > 0 ==> doc.fill == Palette[(i - 1 + 4) % |Palette|]
    {
      DrawBorderSegments(doc, i);
      i := i + 1;
    }
    doc.RoundedRect(20.0, 20.0, PageWidth - 40.0, PageHeight - 40.0, 3.0, 3.0);
  }

  lemma {:induction false} BorderOpAt(k: nat, i: nat, j: nat)
    requires k <= |Palette| && i < k && j < 4
    ensures BorderOps(k)[4 * i + j] == BorderSegments(i)[j]
  {
    if i < k - 1 {
      BorderOpAt(k - 1, i, j);
    }
  }

  /** The frame loop draws, for each palette index in turn, the top, bottom, left and right
      segment of that index. */
  lemma FrameOrder(band: nat, i: nat)
    requires band < 4 && i < |Palette|
    ensures BorderOps(|Palette|)[4 * i + band] == Segment(band, i)
  {
    BorderOpAt(|Palette|, i, band);
  }

  /** The colours the frame loop fills one band with, segment by segment. */
  function BandFills(band: nat): seq<Rgb>
    requires band < 4
  {
    seq(|Palette|, i requires 0 <= i < |Palette| => BorderOps(|Palette|)[4 * i + band].fill)
  }

  /** In the drawn frame, top and bottom segment i take palette colour i, the left one colour
      (i + 2) mod 6 and the right one colour (i + 4) mod 6. */
  lemma BorderColours(i: nat)
    requires i < |Palette|
    ensures BorderOps(|Palette|)[4 * i].fill == Palette[i]
    ensures BorderOps(|Palette|)[4 * i + 1].fill == Palette[i]
    ensures BorderOps(|Palette|)[4 * i + 2].fill == Palette[(i + 2) % |Palette|]
    ensures BorderOps(|Palette|)[4 * i + 3].fill == Palette[(i + 4) % |Palette|]
  {
    FrameOrder(0, i);
    FrameOrder(1, i);
    FrameOrder(2, i);
    FrameOrder(3, i);
  }

  lemma RotationPreservesMultiset<T>(s: seq<T>, k: nat)
    requires k <= |s|
    ensures multiset(s[k..] + s[..k]) == multiset(s)
  {
    assert s == s[..k] + s[k..];
  }

  /** No colour appears twice in the palette. */
  lemma PaletteCounts()
    ensures forall c :: c in Palette ==> multiset(Palette)[c] == 1
  {
    var m := multiset(Palette);
    assert m == multiset{Palette[0], Palette[1], Palette[2], Palette[3], Palette[4], Palette[5]};
  }

  /** Band `band` lists the palette rotated by 0, 0, 2 or 4 places. */
  lemma BandIsRotation(band: nat)
    requires band < 4
    ensures var k := if band < 2 then 0 else if band == 2 then 2 else 4;
      BandFills(band) == Palette[k..] + Palette[..k]
  {
    var k := if band < 2 then 0 else if band == 2 then 2 else 4;
    var rotated := Palette[k..] + Palette[..k];
    forall i | 0 <= i < |Palette|
      ensures BandFills(band)[i] == rotated[i]
    {
      BorderColours(i);
    }
  }

  /** Each band is a rotation of the palette, so it shows every palette colour exactly once. */
  lemma BandUsesEachColourOnce(band: nat)
    requires band < 4
    ensures multiset(BandFills(band)) == multiset(Palette)
    ensures forall c :: c in Palette ==> multiset(BandFills(band))[c] == 1
  {
    BandIsRotation(band);
    RotationPreservesMultiset(Palette, if band < 2 then 0 else if band == 2 then 2 else 4);
    PaletteCounts();
  }

  /** Where segment `i` of a band starts and ends along its edge. */
  function SegmentStart(band: nat, i: nat): real
    requires band < 4 && i < |Palette|
  {
    var b := SegmentBox(band, i);
    if band < 2 then b.x else b.y
  }

  function SegmentEnd(band: nat, i: nat): real
    requires band < 4 && i < |Palette|
  {
    var b := SegmentBox(band, i);
    if band < 2 then b.x + b.w else b.y + b.h
  }

  /** The length of the edge a band runs along. */
  function EdgeLength(band: nat): real
  {
    if band < 2 then PageWidth else PageHeight
  }

  /** Segment i of a band covers [i·L/6, (i+1)·L/6] of its edge of length L, and lies flush
      against the page edge with thickness 5. */
  lemma BorderTiling(band: nat, i: nat)
    requires band < 4 && i < |Palette|
    ensures SegmentStart(band, i) == i as real * EdgeLength(band) / 6.0
    ensures SegmentEnd(band, i) == (i + 1) as real * EdgeLength(band) / 6.0
    ensures band == 0 ==> SegmentBox(band, i).y == 0.0 && SegmentBox(band, i).h == BorderWidth
    ensures band == 1 ==> SegmentBox(band, i).y + SegmentBox(band, i).h == PageHeight && SegmentBox(band, i).h == BorderWidth
    ensures band == 2 ==> SegmentBox(band, i).x == 0.0 && SegmentBox(band, i).w == BorderWidth
    ensures band == 3 ==> SegmentBox(band, i).x + SegmentBox(band, i).w == PageWidth && SegmentBox(band, i).w == BorderWidth
  {
  }

  /** Point `t` of the edge of length `len` lies in slice `k` of six equal slices. */
  lemma SliceOf(len: real, t: real) returns (k: nat)
    requires len == PageWidth || len == PageHeight
    requires 0.0 <= t < len
    ensures k < 6 && k as real * len / 6.0 <= t < (k + 1) as real * len / 6.0
  {
    var f := t * 6.0 / len;
    assert 0.0 <= f < 6.0;
    k := f.Floor;
    assert k as real <= f < k as real + 1.0;
  }

  /** Every point of an edge lies in some segment of each band along it: no gaps. */
  lemma BandCoversEdge(band: nat, t: real)
    requires band < 4 && 0.0 <= t < EdgeLength(band)
    ensures exists i :: 0 <= i < |Palette| && SegmentStart(band, i) <= t < SegmentEnd(band, i)
  {
    var len := EdgeLength(band);
    forall i | 0 <= i < |Palette|
      ensures SegmentStart(band, i) == i as real * len / 6.0
      ensures SegmentEnd(band, i) == (i + 1) as real * len / 6.0
    {
      BorderTiling(band, i);
    }
    var k := SliceOf(len, t);
    assert SegmentStart(band, k) <= t < SegmentEnd(band, k);
  }

  /** A later segment of a band starts no earlier than an earlier one ends. */
  lemma SegmentsOrdered(band: nat, i: nat, j: nat)
    requires band < 4 && i < j < |Palette|
    ensures SegmentEnd(band, i) <= SegmentStart(band, j)
  {
    BorderTiling(band, i);
    BorderTiling(band, j);
  }

  /** No point of an edge lies in two segments of the same band: no overlaps. */
  lemma BandSegmentsDisjoint(band: nat, t: real, i: nat, j: nat)
    requires band < 4 && i < |Palette| && j < |Palette|
    requires SegmentStart(band, i) <= t < SegmentEnd(band, i)
    requires SegmentStart(band, j) <= t < SegmentEnd(band, j)
    ensures i == j
  {
    if i < j {
      SegmentsOrdered(band, i, j);
    } else if j < i {
      SegmentsOrdered(band, j, i);
    }
  }
}
