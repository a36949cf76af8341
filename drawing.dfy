/** The drawing surface the certificate is composed on (a jsPDF document) and the image loader
    (utils/pdf-generator.ts, loadImage). Every drawing call appends one operation; the fill colour
    is the one piece of graphics state the composer reads back (a rectangle is filled with the
    colour set last). */
module Drawing {

  /** An RGB colour, each channel 0..255. */
  datatype Rgb = Rgb(r: nat, g: nat, b: nat)

  /** A positive pixel count: a decoded PNG is at least one pixel wide and high. */
  type Pixels = n: nat | n > 0 witness 1

  /** One call on the document, in page millimetres. Text is always anchored at its horizontal
      centre (every `text` call in the composer passes `align: "center"`); a block of several
      lines is one call. */
  datatype DrawOp =
    | RectOp(x: real, y: real, w: real, h: real, fill: Rgb)
    | RoundedRectOp(x: real, y: real, w: real, h: real, rx: real, ry: real)
    | LineOp(x1: real, y1: real, x2: real, y2: real)
    | TextOp(lines: seq<string>, x: real, y: real)
    | ImageOp(src: string, x: real, y: real, w: real, h: real)

  /** The jsPDF document: the calls made on it so far, the current fill colour and the file
      names it was saved under. */
  class Doc {
    var fill: Rgb
    var ops: seq<DrawOp>
    var saved: seq<string>

    constructor ()
      ensures fill == Rgb(0, 0, 0) && ops == [] && saved == []
    {
      fill := Rgb(0, 0, 0);
      ops := [];
      saved := [];
    }

    method SetFillColor(c: Rgb)
      modifies this`fill
      ensures fill == c
    {
      fill := c;
    }

    /** A rectangle filled with the current fill colour. */
    method Rect(x: real, y: real, w: real, h: real)
      modifies this`ops
      ensures ops == old(ops) + [RectOp(x, y, w, h, fill)]
    {
      ops := ops + [RectOp(x, y, w, h, fill)];
    }

    /** A stroked rectangle with rounded corners. */
    method RoundedRect(x: real, y: real, w: real, h: real, rx: real, ry: real)
      modifies this`ops
      ensures ops == old(ops) + [RoundedRectOp(x, y, w, h, rx, ry)]
    {
      ops := ops + [RoundedRectOp(x, y, w, h, rx, ry)];
    }

    method Line(x1: real, y1: real, x2: real, y2: real)
      modifies this`ops
      ensures ops == old(ops) + [LineOp(x1, y1, x2, y2)]
    {
      ops := ops + [LineOp(x1, y1, x2, y2)];
    }

    /** Centre-anchored text, one entry per line. */
    method Text(lines: seq<string>, x: real, y: real)
      modifies this`ops
      ensures ops == old(ops) + [TextOp(lines, x, y)]
    {
      ops := ops + [TextOp(lines, x, y)];
    }

    /** Places the picture loaded from `src` in the box (x, y, w, h). */
    method AddImage(src: string, x: real, y: real, w: real, h: real)
      modifies this`ops
      ensures ops == old(ops) + [ImageOp(src, x, y, w, h)]
    {
      ops := ops + [ImageOp(src, x, y, w, h)];
    }

    /** Triggers the download under `name`. */
    method Save(name: string)
      modifies this`saved
      ensures saved == old(saved) + [name]
    {
      saved := saved + [name];
    }
  }

  /** What loading one image URL yields: its natural size, or an error (network, decode, 404). */
  datatype LoadOutcome = Loaded(width: Pixels, height: Pixels) | Failed

  /** The outcome of loading `src`; a URL the server does not serve fails. */
  function OutcomeOf(outcomes: map<string, LoadOutcome>, src: string): LoadOutcome
  {
    if src in outcomes then outcomes[src] else Failed
  }

  /** The browser's image loading: a fixed outcome per URL, and the URLs requested so far. */
  class AssetLoader {
    const outcomes: map<string, LoadOutcome>
    var requested: seq<string>

    constructor (outcomes: map<string, LoadOutcome>)
      ensures this.outcomes == outcomes && requested == []
    {
      this.outcomes := outcomes;
      requested := [];
    }

    method Load(src: string) returns (outcome: LoadOutcome)
      modifies this`requested
      ensures outcome == OutcomeOf(outcomes, src)
      ensures requested == old(requested) + [src]
    {
      outcome := OutcomeOf(outcomes, src);
      requested := requested + [src];
    }
  }
}
