/** The certificate composer (utils/pdf-generator.ts, generateCertificatePDF): one pass over a
    fresh A3 landscape document that draws the frame, the two logos, the heading, the recipient's
    name with its underline, the wrapped paper title, the row of goal badges, the issue date, the
    signature block and the footer, moving a vertical cursor down the page, and then saves the
    document under the recipient's name. Images the browser fails to load are replaced by the
    fallbacks the source chooses. */
module Certificate {

  import opened Wrappers
  import opened PaperTypes
  import opened Drawing
  import opened PageFrame
  import opened CertificateNumbers

  /** What jsPDF measures in its current font: the width of a string, and a string broken into
      lines no wider than a given width. */
  datatype Fonts = Fonts(getTextWidth: string -> real, splitTextToSize: (string, real) -> seq<string>)

  /** What the browser's clock and random source give: today's date in long US form, the time in
      milliseconds and the draw `Math.floor(Math.random() * 10000)`. */
  datatype Clock = Clock(formattedDate: string, timestamp: nat, random: nat)

  const Title: string := "CERTIFICATE OF ACHIEVEMENT"
  const Preamble: string := "This is to certify that"
  const Contribution: string := "has contributed to sustainable development through the research paper titled:"
  const SdgHeading: string := "This research contributes to the following Sustainable Development Goals:"
  const NoSdgsMessage: string := "No specific SDGs identified for this research."
  const SignerName: string := "Dr. Runik Machfiroh."
  const SignerTitle: string := "Ketua SDGs Center Telkom University"
  const VerificationLine: string := "This certificate can be verified at cert.sdgstelkomuniversity.my.id"

  const TeluSrc: string := "/images/telu.png"
  const SdgsLogoSrc: string := "/images/sdgs.png"
  const SignatureSrc: string := "/images/ttd.png"

  /** Width of the wrapped title, vertical position of its first line and height of one line. */
  const TitleWrapWidth: real := 280.0
  const TitleY: real := 110.0
  const LineHeight: real := 8.0

  const LogoMaxWidth: real := 50.0
  const BadgeSize: real := 30.0
  const BadgeGap: real := 5.0

  // ---------------------------------------------------------------------------------------------
  // Logos

  datatype Size = Size(w: real, h: real)

  /** The display size of a picture scaled to `maxWidth` wide: it is exactly that wide, and its
      height keeps the picture's aspect ratio. */
  function ScaleToWidth(width: Pixels, height: Pixels, maxWidth: real): (s: Size)
    ensures s.w == maxWidth
    ensures s.h * width as real == height as real * maxWidth
  {
    var scale := maxWidth / width as real;
    Size(width as real * scale, height as real * scale)
  }

  /** The logos drawn: the institution logo top left, then, only if that one loaded, the program
      logo top right. */
  function LogoOps(telu: LoadOutcome, sdgs: LoadOutcome): seq<DrawOp>
  {
    match telu
    case Failed => []
    case Loaded(tw, th) =>
      var t := ScaleToWidth(tw, th, LogoMaxWidth);
      [ImageOp(TeluSrc, 30.0, 20.0, t.w, t.h)] +
      match sdgs
      case Failed => []
      case Loaded(sw, sh) =>
        var s := ScaleToWidth(sw, sh, LogoMaxWidth);
        [ImageOp(SdgsLogoSrc, PageWidth - s.w - 30.0, 22.0, s.w, s.h)]
  }

  /** The logo URLs requested: a failed institution logo ends the logo block. */
  function LogoRequests(telu: LoadOutcome): seq<string>
  {
    if telu.Failed? then [TeluSrc] else [TeluSrc, SdgsLogoSrc]
  }

  method DrawLogos(doc: Doc, loader: AssetLoader)
    modifies doc`ops, loader`requested
    ensures doc.ops == old(doc.ops) + LogoOps(OutcomeOf(loader.outcomes, TeluSrc), OutcomeOf(loader.outcomes, SdgsLogoSrc))
    ensures loader.requested == old(loader.requested) + LogoRequests(OutcomeOf(loader.outcomes, TeluSrc))
  {
    var teluImg := loader.Load(TeluSrc);
    if teluImg.Loaded? {
      var teluScale := LogoMaxWidth / teluImg.width as real;
      var teluDisplayWidth := teluImg.width as real * teluScale;
      var teluDisplayHeight := teluImg.height as real * teluScale;
      doc.AddImage(TeluSrc, 30.0, 20.0, teluDisplayWidth, teluDisplayHeight);
      assert Size(teluDisplayWidth, teluDisplayHeight) == ScaleToWidth(teluImg.width, teluImg.height, LogoMaxWidth);
      var sdgsImg := loader.Load(SdgsLogoSrc);
      if sdgsImg.Loaded? {
        var sdgsScale := LogoMaxWidth / sdgsImg.width as real;
        var sdgsDisplayWidth := sdgsImg.width as real * sdgsScale;
        var sdgsDisplayHeight := sdgsImg.height as real * sdgsScale;
        doc.AddImage(SdgsLogoSrc, PageWidth - sdgsDisplayWidth - 30.0, 22.0, sdgsDisplayWidth, sdgsDisplayHeight);
        assert Size(sdgsDisplayWidth, sdgsDisplayHeight) == ScaleToWidth(sdgsImg.width, sdgsImg.height, LogoMaxWidth);
      }
    }
    // A failed load lands in the catch block, which only logs.
  }

  /** Each logo is 50 mm wide with its natural aspect ratio, the institution logo at (30, 20)
      and the program logo at (W - 80, 22); if the institution logo fails nothing is drawn and
      the program logo is never requested; if only the program logo fails the institution logo
      stays. */
  lemma LogoPlacement(telu: LoadOutcome, sdgs: LoadOutcome)
    ensures telu.Failed? ==> LogoOps(telu, sdgs) == [] && LogoRequests(telu) == [TeluSrc]
    ensures telu.Loaded? ==>
      |LogoOps(telu, sdgs)| >= 1 &&
      LogoOps(telu, sdgs)[0] == ImageOp(TeluSrc, 30.0, 20.0, 50.0, telu.height as real * 50.0 / telu.width as real) &&
      LogoRequests(telu) == [TeluSrc, SdgsLogoSrc]
    ensures telu.Loaded? && sdgs.Failed? ==> |LogoOps(telu, sdgs)| == 1
    ensures telu.Loaded? && sdgs.Loaded? ==>
      |LogoOps(telu, sdgs)| == 2 &&
      LogoOps(telu, sdgs)[1] == ImageOp(SdgsLogoSrc, PageWidth - 80.0, 22.0, 50.0, sdgs.height as real * 50.0 / sdgs.width as real)
  {
  }

  // ---------------------------------------------------------------------------------------------
  // Heading and recipient

  /** The rule under the recipient's name: horizontal at y = 88, symmetric about the page centre,
      and as long as the measured name plus 10 mm on either side. */
  function NameUnderline(nameWidth: real): (op: DrawOp)
    ensures op.LineOp? && op.y1 == 88.0 && op.y2 == 88.0
    ensures op.x1 + op.x2 == 2.0 * CenterX
    ensures op.x2 - op.x1 == nameWidth + 20.0
  {
    LineOp(CenterX - nameWidth / 2.0 - 10.0, 88.0, CenterX + nameWidth / 2.0 + 10.0, 88.0)
  }

  function HeadingOps(author: string, nameWidth: real): seq<DrawOp>
  {
    [
      TextOp([Title], CenterX, 50.0),
      LineOp(CenterX - 100.0, 55.0, CenterX + 100.0, 55.0),
      TextOp([Preamble], CenterX, 70.0),
      TextOp([author], CenterX, 85.0),
      NameUnderline(nameWidth),
      TextOp([Contribution], CenterX, 100.0)
    ]
  }

  // ---------------------------------------------------------------------------------------------
  // The vertical cursor

  /** Where the cursor stands at each element below the title, for a title of `lineCount` lines. */
  datatype Cursor = Cursor(afterTitle: real, badges: real, date: real, signature: real,
                           signerName: real, signerTitle: real)

  /** The cursor positions in closed form: everything below the title moves down by one line
      height per title line and by nothing else. */
  function CursorStops(lineCount: nat): (c: Cursor)
    ensures TitleY <= c.afterTitle <= c.badges <= c.date <= c.signature <= c.signerName <= c.signerTitle
    ensures c.afterTitle - TitleY == lineCount as real * LineHeight
  {
    var shift := lineCount as real * LineHeight;
    Cursor(110.0 + shift, 130.0 + shift, 180.0 + shift, 200.0 + shift, 235.0 + shift, 240.0 + shift)
  }

  /** The wrapped title, first line at y = 110, and the goals heading 10 mm below its block. */
  function TitleOps(titleLines: seq<string>, c: Cursor): seq<DrawOp>
  {
    [TextOp(titleLines, CenterX, TitleY), TextOp([SdgHeading], CenterX, c.afterTitle + 10.0)]
  }

  // ---------------------------------------------------------------------------------------------
  // The badge row

  function BadgeSrc(sdg: string): string
  {
    "/images/" + sdg + ".png"
  }

  /** The URLs of the first `n` badges. */
  function BadgeSrcs(sdgs: seq<string>, n: nat): seq<string>
    requires n <= |sdgs|
  {
    seq(n, i requires 0 <= i < n => BadgeSrc(sdgs[i]))
  }

  /** Left edge of badge `i` in a row of `count`: the row's total width, a 30 mm icon and a 5 mm
      gap per badge, is centred on the page. */
  function BadgeX(count: nat, i: nat): real
  {
    CenterX - count as real * (BadgeSize + BadgeGap) / 2.0 + i as real * (BadgeSize + BadgeGap)
  }

  /** How many badges load before the first that fails (all of them if none fails). */
  function LoadedPrefix(sdgs: seq<string>, outcomes: map<string, LoadOutcome>): (k: nat)
    ensures k <= |sdgs|
    ensures forall i :: 0 <= i < k ==> OutcomeOf(outcomes, BadgeSrc(sdgs[i])).Loaded?
    ensures k < |sdgs| ==> OutcomeOf(outcomes, BadgeSrc(sdgs[k])).Failed?
  {
    if sdgs == [] || OutcomeOf(outcomes, BadgeSrc(sdgs[0])).Failed? then 0
    else 1 + LoadedPrefix(sdgs[1..], outcomes)
  }

  /** The first `k` badges of the row. */
  function BadgeImages(sdgs: seq<string>, k: nat, y: real): seq<DrawOp>
    requires k <= |sdgs|
  {
    seq(k, i requires 0 <= i < k => ImageOp(BadgeSrc(sdgs[i]), BadgeX(|sdgs|, i), y, BadgeSize, BadgeSize))
  }

  /** JavaScript's `parts.join(sep)`. */
  function Join(parts: seq<string>, sep: string): string
  {
    if parts == [] then ""
    else if |parts| == 1 then parts[0]
    else parts[0] + sep + Join(parts[1..], sep)
  }

  /** `join` as the ECMAScript algorithm builds it: one part alone is itself, and each further
      part is appended after a separator. */
  lemma {:induction false} JoinAppend(parts: seq<string>, p: string, sep: string)
    requires parts != []
    ensures Join([p], sep) == p
    ensures Join(parts + [p], sep) == Join(parts, sep) + sep + p
  {
    if |parts| == 1 {
      assert (parts + [p])[1..] == [p];
    } else {
      assert (parts + [p])[1..] == parts[1..] + [p];
      JoinAppend(parts[1..], p, sep);
    }
  }

  /** The text that replaces the rest of the row when a badge fails to load. */
  function SdgFallback(sdgs: seq<string>): string
  {
    "SDGs: " + Join(sdgs, ", ")
  }

  predicate HasGoals(sdgs: Option<seq<string>>)
  {
    sdgs.Some? && |sdgs.value| > 0
  }

  /** The goals section at cursor `y`: the badges that loaded before the first failure, and the
      fallback text if one failed; the "no SDGs" message when the paper has no goals. */
  function SdgSectionOps(sdgs: Option<seq<string>>, outcomes: map<string, LoadOutcome>, y: real): seq<DrawOp>
  {
    if !HasGoals(sdgs) then [TextOp([NoSdgsMessage], CenterX, y + 15.0)]
    else
      var s := sdgs.value;
      var k := LoadedPrefix(s, outcomes);
      BadgeImages(s, k, y) + if k < |s| then [TextOp([SdgFallback(s)], CenterX, y + 15.0)] else []
  }

  /** The badge URLs requested: up to and including the first that fails. */
  function SdgRequests(sdgs: Option<seq<string>>, outcomes: map<string, LoadOutcome>): seq<string>
  {
    if !HasGoals(sdgs) then []
    else
      var s := sdgs.value;
      var k := LoadedPrefix(s, outcomes);
      BadgeSrcs(s, if k < |s| then k + 1 else k)
  }

  method DrawSdgSection(doc: Doc, loader: AssetLoader, sdgs: Option<seq<string>>, y: real)
    modifies doc`ops, loader`requested
    ensures doc.ops == old(doc.ops) + SdgSectionOps(sdgs, loader.outcomes, y)
    ensures loader.requested == old(loader.requested) + SdgRequests(sdgs, loader.outcomes)
  {
    if HasGoals(sdgs) {
      var s := sdgs.value;
      var sdgIconSize := BadgeSize;
      var totalWidth := |s| as real * (sdgIconSize + BadgeGap);
      var startX := CenterX - totalWidth / 2.0;
      var i := 0;
      var failed := false;
      while i < |s| && !failed
        invariant 0 <= i <= |s|
        invariant forall j :: 0 <= j < i ==> OutcomeOf(loader.outcomes, BadgeSrc(s[j])).Loaded?
        invariant failed ==> i < |s| && OutcomeOf(loader.outcomes, BadgeSrc(s[i])).Failed?
        invariant doc.ops == old(doc.ops) + BadgeImages(s, i, y)
        invariant loader.requested == old(loader.requested) + BadgeSrcs(s, if failed then i + 1 else i)
        decreases |s| - i, if failed then 0 else 1
      {
        var sdgImg := loader.Load(BadgeSrc(s[i]));
        if sdgImg.Failed? {
          failed := true;
        } else {
          var x := startX + i as real * (sdgIconSize + BadgeGap);
          doc.AddImage(BadgeSrc(s[i]), x, y, sdgIconSize, sdgIconSize);
          assert BadgeImages(s, i + 1, y) == BadgeImages(s, i, y) + [ImageOp(BadgeSrc(s[i]), x, y, sdgIconSize, sdgIconSize)];
          assert BadgeSrcs(s, i + 1) == BadgeSrcs(s, i) + [BadgeSrc(s[i])];
          i := i + 1;
        }
      }
      assert i == LoadedPrefix(s, loader.outcomes);
      if failed {
        doc.Text([SdgFallback(s)], CenterX, y + 15.0);
      }
    } else {
      doc.Text([NoSdgsMessage], CenterX, y + 15.0);
    }
  }

  /** The row is laid out left to right in input order, 35 mm apart, starting at
      centreX - 35n/2; its last icon ends at centreX + 35n/2 - 5, because the total width
      counts a gap after the last icon as well. */
  lemma BadgeRowGeometry(count: nat, i: nat)
    requires 0 < count
    ensures BadgeX(count, 0) == CenterX - 17.5 * count as real
    ensures BadgeX(count, i + 1) - BadgeX(count, i) == BadgeSize + BadgeGap
    ensures BadgeX(count, count - 1) + BadgeSize == CenterX + 17.5 * count as real - BadgeGap
  {
  }

  /** With at least one goal: the badges that loaded before the first failure are drawn, in input
      order and strictly left to right; after a failure the fallback text follows and no later
      badge is requested; when all load, nothing else is drawn. */
  lemma BadgeRow(sdgs: seq<string>, outcomes: map<string, LoadOutcome>, y: real)
    requires |sdgs| > 0
    ensures var ops := SdgSectionOps(Some(sdgs), outcomes, y);
      var k := LoadedPrefix(sdgs, outcomes);
      && (forall i :: 0 <= i < k ==>
            ops[i] == ImageOp(BadgeSrc(sdgs[i]), BadgeX(|sdgs|, i), y, BadgeSize, BadgeSize))
      && (forall i, j :: 0 <= i < j < k ==> ops[i].x < ops[j].x)
      && (k == |sdgs| ==> |ops| == |sdgs| && SdgRequests(Some(sdgs), outcomes) == BadgeSrcs(sdgs, |sdgs|))
      && (k < |sdgs| ==>
            |ops| == k + 1 && ops[k] == TextOp([SdgFallback(sdgs)], CenterX, y + 15.0) &&
            SdgRequests(Some(sdgs), outcomes) == BadgeSrcs(sdgs, k + 1))
  {
    var ops := SdgSectionOps(Some(sdgs), outcomes, y);
    var k := LoadedPrefix(sdgs, outcomes);
    var row := BadgeImages(sdgs, k, y);
    var rest := if k < |sdgs| then [TextOp([SdgFallback(sdgs)], CenterX, y + 15.0)] else [];
    assert ops == row + rest;
    assert |row| == k;
    forall i | 0 <= i < k
      ensures ops[i] == row[i]
    {
    }
    forall i, j | 0 <= i < j < k
      ensures ops[i].x < ops[j].x
    {
      assert ops[i].x == BadgeX(|sdgs|, i) && ops[j].x == BadgeX(|sdgs|, j);
    }
    if k < |sdgs| {
      assert ops[k] == rest[0];
    }
  }

  /** The fallback text is drawn 15 mm below the cursor, inside the 30 mm span of the badges that
      did load: after a partial failure it is drawn across them, not below them. */
  lemma FallbackCrossesBadges(sdgs: seq<string>, outcomes: map<string, LoadOutcome>, y: real)
    requires 0 < LoadedPrefix(sdgs, outcomes) < |sdgs|
    ensures var ops := SdgSectionOps(Some(sdgs), outcomes, y);
      var k := LoadedPrefix(sdgs, outcomes);
      && |ops| == k + 1
      && ops[0].ImageOp? && ops[k].TextOp?
      && ops[0].y < ops[k].y < ops[0].y + ops[0].h
  {
    BadgeRow(sdgs, outcomes, y);
  }

  /** Without goals (absent or empty) no badge is requested and only the "no SDGs" message is
      drawn, 15 mm below the cursor. */
  lemma NoGoalsNoBadges(sdgs: Option<seq<string>>, outcomes: map<string, LoadOutcome>, y: real)
    requires sdgs.None? || sdgs.value == []
    ensures SdgSectionOps(sdgs, outcomes, y) == [TextOp([NoSdgsMessage], CenterX, y + 15.0)]
    ensures SdgRequests(sdgs, outcomes) == []
  {
  }

  // ---------------------------------------------------------------------------------------------
  // Date, signature and footer

  /** The signature picture, 50 x 25 mm centred at the cursor, or a 50 mm line in its place. */
  function SignatureOp(signature: LoadOutcome, y: real): DrawOp
  {
    if signature.Loaded? then ImageOp(SignatureSrc, CenterX - 25.0, y, 50.0, 25.0)
    else LineOp(CenterX - 25.0, y + 10.0, CenterX + 25.0, y + 10.0)
  }

  /** The fallback line is horizontal, exactly as wide as the picture it replaces, and lies
      inside the picture's vertical slot. */
  lemma SignatureFallbackInSlot(y: real, picture: LoadOutcome)
    requires picture.Loaded?
    ensures var img, line := SignatureOp(picture, y), SignatureOp(Failed, y);
      && img.ImageOp? && line.LineOp?
      && line.y1 == line.y2
      && line.x1 == img.x && line.x2 == img.x + img.w
      && img.y <= line.y1 <= img.y + img.h
  {
  }

  function ClosingOps(formattedDate: string, signature: LoadOutcome, c: Cursor): seq<DrawOp>
  {
    [
      TextOp(["Issued on: " + formattedDate], CenterX, c.date),
      SignatureOp(signature, c.signature),
      TextOp([SignerName], CenterX, c.signerName),
      TextOp([SignerTitle], CenterX, c.signerTitle)
    ]
  }

  /** The footer, anchored to the page bottom rather than to the cursor. */
  function FooterOps(certNumber: string): seq<DrawOp>
  {
    [
      TextOp(["Certificate No: " + certNumber], CenterX, PageHeight - 15.0),
      TextOp([VerificationLine], CenterX, PageHeight - 10.0)
    ]
  }

  // ---------------------------------------------------------------------------------------------
  // The whole certificate

  const FileNameSuffix: string := "_SDGs_Certificate.pdf"

  /** The name the document is saved under. */
  function CertificateFileName(author: string): string
  {
    author + FileNameSuffix
  }

  /** The recipient a certificate file name was made for, if it has the certificate suffix. */
  function AuthorOfFileName(name: string): Option<string>
  {
    if |name| >= |FileNameSuffix| && name[|name| - |FileNameSuffix|..] == FileNameSuffix
    then Some(name[..|name| - |FileNameSuffix|])
    else None
  }

  /** The file name determines the recipient, and every name with the suffix is one. */
  lemma FileNameRoundTrip(author: string, name: string)
    ensures AuthorOfFileName(CertificateFileName(author)) == Some(author)
    ensures AuthorOfFileName(name).Some? ==> CertificateFileName(AuthorOfFileName(name).value) == name
  {
    var f := CertificateFileName(author);
    assert f[..|f| - |FileNameSuffix|] == author;
    assert f[|f| - |FileNameSuffix|..] == FileNameSuffix;
    if AuthorOfFileName(name).Some? {
      assert name == name[..|name| - |FileNameSuffix|] + name[|name| - |FileNameSuffix|..];
    }
  }

  /** The page with its frame and the logos. */
  function LetterheadOps(outcomes: map<string, LoadOutcome>): seq<DrawOp>
  {
    PageOps() + LogoOps(OutcomeOf(outcomes, TeluSrc), OutcomeOf(outcomes, SdgsLogoSrc))
  }

  /** Everything drawn before the issue date: it depends on the paper, the fonts and the images,
      but not on the clock. */
  function ShellOps(paper: Paper, fonts: Fonts, outcomes: map<string, LoadOutcome>): seq<DrawOp>
  {
    var lines := fonts.splitTextToSize(paper.Judul, TitleWrapWidth);
    var c := CursorStops(|lines|);
    LetterheadOps(outcomes)
    + HeadingOps(paper.Penulis, fonts.getTextWidth(paper.Penulis))
    + TitleOps(lines, c)
    + SdgSectionOps(paper.Sdgs, outcomes, c.badges)
  }

  /** Everything drawn, in order, for `paper`. */
  function CertificateOps(paper: Paper, fonts: Fonts, clock: Clock, outcomes: map<string, LoadOutcome>): seq<DrawOp>
  {
    var c := CursorStops(|fonts.splitTextToSize(paper.Judul, TitleWrapWidth)|);
    ShellOps(paper, fonts, outcomes)
    + ClosingOps(clock.formattedDate, OutcomeOf(outcomes, SignatureSrc), c)
    + FooterOps(CertificateNumber(clock.timestamp, clock.random))
  }

  /** Every image URL requested, in order. */
  function CertificateRequests(paper: Paper, outcomes: map<string, LoadOutcome>): seq<string>
  {
    LogoRequests(OutcomeOf(outcomes, TeluSrc)) + SdgRequests(paper.Sdgs, outcomes) + [SignatureSrc]
  }

  method DrawHeading(doc: Doc, author: string, fonts: Fonts)
    modifies doc`ops
    ensures doc.ops == old(doc.ops) + HeadingOps(author, fonts.getTextWidth(author))
  {
    doc.Text([Title], CenterX, 50.0);
    doc.Line(CenterX - 100.0, 55.0, CenterX + 100.0, 55.0);
    doc.Text([Preamble], CenterX, 70.0);
    doc.Text([author], CenterX, 85.0);
    var nameWidth := fonts.getTextWidth(author);
    doc.Line(CenterX - nameWidth / 2.0 - 10.0, 88.0, CenterX + nameWidth / 2.0 + 10.0, 88.0);
    doc.Text([Contribution], CenterX, 100.0);
  }

  /** Draws the wrapped title and the goals heading; returns the cursor below them. */
  method DrawTitle(doc: Doc, titleLines: seq<string>) returns (yPosition: real)
    modifies doc`ops
    ensures doc.ops == old(doc.ops) + TitleOps(titleLines, CursorStops(|titleLines|))
    ensures yPosition == CursorStops(|titleLines|).badges
  {
    doc.Text(titleLines, CenterX, TitleY);
    yPosition := TitleY + |titleLines| as real * LineHeight;
    doc.Text([SdgHeading], CenterX, yPosition + 10.0);
    yPosition := yPosition + 20.0;
  }

  /** Draws the issue date, the signature (or its line) and the signer, from the cursor left
      below the badge row. */
  method DrawClosing(doc: Doc, loader: AssetLoader, formattedDate: string, lineCount: nat, yBadges: real)
    requires yBadges == CursorStops(lineCount).badges
    modifies doc`ops, loader`requested
    ensures doc.ops == old(doc.ops) + ClosingOps(formattedDate, OutcomeOf(loader.outcomes, SignatureSrc), CursorStops(lineCount))
    ensures loader.requested == old(loader.requested) + [SignatureSrc]
  {
    var yPosition := yBadges + 50.0;
    doc.Text(["Issued on: " + formattedDate], CenterX, yPosition);
    yPosition := yPosition + 20.0;
    var signatureImg := loader.Load(SignatureSrc);
    if signatureImg.Loaded? {
      doc.AddImage(SignatureSrc, CenterX - 25.0, yPosition, 50.0, 25.0);
    } else {
      doc.Line(CenterX - 25.0, yPosition + 10.0, CenterX + 25.0, yPosition + 10.0);
    }
    yPosition := yPosition + 35.0;
    doc.Text([SignerName], CenterX, yPosition);
    yPosition := yPosition + 5.0;
    doc.Text([SignerTitle], CenterX, yPosition);
  }

  method DrawFooter(doc: Doc, clock: Clock)
    modifies doc`ops
    ensures doc.ops == old(doc.ops) + FooterOps(CertificateNumber(clock.timestamp, clock.random))
  {
    var certNumber := CertificateNumber(clock.timestamp, clock.random);
    doc.Text(["Certificate No: " + certNumber], CenterX, PageHeight - 15.0);
    doc.Text([VerificationLine], CenterX, PageHeight - 10.0);
  }

  method DrawLetterhead(doc: Doc, loader: AssetLoader)
    modifies doc`ops, doc`fill, loader`requested
    ensures doc.ops == old(doc.ops) + LetterheadOps(loader.outcomes)
    ensures loader.requested == old(loader.requested) + LogoRequests(OutcomeOf(loader.outcomes, TeluSrc))
  {
    DrawPage(doc);
    DrawLogos(doc, loader);
  }

  /** Draws everything up to the badge row; returns the number of title lines and the cursor
      below the row's top edge. */
  method DrawShell(doc: Doc, loader: AssetLoader, paper: Paper, fonts: Fonts) returns (lineCount: nat, yPosition: real)
    modifies doc`ops, doc`fill, loader`requested
    ensures doc.ops == old(doc.ops) + ShellOps(paper, fonts, loader.outcomes)
    ensures loader.requested == old(loader.requested) + LogoRequests(OutcomeOf(loader.outcomes, TeluSrc)) + SdgRequests(paper.Sdgs, loader.outcomes)
    ensures lineCount == |fonts.splitTextToSize(paper.Judul, TitleWrapWidth)|
    ensures yPosition == CursorStops(lineCount).badges
  {
    DrawLetterhead(doc, loader);
    DrawHeading(doc, paper.Penulis, fonts);
    var titleLines := fonts.splitTextToSize(paper.Judul, TitleWrapWidth);
    yPosition := DrawTitle(doc, titleLines);
    lineCount := |titleLines|;
    DrawSdgSection(doc, loader, paper.Sdgs, yPosition);
  }

  /** Draws everything from the issue date down: the closing block and the footer. */
  method DrawSignOff(doc: Doc, loader: AssetLoader, clock: Clock, lineCount: nat, yBadges: real)
    requires yBadges == CursorStops(lineCount).badges
    modifies doc`ops, loader`requested
    ensures doc.ops == old(doc.ops)
      + ClosingOps(clock.formattedDate, OutcomeOf(loader.outcomes, SignatureSrc), CursorStops(lineCount))
      + FooterOps(CertificateNumber(clock.timestamp, clock.random))
    ensures loader.requested == old(loader.requested) + [SignatureSrc]
  {
    DrawClosing(doc, loader, clock.formattedDate, lineCount, yBadges);
    DrawFooter(doc, clock);
  }

  /** Composes the certificate for `paper` and saves it. Never fails: every image failure has a
      fallback. */
  method GenerateCertificatePDF(paper: Paper, fonts: Fonts, clock: Clock, loader: AssetLoader) returns (doc: Doc)
    modifies loader`requested
    ensures fresh(doc)
    ensures doc.ops == CertificateOps(paper, fonts, clock, loader.outcomes)
    ensures loader.requested == old(loader.requested) + CertificateRequests(paper, loader.outcomes)
    ensures doc.saved == [CertificateFileName(paper.Penulis)]
  {
    doc := new Doc();
    var lineCount, yPosition := DrawShell(doc, loader, paper, fonts);
    DrawSignOff(doc, loader, clock, lineCount, yPosition);
    doc.Save(CertificateFileName(paper.Penulis));
  }

  // ---------------------------------------------------------------------------------------------
  // Properties of the whole certificate

  /** The last six things drawn: the date, the signature, the signer's name and title, at
      positions that move down one line height per title line, and the footer, which stays
      15 and 10 mm above the page bottom whatever the title's length. */
  lemma CertificateTail(paper: Paper, fonts: Fonts, clock: Clock, outcomes: map<string, LoadOutcome>)
    ensures var ops := CertificateOps(paper, fonts, clock, outcomes);
      var shift := |fonts.splitTextToSize(paper.Judul, TitleWrapWidth)| as real * LineHeight;
      && |ops| >= 6
      && ops[|ops| - 6..] == [
           TextOp(["Issued on: " + clock.formattedDate], CenterX, 180.0 + shift),
           SignatureOp(OutcomeOf(outcomes, SignatureSrc), 200.0 + shift),
           TextOp([SignerName], CenterX, 235.0 + shift),
           TextOp([SignerTitle], CenterX, 240.0 + shift),
           TextOp(["Certificate No: " + CertificateNumber(clock.timestamp, clock.random)], CenterX, 282.0),
           TextOp([VerificationLine], CenterX, 287.0)
         ]
  {
    var ops := CertificateOps(paper, fonts, clock, outcomes);
    var tail := ClosingOps(clock.formattedDate, OutcomeOf(outcomes, SignatureSrc), CursorStops(|fonts.splitTextToSize(paper.Judul, TitleWrapWidth)|))
      + FooterOps(CertificateNumber(clock.timestamp, clock.random));
    assert ops == ShellOps(paper, fonts, outcomes) + tail;
  }

  /** Certificates for the same paper, fonts and images issued at different times differ only
      in the issue date and the certificate number. */
  lemma OnlyDateAndNumberDiffer(paper: Paper, fonts: Fonts, clock1: Clock, clock2: Clock,
                                outcomes: map<string, LoadOutcome>)
    ensures var a, b := CertificateOps(paper, fonts, clock1, outcomes), CertificateOps(paper, fonts, clock2, outcomes);
      && |a| == |b|
      && forall k :: 0 <= k < |a| && a[k] != b[k] ==> k == |a| - 6 || k == |a| - 2
  {
    var a, b := CertificateOps(paper, fonts, clock1, outcomes), CertificateOps(paper, fonts, clock2, outcomes);
    var c := CursorStops(|fonts.splitTextToSize(paper.Judul, TitleWrapWidth)|);
    var sig := OutcomeOf(outcomes, SignatureSrc);
    var shell := ShellOps(paper, fonts, outcomes);
    assert a == shell + ClosingOps(clock1.formattedDate, sig, c) + FooterOps(CertificateNumber(clock1.timestamp, clock1.random));
    assert b == shell + ClosingOps(clock2.formattedDate, sig, c) + FooterOps(CertificateNumber(clock2.timestamp, clock2.random));
  }

  /** When no image loads, the certificate holds no picture at all: the signature becomes a line
      and the badge row the fallback text; only the institution logo, the first badge (if the
      paper has goals) and the signature are requested. */
  lemma NothingLoads(paper: Paper, fonts: Fonts, clock: Clock)
    ensures forall op :: op in CertificateOps(paper, fonts, clock, map[]) ==> !op.ImageOp?
    ensures CertificateRequests(paper, map[]) ==
      [TeluSrc] + (if HasGoals(paper.Sdgs) then [BadgeSrc(paper.Sdgs.value[0])] else []) + [SignatureSrc]
  {
    var outcomes: map<string, LoadOutcome> := map[];
    var lines := fonts.splitTextToSize(paper.Judul, TitleWrapWidth);
    var c := CursorStops(|lines|);
    assert forall op :: op in PageOps() ==> !op.ImageOp?;
    assert LogoOps(OutcomeOf(outcomes, TeluSrc), OutcomeOf(outcomes, SdgsLogoSrc)) == [];
    var sdgOps := SdgSectionOps(paper.Sdgs, outcomes, c.badges);
    if HasGoals(paper.Sdgs) {
      assert LoadedPrefix(paper.Sdgs.value, outcomes) == 0;
      assert sdgOps == [TextOp([SdgFallback(paper.Sdgs.value)], CenterX, c.badges + 15.0)];
      assert SdgRequests(paper.Sdgs, outcomes) == [BadgeSrc(paper.Sdgs.value[0])];
    }
    assert forall op :: op in sdgOps ==> !op.ImageOp?;
  }
}
