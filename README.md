# SDGs certificate generator — Dafny model

The application classifies a research paper against the UN Sustainable Development Goals and
issues the author a certificate: an A3 landscape PDF made with jsPDF in the browser. This project
models the certificate composer `generateCertificatePDF`:

- the page background and the six-colour frame;
- the two logos, the heading, the recipient's name and its underline;
- the wrapped paper title and the row of goal badges;
- the issue date, the signature block and the footer with the certificate number;
- the save under the recipient's name.

It also models:

- the certificate-number generator `generateCertificateNumber`;
- the badge-path helper `getSdgImagePath` of the home page;
- the `Paper` record that feeds them.

The composer changes a document step by step, so it is modelled imperatively:

- `Drawing.Doc` is a class whose `ops` field records every drawing call in order. Its `fill` field
  holds the current fill colour, and its `saved` field records the save.
- `Drawing.AssetLoader` is a class holding a fixed outcome per image URL (loaded with a natural
  size, or failed) and the log of URLs requested.
- Each drawing phase is a method whose postcondition ties the new `ops` (and request log) to a
  specification function of the inputs. `Certificate.GenerateCertificatePDF` ties the whole
  document to `Certificate.CertificateOps`.
- The layout properties are lemmas about those functions.

The number generator, the path helper and the record are pure: functions and datatypes.

Modules:

| file | module | models |
|---|---|---|
| wrappers.dfy | `Wrappers` | `Option` |
| paper.dfy | `PaperTypes` | the `Paper` record (types/paper.ts) |
| decimal.dfy | `Decimal` | `Number.prototype.toString` on non-negative integers, and the value of a digit string |
| certificate_number.dfy | `CertificateNumbers` | `generateCertificateNumber` |
| sdg_images.dfy | `SdgImages` | `getSdgImagePath` with JavaScript's truncating `%` |
| drawing.dfy | `Drawing` | the jsPDF document and the image loader |
| page_frame.dfy | `PageFrame` | background, border loop, inner frame |
| certificate.dfy | `Certificate` | everything else in `generateCertificatePDF` |

The page is taken as 420 × 297 mm, as the comments at utils/pdf-generator.ts:14-15 say, so the
centre line is x = 210. All geometry uses `real`. The constants the composer uses (420, 297, 70,
49.5, 35, 17.5 and the like) are exact in binary floating point; the places where the reals and
the source can still differ are listed under "## Left out".

Three behaviours of the source are worth knowing when reading the model:

- **Logo failure.** Both logo loads sit in one `try` (utils/pdf-generator.ts:69-103), so a failed
  institution logo also skips the program logo: it is neither loaded nor drawn.
- **Badge failure.** When badge k fails to load, badges 0..k-1 stay on the page and the text
  "SDGs: " followed by the goals joined with ", " is added (utils/pdf-generator.ts:176-185). The
  text is drawn at the cursor plus 15 (line 184), inside the 30 mm span of the badges already
  drawn (lines 179-180), so it is drawn across them. `FallbackCrossesBadges` states this.
- **Badge row position.** `totalWidth` counts a gap after the last badge, so the row spans
  [210 − 17.5n, 210 + 17.5n − 5]: it sits 2.5 mm left of the true centre. `BadgeRowGeometry`
  states this as the code computes it.

## Model

| member | source | states |
|---|---|---|
| Decimal.ToString | utils/pdf-generator.ts:254 | the decimal numeral of a clock reading is non-empty, all digits, and starts with 0 only for 0 |
| Decimal.ParseToString | utils/pdf-generator.ts:254 | the numeral denotes the number it was written for (round trip) |
| Decimal.ParseSuffix | utils/pdf-generator.ts:254 | the last k characters of the numeral denote the number mod 10^k |
| Decimal.ToStringLength | utils/pdf-generator.ts:254 | the numeral is longer than k characters exactly when the number is at least 10^k |
| CertificateNumbers.SliceLast | utils/pdf-generator.ts:254 | `slice(-8)` keeps min(length, 8) characters |
| CertificateNumbers.SliceLastSuffix | utils/pdf-generator.ts:254 | the characters `slice(-8)` keeps are the last ones of the numeral, in order |
| CertificateNumbers.PadStart | utils/pdf-generator.ts:255-257 | `padStart(4, "0")` has length max(length, 4), ends with the original string and has only fill characters before it |
| CertificateNumbers.ParseZeroPadded | utils/pdf-generator.ts:257 | zeros padded in front of a numeral do not change its value |
| CertificateNumbers.MiddleBlock | utils/pdf-generator.ts:254 | for a clock reading of at least 10^7 the kept block is eight digits denoting the reading mod 10^8 |
| CertificateNumbers.LastBlock | utils/pdf-generator.ts:255-257 | for a draw below 10000 the padded block is four digits denoting the draw |
| CertificateNumbers.CertificateNumberFormat | utils/pdf-generator.ts:253-259 | about `CertificateNumber`: the number has 17 characters exactly when the clock reading is at least 10^7; it then has the shape SDG-dddddddd-dddd, its middle block denotes the reading mod 10^8 and its last block the draw |
| SdgImages.JsRemainder | app/page.tsx:301 | JavaScript's `%`: the remainder is smaller than the divisor in magnitude, has the dividend's sign, and differs from the dividend by a multiple of the divisor |
| SdgImages.SdgImagePath | app/page.tsx:292-302 | a path is found exactly when goal − 1 is non-negative or a multiple of 6 (a −0 index reads element 0), and the path is one of the six listed |
| SdgImages.SdgImagePathOfGoal | app/page.tsx:293-301 | for goals 1..6 the path is "/images/SDGS" + goal + ".png" |
| SdgImages.SdgImagePathPeriodic | app/page.tsx:301 | for goals ≥ 1 the path repeats with period 6 |
| SdgImages.SdgImagePathOfNumber | app/page.tsx:301 | for goals ≥ 1 the path is that of goal ((goal − 1) mod 6) + 1 |
| Drawing.Doc.constructor | utils/pdf-generator.ts:7-11 | a new document has nothing drawn, nothing saved, and black fill |
| Drawing.Doc.SetFillColor | utils/pdf-generator.ts:24 | sets the fill colour and nothing else |
| Drawing.Doc.Rect | utils/pdf-generator.ts:25 | appends one rectangle filled with the current fill colour |
| Drawing.Doc.RoundedRect | utils/pdf-generator.ts:68 | appends one rounded rectangle |
| Drawing.Doc.Line | utils/pdf-generator.ts:115 | appends one line |
| Drawing.Doc.Text | utils/pdf-generator.ts:109 | appends one centred text block |
| Drawing.Doc.AddImage | utils/pdf-generator.ts:84 | appends one image placed in the given box |
| Drawing.Doc.Save | utils/pdf-generator.ts:238 | records a download under the given name |
| Drawing.AssetLoader.constructor | utils/pdf-generator.ts:242-250 | a loader starts with no requests and a fixed outcome per URL |
| Drawing.AssetLoader.Load | utils/pdf-generator.ts:242-250 | loading yields the URL's outcome (an unknown URL fails) and logs the request |
| PageFrame.Segment | utils/pdf-generator.ts:44-61 | every frame segment is a filled rectangle |
| PageFrame.BorderOps | utils/pdf-generator.ts:40-62 | k iterations of the frame loop draw 4k rectangles and nothing else |
| PageFrame.DrawBorderSegments | utils/pdf-generator.ts:41-61 | one loop iteration draws the top, bottom, left and right segment of its index, each in its band's colour, and leaves the right band's colour as the fill |
| PageFrame.DrawPage | utils/pdf-generator.ts:23-68 | draws the background, then for each palette index the top, bottom, left and right segment, then the inner rounded frame |
| PageFrame.BorderOpAt | utils/pdf-generator.ts:40-61 | rectangle 4i + j of the loop's output is segment j of iteration i |
| PageFrame.FrameOrder | utils/pdf-generator.ts:40-61 | in the drawn frame, rectangle 4i + band is that band's segment i |
| PageFrame.BorderColours | utils/pdf-generator.ts:40-62 | top and bottom segment i are filled with palette colour i, left with colour (i + 2) mod 6, right with colour (i + 4) mod 6 |
| PageFrame.PaletteCounts | utils/pdf-generator.ts:28-35 | the six border colours are pairwise distinct |
| PageFrame.BandIsRotation | utils/pdf-generator.ts:51-58 | each band's colours are the palette rotated by 0, 0, 2 or 4 places |
| PageFrame.BandUsesEachColourOnce | utils/pdf-generator.ts:40-62 | each band shows every palette colour exactly once |
| PageFrame.BorderTiling | utils/pdf-generator.ts:38-61 | segment i of a band covers [i·L/6, (i+1)·L/6] of its edge and lies flush with the page edge, 5 mm thick |
| PageFrame.BandCoversEdge | utils/pdf-generator.ts:39-61 | every point of an edge lies in some segment of each band along it (no gaps) |
| PageFrame.SegmentsOrdered | utils/pdf-generator.ts:45-61 | a later segment of a band starts no earlier than an earlier one ends |
| PageFrame.BandSegmentsDisjoint | utils/pdf-generator.ts:45-61 | no point of an edge lies in two segments of one band (no overlaps) |
| Certificate.ScaleToWidth | utils/pdf-generator.ts:77-81 | a scaled logo is exactly the maximum width wide and keeps the picture's aspect ratio |
| Certificate.DrawLogos | utils/pdf-generator.ts:69-103 | draws the logos as `LogoOps` prescribes and requests the program logo only after the institution logo loaded |
| Certificate.LogoPlacement | utils/pdf-generator.ts:69-103 | logos are 50 mm wide with height h·50/w, at (30, 20) and (W − 80, 22); an institution-logo failure draws no logo and skips the second load; a program-logo failure keeps the institution logo |
| Certificate.NameUnderline | utils/pdf-generator.ts:132-133 | the underline is horizontal at y = 88, symmetric about the centre line, and as long as the name plus 20 mm |
| Certificate.DrawHeading | utils/pdf-generator.ts:105-144 | draws the title, its rule, the preamble, the name, its underline and the contribution line, in that order |
| Certificate.CursorStops | utils/pdf-generator.ts:154-226 | the cursor never moves up, and everything below the title moves down one line height per title line |
| Certificate.DrawTitle | utils/pdf-generator.ts:146-167 | draws the wrapped title and the goals heading and leaves the cursor at 130 + 8L, the computed stop |
| Certificate.LoadedPrefix | utils/pdf-generator.ts:176-181 | the number of badges loaded before the first failure: all earlier badges load, and the next one fails |
| Certificate.DrawSdgSection | utils/pdf-generator.ts:169-188 | draws the badge section and requests the badge URLs as `SdgSectionOps` and `SdgRequests` prescribe |
| Certificate.BadgeRowGeometry | utils/pdf-generator.ts:172-179 | the first badge starts at 210 − 17.5n, badges step 35 mm right, and the last ends at 210 + 17.5n − 5 |
| Certificate.BadgeRow | utils/pdf-generator.ts:170-185 | badges before the first failure are drawn 30 × 30 in input order, strictly left to right; after a failure the fallback text follows and no later badge is requested; with no failure nothing else is drawn |
| Certificate.JoinAppend | utils/pdf-generator.ts:184 | about `Join`, the model of `Array.prototype.join`: one part joins to itself, and each further part is appended after the separator |
| Certificate.FallbackCrossesBadges | utils/pdf-generator.ts:179-184 | after a failure past the first badge, the fallback text lies at a height inside the span of the badges already drawn |
| Certificate.NoGoalsNoBadges | utils/pdf-generator.ts:186-188 | without goals no badge is requested and only the "no SDGs" message is drawn, 15 mm below the cursor |
| Certificate.SignatureFallbackInSlot | utils/pdf-generator.ts:204-213 | the fallback line is horizontal, exactly as wide as the signature picture and inside its vertical slot |
| Certificate.DrawClosing | utils/pdf-generator.ts:190-226 | draws the date, the signature or its line, and the signer's name and title at the computed cursor stops, and requests the signature once |
| Certificate.DrawFooter | utils/pdf-generator.ts:228-235 | draws the certificate number and the verification line at 15 and 10 mm above the page bottom |
| Certificate.FileNameRoundTrip | utils/pdf-generator.ts:238 | the saved file name determines the recipient, and every name with the certificate suffix comes from one |
| Certificate.DrawLetterhead | utils/pdf-generator.ts:23-103 | draws the page and then the logos |
| Certificate.DrawShell | utils/pdf-generator.ts:23-188 | draws everything up to the badge row and returns the title's line count and the cursor at the badges |
| Certificate.DrawSignOff | utils/pdf-generator.ts:190-235 | draws the closing block and then the footer, requesting only the signature |
| Certificate.GenerateCertificatePDF | utils/pdf-generator.ts:5-239 | on a fresh document, draws exactly `CertificateOps`, requests exactly `CertificateRequests` and saves once under the recipient's file name; it has no precondition, so no image failure stops it |
| Certificate.CertificateTail | utils/pdf-generator.ts:190-235 | the last six drawings are the date at 180 + 8L, the signature at 200 + 8L, the signer at 235 + 8L and 240 + 8L, and the footer at 282 and 287 whatever L is |
| Certificate.OnlyDateAndNumberDiffer | utils/pdf-generator.ts:190-235 | certificates for the same paper, fonts and images differ only in the date line and the certificate-number line |
| Certificate.NothingLoads | utils/pdf-generator.ts:69-213 | when every image fails the certificate contains no picture, and only the institution logo, the first badge (if any) and the signature are requested |

## Left out

- `loadImage` (utils/pdf-generator.ts:242-250) creates a DOM image and awaits its events. It is
  replaced by `AssetLoader`, a fixed outcome per URL. Asynchrony, `crossOrigin` and the network
  are not modelled.
- Drawing.LoadOutcome: a loaded picture is assumed at least one pixel wide. A zero-width picture
  would make the source divide by zero in the logo scaling.
- `doc.internal.pageSize` is not modelled. The page is the nominal 420 × 297 mm from the source's
  comments, not jsPDF's own point-based page table.
- jsPDF graphics state other than the fill colour is not modelled: text colour, draw colour, line
  width, font and font size. The fill colour is kept because rectangles read it.
- `getTextWidth` and `splitTextToSize` are jsPDF font metrics. They are the parameters
  `Certificate.Fonts`: the model takes a measured width and a wrapped line list as given.
- The PDF bytes and the download are not modelled. `doc.save` is recorded as the file name.
- `new Date()`, `toLocaleDateString("en-US", …)` and `Math.random()` are the clock, locale
  formatting and randomness. They are the parameters `Certificate.Clock`: a formatted date, a
  millisecond count and the draw `floor(random · 10000)`.
- SdgImages.SdgImagePath: takes an integer. The source's `num` is a JavaScript number, and a
  fractional or NaN argument gives a non-integer index that reads `undefined` (app/page.tsx:301);
  those arguments are not modelled.
- Decimal.ToString: written for integers only. JavaScript switches to exponent notation at 10^21,
  which clock readings do not reach.
- Certificate.ScaleToWidth: computed in exact reals. The source computes `w · (50 / w)` in
  floating point, which may differ from 50 in the last bit.
- `console.error` in the catch blocks only logs and is not modelled.
- `addFonts` (utils/pdf-fonts.ts) returns the document unchanged and is not part of this model.
- The rest of the application is not part of this model: the React pages, the submission form,
  its classification request and mock data, and the header and result components.
- PaperTypes.Paper: `Tahun`, `Source` and `Abstrak` are carried but not read by the composer,
  which uses only `Judul`, `Penulis` and `Sdgs`.
