/** The static badge picture shown for a goal number on the landing page
    (app/page.tsx, getSdgImagePath). */
module SdgImages {

  import opened Wrappers
  import opened Decimal

  /** The six badges the page ships, for goals 1 to 6. */
  const Images: seq<string> := [
    "/images/SDGS1.png",
    "/images/SDGS2.png",
    "/images/SDGS3.png",
    "/images/SDGS4.png",
    "/images/SDGS5.png",
    "/images/SDGS6.png"
  ]

  /** JavaScript's `a % b` on integers for b > 0: truncating division, so the remainder takes
      the sign of `a` (a zero remainder of a negative `a` is -0, read here as 0). */
  function JsRemainder(a: int, b: int): (r: int)
    requires b > 0
    ensures -b < r < b
    ensures (a - r) % b == 0
    ensures a >= 0 ==> r >= 0
    ensures a < 0 ==> r <= 0
  {
    if a >= 0 then
      ModUnique(a - a % b, b, a / b, 0);
      a % b
    else
      ModUnique(a + (-a) % b, b, -((-a) / b), 0);
      -((-a) % b)
  }

  /** `images[(num - 1) % images.length]`. A negative index reads `undefined` (None); so does
      every num <= 0 except those with num - 1 a multiple of six, whose index is -0, i.e. 0. */
  function SdgImagePath(num: int): (path: Option<string>)
    ensures path.Some? <==> num >= 1 || (num - 1) % |Images| == 0
    ensures path.Some? ==> path.value in Images
  {
    var index := JsRemainder(num - 1, |Images|);
    if index >= 0 then Some(Images[index]) else None
  }

  /** Goals 1 to 6, the only numbers the page passes, get their own badge. */
  lemma SdgImagePathOfGoal(num: int)
    requires 1 <= num <= 6
    ensures SdgImagePath(num) == Some("/images/SDGS" + ToString(num) + ".png")
  {
    assert ToString(num) == [DigitChar(num)];
    assert SdgImagePath(num) == Some(Images[num - 1]);
    if num == 1 {
      assert DigitChar(num) == '1';
      assert "/images/SDGS" + ['1'] + ".png" == Images[0];
    } else if num == 2 {
      assert DigitChar(num) == '2';
      assert "/images/SDGS" + ['2'] + ".png" == Images[1];
    } else if num == 3 {
      assert DigitChar(num) == '3';
      assert "/images/SDGS" + ['3'] + ".png" == Images[2];
    } else if num == 4 {
      assert DigitChar(num) == '4';
      assert "/images/SDGS" + ['4'] + ".png" == Images[3];
    } else if num == 5 {
      assert DigitChar(num) == '5';
      assert "/images/SDGS" + ['5'] + ".png" == Images[4];
    } else {
      assert DigitChar(num) == '6';
      assert "/images/SDGS" + ['6'] + ".png" == Images[5];
    }
  }

  /** Beyond goal 6 the table repeats with period six. */
  lemma SdgImagePathPeriodic(num: int)
    requires num >= 1
    ensures SdgImagePath(num + 6) == SdgImagePath(num)
  {
    assert (num + 5) % 6 == (num - 1) % 6;
  }

  /** Every positive number shows the badge of goal ((num - 1) mod 6) + 1. */
  lemma SdgImagePathOfNumber(num: int)
    requires num >= 1
    ensures SdgImagePath(num) == Some("/images/SDGS" + ToString((num - 1) % 6 + 1) + ".png")
  {
    SdgImagePathOfGoal((num - 1) % 6 + 1);
  }
}
