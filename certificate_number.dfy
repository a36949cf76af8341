/** The certificate number stamped in the footer (utils/pdf-generator.ts, generateCertificateNumber):
    "SDG-", the last eight characters of the millisecond clock's decimal numeral, "-", and the
    random draw left-padded with zeros to four characters. */
module CertificateNumbers {

  import opened Decimal

  /** `s.slice(-k)` for k > 0: the last `k` characters of `s`, or all of `s` when it is shorter. */
  function SliceLast(s: string, k: nat): (r: string)
    ensures |r| == if |s| <= k then |s| else k
  {
    if |s| <= k then s else s[|s| - k..]
  }

  /** What `slice(-k)` keeps are the last characters of `s`, in their order. */
  lemma SliceLastSuffix(s: string, k: nat)
    ensures SliceLast(s, k) == s[|s| - |SliceLast(s, k)|..]
  {
  }

  function Repeat(c: char, n: nat): (r: string)
    ensures |r| == n && forall i :: 0 <= i < n ==> r[i] == c
  {
    seq(n, _ => c)
  }

  /** `s.padStart(len, fill)` for a one-character `fill`. */
  function PadStart(s: string, len: nat, fill: char): (r: string)
    ensures |r| == if |s| >= len then |s| else len
    ensures r[|r| - |s|..] == s
    ensures forall i :: 0 <= i < |r| - |s| ==> r[i] == fill
  {
    if |s| >= len then s else Repeat(fill, len - |s|) + s
  }

  /** The number for clock reading `timestamp` (milliseconds) and random draw `random`
      (`Math.floor(Math.random() * 10000)`, so below 10000). */
  function CertificateNumber(timestamp: nat, random: nat): string
  {
    "SDG-" + SliceLast(ToString(timestamp), 8) + "-" + PadStart(ToString(random), 4, '0')
  }

  /** The shape `SDG-\d{8}-\d{4}`. */
  predicate WellFormed(c: string)
  {
    && |c| == 17
    && c[..4] == "SDG-"
    && AllDigits(c[4..12])
    && c[12] == '-'
    && AllDigits(c[13..])
  }

  /** Zeros added in front of a numeral do not change its value. */
  lemma {:induction false} ParseZeroPadded(z: nat, s: string)
    requires AllDigits(s)
    ensures AllDigits(Repeat('0', z) + s) && Parse(Repeat('0', z) + s) == Parse(s)
  {
    if z > 0 {
      ParseZeroPadded(z - 1, s);
      assert Repeat('0', z) + s == ['0'] + (Repeat('0', z - 1) + s);
      ParseLeadingZero(Repeat('0', z - 1) + s);
    } else {
      assert Repeat('0', z) + s == s;
    }
  }

  /** The middle block: the last eight digits of a clock reading of at least eight digits. */
  lemma MiddleBlock(timestamp: nat)
    requires timestamp >= Pow10(7)
    ensures var m := SliceLast(ToString(timestamp), 8);
      |m| == 8 && AllDigits(m) && Parse(m) == timestamp % Pow10(8)
  {
    ToStringLength(timestamp, 7);
    ParseSuffix(timestamp, 8);
  }

  /** The last block: a draw below 10000 padded to four digits. */
  lemma LastBlock(random: nat)
    requires random < 10000
    ensures var l := PadStart(ToString(random), 4, '0');
      |l| == 4 && AllDigits(l) && Parse(l) == random
  {
    var d := ToString(random);
    ToStringLength(random, 4);
    assert PadStart(d, 4, '0') == Repeat('0', 4 - |d|) + d;
    ParseZeroPadded(4 - |d|, d);
    ParseToString(random);
  }

  lemma Assemble(m: string, l: string)
    requires |m| == 8 && |l| == 4
    ensures var c := "SDG-" + m + "-" + l;
      |c| == 17 && c[..4] == "SDG-" && c[4..12] == m && c[12] == '-' && c[13..] == l
  {
  }

  /** For any draw below 10000 the number has the shape `SDG-\d{8}-\d{4}` exactly when the
      clock reading has at least eight digits; the middle block is then the clock reading modulo
      10^8 and the last block reads back as the draw. */
  lemma CertificateNumberFormat(timestamp: nat, random: nat)
    requires random < 10000
    ensures |CertificateNumber(timestamp, random)| == 17 <==> timestamp >= Pow10(7)
    ensures timestamp >= Pow10(7) ==>
      var c := CertificateNumber(timestamp, random);
      WellFormed(c) && Parse(c[4..12]) == timestamp % Pow10(8) && Parse(c[13..]) == random
  {
    var m, l := SliceLast(ToString(timestamp), 8), PadStart(ToString(random), 4, '0');
    LastBlock(random);
    ToStringLength(timestamp, 7);
    assert |CertificateNumber(timestamp, random)| == 5 + |m| + |l|;
    if timestamp >= Pow10(7) {
      MiddleBlock(timestamp);
      Assemble(m, l);
    }
  }
}
