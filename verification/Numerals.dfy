/** Decimal printing, plain and zero-padded, and what can be read back from it. */
module Numerals {

  function DigitChar(d: nat): char
    requires d < 10
  {
    '0' + d as char
  }

  function Digits(n: nat): (s: string)
    ensures |s| > 0 && forall c <- s :: '0' <= c <= '9'
  {
    if n < 10 then [DigitChar(n)] else Digits(n / 10) + [DigitChar(n % 10)]
  }

  function ZeroPadded(n: nat, width: nat): string {
    var s := Digits(n);
    if |s| >= width then s else seq(width - |s|, _ => '0') + s
  }

  /** The number a string of digits stands for. */
  function Read(s: string): int {
    if s == [] then 0 else Read(s[..|s| - 1]) * 10 + (s[|s| - 1] as int - '0' as int)
  }

  lemma {:induction false} DigitsReadBack(n: nat)
    ensures Read(Digits(n)) == n
  {
    if n >= 10 {
      DigitsReadBack(n / 10);
      assert Digits(n)[..|Digits(n)| - 1] == Digits(n / 10);
    } else {
      assert [DigitChar(n)][..0] == [];
    }
  }

  lemma {:induction false} LeadingZeros(zeros: string, s: string)
    requires forall k | 0 <= k < |zeros| :: zeros[k] == '0'
    ensures Read(zeros + s) == Read(s)
  {
    if s != [] {
      LeadingZeros(zeros, s[..|s| - 1]);
      assert (zeros + s)[..|zeros + s| - 1] == zeros + s[..|s| - 1];
    } else if zeros != [] {
      assert zeros + s == zeros;
      LeadingZeros(zeros[..|zeros| - 1], []);
      assert zeros[..|zeros| - 1] + [] == zeros[..|zeros| - 1];
    }
  }

  /** Padding loses nothing, whatever the width, numbers too long for it included. */
  lemma PaddedReadsBack(n: nat, width: nat)
    ensures Read(ZeroPadded(n, width)) == n
    ensures forall c <- ZeroPadded(n, width) :: '0' <= c <= '9'
  {
    DigitsReadBack(n);
    if |Digits(n)| < width {
      LeadingZeros(seq(width - |Digits(n)|, _ => '0'), Digits(n));
    }
  }

  lemma {:induction false} NoLeadingZero(n: nat)
    ensures n > 0 ==> Digits(n)[0] != '0'
    ensures n < 10 ==> |Digits(n)| == 1
  {
    if n >= 10 {
      NoLeadingZero(n / 10);
    }
  }

  /** No shorter than its width, and longer only for a number that needs it. */
  lemma PaddedWidth(n: nat, width: nat)
    ensures |ZeroPadded(n, width)| >= width
    ensures |ZeroPadded(n, width)| > width && n > 0 ==> ZeroPadded(n, width)[0] != '0'
  {
    NoLeadingZero(n);
  }

  /** The last two digits. */
  lemma LastTwo(n: nat)
    requires n >= 10
    ensures |Digits(n)| >= 2 && Read(Digits(n)[|Digits(n)| - 2..]) == n % 100
  {
    LastTwoOf(Digits(n / 10), n);
    TwoDigits(n / 10 % 10, n % 10);
    Hundreds(n);
  }

  lemma LastTwoOf(s: string, n: nat)
    requires n >= 10 && s == Digits(n / 10)
    ensures |Digits(n)| >= 2 && Digits(n)[|Digits(n)| - 2..] == [DigitChar(n / 10 % 10), DigitChar(n % 10)]
  {
    LastDigit(n / 10);
    assert Digits(n) == s + [DigitChar(n % 10)];
  }

  lemma LastDigit(n: nat)
    ensures Digits(n)[|Digits(n)| - 1] == DigitChar(n % 10)
  {
  }

  lemma TwoDigits(tens: nat, ones: nat)
    requires tens < 10 && ones < 10
    ensures Read([DigitChar(tens), DigitChar(ones)]) == tens * 10 + ones
  {
    var s := [DigitChar(tens), DigitChar(ones)];
    assert s[..1] == [DigitChar(tens)] && s[..1][..0] == [];
    assert Read(s[..1]) == tens;
  }

  lemma Hundreds(n: nat)
    ensures n % 100 == n / 10 % 10 * 10 + n % 10
  {
    var h, t, o := n / 10 / 10, n / 10 % 10, n % 10;
    assert n == 100 * h + (10 * t + o);
  }

  /** A separator that neither head contains splits a string in one way only. */
  lemma SplitsOnce(head: string, tail: string, head': string, tail': string, sep: char)
    requires head + [sep] + tail == head' + [sep] + tail'
    requires sep !in head && sep !in head'
    ensures head == head' && tail == tail'
  {
    var s, s' := head + [sep] + tail, head' + [sep] + tail';
    assert s[|head|] == sep && s[|head'|] == sep by {
      assert s'[|head'|] == sep;
    }
    assert forall k | 0 <= k < |head| :: s[k] == head[k] && head[k] in head;
    assert forall k | 0 <= k < |head'| :: s[k] == head'[k] && head'[k] in head' by {
      assert forall k | 0 <= k < |head'| :: s'[k] == head'[k];
    }
    assert |head| == |head'|;
    assert head == s[..|head|] && head' == s'[..|head|];
    assert tail == s[|head| + 1..] && tail' == s'[|head| + 1..];
  }
}
