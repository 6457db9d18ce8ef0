/** Decimal text as fmt and strconv write and read it: plain, zero-padded, and signed. */
module DecimalText {
  import opened Prelude

  function Digit(d: nat): (c: char)
    requires d < 10
    ensures '0' <= c <= '9' && c as int - '0' as int == d
  {
    ('0' as int + d) as char
  }

  predicate IsDigits(s: string) {
    forall i :: 0 <= i < |s| ==> '0' <= s[i] <= '9'
  }

  function Digits(n: nat): (s: string)
    ensures |s| > 0 && IsDigits(s)
  {
    if n < 10 then [Digit(n)] else Digits(n / 10) + [Digit(n % 10)]
  }

  function Zeros(k: nat): (s: string)
    ensures |s| == k && forall i :: 0 <= i < k ==> s[i] == '0'
  {
    if k == 0 then "" else "0" + Zeros(k - 1)
  }

  function Missing(n: nat, width: nat): nat {
    if |Digits(n)| >= width then 0 else width - |Digits(n)|
  }

  /** `%0wd`: at least `width` characters, longer if the number needs more. */
  function Padded(n: nat, width: nat): (s: string)
    ensures |s| >= width && IsDigits(s)
  {
    Zeros(Missing(n, width)) + Digits(n)
  }

  function Value(s: string): int
    requires IsDigits(s)
  {
    if s == "" then 0 else Value(s[..|s| - 1]) * 10 + (s[|s| - 1] as int - '0' as int)
  }

  lemma {:induction false} ValueOfDigits(n: nat)
    ensures Value(Digits(n)) == n
  {
    if n < 10 {
      assert Digits(n)[..0] == "";
    } else {
      var init, last := Digits(n / 10), Digit(n % 10);
      ValueOfDigits(n / 10);
      assert Digits(n) == init + [last];
      assert (init + [last])[..|init|] == init;
    }
  }

  lemma {:induction false} LeadingZeros(k: nat, s: string)
    requires IsDigits(s)
    ensures IsDigits(Zeros(k) + s) && Value(Zeros(k) + s) == Value(s)
    decreases |s|, k
  {
    var t := Zeros(k) + s;
    if s == "" {
      if k > 0 {
        LeadingZeros(k - 1, "");
        assert Zeros(k) + "" == Zeros(k) && Zeros(k - 1) + "" == Zeros(k - 1);
        assert t[..|t| - 1] == Zeros(k - 1);
      }
    } else {
      LeadingZeros(k, s[..|s| - 1]);
      assert t[..|t| - 1] == Zeros(k) + s[..|s| - 1];
    }
  }

  /** Reading back a padded number gives the number, so padding never identifies two numbers. */
  lemma ValueOfPadded(n: nat, width: nat)
    ensures Value(Padded(n, width)) == n
  {
    ValueOfDigits(n);
    LeadingZeros(Missing(n, width), Digits(n));
  }

  /** `text` writes `n` in decimal, at least `width` digits wide and with zeros only to get there. */
  ghost predicate Writes(text: string, n: nat, width: nat) {
    IsDigits(text) && Value(text) == n && |text| >= width && (|text| > width && |text| > 1 ==> text[0] != '0')
  }

  lemma {:induction false} NoLeadingZero(n: nat)
    ensures n > 0 ==> Digits(n)[0] != '0'
    ensures n == 0 ==> Digits(n) == "0"
  {
    if n >= 10 {
      NoLeadingZero(n / 10);
    }
  }

  lemma PaddedWrites(n: nat, width: nat)
    ensures Writes(Padded(n, width), n, width)
  {
    ValueOfPadded(n, width);
    NoLeadingZero(n);
    if |Padded(n, width)| > width {
      assert Padded(n, width) == Digits(n);
    }
  }

  lemma {:induction false} ValueBounds(s: string)
    requires IsDigits(s)
    ensures 0 <= Value(s) < Power(|s|)
    ensures s != "" && s[0] != '0' ==> Power(|s| - 1) <= Value(s)
  {
    if s != "" {
      ValueBounds(s[..|s| - 1]);
      if |s| == 1 {
        assert s[..0] == "";
      }
    }
  }

  function Power(k: nat): (p: nat)
    ensures p > 0
  {
    if k == 0 then 1 else 10 * Power(k - 1)
  }

  lemma {:induction false} PowerGrows(j: nat, k: nat)
    requires j <= k
    ensures Power(j) <= Power(k)
  {
    if j < k {
      PowerGrows(j, k - 1);
    }
  }

  lemma {:induction false} SameLengthSameText(s: string, t: string)
    requires IsDigits(s) && IsDigits(t) && |s| == |t| && Value(s) == Value(t)
    ensures s == t
  {
    if s != "" {
      SameLengthSameText(s[..|s| - 1], t[..|t| - 1]);
      assert s == s[..|s| - 1] + [s[|s| - 1]] && t == t[..|t| - 1] + [t[|t| - 1]];
    }
  }

  lemma SameWidthSameText(s: string, t: string, n: nat, width: nat)
    requires width > 0 && Writes(s, n, width) && Writes(t, n, width)
    ensures s == t
  {
    ValueBounds(s);
    ValueBounds(t);
    if |s| < |t| {
      PowerGrows(|s|, |t| - 1);
    } else if |t| < |s| {
      PowerGrows(|t|, |s| - 1);
    }
    SameLengthSameText(s, t);
  }

  /** There is one way to write a number, and this is it. */
  lemma PaddedIff(text: string, n: nat, width: nat)
    requires width > 0
    ensures text == Padded(n, width) <==> Writes(text, n, width)
  {
    PaddedWrites(n, width);
    if Writes(text, n, width) {
      SameWidthSameText(text, Padded(n, width), n, width);
    }
  }

  // ---------- strconv.Itoa and strconv.Atoi ----------

  function Itoa(n: int): string {
    if n < 0 then "-" + Digits(-n) else Digits(n)
  }

  /** An optional sign and at least one digit; a value outside 64 bits is a range error. */
  function Atoi(s: string): Option<int> {
    var negative := |s| > 0 && s[0] == '-';
    var digits := if |s| > 0 && (s[0] == '-' || s[0] == '+') then s[1..] else s;
    if digits == "" || !IsDigits(digits) then None
    else
      var n := if negative then -Value(digits) else Value(digits);
      if -0x8000_0000_0000_0000 <= n < 0x8000_0000_0000_0000 then Some(n) else None
  }

  lemma AtoiOfItoa(n: int)
    requires -0x8000_0000_0000_0000 <= n < 0x8000_0000_0000_0000
    ensures Atoi(Itoa(n)) == Some(n)
  {
    ValueOfDigits(if n < 0 then -n else n);
    if n < 0 {
      assert ("-" + Digits(-n))[1..] == Digits(-n);
    } else {
      assert Digits(n)[0] != '-' && Digits(n)[0] != '+';
    }
  }

  /** What is read as a number: digits, with a sign in front or not, whose value fits 64 bits. */
  lemma AtoiAccepts(s: string, n: int)
    ensures Atoi(s) == Some(n) <==>
            && -0x8000_0000_0000_0000 <= n < 0x8000_0000_0000_0000
            && (|| (s != "" && IsDigits(s) && n == Value(s))
                || (|s| > 1 && s[0] == '+' && IsDigits(s[1..]) && n == Value(s[1..]))
                || (|s| > 1 && s[0] == '-' && IsDigits(s[1..]) && n == -Value(s[1..])))
  {
    hide Value;
    if s != "" && (s[0] == '+' || s[0] == '-') {
      assert !IsDigits(s);
    }
  }

  /** A number is written without zeros in front, and with a sign only if it is negative. */
  lemma ItoaWrites(n: int)
    ensures n >= 0 ==> Writes(Itoa(n), n, 1)
    ensures n < 0 ==> Itoa(n)[0] == '-' && Writes(Itoa(n)[1..], -n, 1)
  {
    var m := if n < 0 then -n else n;
    ValueOfDigits(m);
    NoLeadingZero(m);
    if n < 0 {
      assert ("-" + Digits(-n))[1..] == Digits(-n);
    }
  }

  lemma ItoaCharacters(n: int)
    ensures |Itoa(n)| > 0
    ensures forall i :: 0 <= i < |Itoa(n)| ==> '0' <= Itoa(n)[i] <= '9' || (i == 0 && Itoa(n)[i] == '-')
  {
  }

  /** Text before the first separator is determined by the whole. */
  lemma {:induction false} SplitAtSeparator(a: string, b: string, x: string, y: string, sep: char)
    requires sep !in a && sep !in b && a + [sep] + x == b + [sep] + y
    ensures a == b && x == y
  {
    var whole := a + [sep] + x;
    assert whole[|a|] == sep && whole[|b|] == sep;
    forall k | 0 <= k < |a| ensures whole[k] != sep {
      assert whole[k] == a[k];
    }
    forall k | 0 <= k < |b| ensures whole[k] != sep {
      assert whole[k] == b[k];
    }
    assert whole[..|a|] == a && whole[..|b|] == b;
    assert whole[|a| + 1..] == x && whole[|b| + 1..] == y;
  }
}
