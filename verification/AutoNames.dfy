/** The names the server gives to federates that ask for none: "federate-" and the handle, in eight or
    more upper-case hexadecimal digits. */
module AutoNames {
  type Handle = nat

  function Digit(d: nat): char
    requires d < 16
  {
    if d < 10 then '0' + d as char else 'A' + (d - 10) as char
  }

  function Hex(n: nat): string {
    if n < 16 then [Digit(n)] else Hex(n / 16) + [Digit(n % 16)]
  }

  function Padded(s: string): string
    decreases 8 - |s|
  {
    if |s| < 8 then Padded("0" + s) else s
  }

  function AutoName(h: Handle): string {
    "federate-" + Padded(Hex(h))
  }

  // ---------------------------------------------------------------- different handles, different names

  function DigitValue(c: char): nat {
    if '0' <= c <= '9' then (c - '0') as nat else if 'A' <= c <= 'F' then (c - 'A') as nat + 10 else 0
  }

  function HexValue(s: string): nat {
    if s == "" then 0 else HexValue(s[..|s| - 1]) * 16 + DigitValue(s[|s| - 1])
  }

  lemma {:induction false} HexRoundTrip(n: nat)
    ensures HexValue(Hex(n)) == n
  {
    if n < 16 {
      assert [Digit(n)][..0] == "";
    } else {
      HexRoundTrip(n / 16);
      assert (Hex(n / 16) + [Digit(n % 16)])[..|Hex(n / 16)|] == Hex(n / 16);
    }
  }

  lemma {:induction false} LeadingZero(s: string)
    ensures HexValue("0" + s) == HexValue(s)
  {
    if s == "" {
      assert "0" + s == "0" && "0"[..0] == "";
    } else {
      LeadingZero(s[..|s| - 1]);
      assert ("0" + s)[..|s|] == "0" + s[..|s| - 1];
    }
  }

  lemma {:induction false} PaddingKeeps(s: string)
    ensures HexValue(Padded(s)) == HexValue(s)
    decreases 8 - |s|
  {
    if |s| < 8 {
      LeadingZero(s);
      PaddingKeeps("0" + s);
    }
  }

  /** Different handles get different automatic names. */
  lemma AutoNamesDiffer(h: Handle, k: Handle)
    requires AutoName(h) == AutoName(k)
    ensures h == k
  {
    assert AutoName(h)[9..] == Padded(Hex(h)) && AutoName(k)[9..] == Padded(Hex(k));
    PaddingKeeps(Hex(h));
    PaddingKeeps(Hex(k));
    HexRoundTrip(h);
    HexRoundTrip(k);
  }

  // ---------------------------------------------------------------- what the names look like

  predicate IsHex(s: string) {
    forall i :: 0 <= i < |s| ==> s[i] in "0123456789ABCDEF"
  }

  lemma {:induction false} HexShape(n: nat)
    ensures Hex(n) != [] && IsHex(Hex(n))
    ensures n > 0 ==> Hex(n)[0] != '0'
  {
    if n < 16 {
      DigitIsHex(n);
    } else {
      HexShape(n / 16);
      DigitIsHex(n % 16);
    }
  }

  lemma DigitIsHex(d: nat)
    requires d < 16
    ensures Digit(d) == "0123456789ABCDEF"[d]
  {
  }

  lemma {:induction false} PaddedShape(s: string)
    requires IsHex(s)
    ensures |Padded(s)| >= 8 && IsHex(Padded(s))
    ensures |s| >= 8 ==> Padded(s) == s
    ensures |s| < 8 ==> |Padded(s)| == 8
    decreases 8 - |s|
  {
    if |s| < 8 {
      PaddedShape("0" + s);
    }
  }

  /** "federate-", then the handle in upper-case hexadecimal, with zeros in front only to make up eight
      digits. */
  lemma AutoNameShape(h: Handle)
    ensures |AutoName(h)| >= 17 && AutoName(h)[..9] == "federate-"
    ensures IsHex(AutoName(h)[9..]) && HexValue(AutoName(h)[9..]) == h
    ensures |AutoName(h)| > 17 ==> AutoName(h)[9] != '0'
  {
    HexShape(h);
    PaddedShape(Hex(h));
    PaddingKeeps(Hex(h));
    HexRoundTrip(h);
    assert AutoName(h)[9..] == Padded(Hex(h));
  }
}
