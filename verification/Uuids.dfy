/** Which texts the UUID parser reads: "urn:" and "uuid:" anywhere, braces at the ends and dashes
    anywhere are dropped, and 32 characters must remain that int(_, 16) reads. Digits of other scripts,
    which int also reads, are not part of this model. */
module Uuids {
  import opened Text

  // str.replace(pattern, "")
  function Without(s: string, pattern: string): string
    requires pattern != ""
  {
    if |s| < |pattern| then s
    else if s[..|pattern|] == pattern then Without(s[|pattern|..], pattern)
    else [s[0]] + Without(s[1..], pattern)
  }

  predicate Brace(c: char) { c == '{' || c == '}' }

  // str.strip("{}")
  function Unbraced(s: string): string {
    if s != "" && Brace(s[0]) then Unbraced(s[1..])
    else if s != "" && Brace(s[|s| - 1]) then Unbraced(s[..|s| - 1])
    else s
  }

  predicate HexDigit(c: char) {
    '0' <= c <= '9' || 'a' <= c <= 'f' || 'A' <= c <= 'F'
  }

  // Digits, single underscores between them.
  predicate HexRun(s: string) {
    && s != "" && HexDigit(s[0]) && HexDigit(s[|s| - 1])
    && (forall i | 0 <= i < |s| :: HexDigit(s[i]) || s[i] == '_')
    && (forall i | 0 <= i < |s| - 1 :: s[i] != '_' || s[i + 1] != '_')
  }

  // int(s, 16) succeeds; what it reads has no minus sign left.
  predicate HexNumber(s: string) {
    var body := Strip(s);
    var unsigned := if body != "" && body[0] == '+' then body[1..] else body;
    if |unsigned| >= 2 && unsigned[0] == '0' && (unsigned[1] == 'x' || unsigned[1] == 'X')
    then HexRun(if |unsigned| > 2 && unsigned[2] == '_' then unsigned[3..] else unsigned[2..])
    else HexRun(unsigned)
  }

  predicate UuidText(s: string) {
    var digits := Without(Unbraced(Without(Without(s, "urn:"), "uuid:")), "-");
    |digits| == 32 && HexNumber(digits)
  }

  lemma {:induction false} NothingToRemove(s: string, pattern: string)
    requires pattern != "" && forall i | 0 <= i < |s| :: s[i] != pattern[0]
    ensures Without(s, pattern) == s
    decreases |s|
  {
    if |s| >= |pattern| {
      assert s[..|pattern|][0] == s[0];
      NothingToRemove(s[1..], pattern);
    }
  }

  lemma {:induction false} DashesOut(a: string, b: string)
    requires forall i | 0 <= i < |a| :: a[i] != '-'
    ensures Without(a + "-" + b, "-") == a + Without(b, "-")
    decreases |a|
  {
    var s := a + "-" + b;
    if a == "" {
      assert s[..1] == "-" && s[1..] == b;
    } else {
      assert s[..1] == [a[0]] && s[1..] == a[1..] + "-" + b;
      DashesOut(a[1..], b);
    }
  }

  function Dashed(a: string, b: string, c: string, d: string, e: string): string {
    a + "-" + (b + "-" + (c + "-" + (d + "-" + e)))
  }

  ghost predicate AllHex(s: string) {
    forall i | 0 <= i < |s| :: HexDigit(s[i])
  }

  lemma DashedOut(a: string, b: string, c: string, d: string, e: string)
    requires AllHex(a) && AllHex(b) && AllHex(c) && AllHex(d) && AllHex(e)
    ensures Without(Dashed(a, b, c, d, e), "-") == a + (b + (c + (d + e)))
  {
    hide Without;
    DashesOut(a, b + "-" + (c + "-" + (d + "-" + e)));
    DashesOut(b, c + "-" + (d + "-" + e));
    DashesOut(c, d + "-" + e);
    DashesOut(d, e);
    NothingToRemove(e, "-");
  }

  lemma PlainHex(s: string)
    requires AllHex(s) && |s| == 32
    ensures HexNumber(s)
  {
    assert !Blank(s[0]) && !Blank(s[31]);
    assert TrimLeft(s) == s && TrimRight(s) == s;
  }

  lemma DashedPlain(a: string, b: string, c: string, d: string, e: string)
    requires AllHex(a) && AllHex(b) && AllHex(c) && AllHex(d) && AllHex(e)
    ensures forall i | 0 <= i < |Dashed(a, b, c, d, e)| ::
        HexDigit(Dashed(a, b, c, d, e)[i]) || Dashed(a, b, c, d, e)[i] == '-'
  {}

  // The usual spelling: five groups of hexadecimal digits.
  lemma PlainUuid(a: string, b: string, c: string, d: string, e: string)
    requires |a| == 8 && |b| == 4 && |c| == 4 && |d| == 4 && |e| == 12
    requires AllHex(a) && AllHex(b) && AllHex(c) && AllHex(d) && AllHex(e)
    ensures UuidText(Dashed(a, b, c, d, e))
  {
    hide HexNumber, Without;
    var s := Dashed(a, b, c, d, e);
    DashedPlain(a, b, c, d, e);
    NothingToRemove(s, "urn:");
    NothingToRemove(s, "uuid:");
    assert s[0] == a[0] && s[|s| - 1] == e[11];
    assert Unbraced(s) == s;
    DashedOut(a, b, c, d, e);
    PlainHex(a + (b + (c + (d + e))));
  }

  // ---------------------------------------------------------------- what is refused

  function Hexes(s: string): nat {
    if s == "" then 0 else (if s[0] == '-' then 0 else 1) + Hexes(s[1..])
  }

  lemma {:induction false} DashesGone(s: string)
    requires forall i | 0 <= i < |s| :: HexDigit(s[i]) || s[i] == '-'
    ensures AllHex(Without(s, "-")) && |Without(s, "-")| == Hexes(s)
    decreases |s|
  {
    if s != "" {
      DashesGone(s[1..]);
      assert s[..1] == [s[0]];
    }
  }

  // Of hexadecimal digits and dashes, however arranged, exactly the texts with 32 digits are read.
  lemma DigitsAndDashesIff(s: string)
    requires forall i | 0 <= i < |s| :: HexDigit(s[i]) || s[i] == '-'
    ensures UuidText(s) <==> Hexes(s) == 32
  {
    hide HexNumber, Without, Hexes;
    NothingToRemove(s, "urn:");
    NothingToRemove(s, "uuid:");
    assert Unbraced(s) == s;
    hide Unbraced, HexDigit;
    DashesGone(s);
    if Hexes(s) == 32 {
      PlainHex(Without(s, "-"));
    }
  }

  lemma {:induction false} StaysWithout(s: string, pattern: string, c: char)
    requires pattern != "" && c in s && c !in pattern
    ensures c in Without(s, pattern)
    decreases |s|
  {
    if |s| >= |pattern| {
      if s[..|pattern|] == pattern {
        assert s == pattern + s[|pattern|..];
        StaysWithout(s[|pattern|..], pattern, c);
      } else if s[0] != c {
        assert s == [s[0]] + s[1..];
        StaysWithout(s[1..], pattern, c);
      }
    }
  }

  lemma {:induction false} StaysUnbraced(s: string, c: char)
    requires c in s && !Brace(c)
    ensures c in Unbraced(s)
    decreases |s|
  {
    if Brace(s[0]) {
      assert s == [s[0]] + s[1..];
      StaysUnbraced(s[1..], c);
    } else if Brace(s[|s| - 1]) {
      assert s == s[..|s| - 1] + [s[|s| - 1]];
      StaysUnbraced(s[..|s| - 1], c);
    }
  }

  lemma {:induction false} StaysLeft(s: string, c: char)
    requires c in s && !Blank(c)
    ensures c in TrimLeft(s)
    decreases |s|
  {
    hide Blank;
    if Blank(s[0]) {
      assert s == [s[0]] + s[1..];
      StaysLeft(s[1..], c);
    }
  }

  lemma {:induction false} StaysRight(s: string, c: char)
    requires c in s && !Blank(c)
    ensures c in TrimRight(s)
    decreases |s|
  {
    hide Blank;
    if Blank(s[|s| - 1]) {
      assert s == s[..|s| - 1] + [s[|s| - 1]];
      StaysRight(s[..|s| - 1], c);
    }
  }

  // A character the parser has no use for: no digit, dash, brace, blank, sign, underscore or hexadecimal
  // prefix, and none of the letters of "urn:uuid:".
  predicate Useless(c: char) {
    && !HexDigit(c) && !Brace(c) && !Blank(c)
    && c !in "-+_xX" && c !in "urn:" && c !in "uuid:"
  }

  lemma StaysBehind(s: string, n: nat, c: char)
    requires n <= |s| && c in s && forall i | 0 <= i < n :: s[i] != c
    ensures c in s[n..]
  {
    var i :| 0 <= i < |s| && s[i] == c;
    assert s[n..][i - n] == c;
  }

  lemma NotInRun(s: string, c: char)
    requires c in s && !HexDigit(c) && c != '_'
    ensures !HexRun(s)
  {}

  lemma NumbersAreUseful(s: string, c: char)
    requires c in s && Useless(c)
    ensures !HexNumber(s)
  {
    hide HexRun, TrimLeft, TrimRight, Blank, HexDigit, Brace;
    StaysLeft(s, c);
    StaysRight(TrimLeft(s), c);
    assert c != '+' && c != '_' && c != 'x' && c != 'X' && c != '0' by {
      assert '+' in "-+_xX" && '_' in "-+_xX" && 'x' in "-+_xX" && 'X' in "-+_xX";
      NoughtIsHex();
    }
    var body := Strip(s);
    hide Strip;
    var unsigned := if body != "" && body[0] == '+' then body[1..] else body;
    if body != "" && body[0] == '+' {
      StaysBehind(body, 1, c);
    }
    NotInRun(unsigned, c);
    if |unsigned| >= 2 && unsigned[0] == '0' && (unsigned[1] == 'x' || unsigned[1] == 'X') {
      StaysBehind(unsigned, 2, c);
      NotInRun(unsigned[2..], c);
      if |unsigned| > 2 && unsigned[2] == '_' {
        StaysBehind(unsigned, 3, c);
        NotInRun(unsigned[3..], c);
      }
    }
  }

  lemma NoughtIsHex()
    ensures HexDigit('0')
  {}

  // A text with such a character anywhere is refused.
  lemma UselessRefused(s: string, c: char)
    requires c in s && Useless(c)
    ensures !UuidText(s)
  {
    hide Without, Unbraced, HexNumber;
    StaysWithout(s, "urn:", c);
    StaysWithout(Without(s, "urn:"), "uuid:", c);
    StaysUnbraced(Without(Without(s, "urn:"), "uuid:"), c);
    StaysWithout(Unbraced(Without(Without(s, "urn:"), "uuid:")), "-", c);
    NumbersAreUseful(Without(Unbraced(Without(Without(s, "urn:"), "uuid:")), "-"), c);
  }
}
