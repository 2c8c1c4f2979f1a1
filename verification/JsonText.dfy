/** How many bytes JSON text takes on the wire, under the two encoders the publishers use. */
module JsonText {
  import opened Options

  // Compact is canonical() and the pinned httpx 0.28.1: separators "," and ":", text left as it is, in
  // UTF-8. Escaping is json.dumps with its defaults: separators ", " and ": ", everything outside
  // printable ASCII escaped.
  datatype Encoder = Compact | Escaping

  function CharBytes(c: char, enc: Encoder): (n: nat)
    ensures 1 <= n <= 12
  {
    var code := c as int;
    if c == '"' || c == '\\' || code == 8 || code == 9 || code == 10 || code == 12 || code == 13 then 2
    else if code < 0x20 then 6
    else match enc
         case Compact => if code < 0x80 then 1 else if code < 0x800 then 2 else if code < 0x10000 then 3 else 4
         case Escaping => if code < 0x7f then 1 else if code < 0x10000 then 6 else 12
  }

  function CharsBytes(s: string, enc: Encoder): nat {
    if s == "" then 0 else CharsBytes(s[..|s| - 1], enc) + CharBytes(s[|s| - 1], enc)
  }

  function TextBytes(s: string, enc: Encoder): nat {
    2 + CharsBytes(s, enc)
  }

  function OptionalBytes(s: Option<string>, enc: Encoder): nat {
    if s.None? then 4 else TextBytes(s.value, enc)
  }

  function FlagBytes(b: bool): nat {
    if b then 4 else 5
  }

  function DigitsBytes(n: nat): nat {
    if n < 10 then 1 else 1 + DigitsBytes(n / 10)
  }

  function NumberBytes(n: int): nat {
    if n < 0 then 1 + DigitsBytes(-n) else DigitsBytes(n)
  }

  function Separator(enc: Encoder): nat {
    if enc == Compact then 1 else 2
  }

  // The separators between `n` items.
  function JoinBytes(n: nat, enc: Encoder): nat {
    if n == 0 then 0 else if enc == Compact then n - 1 else 2 * (n - 1)
  }

  function ItemsBytes(xs: seq<string>, enc: Encoder): nat {
    if xs == [] then 0 else ItemsBytes(xs[..|xs| - 1], enc) + TextBytes(xs[|xs| - 1], enc)
  }

  function ListBytes(xs: seq<string>, enc: Encoder): nat {
    2 + ItemsBytes(xs, enc) + JoinBytes(|xs|, enc)
  }

  // Braces, keys of `letters` plain characters in all, and separators of an object with `members` members.
  function FrameBytes(members: nat, letters: nat, enc: Encoder): nat
    requires members >= 1
  {
    2 + letters + 2 * members + JoinBytes(2 * members, enc)
  }

  lemma {:induction false} UniformText(s: string, enc: Encoder, n: nat)
    requires forall i | 0 <= i < |s| :: CharBytes(s[i], enc) == n
    ensures CharsBytes(s, enc) == n * |s|
  {
    if s != "" {
      UniformText(s[..|s| - 1], enc, n);
    }
  }

  lemma {:induction false} UniformItems(xs: seq<string>, enc: Encoder, n: nat)
    requires forall i | 0 <= i < |xs| :: TextBytes(xs[i], enc) == n
    ensures ItemsBytes(xs, enc) == n * |xs|
  {
    if xs != [] {
      UniformItems(xs[..|xs| - 1], enc, n);
    }
  }
}
