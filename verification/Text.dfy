/** The string operations the role files and the people sheet rely on. */
module Text {
  // str.lower on the ASCII letters; the other code points are left as they are.
  function LowerChar(c: char): char {
    if 'A' <= c <= 'Z' then (c as int + 32) as char else c
  }

  function Lower(s: string): (r: string)
    ensures |r| == |s|
  {
    seq(|s|, i requires 0 <= i < |s| => LowerChar(s[i]))
  }

  // What str.strip removes.
  predicate Blank(c: char) {
    var n := c as int;
    || 0x09 <= n <= 0x0d || 0x1c <= n <= 0x20 || n == 0x85 || n == 0xa0 || n == 0x1680
    || 0x2000 <= n <= 0x200a || n == 0x2028 || n == 0x2029 || n == 0x202f || n == 0x205f || n == 0x3000
  }

  function TrimLeft(s: string): (r: string)
    ensures r == [] || !Blank(r[0])
  {
    if s != [] && Blank(s[0]) then TrimLeft(s[1..]) else s
  }

  function TrimRight(s: string): (r: string)
    ensures r <= s
    ensures r == [] || !Blank(r[|r| - 1])
  {
    if s != [] && Blank(s[|s| - 1]) then TrimRight(s[..|s| - 1]) else s
  }

  function Strip(s: string): (r: string)
    ensures r == [] || (!Blank(r[0]) && !Blank(r[|r| - 1]))
    ensures r == TrimRight(TrimLeft(s))
  {
    TrimRight(TrimLeft(s))
  }

  lemma StripTwice(s: string)
    ensures Strip(Strip(s)) == Strip(s)
  {
    assert TrimLeft(Strip(s)) == Strip(s);
  }

  predicate LowerLetter(c: char) { 'a' <= c <= 'z' }

  predicate Digit(c: char) { '0' <= c <= '9' }

  // A trailing `$` of a Python pattern also matches just before one final newline.
  function BeforeFinalNewline(s: string): string {
    if s != [] && s[|s| - 1] == '\n' then s[..|s| - 1] else s
  }

  predicate RoleKeyOk(s: string) {
    var body := BeforeFinalNewline(s);
    1 <= |body| <= 32 && LowerLetter(body[0])
      && forall i | 1 <= i < |body| :: LowerLetter(body[i]) || Digit(body[i]) || body[i] == '_'
  }

  predicate PermissionKeyOk(s: string) {
    var body := BeforeFinalNewline(s);
    && 1 <= |body| <= 64 && LowerLetter(body[0])
    && forall i | 1 <= i < |body| :: LowerLetter(body[i]) || Digit(body[i]) || body[i] in "_.:-"
  }

  ghost predicate Distinct<T(!new)>(s: seq<T>) {
    forall i, j | 0 <= i < j < |s| :: s[i] != s[j]
  }

  // list(dict.fromkeys(s))
  function FirstOccurrences(s: seq<string>): (r: seq<string>)
    ensures forall x :: x in r <==> x in s
  {
    if s == [] then []
    else
      var last := s[|s| - 1];
      var front := s[..|s| - 1];
      assert s == front + [last];
      if last in front then FirstOccurrences(front) else FirstOccurrences(front) + [last]
  }

  lemma {:induction false} FirstOccurrencesDistinct(s: seq<string>)
    ensures Distinct(FirstOccurrences(s))
    ensures Distinct(s) ==> FirstOccurrences(s) == s
  {
    if s != [] {
      FirstOccurrencesDistinct(s[..|s| - 1]);
      assert s == s[..|s| - 1] + [s[|s| - 1]];
    }
  }
}
