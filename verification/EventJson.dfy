/** The JSON text of an event and of a batch, byte by byte, and that its length is the one the limits are
    about (backend/app/activity_contract.py:92-98, 170-172, 371-373). The changes come in the order of
    the list of fields, where the canonical text sorts them; that changes no length. */
module EventJson {
  import opened Options
  import opened JsonText
  import opened ActivityContract
  import opened ActivityCollector

  type Bytes = seq<int>

  // The bytes of a text of ASCII characters.
  function Ascii(s: string): (b: Bytes)
    ensures |b| == |s|
  {
    seq(|s|, i requires 0 <= i < |s| => s[i] as int)
  }

  // ---------------------------------------------------------------- texts and numbers

  function HexDigitAt(n: int): int
    requires 0 <= n < 16
  {
    if n < 10 then '0' as int + n else 'a' as int + n - 10
  }

  // \uXXXX
  function Escape(n: int): Bytes
    requires 0 <= n < 0x10000
  {
    ['\\' as int, 'u' as int, HexDigitAt(n / 0x1000), HexDigitAt(n / 0x100 % 16), HexDigitAt(n / 0x10 % 16),
     HexDigitAt(n % 16)]
  }

  function Utf8(code: int): Bytes
    requires 0 <= code < 0x110000
  {
    if code < 0x80 then [code]
    else if code < 0x800 then [0xc0 + code / 0x40, 0x80 + code % 0x40]
    else if code < 0x10000 then [0xe0 + code / 0x1000, 0x80 + code / 0x40 % 0x40, 0x80 + code % 0x40]
    else [0xf0 + code / 0x40000, 0x80 + code / 0x1000 % 0x40, 0x80 + code / 0x40 % 0x40, 0x80 + code % 0x40]
  }

  // Beyond the basic plane, the two surrogates of UTF-16.
  function Escaped(code: int): Bytes
    requires 0 <= code < 0x110000
  {
    if code < 0x7f then [code]
    else if code < 0x10000 then Escape(code)
    else Escape(0xd800 + (code - 0x10000) / 0x400) + Escape(0xdc00 + (code - 0x10000) % 0x400)
  }

  function CharText(c: char, enc: Encoder): Bytes {
    match c
    case '"' => Ascii("\\\"")
    case '\\' => Ascii("\\\\")
    case '\n' => Ascii("\\n")
    case '\r' => Ascii("\\r")
    case '\t' => Ascii("\\t")
    case _ =>
      var code := c as int;
      if code == 8 then Ascii("\\b")
      else if code == 12 then Ascii("\\f")
      else if code < 0x20 then Escape(code)
      else if enc == Compact then Utf8(code) else Escaped(code)
  }

  function CharsText(s: string, enc: Encoder): Bytes {
    if s == "" then [] else CharsText(s[..|s| - 1], enc) + CharText(s[|s| - 1], enc)
  }

  function Quoted(s: string, enc: Encoder): Bytes {
    Ascii("\"") + CharsText(s, enc) + Ascii("\"")
  }

  function DigitsText(n: nat): Bytes {
    (if n < 10 then [] else DigitsText(n / 10)) + ['0' as int + n % 10]
  }

  function NumberText(n: int): Bytes {
    if n < 0 then Ascii("-") + DigitsText(-n) else DigitsText(n)
  }

  function FlagText(b: bool): Bytes {
    if b then Ascii("true") else Ascii("false")
  }

  function OptionalText(s: Option<string>, enc: Encoder): Bytes {
    if s.None? then Ascii("null") else Quoted(s.value, enc)
  }

  lemma CharLength(c: char, enc: Encoder)
    ensures |CharText(c, enc)| == CharBytes(c, enc)
  {}

  lemma {:induction false} QuotedLength(s: string, enc: Encoder)
    ensures |CharsText(s, enc)| == CharsBytes(s, enc)
    ensures |Quoted(s, enc)| == TextBytes(s, enc)
  {
    hide CharText, CharBytes;
    if s != "" {
      QuotedLength(s[..|s| - 1], enc);
      CharLength(s[|s| - 1], enc);
    }
  }

  lemma {:induction false} DigitsLength(n: nat)
    ensures |DigitsText(n)| == DigitsBytes(n)
  {
    if n >= 10 {
      DigitsLength(n / 10);
    }
  }

  lemma NumberLength(n: int)
    ensures |NumberText(n)| == NumberBytes(n)
  {
    DigitsLength(if n < 0 then -n else n);
  }

  lemma OptionalLength(s: Option<string>, enc: Encoder)
    ensures |OptionalText(s, enc)| == OptionalBytes(s, enc)
  {
    if s.Some? {
      QuotedLength(s.value, enc);
    }
  }

  // ---------------------------------------------------------------- lists and objects

  function Comma(enc: Encoder): Bytes {
    if enc == Compact then Ascii(",") else Ascii(", ")
  }

  function Colon(enc: Encoder): Bytes {
    if enc == Compact then Ascii(":") else Ascii(": ")
  }

  function Joined(parts: seq<Bytes>, enc: Encoder): Bytes {
    if parts == [] then []
    else if |parts| == 1 then parts[0]
    else Joined(parts[..|parts| - 1], enc) + Comma(enc) + parts[|parts| - 1]
  }

  function Total(parts: seq<Bytes>): nat {
    if parts == [] then 0 else Total(parts[..|parts| - 1]) + |parts[|parts| - 1]|
  }

  lemma {:induction false} JoinedLength(parts: seq<Bytes>, enc: Encoder)
    ensures |Joined(parts, enc)| == Total(parts) + JoinBytes(|parts|, enc)
  {
    if |parts| == 1 {
      assert parts[..0] == [];
    } else if parts != [] {
      JoinedLength(parts[..|parts| - 1], enc);
    }
  }

  lemma {:induction false} TotalJoins(a: seq<Bytes>, b: seq<Bytes>)
    ensures Total(a + b) == Total(a) + Total(b)
  {
    if b == [] {
      assert a + b == a;
    } else {
      assert (a + b)[..|a + b| - 1] == a + b[..|b| - 1];
      TotalJoins(a, b[..|b| - 1]);
    }
  }

  lemma TotalOfOne(a: Bytes)
    ensures Total([a]) == |a|
  {
    assert [a][..0] == [];
  }

  lemma TotalOfTwo(a: Bytes, b: Bytes)
    ensures Total([a, b]) == |a| + |b|
  {
    TotalOfOne(a);
    assert [a, b][..1] == [a];
  }

  lemma TotalOfFour(a: Bytes, b: Bytes, c: Bytes, d: Bytes)
    ensures Total([a, b, c, d]) == |a| + |b| + |c| + |d|
  {
    TotalOfTwo(a, b);
    TotalOfTwo(c, d);
    TotalJoins([a, b], [c, d]);
    assert [a, b] + [c, d] == [a, b, c, d];
  }

  // A member with a key of plain letters.
  function Member(key: string, value: Bytes, enc: Encoder): (b: Bytes)
    ensures |b| == |key| + 2 + Separator(enc) + |value|
  {
    Ascii("\"") + Ascii(key) + Ascii("\"") + Colon(enc) + value
  }

  function Object(members: seq<Bytes>, enc: Encoder): Bytes {
    Ascii("{") + Joined(members, enc) + Ascii("}")
  }

  function List(items: seq<Bytes>, enc: Encoder): Bytes {
    Ascii("[") + Joined(items, enc) + Ascii("]")
  }

  // ---------------------------------------------------------------- an event

  function ScalarText(v: Scalar, enc: Encoder): Bytes {
    match v
    case Null => Ascii("null")
    case Text(t) => Quoted(t, enc)
    case Number(n) => NumberText(n)
    case Flag(b) => FlagText(b)
    case NotScalar => []
  }

  function ChangeText(c: Change, enc: Encoder): Bytes {
    Object([Member("after", ScalarText(c.after, enc), enc), Member("before", ScalarText(c.before, enc), enc)], enc)
  }

  function Entry(changes: map<string, Change>, key: string, enc: Encoder): Bytes
    requires key in changes
  {
    Quoted(key, enc) + Colon(enc) + ChangeText(changes[key], enc)
  }

  function Entries(changes: map<string, Change>, keys: seq<string>, enc: Encoder): seq<Bytes> {
    if keys == [] then []
    else
      var k := keys[|keys| - 1];
      Entries(changes, keys[..|keys| - 1], enc) + (if k in changes then [Entry(changes, k, enc)] else [])
  }

  function ActorText(a: Actor, enc: Encoder): Bytes {
    Object([Member("employee_code", OptionalText(a.employeeCode, enc), enc),
            Member("name", OptionalText(a.name, enc), enc),
            Member("subject", Quoted(a.subject, enc), enc), Member("type", Quoted(a.kind, enc), enc)], enc)
  }

  function TargetText(t: Target, enc: Encoder): Bytes {
    Object([Member("id", Quoted(t.id, enc), enc), Member("type", Quoted(t.kind, enc), enc)], enc)
  }

  function Names(fields: seq<string>, enc: Encoder): (items: seq<Bytes>)
    ensures |items| == |fields|
  {
    if fields == [] then [] else Names(fields[..|fields| - 1], enc) + [Quoted(fields[|fields| - 1], enc)]
  }

  // The thirteen members, in text order of their keys.
  function FirstMembers(e: Event, enc: Encoder): seq<Bytes> {
    [Member("action", Quoted(e.action, enc), enc), Member("actor", ActorText(e.actor, enc), enc),
     Member("changed_fields", List(Names(e.changedFields, enc), enc), enc),
     Member("changes", Object(Entries(e.changes, SAFE_KEYS, enc), enc), enc)]
  }

  function MiddleMembers(e: Event, enc: Encoder): seq<Bytes> {
    [Member("department", OptionalText(e.department, enc), enc), Member("event_id", Quoted(e.eventId, enc), enc),
     Member("occurred_at", Quoted(e.occurredAt.text, enc), enc), Member("outcome", Quoted(e.outcome, enc), enc)]
  }

  function LastMembers(e: Event, enc: Encoder): seq<Bytes> {
    [Member("request_id", OptionalText(e.requestId, enc), enc), Member("restricted", FlagText(e.restricted), enc),
     Member("schema_version", NumberText(e.schemaVersion), enc), Member("service", Quoted(e.service, enc), enc)]
  }

  function EventText(e: Event, enc: Encoder): Bytes {
    Object(FirstMembers(e, enc) + MiddleMembers(e, enc) + LastMembers(e, enc)
           + [Member("target", TargetText(e.target, enc), enc)], enc)
  }

  function BodyText(events: seq<Event>, enc: Encoder): Bytes {
    Object([Member("events", List(Texts(events, enc), enc), enc)], enc)
  }

  function Texts(events: seq<Event>, enc: Encoder): (items: seq<Bytes>)
    ensures |items| == |events|
  {
    if events == [] then [] else [EventText(events[0], enc)] + Texts(events[1..], enc)
  }

  // ---------------------------------------------------------------- its length

  lemma ScalarLength(v: Scalar, enc: Encoder)
    ensures |ScalarText(v, enc)| == ScalarBytes(v, enc)
  {
    match v
    case Text(t) => QuotedLength(t, enc);
    case Number(n) => NumberLength(n);
    case _ =>
  }

  lemma ChangeLength(c: Change, enc: Encoder)
    ensures |ChangeText(c, enc)| == ChangeBytes(c, enc)
  {
    ScalarLength(c.before, enc);
    ScalarLength(c.after, enc);
    hide ScalarText, ScalarBytes, Joined;
    var after := Member("after", ScalarText(c.after, enc), enc);
    var before := Member("before", ScalarText(c.before, enc), enc);
    TotalOfTwo(after, before);
    JoinedLength([after, before], enc);
  }

  lemma EntryLength(changes: map<string, Change>, k: string, enc: Encoder)
    requires k in changes
    ensures |Entry(changes, k, enc)| == TextBytes(k, enc) + Separator(enc) + ChangeBytes(changes[k], enc)
  {
    ChangeLength(changes[k], enc);
    QuotedLength(k, enc);
    hide Quoted, ChangeText, ChangeBytes, TextBytes;
  }

  lemma EntriesStep(changes: map<string, Change>, keys: seq<string>, enc: Encoder)
    requires keys != []
    ensures var (front, k) := (keys[..|keys| - 1], keys[|keys| - 1]);
            && Entries(changes, keys, enc)
               == (if k in changes then Entries(changes, front, enc) + [Entry(changes, k, enc)]
                   else Entries(changes, front, enc))
            && EntriesBytes(changes, keys, enc)
               == EntriesBytes(changes, front, enc)
                  + (if k in changes then TextBytes(k, enc) + Separator(enc) + ChangeBytes(changes[k], enc) else 0)
  {
    hide Entry, ChangeBytes, TextBytes, Separator;
  }

  lemma {:induction false} EntriesLength(changes: map<string, Change>, keys: seq<string>, enc: Encoder)
    ensures Total(Entries(changes, keys, enc)) == EntriesBytes(changes, keys, enc)
  {
    if keys != [] {
      hide Entry, ChangeBytes, TextBytes, Separator, Total, Entries, EntriesBytes;
      var (front, k) := (keys[..|keys| - 1], keys[|keys| - 1]);
      EntriesLength(changes, front, enc);
      EntriesStep(changes, keys, enc);
      if k in changes {
        EntryLength(changes, k, enc);
        TotalJoins(Entries(changes, front, enc), [Entry(changes, k, enc)]);
        TotalOfOne(Entry(changes, k, enc));
      }
    }
  }

  function Listed(changes: map<string, Change>, keys: seq<string>): set<string> {
    set k | k in keys && k in changes
  }

  lemma {:induction false} EntriesCount(changes: map<string, Change>, keys: seq<string>, enc: Encoder)
    requires forall i, j | 0 <= i < j < |keys| :: keys[i] != keys[j]
    ensures |Entries(changes, keys, enc)| == |Listed(changes, keys)|
  {
    hide Entry;
    if keys == [] {
      assert Listed(changes, keys) == {};
    } else {
      var (front, k) := (keys[..|keys| - 1], keys[|keys| - 1]);
      EntriesCount(changes, front, enc);
      assert keys == front + [k] && k !in front;
      assert Listed(changes, keys) == Listed(changes, front) + (if k in changes then {k} else {});
    }
  }

  lemma ChangesLength(changes: map<string, Change>, enc: Encoder)
    requires changes.Keys <= SAFE_VALUES
    ensures |Object(Entries(changes, SAFE_KEYS, enc), enc)| == ChangesBytes(changes, enc)
  {
    assert forall k | k in SAFE_VALUES :: k in SAFE_KEYS;
    assert Listed(changes, SAFE_KEYS) == changes.Keys;
    KeysDiffer();
    EntriesLength(changes, SAFE_KEYS, enc);
    EntriesCount(changes, SAFE_KEYS, enc);
    JoinedLength(Entries(changes, SAFE_KEYS, enc), enc);
    assert |changes.Keys| == |changes|;
    hide Entries, EntriesBytes, Joined;
  }

  lemma KeysDiffer()
    ensures forall i, j | 0 <= i < j < |SAFE_KEYS| :: SAFE_KEYS[i] != SAFE_KEYS[j]
  {
    forall i, j | 0 <= i < j < |SAFE_KEYS| ensures SAFE_KEYS[i] != SAFE_KEYS[j] {
      var (a, b) := (SAFE_KEYS[i], SAFE_KEYS[j]);
      assert |a| != |b| || a[0] != b[0] || a[3] != b[3];
    }
  }

  lemma {:induction false} NamesLength(fields: seq<string>, enc: Encoder)
    ensures Total(Names(fields, enc)) == ItemsBytes(fields, enc)
  {
    hide Quoted, TextBytes;
    if fields != [] {
      var front := fields[..|fields| - 1];
      NamesLength(front, enc);
      QuotedLength(fields[|fields| - 1], enc);
      TotalJoins(Names(front, enc), [Quoted(fields[|fields| - 1], enc)]);
      TotalOfOne(Quoted(fields[|fields| - 1], enc));
    }
  }

  lemma ActorLength(a: Actor, enc: Encoder)
    ensures |ActorText(a, enc)|
         == FrameBytes(4, 28, enc) + OptionalBytes(a.employeeCode, enc) + OptionalBytes(a.name, enc)
            + TextBytes(a.subject, enc) + TextBytes(a.kind, enc)
  {
    OptionalLength(a.employeeCode, enc);
    OptionalLength(a.name, enc);
    QuotedLength(a.subject, enc);
    QuotedLength(a.kind, enc);
    hide OptionalText, OptionalBytes, Quoted, TextBytes, Joined;
    var code := Member("employee_code", OptionalText(a.employeeCode, enc), enc);
    var name := Member("name", OptionalText(a.name, enc), enc);
    var (subject, kind) := (Member("subject", Quoted(a.subject, enc), enc), Member("type", Quoted(a.kind, enc), enc));
    hide Member;
    TotalOfFour(code, name, subject, kind);
    JoinedLength([code, name, subject, kind], enc);
  }

  lemma TargetLength(t: Target, enc: Encoder)
    ensures |TargetText(t, enc)| == FrameBytes(2, 6, enc) + TextBytes(t.id, enc) + TextBytes(t.kind, enc)
  {
    QuotedLength(t.id, enc);
    QuotedLength(t.kind, enc);
    hide Quoted, TextBytes, Joined;
    var (id, kind) := (Member("id", Quoted(t.id, enc), enc), Member("type", Quoted(t.kind, enc), enc));
    TotalOfTwo(id, kind);
    JoinedLength([id, kind], enc);
  }

  lemma FirstLength(e: Event, enc: Encoder)
    requires e.changes.Keys <= SAFE_VALUES
    ensures Total(FirstMembers(e, enc))
         == 32 + 8 + 4 * Separator(enc) + TextBytes(e.action, enc) + |ActorText(e.actor, enc)|
            + ListBytes(e.changedFields, enc) + ChangesBytes(e.changes, enc)
  {
    QuotedLength(e.action, enc);
    NamesLength(e.changedFields, enc);
    JoinedLength(Names(e.changedFields, enc), enc);
    ChangesLength(e.changes, enc);
    hide Quoted, TextBytes, Joined, Names, ItemsBytes, ChangesBytes, ActorText, Entries, Separator;
    var m := FirstMembers(e, enc);
    TotalOfFour(m[0], m[1], m[2], m[3]);
    assert m == [m[0], m[1], m[2], m[3]];
  }

  lemma MiddleLength(e: Event, enc: Encoder)
    ensures Total(MiddleMembers(e, enc))
         == 36 + 8 + 4 * Separator(enc) + OptionalBytes(e.department, enc) + TextBytes(e.eventId, enc)
            + TextBytes(e.occurredAt.text, enc) + TextBytes(e.outcome, enc)
  {
    OptionalLength(e.department, enc);
    QuotedLength(e.eventId, enc);
    QuotedLength(e.occurredAt.text, enc);
    QuotedLength(e.outcome, enc);
    hide Quoted, TextBytes, OptionalText, OptionalBytes, Separator;
    var m := MiddleMembers(e, enc);
    TotalOfFour(m[0], m[1], m[2], m[3]);
    assert m == [m[0], m[1], m[2], m[3]];
  }

  lemma LastLength(e: Event, enc: Encoder)
    ensures Total(LastMembers(e, enc))
         == 41 + 8 + 4 * Separator(enc) + OptionalBytes(e.requestId, enc) + FlagBytes(e.restricted)
            + NumberBytes(e.schemaVersion) + TextBytes(e.service, enc)
  {
    OptionalLength(e.requestId, enc);
    NumberLength(e.schemaVersion);
    QuotedLength(e.service, enc);
    hide Quoted, TextBytes, OptionalText, OptionalBytes, NumberText, NumberBytes, Separator;
    var m := LastMembers(e, enc);
    TotalOfFour(m[0], m[1], m[2], m[3]);
    assert m == [m[0], m[1], m[2], m[3]];
  }

  lemma ThirteenJoined(a: seq<Bytes>, b: seq<Bytes>, c: seq<Bytes>, last: Bytes, enc: Encoder)
    requires |a| == |b| == |c| == 4
    ensures |Object(a + b + c + [last], enc)| == 2 + Total(a) + Total(b) + Total(c) + |last| + JoinBytes(13, enc)
  {
    TotalJoins(a, b);
    TotalJoins(a + b, c);
    TotalJoins(a + b + c, [last]);
    TotalOfOne(last);
    JoinedLength(a + b + c + [last], enc);
  }

  // What the contract and both publishers measure is the length of the text they write.
  lemma EventLength(e: Event, enc: Encoder)
    requires e.changes.Keys <= SAFE_VALUES
    ensures |EventText(e, enc)| == EventBytes(e, enc)
  {
    FirstLength(e, enc);
    MiddleLength(e, enc);
    LastLength(e, enc);
    ActorLength(e.actor, enc);
    TargetLength(e.target, enc);
    var target := Member("target", TargetText(e.target, enc), enc);
    ThirteenJoined(FirstMembers(e, enc), MiddleMembers(e, enc), LastMembers(e, enc), target, enc);
    hide TextBytes, OptionalBytes, NumberBytes, FlagBytes, ListBytes, ChangesBytes, ActorText, TargetText, Total,
      Object, FirstMembers, MiddleMembers, LastMembers;
  }

  lemma {:induction false} TextsLength(events: seq<Event>, enc: Encoder)
    requires forall i | 0 <= i < |events| :: events[i].changes.Keys <= SAFE_VALUES
    ensures Total(Texts(events, enc)) == WireBytes(events, enc)
    decreases |events|
  {
    hide EventText, EventBytes;
    if events != [] {
      assert forall i | 0 <= i < |events[1..]| :: events[1..][i] == events[i + 1];
      TextsLength(events[1..], enc);
      EventLength(events[0], enc);
      TotalJoins([EventText(events[0], enc)], Texts(events[1..], enc));
      TotalOfOne(EventText(events[0], enc));
    }
  }

  lemma OneMember(value: Bytes, enc: Encoder)
    ensures |Object([Member("events", value, enc)], enc)| == 10 + Separator(enc) + |value|
  {
    var member := Member("events", value, enc);
    hide Member;
    assert Joined([member], enc) == member;
  }

  lemma ListLength(items: seq<Bytes>, enc: Encoder)
    ensures |List(items, enc)| == 2 + Total(items) + JoinBytes(|items|, enc)
  {
    JoinedLength(items, enc);
    hide Joined, Total;
  }

  // And the request body of a batch is as long as the collector's limit is compared with.
  lemma BodyLength(events: seq<Event>, enc: Encoder)
    requires forall i | 0 <= i < |events| :: events[i].changes.Keys <= SAFE_VALUES
    ensures |BodyText(events, enc)| == BodyBytes(events, enc)
  {
    TextsLength(events, enc);
    ListLength(Texts(events, enc), enc);
    OneMember(List(Texts(events, enc), enc), enc);
    hide Texts, WireBytes, List, Object, Member, Total;
  }
}
