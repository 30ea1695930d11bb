/** The canonical text of a payload: keys sorted, each member printed as JSON. */
module CanonicalJson {
  import opened Options
  import opened Messages

  // ----- key order -----

  /** Where a character stands when strings are compared by UTF-16 code units: a character outside the
      basic plane starts with a surrogate, which comes before U+E000. */
  function CodeUnitRank(c: char): int {
    var n := c as int;
    if n < 0xD800 then n else if n < 0x1_0000 then n + 0x10_0000 else n - 0x1_0000 + 0xD800
  }

  predicate KeyLess(a: string, b: string) {
    if b == [] then false
    else if a == [] then true
    else if a[0] == b[0] then KeyLess(a[1..], b[1..])
    else CodeUnitRank(a[0]) < CodeUnitRank(b[0])
  }

  lemma {:induction false} KeyOrderTotal(a: string, b: string)
    ensures a != b ==> (KeyLess(a, b) <==> !KeyLess(b, a))
    ensures !KeyLess(a, a)
  {
    if a != [] {
      KeyOrderTotal(a[1..], a[1..]);
      if b != [] && a[0] == b[0] {
        KeyOrderTotal(a[1..], b[1..]);
        assert a == [a[0]] + a[1..] && b == [b[0]] + b[1..];
      }
    }
  }

  lemma {:induction false} KeyOrderTransitive(a: string, b: string, c: string)
    requires KeyLess(a, b) && KeyLess(b, c)
    ensures KeyLess(a, c)
  {
    if a != [] && a[0] == b[0] && b[0] == c[0] {
      KeyOrderTransitive(a[1..], b[1..], c[1..]);
    }
  }

  function InsertEntry(es: seq<Entry>, e: Entry): seq<Entry> {
    if es == [] || KeyLess(e.key, es[0].key) then [e] + es else [es[0]] + InsertEntry(es[1..], e)
  }

  /** `Object.keys(value).sort()`, with the value of each key beside it. */
  function SortEntries(es: seq<Entry>): seq<Entry> {
    if es == [] then [] else InsertEntry(SortEntries(es[1..]), es[0])
  }

  ghost predicate DistinctKeys(es: seq<Entry>) {
    forall i, j :: 0 <= i < j < |es| ==> es[i].key != es[j].key
  }

  ghost predicate Sorted(es: seq<Entry>) {
    forall i, j :: 0 <= i < j < |es| ==> KeyLess(es[i].key, es[j].key)
  }

  ghost predicate SameEntries(a: seq<Entry>, b: seq<Entry>) {
    forall e :: e in a <==> e in b
  }

  lemma {:induction false} InsertLaw(es: seq<Entry>, e: Entry)
    ensures forall x :: x in InsertEntry(es, e) <==> x == e || x in es
    ensures Sorted(es) && (forall x :: x in es ==> x.key != e.key) ==> Sorted(InsertEntry(es, e))
  {
    if es != [] && !KeyLess(e.key, es[0].key) {
      InsertLaw(es[1..], e);
      assert es == [es[0]] + es[1..];
      KeyOrderTotal(es[0].key, e.key);
      if Sorted(es) && (forall x :: x in es ==> x.key != e.key) {
        var rest := InsertEntry(es[1..], e);
        forall j | 0 <= j < |rest|
          ensures KeyLess(es[0].key, rest[j].key)
        {
          assert rest[j] in rest;
          if rest[j] != e {
            var k :| 0 <= k < |es[1..]| && es[1..][k] == rest[j];
            assert es[k + 1] == rest[j];
          }
        }
      }
    } else if es != [] && Sorted(es) {
      forall j | 0 <= j < |es|
        ensures KeyLess(e.key, es[j].key)
      {
        if j > 0 { KeyOrderTransitive(e.key, es[0].key, es[j].key); }
      }
    }
  }

  lemma {:induction false} SortLaw(es: seq<Entry>)
    ensures SameEntries(SortEntries(es), es)
    ensures DistinctKeys(es) ==> Sorted(SortEntries(es))
  {
    if es != [] {
      SortLaw(es[1..]);
      InsertLaw(SortEntries(es[1..]), es[0]);
      assert es == [es[0]] + es[1..];
      if DistinctKeys(es) {
        forall x | x in SortEntries(es[1..])
          ensures x.key != es[0].key
        {
          var k :| 0 <= k < |es[1..]| && es[1..][k] == x;
          assert es[k + 1] == x;
        }
      }
    }
  }

  /** A set of entries has one sorted arrangement. */
  lemma {:induction false} SortedIsUnique(a: seq<Entry>, b: seq<Entry>)
    requires Sorted(a) && Sorted(b) && SameEntries(a, b)
    ensures a == b
  {
    assert b != [] ==> b[0] in b;
    if a != [] {
      assert a[0] in a && a[0] in b;
      assert b[0] in a;
      HeadIsLeast(a, b[0]);
      HeadIsLeast(b, a[0]);
      KeyOrderTotal(a[0].key, b[0].key);
      TailEntries(a);
      TailEntries(b);
      SortedIsUnique(a[1..], b[1..]);
      assert a == [a[0]] + a[1..] && b == [b[0]] + b[1..];
    }
  }

  lemma HeadIsLeast(a: seq<Entry>, e: Entry)
    requires Sorted(a) && e in a
    ensures e == a[0] || KeyLess(a[0].key, e.key)
  {
    var i :| 0 <= i < |a| && a[i] == e;
  }

  lemma TailEntries(a: seq<Entry>)
    requires Sorted(a) && a != []
    ensures Sorted(a[1..]) && forall e :: e in a[1..] <==> e in a && e != a[0]
  {
    KeyOrderTotal(a[0].key, a[0].key);
    assert a == [a[0]] + a[1..];
    forall e | e in a[1..] ensures e != a[0] {
      var i :| 0 <= i < |a[1..]| && a[1..][i] == e;
      assert a[i + 1] == e;
    }
  }

  // ----- the order, by UTF-16 code units -----

  /** A character in UTF-16: one unit, or a surrogate pair above U+FFFF. */
  function UnitsOf(c: char): (us: seq<int>)
    ensures us != []
  {
    var n := c as int;
    if n <= 0xFFFF then [n] else [0xD800 + (n - 0x1_0000) / 0x400, 0xDC00 + (n - 0x1_0000) % 0x400]
  }

  function CodeUnits(s: string): seq<int> {
    if s == [] then [] else UnitsOf(s[0]) + CodeUnits(s[1..])
  }

  /** `u` is a proper prefix of `v`, or has the smaller number at the first index where they differ. */
  ghost predicate UnitsBefore(u: seq<int>, v: seq<int>) {
    u < v || exists k :: 0 <= k < |u| && k < |v| && u[..k] == v[..k] && u[k] < v[k]
  }

  lemma UnitsBeforeAfter(front: seq<int>, u: seq<int>, v: seq<int>)
    requires UnitsBefore(u, v)
    ensures UnitsBefore(front + u, front + v)
  {
    if !(u < v) {
      var k :| 0 <= k < |u| && k < |v| && u[..k] == v[..k] && u[k] < v[k];
      var at := |front| + k;
      assert (front + u)[..at] == front + u[..k] && (front + v)[..at] == front + v[..k];
      assert (front + u)[at] < (front + v)[at];
    }
  }

  /** Characters in the order of their ranks are so in their units. */
  lemma FirstUnits(a: char, b: char, u: seq<int>, v: seq<int>)
    requires CodeUnitRank(a) < CodeUnitRank(b)
    ensures UnitsBefore(UnitsOf(a) + u, UnitsOf(b) + v)
  {
    var x, y := UnitsOf(a) + u, UnitsOf(b) + v;
    assert x[0] == UnitsOf(a)[0] && y[0] == UnitsOf(b)[0];
    if x[0] == y[0] {
      assert x[1] == UnitsOf(a)[1] && y[1] == UnitsOf(b)[1];
      assert x[..1] == y[..1] && x[1] < y[1];
    } else {
      assert x[..0] == y[..0] && x[0] < y[0];
    }
  }

  lemma {:induction false} LessIsBefore(a: string, b: string)
    requires KeyLess(a, b)
    ensures UnitsBefore(CodeUnits(a), CodeUnits(b))
  {
    if a == [] {
      assert UnitsOf(b[0]) + CodeUnits(b[1..]) != [];
    } else if a[0] == b[0] {
      LessIsBefore(a[1..], b[1..]);
      UnitsBeforeAfter(UnitsOf(a[0]), CodeUnits(a[1..]), CodeUnits(b[1..]));
    } else {
      FirstUnits(a[0], b[0], CodeUnits(a[1..]), CodeUnits(b[1..]));
    }
  }

  /** The keys come out in ascending order of their UTF-16 code units, as a sort of JavaScript strings has it. */
  lemma KeysAscend(es: seq<Entry>)
    requires DistinctKeys(es)
    ensures var sorted := SortEntries(es);
            forall i, j :: 0 <= i < j < |sorted| ==> UnitsBefore(CodeUnits(sorted[i].key), CodeUnits(sorted[j].key))
  {
    SortLaw(es);
    var sorted := SortEntries(es);
    forall i, j | 0 <= i < j < |sorted|
      ensures UnitsBefore(CodeUnits(sorted[i].key), CodeUnits(sorted[j].key))
    {
      LessIsBefore(sorted[i].key, sorted[j].key);
    }
  }

  // ----- strings, as section 7 of RFC 8259 escapes them -----

  const HEX := "0123456789abcdef"

  function EscapeChar(c: char): string {
    if c == '"' then "\\\""
    else if c == '\\' then "\\\\"
    else if c == '\n' then "\\n"
    else if c == '\r' then "\\r"
    else if c == '\t' then "\\t"
    else if c as int == 8 then "\\b"
    else if c as int == 12 then "\\f"
    else if c as int < 32 then "\\u00" + [HEX[c as int / 16], HEX[c as int % 16]]
    else [c]
  }

  function Escape(s: string): string {
    if s == [] then [] else EscapeChar(s[0]) + Escape(s[1..])
  }

  function Quote(s: string): string {
    "\"" + Escape(s) + "\""
  }

  function HexValue(c: char): Option<nat> {
    if '0' <= c <= '9' then Some(c as int - '0' as int)
    else if 'a' <= c <= 'f' then Some(c as int - 'a' as int + 10)
    else if 'A' <= c <= 'F' then Some(c as int - 'A' as int + 10)
    else None
  }

  /** One character of a JSON string and how much text it takes; None at a closing quote or at bad text. */
  function ReadChar(t: string): (r: Option<(char, nat)>)
    ensures r.Some? ==> 0 < r.value.1 <= |t|
  {
    if t == [] || t[0] == '"' || t[0] as int < 32 then None
    else if t[0] != '\\' then Some((t[0], 1))
    else if |t| < 2 then None
    else
      match t[1]
      case '"' => Some(('"', 2))
      case '\\' => Some(('\\', 2))
      case '/' => Some(('/', 2))
      case 'n' => Some(('\n', 2))
      case 'r' => Some(('\r', 2))
      case 't' => Some(('\t', 2))
      case 'b' => Some((8 as char, 2))
      case 'f' => Some((12 as char, 2))
      case 'u' => ReadUnicode(t)
      case _ => None
  }

  function ReadUnicode(t: string): (r: Option<(char, nat)>)
    ensures r.Some? ==> 0 < r.value.1 <= |t|
  {
    if |t| < 6 then None
    else
      var a, b, c, d := HexValue(t[2]), HexValue(t[3]), HexValue(t[4]), HexValue(t[5]);
      if a.None? || b.None? || c.None? || d.None? then None
      else
        var n := a.value * 4096 + b.value * 256 + c.value * 16 + d.value;
        if 0 <= n < 0xD800 || 0xE000 <= n < 0x1_0000 then Some((n as char, 6)) else None
  }

  /** The characters up to the closing quote, and the text after it. */
  function ReadString(t: string): (r: Option<(string, string)>)
    ensures r.Some? ==> |r.value.1| < |t|
    decreases |t|
  {
    if t == [] then None
    else if t[0] == '"' then Some(([], t[1..]))
    else
      match ReadChar(t)
      case None => None
      case Some((c, n)) =>
        match ReadString(t[n..])
        case None => None
        case Some((s, rest)) => Some(([c] + s, rest))
  }

  lemma HexRoundTrip(n: nat)
    requires n < 16
    ensures HexValue(HEX[n]) == Some(n)
  {}

  lemma EscapedCharReads(c: char, r: string)
    ensures ReadChar(EscapeChar(c) + r) == Some((c, |EscapeChar(c)|)) && EscapeChar(c)[0] != '"'
  {
    var t := EscapeChar(c) + r;
    if c as int < 32 && c != '\n' && c != '\r' && c != '\t' && c as int != 8 && c as int != 12 {
      assert t[0] == '\\' && t[1] == 'u' && t[2] == '0' && t[3] == '0';
      assert t[4] == HEX[c as int / 16] && t[5] == HEX[c as int % 16];
      HexRoundTrip(c as int / 16);
      HexRoundTrip(c as int % 16);
    }
  }

  /** Reading back what was escaped. */
  lemma {:induction false} EscapeReads(s: string, rest: string)
    ensures ReadString(Escape(s) + "\"" + rest) == Some((s, rest))
  {
    var t := Escape(s) + "\"" + rest;
    if s == [] {
      assert t == "\"" + rest;
    } else {
      var tail := Escape(s[1..]) + "\"" + rest;
      assert t == EscapeChar(s[0]) + tail;
      EscapedCharReads(s[0], tail);
      assert t[0] == EscapeChar(s[0])[0];
      assert t[|EscapeChar(s[0])|..] == tail;
      EscapeReads(s[1..], rest);
      assert s == [s[0]] + s[1..];
    }
  }

  /** The shortest escape: one character that needs none, two for the seven with a letter or sign of their own,
      six for the other control characters, in lower-case digits. */
  lemma EscapesAreShortest(c: char)
    ensures |EscapeChar(c)| == if c in ['"', '\\', '\n', '\r', '\t', 8 as char, 12 as char] then 2 else if c as int < 32 then 6 else 1
    ensures |EscapeChar(c)| == 6 ==> forall i :: 2 <= i < 6 ==> '0' <= EscapeChar(c)[i] <= '9' || 'a' <= EscapeChar(c)[i] <= 'f'
  {
    if |EscapeChar(c)| == 6 {
      HexRoundTrip(c as int / 16);
      HexRoundTrip(c as int % 16);
      assert EscapeChar(c)[2] == '0' && EscapeChar(c)[3] == '0';
      assert EscapeChar(c)[4] == HEX[c as int / 16] && EscapeChar(c)[5] == HEX[c as int % 16];
    }
  }

  /** Only quotes, backslashes and control characters are written otherwise than they are. */
  lemma {:induction false} PlainStaysPlain(s: string)
    requires forall i :: 0 <= i < |s| ==> s[i] as int >= 32 && s[i] != '"' && s[i] != '\\'
    ensures Escape(s) == s
  {
    if s != [] {
      PlainStaysPlain(s[1..]);
      assert s == [s[0]] + s[1..];
    }
  }

  // ----- values, members and the whole object -----

  predicate IsNumberChar(c: char) {
    '0' <= c <= '9' || c == '-' || c == '+' || c == '.' || c == 'e'
  }

  /** How JavaScript prints a finite number. */
  predicate IsNumberText(t: string) {
    t != [] && ('0' <= t[0] <= '9' || t[0] == '-') && forall i :: 0 <= i < |t| ==> IsNumberChar(t[i])
  }

  predicate Printable(v: Value) {
    v.Number? ==> IsNumberText(v.text)
  }

  function ValueText(v: Value): string {
    match v
    case Null => "null"
    case Bool(b) => if b then "true" else "false"
    case Number(t) => t
    case Text(s) => Quote(s)
  }

  function MemberText(e: Entry): string {
    Quote(e.key) + ":" + ValueText(e.value)
  }

  /** Members after the opening brace, to the closing one. */
  function MembersText(es: seq<Entry>): string
    requires es != []
  {
    MemberText(es[0]) + if |es| == 1 then "}" else "," + MembersText(es[1..])
  }

  function StableStringify(value: Payload): string {
    var es := SortEntries(value);
    "{" + if es == [] then "}" else MembersText(es)
  }

  function NumberLength(t: string): (n: nat)
    ensures n <= |t|
  {
    if t == [] || !IsNumberChar(t[0]) then 0 else 1 + NumberLength(t[1..])
  }

  function ReadValue(t: string): (r: Option<(Value, string)>)
    ensures r.Some? ==> |r.value.1| < |t|
  {
    if "null" <= t then Some((Null, t[4..]))
    else if "true" <= t then Some((Bool(true), t[4..]))
    else if "false" <= t then Some((Bool(false), t[5..]))
    else if t != [] && t[0] == '"' then
      match ReadString(t[1..])
      case None => None
      case Some((s, rest)) => Some((Text(s), rest))
    else if NumberLength(t) > 0 then Some((Number(t[..NumberLength(t)]), t[NumberLength(t)..]))
    else None
  }

  function ReadMember(t: string): (r: Option<(Entry, string)>)
    ensures r.Some? ==> |r.value.1| < |t|
  {
    if t == [] || t[0] != '"' then None
    else
      match ReadString(t[1..])
      case None => None
      case Some((key, rest)) =>
        if rest == [] || rest[0] != ':' then None
        else
          match ReadValue(rest[1..])
          case None => None
          case Some((v, rest')) => Some((Entry(key, v), rest'))
  }

  function ReadMembers(t: string): Option<seq<Entry>>
    decreases |t|
  {
    match ReadMember(t)
    case None => None
    case Some((e, rest)) =>
      if rest == "}" then Some([e])
      else if rest == [] || rest[0] != ',' then None
      else
        match ReadMembers(rest[1..])
        case None => None
        case Some(es) => Some([e] + es)
  }

  /** A reader of flat JSON objects. */
  function Parse(t: string): Option<seq<Entry>> {
    if t == "{}" then Some([]) else if t == [] || t[0] != '{' then None else ReadMembers(t[1..])
  }

  lemma {:induction false} NumberEnds(t: string, rest: string)
    requires forall i :: 0 <= i < |t| ==> IsNumberChar(t[i])
    requires rest != [] && !IsNumberChar(rest[0])
    ensures NumberLength(t + rest) == |t|
  {
    if t == [] {
      assert t + rest == rest;
    } else {
      assert (t + rest)[1..] == t[1..] + rest;
      NumberEnds(t[1..], rest);
    }
  }

  /** Only a literal starts with the letter of one. */
  lemma NotLiteral(t: string)
    requires t != [] && t[0] != 'n' && t[0] != 't' && t[0] != 'f'
    ensures !("null" <= t) && !("true" <= t) && !("false" <= t)
  {}

  lemma NumberReads(text: string, rest: string)
    requires IsNumberText(text) && rest != [] && !IsNumberChar(rest[0])
    ensures ReadValue(text + rest) == Some((Number(text), rest))
  {
    var t := text + rest;
    assert t[0] == text[0];
    NotLiteral(t);
    NumberEnds(text, rest);
    assert t[..|text|] == text && t[|text|..] == rest;
  }

  lemma TextReads(s: string, rest: string)
    ensures ReadValue(Quote(s) + rest) == Some((Text(s), rest))
  {
    var t := Quote(s) + rest;
    assert t[0] == '"' && t[1..] == Escape(s) + "\"" + rest;
    NotLiteral(t);
    EscapeReads(s, rest);
  }

  lemma ValueReads(v: Value, rest: string)
    requires Printable(v) && rest != [] && !IsNumberChar(rest[0])
    ensures ReadValue(ValueText(v) + rest) == Some((v, rest))
  {
    match v
    case Null => assert ("null" + rest)[4..] == rest;
    case Bool(true) => assert ("true" + rest)[0] == 't' && ("true" + rest)[4..] == rest;
    case Bool(false) => assert ("false" + rest)[0] == 'f' && ("false" + rest)[5..] == rest;
    case Number(text) => NumberReads(text, rest);
    case Text(s) => TextReads(s, rest);
  }

  /** Where the parts of a member's text stand. */
  lemma MemberParts(key: string, value: string, rest: string)
    ensures var t, after := "\"" + key + "\"" + ":" + value + rest, ":" + value + rest;
            t[0] == '"' && t[1..] == key + "\"" + after && after[0] == ':' && after[1..] == value + rest
  {
    var after := ":" + value + rest;
    assert "\"" + key + "\"" + ":" + value + rest == "\"" + (key + "\"" + after);
  }

  lemma MemberReads(e: Entry, rest: string)
    requires Printable(e.value) && rest != [] && !IsNumberChar(rest[0])
    ensures ReadMember(MemberText(e) + rest) == Some((e, rest))
  {
    MemberParts(Escape(e.key), ValueText(e.value), rest);
    EscapeReads(e.key, ":" + ValueText(e.value) + rest);
    ValueReads(e.value, rest);
  }

  lemma LastMemberReads(e: Entry)
    requires Printable(e.value)
    ensures ReadMembers(MemberText(e) + "}") == Some([e])
  {
    MemberReads(e, "}");
  }

  lemma NextMemberReads(e: Entry, more: string, es: seq<Entry>)
    requires Printable(e.value) && ReadMembers(more) == Some(es)
    ensures ReadMembers(MemberText(e) + ("," + more)) == Some([e] + es)
  {
    MemberReads(e, "," + more);
    assert ("," + more)[1..] == more;
  }

  lemma {:induction false} MembersRead(es: seq<Entry>)
    requires es != [] && forall e :: e in es ==> Printable(e.value)
    ensures ReadMembers(MembersText(es)) == Some(es)
    decreases |es|
  {
    var e, t := es[0], MembersText(es);
    if |es| > 1 {
      var rest, more := es[1..], MembersText(es[1..]);
      assert es == [e] + rest;
      assert t == MemberText(e) + ("," + more);
      MembersRead(rest);
      NextMemberReads(e, more, rest);
    } else {
      assert es == [e] && t == MemberText(e) + "}";
      LastMemberReads(e);
    }
  }

  /** The canonical text can be read back to the same members. */
  lemma StringifyReads(value: Payload)
    requires forall e :: e in value ==> Printable(e.value)
    ensures Parse(StableStringify(value)) == Some(SortEntries(value))
  {
    SortLaw(value);
    var es := SortEntries(value);
    if es != [] {
      var t := StableStringify(value);
      assert t[1..] == MembersText(es);
      MembersRead(es);
      assert MembersText(es)[0] == '"';
      assert t[1] == '"';
    }
  }

  /** Two payloads have the same canonical text exactly when they have the same members, in whatever
      key order. */
  lemma CanonicalForm(a: Payload, b: Payload)
    requires DistinctKeys(a) && DistinctKeys(b)
    requires forall e :: e in a || e in b ==> Printable(e.value)
    ensures StableStringify(a) == StableStringify(b) <==> SameEntries(a, b)
  {
    SortLaw(a);
    SortLaw(b);
    if StableStringify(a) == StableStringify(b) {
      StringifyReads(a);
      StringifyReads(b);
    }
    if SameEntries(a, b) {
      SortedIsUnique(SortEntries(a), SortEntries(b));
    }
  }
}
