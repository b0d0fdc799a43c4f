/** The canonical text of a JSON value: what `json.dumps(value, sort_keys=True,
    separators=(",", ":"))` prints with the default `ensure_ascii`, and a reader for it. */
module CanonicalJson {
  import opened Basics

  /** A JSON value. An object keeps its members in dict insertion order. */
  datatype Json =
    | Null
    | Bool(b: bool)
    | Num(n: int)
    | Str(s: string)
    | Arr(items: seq<Json>)
    | Obj(members: seq<Member>)

  datatype Member = Member(key: string, value: Json)

  // ---------------------------------------------------------------- printing

  function HexDigit(d: nat): char
    requires d < 16
  {
    "0123456789abcdef"[d]
  }

  /** One UTF-16 code unit as four lower-case hexadecimal digits after `\u`. */
  function UnitEscape(u: nat): string
    requires u < 0x1_0000
  {
    ['\\', 'u', HexDigit(u / 0x1000), HexDigit(u / 0x100 % 16), HexDigit(u / 0x10 % 16), HexDigit(u % 16)]
  }

  function EscapeChar(c: char): string {
    var n := c as int;
    if c == '\"' then "\\\""
    else if c == '\\' then "\\\\"
    else if c == '\n' then "\\n"
    else if c == '\r' then "\\r"
    else if c == '\t' then "\\t"
    else if n == 0x0c then "\\f"
    else if n == 0x08 then "\\b"
    else if 0x20 <= n <= 0x7e then [c]
    else if n < 0x1_0000 then UnitEscape(n)
    else UnitEscape(HighSurrogate(n)) + UnitEscape(LowSurrogate(n))
  }

  function HighSurrogate(n: nat): nat
    requires 0x1_0000 <= n < 0x11_0000
  {
    0xd800 + (n - 0x1_0000) / 0x400
  }

  function LowSurrogate(n: nat): nat
    requires 0x1_0000 <= n < 0x11_0000
  {
    0xdc00 + (n - 0x1_0000) % 0x400
  }

  function FromSurrogates(high: nat, low: nat): nat
    requires 0xd800 <= high < 0xdc00 <= low < 0xe000
  {
    0x1_0000 + (high - 0xd800) * 0x400 + (low - 0xdc00)
  }

  function EscapeAll(s: string): string {
    if s == "" then "" else EscapeChar(s[0]) + EscapeAll(s[1..])
  }

  function IntText(n: int): string {
    if n < 0 then "-" + NatText(-n) else NatText(n)
  }

  /** The compact text of a value, members printed in the order they are stored. */
  function Text(v: Json): string {
    match v
    case Null => "null"
    case Bool(b) => if b then "true" else "false"
    case Num(n) => IntText(n)
    case Str(s) => "\"" + EscapeAll(s) + "\""
    case Arr(items) => if items == [] then "[]" else "[" + ItemsText(items)
    case Obj(members) => if members == [] then "{}" else "{" + MembersText(members)
  }

  function ItemsText(items: seq<Json>): string
    requires items != []
  {
    Text(items[0]) + if |items| == 1 then "]" else "," + ItemsText(items[1..])
  }

  function MembersText(members: seq<Member>): string
    requires members != []
  {
    "\"" + EscapeAll(members[0].key) + "\"" + ":" + Text(members[0].value)
    + if |members| == 1 then "}" else "," + MembersText(members[1..])
  }

  // ------------------------------------------------------------ sorting keys

  /** Python's string order: lexicographic by code point. */
  predicate KeyLess(a: string, b: string) {
    if a == "" then b != ""
    else if b == "" then false
    else a[0] < b[0] || (a[0] == b[0] && KeyLess(a[1..], b[1..]))
  }

  lemma {:induction false} KeyLessTotal(a: string, b: string)
    ensures !(KeyLess(a, b) && KeyLess(b, a))
    ensures KeyLess(a, b) || KeyLess(b, a) || a == b
    ensures a == b ==> !KeyLess(a, b)
  {
    if a != "" && b != "" {
      KeyLessTotal(a[1..], b[1..]);
      if a[1..] == b[1..] && a[0] == b[0] {
        assert a == [a[0]] + a[1..] && b == [b[0]] + b[1..];
      }
    }
  }

  lemma {:induction false} KeyLessTransitive(a: string, b: string, c: string)
    requires KeyLess(a, b) && KeyLess(b, c)
    ensures KeyLess(a, c)
  {
    if a != "" && b != "" && c != "" && a[0] == b[0] == c[0] {
      KeyLessTransitive(a[1..], b[1..], c[1..]);
    }
  }

  /** The first place where two keys differ decides; a proper prefix comes first. */
  ghost predicate ComesBefore(a: string, b: string) {
    exists i :: 0 <= i <= |a| && i <= |b| && a[..i] == b[..i] && DiffersAt(a, b, i)
  }

  ghost predicate DiffersAt(a: string, b: string, i: nat)
    requires i <= |a| && i <= |b|
  {
    i < |b| && (i == |a| || a[i] < b[i])
  }

  lemma {:induction false} KeyLessAt(a: string, b: string, i: nat)
    requires i <= |a| && i <= |b| && a[..i] == b[..i] && DiffersAt(a, b, i)
    ensures KeyLess(a, b)
  {
    if i > 0 {
      assert a[0] == a[..i][0] && b[0] == b[..i][0];
      assert a[1..][..i - 1] == a[..i][1..] && b[1..][..i - 1] == b[..i][1..];
      KeyLessAt(a[1..], b[1..], i - 1);
    }
  }

  lemma {:induction false} KeyLessIs(a: string, b: string)
    ensures KeyLess(a, b) <==> ComesBefore(a, b)
  {
    if ComesBefore(a, b) {
      var i :| 0 <= i <= |a| && i <= |b| && a[..i] == b[..i] && DiffersAt(a, b, i);
      KeyLessAt(a, b, i);
    }
    if KeyLess(a, b) {
      if a == "" || a[0] < b[0] {
        assert a[..0] == b[..0] && DiffersAt(a, b, 0);
      } else {
        KeyLessIs(a[1..], b[1..]);
        var i :| 0 <= i <= |a[1..]| && i <= |b[1..]| && a[1..][..i] == b[1..][..i] && DiffersAt(a[1..], b[1..], i);
        assert a[..i + 1] == [a[0]] + a[1..][..i] && b[..i + 1] == [b[0]] + b[1..][..i];
        assert DiffersAt(a, b, i + 1);
      }
    }
  }

  ghost predicate Ascending(ms: seq<Member>) {
    forall i, j :: 0 <= i < j < |ms| ==> KeyLess(ms[i].key, ms[j].key)
  }

  ghost predicate DistinctKeys(ms: seq<Member>) {
    forall i, j :: 0 <= i < j < |ms| ==> ms[i].key != ms[j].key
  }

  ghost function Content(ms: seq<Member>): set<Member> {
    set m | m in ms
  }

  function InsertByKey(m: Member, ms: seq<Member>): (r: seq<Member>)
    ensures Content(r) == {m} + Content(ms) && |r| == |ms| + 1
  {
    if ms == [] || KeyLess(m.key, ms[0].key) then [m] + ms
    else
      var rest := InsertByKey(m, ms[1..]);
      assert Content(ms) == {ms[0]} + Content(ms[1..]) && Content([ms[0]] + rest) == {ms[0]} + Content(rest) by {
        HeadContent(ms[0], ms[1..]);
        HeadContent(ms[0], rest);
        assert ms == [ms[0]] + ms[1..];
      }
      [ms[0]] + rest
  }

  lemma HeadContent(m: Member, ms: seq<Member>)
    ensures Content([m] + ms) == {m} + Content(ms)
  {
    forall x ensures x in Content([m] + ms) <==> x in {m} + Content(ms) {
      if x in Content(ms) {
        var k :| 0 <= k < |ms| && ms[k] == x;
        assert ([m] + ms)[k + 1] == x;
      }
      assert ([m] + ms)[0] == m;
    }
  }

  function SortByKey(ms: seq<Member>): (r: seq<Member>)
    ensures Content(r) == Content(ms) && |r| == |ms|
  {
    if ms == [] then []
    else
      assert ms == [ms[0]] + ms[1..];
      InsertByKey(ms[0], SortByKey(ms[1..]))
  }

  lemma {:induction false} InsertKeepsAscending(m: Member, ms: seq<Member>)
    requires Ascending(ms) && forall x :: x in Content(ms) ==> x.key != m.key
    ensures Ascending(InsertByKey(m, ms))
  {
    if ms == [] {
    } else if KeyLess(m.key, ms[0].key) {
      forall j | 0 < j < |ms| ensures KeyLess(m.key, ms[j].key) {
        KeyLessTransitive(m.key, ms[0].key, ms[j].key);
      }
    } else {
      assert ms[0] in Content(ms);
      KeyLessTotal(m.key, ms[0].key);
      forall x | x in Content(ms[1..]) ensures x in Content(ms) {}
      InsertKeepsAscending(m, ms[1..]);
      var r := InsertByKey(m, ms[1..]);
      forall j | 0 <= j < |r| ensures KeyLess(ms[0].key, r[j].key) {
        assert r[j] in Content(r);
        if r[j] != m {
          var k :| 0 <= k < |ms[1..]| && ms[1..][k] == r[j];
        }
      }
    }
  }

  lemma {:induction false} SortAscends(ms: seq<Member>)
    requires DistinctKeys(ms)
    ensures Ascending(SortByKey(ms))
  {
    if ms != [] {
      SortAscends(ms[1..]);
      forall x | x in Content(SortByKey(ms[1..])) ensures x.key != ms[0].key {
        assert x in Content(ms[1..]);
        var k :| 0 <= k < |ms[1..]| && ms[1..][k] == x;
        assert ms[k + 1] == x;
      }
      InsertKeepsAscending(ms[0], SortByKey(ms[1..]));
    }
  }

  /** An ascending list is determined by its members. */
  lemma {:induction false} AscendingUnique(xs: seq<Member>, ys: seq<Member>)
    requires Ascending(xs) && Ascending(ys) && Content(xs) == Content(ys)
    ensures xs == ys
  {
    NoContent(xs);
    NoContent(ys);
    if xs != [] {
      LeastFirst(xs, ys);
      TailContent(xs);
      TailContent(ys);
      AscendingUnique(xs[1..], ys[1..]);
      assert xs == [xs[0]] + xs[1..] && ys == [ys[0]] + ys[1..];
    }
  }

  lemma NoContent(ms: seq<Member>)
    ensures ms == [] <==> Content(ms) == {}
  {
    if ms != [] {
      assert ms[0] in Content(ms);
    }
  }

  lemma LeastFirst(xs: seq<Member>, ys: seq<Member>)
    requires Ascending(xs) && Ascending(ys) && Content(xs) == Content(ys) && xs != [] && ys != []
    ensures xs[0] == ys[0]
  {
    assert xs[0] in Content(ys) && ys[0] in Content(xs);
    var i :| 0 <= i < |xs| && xs[i] == ys[0];
    var j :| 0 <= j < |ys| && ys[j] == xs[0];
    KeyLessTotal(xs[0].key, ys[0].key);
  }

  lemma TailContent(xs: seq<Member>)
    requires Ascending(xs) && xs != []
    ensures Content(xs[1..]) == Content(xs) - {xs[0]}
  {
    forall m | m in Content(xs[1..]) ensures m != xs[0] && m in Content(xs) {
      var k :| 0 <= k < |xs[1..]| && xs[1..][k] == m;
      assert xs[k + 1] == m;
      KeyLessTotal(xs[0].key, m.key);
    }
    forall m | m in Content(xs) && m != xs[0] ensures m in Content(xs[1..]) {
      var k :| 0 <= k < |xs| && xs[k] == m;
      assert xs[1..][k - 1] == m;
    }
  }

  /** The same value with every object's members sorted by key. */
  function Sorted(v: Json): Json {
    match v
    case Arr(items) => Arr(SortedItems(items))
    case Obj(members) => Obj(SortByKey(SortedMembers(members)))
    case _ => v
  }

  function SortedItems(items: seq<Json>): (r: seq<Json>)
    ensures |r| == |items| && forall i :: 0 <= i < |r| ==> r[i] == Sorted(items[i])
  {
    if items == [] then [] else [Sorted(items[0])] + SortedItems(items[1..])
  }

  function SortedMembers(ms: seq<Member>): (r: seq<Member>)
    ensures |r| == |ms| && forall i :: 0 <= i < |r| ==> r[i] == Member(ms[i].key, Sorted(ms[i].value))
  {
    if ms == [] then [] else [Member(ms[0].key, Sorted(ms[0].value))] + SortedMembers(ms[1..])
  }

  /** `json.dumps(v, sort_keys=True, separators=(",", ":"))`. */
  function Canonical(v: Json): string {
    Text(Sorted(v))
  }

  /** A Python dict has each key once, at every depth. */
  ghost predicate WellFormed(v: Json) {
    match v
    case Arr(items) => forall i :: 0 <= i < |items| ==> WellFormed(items[i])
    case Obj(ms) => DistinctKeys(ms) && forall i :: 0 <= i < |ms| ==> WellFormed(ms[i].value)
    case _ => true
  }

  /** Equality of the values, blind to the insertion order of every dict. */
  ghost predicate SameValue(v: Json, w: Json)
    decreases v
  {
    match v
    case Arr(xs) =>
      w.Arr? && |xs| == |w.items| && forall i :: 0 <= i < |xs| ==> SameValue(xs[i], w.items[i])
    case Obj(ms) =>
      w.Obj? && |ms| == |w.members|
      && forall i :: 0 <= i < |ms| ==> SameMember(ms[i], w.members)
    case _ => v == w
  }

  ghost predicate SameMember(m: Member, others: seq<Member>)
    decreases m
  {
    exists j :: 0 <= j < |others| && others[j].key == m.key && SameValue(m.value, others[j].value)
  }

  // ---------------------------------------------------------------- reading

  datatype Read<+T> = Fail | Got(value: T, rest: string)

  predicate StartsWith(s: string, prefix: string) {
    |prefix| <= |s| && s[..|prefix|] == prefix
  }

  predicate IsDigit(c: char) {
    '0' <= c <= '9'
  }

  function HexOf(c: char): (r: Option<nat>)
    ensures r.Some? ==> r.value < 16
  {
    if '0' <= c <= '9' then Some((c - '0') as nat)
    else if 'a' <= c <= 'f' then Some((c - 'a') as nat + 10)
    else if 'A' <= c <= 'F' then Some((c - 'A') as nat + 10)
    else None
  }

  /** The code unit of an escape `\uXXXX` at the start of `s`. */
  function ReadUnit(s: string): (r: Option<nat>)
    ensures r.Some? ==> |s| >= 6 && r.value < 0x1_0000
  {
    if |s| < 6 || s[0] != '\\' || s[1] != 'u' then None
    else
      var a, b, c, d := HexOf(s[2]), HexOf(s[3]), HexOf(s[4]), HexOf(s[5]);
      if a.Some? && b.Some? && c.Some? && d.Some?
      then Some(0x1000 * a.value + 0x100 * b.value + 0x10 * c.value + d.value)
      else None
  }

  /** One (possibly escaped) character of a string body. */
  function ReadChar(s: string): (r: Read<char>)
    ensures r.Got? ==> |r.rest| < |s|
  {
    if s == "" || s[0] == '\"' then Fail
    else if s[0] != '\\' then Got(s[0], s[1..])
    else if |s| < 2 then Fail
    else if s[1] == '\"' then Got('\"', s[2..])
    else if s[1] == '\\' then Got('\\', s[2..])
    else if s[1] == '/' then Got('/', s[2..])
    else if s[1] == 'n' then Got('\n', s[2..])
    else if s[1] == 'r' then Got('\r', s[2..])
    else if s[1] == 't' then Got('\t', s[2..])
    else if s[1] == 'f' then Got(0x0c as char, s[2..])
    else if s[1] == 'b' then Got(0x08 as char, s[2..])
    else
      var high := ReadUnit(s);
      if high.None? then Fail
      else if high.value < 0xd800 || 0xe000 <= high.value then Got(high.value as char, s[6..])
      else
        var low := ReadUnit(s[6..]);
        if high.value < 0xdc00 && low.Some? && 0xdc00 <= low.value < 0xe000
        then Got(FromSurrogates(high.value, low.value) as char, s[12..])
        else Fail
  }

  /** A string body up to and including its closing quote. */
  function ReadString(s: string): (r: Read<string>)
    ensures r.Got? ==> |r.rest| < |s|
    decreases |s|
  {
    if s != "" && s[0] == '\"' then Got("", s[1..])
    else
      match ReadChar(s)
      case Fail => Fail
      case Got(c, rest) =>
        match ReadString(rest)
        case Fail => Fail
        case Got(cs, rest') => Got([c] + cs, rest')
  }

  /** The digits at the start of `s`, read onto `acc`. */
  function ReadDigits(s: string, acc: nat): (r: (nat, string))
    ensures |r.1| <= |s|
  {
    if s != "" && IsDigit(s[0]) then ReadDigits(s[1..], 10 * acc + (s[0] - '0') as nat) else (acc, s)
  }

  function ReadNumber(s: string): (r: Read<Json>)
    ensures r.Got? ==> |r.rest| < |s|
  {
    if s != "" && IsDigit(s[0]) then
      var (n, rest) := ReadDigits(s[1..], (s[0] - '0') as nat);
      Got(Num(n), rest)
    else if |s| >= 2 && s[0] == '-' && IsDigit(s[1]) then
      var (n, rest) := ReadDigits(s[2..], (s[1] - '0') as nat);
      var magnitude: int := n;
      Got(Num(-magnitude), rest)
    else Fail
  }

  /** A value of sections 3 to 7 of RFC 8259, without white space or fractions. */
  function ReadValue(s: string): (r: Read<Json>)
    ensures r.Got? ==> |r.rest| < |s|
    decreases |s|, 0
  {
    if s == "" then Fail
    else if s[0] == '\"' then
      match ReadString(s[1..])
      case Fail => Fail
      case Got(cs, rest) => Got(Str(cs), rest)
    else if s[0] == '[' then
      if StartsWith(s[1..], "]") then Got(Arr([]), s[2..])
      else
        match ReadItems(s[1..])
        case Fail => Fail
        case Got(items, rest) => Got(Arr(items), rest)
    else if s[0] == '{' then
      if StartsWith(s[1..], "}") then Got(Obj([]), s[2..])
      else
        match ReadMembers(s[1..])
        case Fail => Fail
        case Got(members, rest) => Got(Obj(members), rest)
    else if s[0] == 'n' then if StartsWith(s, "null") then Got(Null, s[4..]) else Fail
    else if s[0] == 't' then if StartsWith(s, "true") then Got(Bool(true), s[4..]) else Fail
    else if s[0] == 'f' then if StartsWith(s, "false") then Got(Bool(false), s[5..]) else Fail
    else ReadNumber(s)
  }

  function ReadItems(s: string): (r: Read<seq<Json>>)
    ensures r.Got? ==> |r.rest| < |s|
    decreases |s|, 1
  {
    match ReadValue(s)
    case Fail => Fail
    case Got(v, rest) =>
      if StartsWith(rest, "]") then Got([v], rest[1..])
      else if StartsWith(rest, ",") then
        match ReadItems(rest[1..])
        case Fail => Fail
        case Got(vs, rest') => Got([v] + vs, rest')
      else Fail
  }

  function ReadMembers(s: string): (r: Read<seq<Member>>)
    ensures r.Got? ==> |r.rest| < |s|
    decreases |s|, 1
  {
    if !StartsWith(s, "\"") then Fail
    else
      match ReadString(s[1..])
      case Fail => Fail
      case Got(key, afterKey) =>
        if !StartsWith(afterKey, ":") then Fail
        else
          match ReadValue(afterKey[1..])
          case Fail => Fail
          case Got(v, rest) =>
            if StartsWith(rest, "}") then Got([Member(key, v)], rest[1..])
            else if StartsWith(rest, ",") then
              match ReadMembers(rest[1..])
              case Fail => Fail
              case Got(ms, rest') => Got([Member(key, v)] + ms, rest')
            else Fail
  }

  // ------------------------------------------------------------- round trips

  lemma HexRoundTrip(d: nat)
    requires d < 16
    ensures HexOf(HexDigit(d)) == Some(d)
  {
  }

  lemma UnitSplit(u: nat)
    requires u < 0x1_0000
    ensures u / 0x1000 < 16
    ensures u == 0x1000 * (u / 0x1000) + 0x100 * (u / 0x100 % 16) + 0x10 * (u / 0x10 % 16) + u % 16
  {
    var a := u / 0x10;
    var b := a / 0x10;
    assert u / 0x100 == b && u / 0x1000 == b / 0x10;
  }

  lemma UnitRoundTrip(u: nat, rest: string)
    requires u < 0x1_0000
    ensures ReadUnit(UnitEscape(u) + rest) == Some(u)
  {
    var e := UnitEscape(u);
    var s := e + rest;
    assert |e| == 6;
    assert forall i :: 0 <= i < 6 ==> s[i] == e[i];
    UnitSplit(u);
    HexRoundTrip(u / 0x1000);
    HexRoundTrip(u / 0x100 % 16);
    HexRoundTrip(u / 0x10 % 16);
    HexRoundTrip(u % 16);
  }

  lemma CharRoundTrip(c: char, rest: string)
    ensures EscapeChar(c) != "" && EscapeChar(c)[0] != '\"'
    ensures ReadChar(EscapeChar(c) + rest) == Got(c, rest)
  {
    var n := c as int;
    if |EscapeChar(c)| == 2 {
      ShortRoundTrip(c, rest);
    } else if 0x20 <= n <= 0x7e {
      PlainRoundTrip(c, rest);
    } else if n < 0x1_0000 {
      UnitCharRoundTrip(c, rest);
    } else {
      PairRoundTrip(c, rest);
    }
  }

  lemma ShortRoundTrip(c: char, rest: string)
    requires |EscapeChar(c)| == 2
    ensures ReadChar(EscapeChar(c) + rest) == Got(c, rest)
  {
    var s := EscapeChar(c) + rest;
    assert s[0] == '\\' && s[1] == EscapeChar(c)[1] && s[2..] == rest;
  }

  lemma PlainRoundTrip(c: char, rest: string)
    requires 0x20 <= c as int <= 0x7e && |EscapeChar(c)| != 2
    ensures ReadChar(EscapeChar(c) + rest) == Got(c, rest)
  {
    assert (EscapeChar(c) + rest)[1..] == rest;
  }

  lemma UnitCharRoundTrip(c: char, rest: string)
    requires c as int < 0x1_0000 && !(0x20 <= c as int <= 0x7e) && |EscapeChar(c)| != 2
    ensures ReadChar(EscapeChar(c) + rest) == Got(c, rest)
  {
    var s := EscapeChar(c) + rest;
    UnitRoundTrip(c as int, rest);
    assert s[0] == '\\' && s[1] == 'u' && s[6..] == rest;
  }

  /** A character outside the basic plane, written as a surrogate pair. */
  lemma PairRoundTrip(c: char, rest: string)
    requires 0x1_0000 <= c as int
    ensures ReadChar(EscapeChar(c) + rest) == Got(c, rest)
  {
    var high, low := HighSurrogate(c as int), LowSurrogate(c as int);
    UnitPairRoundTrip(high, low, rest) by {
      SurrogateSplit(c as int);
    }
    SurrogateSplit(c as int);
    assert EscapeChar(c) == UnitEscape(high) + UnitEscape(low);
  }

  lemma UnitPairRoundTrip(high: nat, low: nat, rest: string)
    requires 0xd800 <= high < 0xdc00 <= low < 0xe000
    ensures FromSurrogates(high, low) < 0x11_0000
    ensures ReadChar(UnitEscape(high) + UnitEscape(low) + rest) == Got(FromSurrogates(high, low) as char, rest)
  {
    var first, second := UnitEscape(high), UnitEscape(low);
    Assoc(first, second, rest);
    UnitRoundTrip(high, second + rest);
    UnitRoundTrip(low, rest);
    ReadPair(first, second, rest, high, low, FromSurrogates(high, low));
  }

  lemma SurrogateSplit(n: nat)
    requires 0x1_0000 <= n < 0x11_0000
    ensures HighSurrogate(n) < 0xdc00 && FromSurrogates(HighSurrogate(n), LowSurrogate(n)) == n
  {
  }

  lemma ReadPair(first: string, second: string, rest: string, high: nat, low: nat, n: nat)
    requires |first| == |second| == 6 && first[0] == '\\' && first[1] == 'u'
    requires ReadUnit(first + (second + rest)) == Some(high) && ReadUnit(second + rest) == Some(low)
    requires 0xd800 <= high < 0xdc00 <= low < 0xe000 && n == FromSurrogates(high, low)
    ensures 0x1_0000 <= n < 0x11_0000 && ReadChar(first + (second + rest)) == Got(n as char, rest)
  {
    var s := first + (second + rest);
    assert s[0] == '\\' && s[1] == 'u' && s[6..] == second + rest && s[12..] == rest;
  }

  lemma {:induction false} StringRoundTrip(t: string, rest: string)
    ensures ReadString(EscapeAll(t) + "\"" + rest) == Got(t, rest)
  {
    var s := EscapeAll(t) + "\"" + rest;
    if t == "" {
      assert s == "\"" + rest;
      assert s[1..] == rest;
    } else {
      var tail := EscapeAll(t[1..]) + "\"" + rest;
      assert s == EscapeChar(t[0]) + tail;
      CharRoundTrip(t[0], tail);
      StringRoundTrip(t[1..], rest);
      assert [t[0]] + t[1..] == t;
    }
  }

  lemma {:induction false} DigitsRoundTrip(n: nat, rest: string)
    ensures ReadDigits(NatText(n)[1..] + rest, (NatText(n)[0] - '0') as nat) == ReadDigits(rest, n)
  {
    var t := NatText(n);
    if n < 10 {
      assert t[1..] + rest == rest;
    } else {
      var shorter, last := NatText(n / 10), [DigitChar(n % 10)];
      DigitsRoundTrip(n / 10, last + rest);
      assert t[1..] + rest == shorter[1..] + (last + rest);
      assert (last + rest)[1..] == rest;
    }
  }

  lemma {:induction false} NatRoundTrip(n: nat, rest: string)
    requires rest == "" || !IsDigit(rest[0])
    ensures ReadDigits(NatText(n)[1..] + rest, (NatText(n)[0] - '0') as nat) == (n, rest)
  {
    DigitsRoundTrip(n, rest);
  }

  lemma NumberRoundTrip(n: int, rest: string)
    requires rest == "" || !IsDigit(rest[0])
    ensures ReadNumber(IntText(n) + rest) == Got(Num(n), rest)
    ensures IntText(n)[0] == '-' || IsDigit(IntText(n)[0])
  {
    var m := if n < 0 then -n else n;
    var t := NatText(m);
    NatRoundTrip(m, rest);
    assert IsDigit(t[0]);
    if n < 0 {
      ReadNegative("-" + t + rest, t, rest, m);
    } else {
      ReadNatural(t + rest, t, rest, m);
    }
  }

  lemma {:induction false} ReadNatural(s: string, t: string, rest: string, m: nat)
    requires s == t + rest && t != "" && IsDigit(t[0]) && ReadDigits(t[1..] + rest, (t[0] - '0') as nat) == (m, rest)
    ensures ReadNumber(s) == Got(Num(m), rest)
  {
    assert s[0] == t[0] && s[1..] == t[1..] + rest;
  }

  lemma {:induction false} ReadNegative(s: string, t: string, rest: string, m: nat)
    requires s == "-" + t + rest && t != "" && IsDigit(t[0])
    requires ReadDigits(t[1..] + rest, (t[0] - '0') as nat) == (m, rest)
    ensures ReadNumber(s) == Got(Num(-(m as int)), rest)
  {
    assert s[0] == '-' && s[1] == t[0] && s[2..] == t[1..] + rest;
  }

  lemma {:induction false} ReadArray(body: string, items: seq<Json>, rest: string)
    requires body != "" && body[0] != ']' && ReadItems(body) == Got(items, rest)
    ensures ReadValue("[" + body) == Got(Arr(items), rest)
  {
    assert ("[" + body)[1..] == body;
  }

  lemma {:induction false} ReadObject(body: string, members: seq<Member>, rest: string)
    requires body != "" && body[0] != '}' && ReadMembers(body) == Got(members, rest)
    ensures ReadValue("{" + body) == Got(Obj(members), rest)
  {
    assert ("{" + body)[1..] == body;
  }

  lemma {:induction false} ReadQuoted(body: string, t: string, rest: string)
    requires ReadString(body) == Got(t, rest)
    ensures ReadValue("\"" + body) == Got(Str(t), rest)
  {
    assert ("\"" + body)[1..] == body;
  }

  lemma {:induction false} ReadInteger(s: string, n: int, rest: string)
    requires s != "" && (s[0] == '-' || IsDigit(s[0])) && ReadNumber(s) == Got(Num(n), rest)
    ensures ReadValue(s) == Got(Num(n), rest)
  {
  }

  /** Reading the printed text gives the value back and stops where it ends.
      A number must not run into further digits, which no printed context does. */
  lemma {:induction false} TextRoundTrip(v: Json, rest: string)
    requires v.Num? ==> rest == "" || !IsDigit(rest[0])
    ensures ReadValue(Text(v) + rest) == Got(v, rest)
    decreases v
  {
    match v {
      case Num(n) =>
        NumberRoundTrip(n, rest);
        ReadInteger(IntText(n) + rest, n, rest);
      case Str(t) =>
        StringRoundTrip(t, rest);
        QuotedRoundTrip(t, rest);
      case Arr(items) =>
        if items == [] { LiteralRoundTrip(v, rest); } else { ItemsRoundTrip(items, rest); ArrayRoundTrip(items, rest); }
      case Obj(members) =>
        if members == [] { LiteralRoundTrip(v, rest); } else { MembersRoundTrip(members, rest); ObjectRoundTrip(members, rest); }
      case _ => LiteralRoundTrip(v, rest);
    }
  }

  lemma {:induction false} QuotedRoundTrip(t: string, rest: string)
    requires ReadString(EscapeAll(t) + "\"" + rest) == Got(t, rest)
    ensures ReadValue(Text(Str(t)) + rest) == Got(Str(t), rest)
  {
    ReadQuoted(EscapeAll(t) + "\"" + rest, t, rest);
    Assoc("\"" + EscapeAll(t), "\"", rest);
    Assoc("\"", EscapeAll(t), "\"" + rest);
    Assoc(EscapeAll(t), "\"", rest);
  }

  lemma {:induction false} ArrayRoundTrip(items: seq<Json>, rest: string)
    requires items != [] && ReadItems(ItemsText(items) + rest) == Got(items, rest)
    ensures ReadValue(Text(Arr(items)) + rest) == Got(Arr(items), rest)
  {
    TextStart(items[0]);
    ReadArray(ItemsText(items) + rest, items, rest);
    Assoc("[", ItemsText(items), rest);
  }

  lemma {:induction false} ObjectRoundTrip(ms: seq<Member>, rest: string)
    requires ms != [] && ReadMembers(MembersText(ms) + rest) == Got(ms, rest)
    ensures ReadValue(Text(Obj(ms)) + rest) == Got(Obj(ms), rest)
  {
    ReadObject(MembersText(ms) + rest, ms, rest);
    Assoc("{", MembersText(ms), rest);
  }

  lemma {:induction false} LiteralRoundTrip(v: Json, rest: string)
    requires v.Null? || v.Bool? || v == Arr([]) || v == Obj([])
    ensures ReadValue(Text(v) + rest) == Got(v, rest)
  {
    var t := Text(v);
    var s := t + rest;
    assert s[..|t|] == t && s[|t|..] == rest && s[0] == t[0];
    if v.Arr? || v.Obj? {
      assert s[1..][..1] == t[1..];
    }
  }

  /** No value's text starts with a closing bracket. */
  lemma {:induction false} TextStart(v: Json)
    ensures Text(v) != "" && Text(v)[0] != ']'
  {
  }

  lemma {:induction false} ItemsRoundTrip(items: seq<Json>, rest: string)
    requires items != []
    ensures ReadItems(ItemsText(items) + rest) == Got(items, rest)
    decreases items
  {
    var s := ItemsText(items) + rest;
    var tail := if |items| == 1 then "]" + rest else "," + (ItemsText(items[1..]) + rest);
    assert s == Text(items[0]) + tail;
    TextRoundTrip(items[0], tail);
    assert StartsWith(tail, if |items| == 1 then "]" else ",");
    if |items| == 1 {
      assert tail[1..] == rest;
      assert items == [items[0]];
    } else {
      assert tail[1..] == ItemsText(items[1..]) + rest;
      ItemsRoundTrip(items[1..], rest);
      assert [items[0]] + items[1..] == items;
    }
  }

  lemma {:induction false} MembersRoundTrip(ms: seq<Member>, rest: string)
    requires ms != []
    ensures ReadMembers(MembersText(ms) + rest) == Got(ms, rest)
    decreases ms
  {
    var more := ms[1..];
    var tail := if more == [] then "}" + rest else "," + (MembersText(more) + rest);
    assert StartsWith(tail, if more == [] then "}" else ",");
    assert tail != "" && !IsDigit(tail[0]);
    TextRoundTrip(ms[0].value, tail);
    if more != [] {
      MembersRoundTrip(more, rest);
      assert tail[1..] == MembersText(more) + rest;
    }
    MemberRoundTrip(ms[0], more, tail, rest);
    assert [ms[0]] + more == ms;
    MembersTextSplit(ms, rest);
  }

  lemma {:induction false} MembersTextSplit(ms: seq<Member>, rest: string)
    requires ms != []
    ensures MembersText(ms) + rest
         == "\"" + EscapeAll(ms[0].key) + "\"" + ":" + Text(ms[0].value)
            + (if ms[1..] == [] then "}" + rest else "," + (MembersText(ms[1..]) + rest))
  {
    var front := "\"" + EscapeAll(ms[0].key) + "\"" + ":" + Text(ms[0].value);
    if |ms| == 1 {
      Assoc(front, "}", rest);
    } else {
      Assoc(front, "," + MembersText(ms[1..]), rest);
      Assoc(",", MembersText(ms[1..]), rest);
    }
  }

  lemma {:induction false} MemberRoundTrip(m: Member, more: seq<Member>, tail: string, rest: string)
    requires ReadValue(Text(m.value) + tail) == Got(m.value, tail)
    requires if more == [] then tail == "}" + rest
             else StartsWith(tail, ",") && ReadMembers(tail[1..]) == Got(more, rest)
    ensures ReadMembers("\"" + EscapeAll(m.key) + "\"" + ":" + Text(m.value) + tail) == Got([m] + more, rest)
  {
    var k, t := EscapeAll(m.key), Text(m.value);
    var body := k + "\"" + (":" + (t + tail));
    StringRoundTrip(m.key, ":" + (t + tail));
    ReadMember(body, m, t + tail, tail, more, rest);
    Nest("\"", k, ":", t, tail);
  }

  lemma Nest(q: string, k: string, c: string, t: string, tail: string)
    ensures q + k + q + c + t + tail == q + (k + q + (c + (t + tail)))
  {
  }

  lemma {:induction false} ReadMember(body: string, m: Member, valueText: string, tail: string, more: seq<Member>, rest: string)
    requires ReadString(body) == Got(m.key, ":" + valueText) && ReadValue(valueText) == Got(m.value, tail)
    requires if more == [] then tail == "}" + rest
             else StartsWith(tail, ",") && ReadMembers(tail[1..]) == Got(more, rest)
    ensures ReadMembers("\"" + body) == Got([m] + more, rest)
  {
    assert ("\"" + body)[1..] == body && ("\"" + body)[..1] == "\"";
    assert (":" + valueText)[1..] == valueText && (":" + valueText)[..1] == ":";
    if more == [] {
      assert tail[1..] == rest && tail[..1] == "}";
      assert [m] + more == [m];
    } else {
      assert tail[..1][0] == ',';
    }
  }

  /** Reading the canonical text gives back the value, up to the sorting of its keys. */
  lemma {:induction false} CanonicalRoundTrip(v: Json)
    ensures ReadValue(Canonical(v)) == Got(Sorted(v), "")
  {
    TextRoundTrip(Sorted(v), "");
    assert Canonical(v) + "" == Canonical(v);
  }

  // ------------------------------------------- injective, blind to dict order

  lemma {:induction false} SortedSame(v: Json, w: Json)
    requires WellFormed(v) && WellFormed(w) && SameValue(v, w)
    ensures Sorted(v) == Sorted(w)
    decreases v
  {
    match v {
      case Arr(xs) =>
        forall i | 0 <= i < |xs| ensures Sorted(xs[i]) == Sorted(w.items[i]) {
          SortedSame(xs[i], w.items[i]);
        }
        assert SortedItems(xs) == SortedItems(w.items);
      case Obj(ms) =>
        var a, b := SortedMembers(ms), SortedMembers(w.members);
        forall i | 0 <= i < |a| ensures a[i] in Content(b) {
          assert SameMember(ms[i], w.members);
          var j :| 0 <= j < |b| && w.members[j].key == ms[i].key && SameValue(ms[i].value, w.members[j].value);
          SortedSame(ms[i].value, w.members[j].value);
          assert b[j] == a[i];
        }
        assert DistinctKeys(a) && DistinctKeys(b);
        SameContent(a, b);
        SortAscends(a);
        SortAscends(b);
        AscendingUnique(SortByKey(a), SortByKey(b));
      case _ =>
    }
  }

  lemma DistinctCount(ms: seq<Member>)
    requires DistinctKeys(ms)
    ensures |Content(ms)| == |ms|
  {
    if ms != [] {
      DistinctCount(ms[1..]);
      forall x | x in Content(ms[1..]) ensures x != ms[0] {
        var k :| 0 <= k < |ms[1..]| && ms[1..][k] == x;
        assert ms[k + 1] == x;
      }
      assert ms == [ms[0]] + ms[1..];
      assert Content(ms) == {ms[0]} + Content(ms[1..]);
    }
  }

  /** Equally many distinct members, one list inside the other: the same members. */
  lemma SameContent(a: seq<Member>, b: seq<Member>)
    requires DistinctKeys(a) && DistinctKeys(b) && |a| == |b|
    requires forall i :: 0 <= i < |a| ==> a[i] in Content(b)
    ensures Content(a) == Content(b)
  {
    DistinctCount(a);
    DistinctCount(b);
    forall x | x in Content(a) ensures x in Content(b) {
      var i :| 0 <= i < |a| && a[i] == x;
    }
    SubsetOfSameSize(Content(a), Content(b));
  }

  lemma SubsetOfSameSize(x: set<Member>, y: set<Member>)
    requires x <= y && |x| == |y|
    ensures x == y
  {
    assert y == x + (y - x);
    assert |y| == |x| + |y - x|;
  }

  lemma {:induction false} SameSorted(v: Json, w: Json)
    requires WellFormed(v) && WellFormed(w) && Sorted(v) == Sorted(w)
    ensures SameValue(v, w)
    decreases v
  {
    match v {
      case Arr(xs) =>
        forall i | 0 <= i < |xs| ensures SameValue(xs[i], w.items[i]) {
          assert SortedItems(xs)[i] == SortedItems(w.items)[i];
          SameSorted(xs[i], w.items[i]);
        }
      case Obj(ms) =>
        var a, b := SortedMembers(ms), SortedMembers(w.members);
        assert Content(a) == Content(b);
        forall i | 0 <= i < |ms| ensures SameMember(ms[i], w.members) {
          assert a[i] in Content(b);
          var j :| 0 <= j < |b| && b[j] == a[i];
          SameSorted(ms[i].value, w.members[j].value);
        }
      case _ =>
    }
  }

  /** The canonical text is injective on values and independent of dict insertion order. */
  lemma {:induction false} CanonicalIffSame(v: Json, w: Json)
    requires WellFormed(v) && WellFormed(w)
    ensures Canonical(v) == Canonical(w) <==> SameValue(v, w)
  {
    if Canonical(v) == Canonical(w) {
      CanonicalRoundTrip(v);
      CanonicalRoundTrip(w);
      SameSorted(v, w);
    }
    if SameValue(v, w) {
      SortedSame(v, w);
    }
  }

  // ---------------------------------------------------------------- the format

  /** The texts with commas between them. */
  function Joined(texts: seq<string>): string {
    if texts == [] then "" else if |texts| == 1 then texts[0] else texts[0] + "," + Joined(texts[1..])
  }

  /** A member's text: the quoted key, a colon, the value. */
  function MemberText(m: Member): string {
    Text(Str(m.key)) + ":" + Text(m.value)
  }

  lemma {:induction false} ItemsFormat(items: seq<Json>, texts: seq<string>)
    requires items != [] && |texts| == |items| && forall i :: 0 <= i < |items| ==> texts[i] == Text(items[i])
    ensures ItemsText(items) == Joined(texts) + "]"
  {
    if |items| > 1 {
      ItemsFormat(items[1..], texts[1..]);
      Assoc(Text(items[0]), ",", Joined(texts[1..]) + "]");
      Assoc(Text(items[0]) + ",", Joined(texts[1..]), "]");
    }
  }

  lemma {:induction false} MembersFormat(ms: seq<Member>, texts: seq<string>)
    requires ms != [] && |texts| == |ms| && forall i :: 0 <= i < |ms| ==> texts[i] == MemberText(ms[i])
    ensures MembersText(ms) == Joined(texts) + "}"
  {
    var first := "\"" + EscapeAll(ms[0].key) + "\"" + ":" + Text(ms[0].value);
    assert first == texts[0];
    if |ms| > 1 {
      MembersFormat(ms[1..], texts[1..]);
      Assoc(first, ",", Joined(texts[1..]) + "}");
      Assoc(first + ",", Joined(texts[1..]), "}");
    }
  }

  /** Arrays and objects are printed without white space, their parts in order and comma separated. */
  lemma {:induction false} CompactFormat(items: seq<Json>, members: seq<Member>, itemTexts: seq<string>, memberTexts: seq<string>)
    requires |itemTexts| == |items| && forall i :: 0 <= i < |items| ==> itemTexts[i] == Text(items[i])
    requires |memberTexts| == |members| && forall i :: 0 <= i < |members| ==> memberTexts[i] == MemberText(members[i])
    ensures Text(Arr(items)) == "[" + Joined(itemTexts) + "]"
    ensures Text(Obj(members)) == "{" + Joined(memberTexts) + "}"
  {
    if items != [] {
      ItemsFormat(items, itemTexts);
      assert "[" + (Joined(itemTexts) + "]") == "[" + Joined(itemTexts) + "]";
    }
    if members != [] {
      MembersFormat(members, memberTexts);
      assert "{" + (Joined(memberTexts) + "}") == "{" + Joined(memberTexts) + "}";
    }
  }

  /** Printable ASCII that needs no backslash. */
  ghost predicate Plain(s: string) {
    forall i :: 0 <= i < |s| ==> 0x20 <= s[i] as int <= 0x7e && s[i] != '\"' && s[i] != '\\'
  }

  /** Plain text is printed as it is, in double quotes. */
  lemma PlainFormat(s: string)
    requires Plain(s)
    ensures Text(Str(s)) == "\"" + s + "\""
  {
    PlainEscapes(s);
  }

  lemma {:induction false} PlainEscapes(s: string)
    requires Plain(s)
    ensures EscapeAll(s) == s
  {
    if s != "" {
      PlainEscapes(s[1..]);
      assert s == [s[0]] + s[1..];
    }
  }

  /** The seven short escapes. */
  lemma ShortFormat()
    ensures EscapeChar('\"') == "\\\"" && EscapeChar('\\') == "\\\\"
    ensures EscapeChar('\n') == "\\n" && EscapeChar('\r') == "\\r" && EscapeChar('\t') == "\\t"
    ensures EscapeChar(0x08 as char) == "\\b" && EscapeChar(0x0c as char) == "\\f"
  {
  }

  /** `\u` and four lower-case hexadecimal digits. */
  ghost predicate UnitText(t: string, u: nat) {
    && |t| == 6 && t[0] == '\\' && t[1] == 'u'
    && HexOf(t[2]).Some? && HexOf(t[3]).Some? && HexOf(t[4]).Some? && HexOf(t[5]).Some?
    && (forall i :: 2 <= i < 6 ==> !('A' <= t[i] <= 'F'))
    && u == HexOf(t[2]).value * 0x1000 + HexOf(t[3]).value * 0x100 + HexOf(t[4]).value * 0x10 + HexOf(t[5]).value
  }

  lemma UnitFormat(u: nat)
    requires u < 0x1_0000
    ensures UnitText(UnitEscape(u), u)
  {
    UnitRoundTrip(u, "");
    assert UnitEscape(u) + "" == UnitEscape(u);
    LowerHex(u / 0x1000);
    LowerHex(u / 0x100 % 16);
    LowerHex(u / 0x10 % 16);
    LowerHex(u % 16);
  }

  lemma LowerHex(d: nat)
    requires d < 16
    ensures !('A' <= HexDigit(d) <= 'F')
  {
  }

  /** Every other character that is not printable ASCII is printed as its code in that form, or as a
      pair of surrogates where it has more than 16 bits. */
  lemma EscapeFormat(c: char)
    requires c !in {'\"', '\\', '\n', '\r', '\t', 0x08 as char, 0x0c as char} && !(0x20 <= c as int <= 0x7e)
    ensures var t, n := EscapeChar(c), c as int;
            if n < 0x1_0000 then UnitText(t, n)
            else exists high: nat, low: nat :: 0xd800 <= high < 0xdc00 && 0xdc00 <= low < 0xe000
                   && |t| == 12 && UnitText(t[..6], high) && UnitText(t[6..], low)
                   && n == 0x1_0000 + (high - 0xd800) * 0x400 + (low - 0xdc00)
  {
    var n := c as int;
    if n < 0x1_0000 {
      UnitFormat(n);
    } else {
      var high, low := HighSurrogate(n), LowSurrogate(n);
      UnitFormat(high);
      UnitFormat(low);
      assert EscapeChar(c)[..6] == UnitEscape(high) && EscapeChar(c)[6..] == UnitEscape(low);
    }
  }

  /** Integers are printed in decimal, without leading zeros. */
  lemma NumberFormat(n: nat) returns (digits: string)
    ensures Text(Num(n)) == digits && (n > 0 ==> Text(Num(0 - n)) == "-" + digits)
    ensures digits != "" && (forall i :: 0 <= i < |digits| ==> '0' <= digits[i] <= '9') && DigitsValue(digits) == n
    ensures n == 0 || digits[0] != '0'
  {
    digits := NatText(n);
    DigitsOfNatText(n);
  }
}
