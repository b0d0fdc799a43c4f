/** Small shared vocabulary: optional values, and the Python string operations the
    services rely on (truthiness, `strip`, `rstrip`). */
module Basics {

  datatype Option<+T> = None | Some(value: T)

  /** Python truthiness of an optional string: neither absent nor empty. */
  predicate Truthy(s: Option<string>) {
    s.Some? && s.value != ""
  }

  /** The string itself, or "" when it is absent. */
  function OrEmpty(s: Option<string>): string {
    if s.Some? then s.value else ""
  }

  /** The characters `str.strip()` removes (Python's `str.isspace`). */
  predicate IsSpace(c: char) {
    var n := c as int;
    || 0x09 <= n <= 0x0d || 0x1c <= n <= 0x20 || n == 0x85 || n == 0xa0 || n == 0x1680
    || 0x2000 <= n <= 0x200a || n == 0x2028 || n == 0x2029 || n == 0x202f || n == 0x205f || n == 0x3000
  }

  /** In ASCII these are tab to carriage return, the four information separators and the blank. */
  lemma AsciiSpaces(c: char)
    requires c as int < 0x80
    ensures IsSpace(c) <==> c == ' ' || '\t' <= c <= '\r' || '\U{1c}' <= c <= '\U{1f}'
  {
  }

  function LStrip(s: string): (r: string)
    ensures r == "" || !IsSpace(r[0])
    ensures |r| <= |s| && r == s[|s| - |r|..]
  {
    if s != "" && IsSpace(s[0]) then LStrip(s[1..]) else s
  }

  function RStrip(s: string): (r: string)
    ensures r == "" || !IsSpace(r[|r| - 1])
    ensures |r| <= |s| && r == s[..|r|]
  {
    if s != "" && IsSpace(s[|s| - 1]) then RStrip(s[..|s| - 1]) else s
  }

  function Strip(s: string): string {
    RStrip(LStrip(s))
  }

  /** `s.strip()` takes white space off both ends, all of it and nothing else. */
  lemma StripIs(s: string) returns (before: string, after: string)
    ensures s == before + (Strip(s) + after) && Blank(before) && Blank(after)
    ensures Strip(s) != "" ==> !IsSpace(Strip(s)[0]) && !IsSpace(Strip(s)[|Strip(s)| - 1])
  {
    var left := LStrip(s);
    before := LStripParts(s);
    after := RStripParts(left);
    StripEnds(s);
  }

  lemma LStripParts(s: string) returns (before: string)
    ensures s == before + LStrip(s) && Blank(before)
  {
    before := s[..|s| - |LStrip(s)|];
    LStripDrops(s);
  }

  lemma RStripParts(s: string) returns (after: string)
    ensures s == RStrip(s) + after && Blank(after)
  {
    after := s[|RStrip(s)|..];
    RStripDrops(s);
  }

  /** What is left neither starts nor ends with white space. */
  lemma StripEnds(s: string)
    ensures Strip(s) != "" ==> !IsSpace(Strip(s)[0]) && !IsSpace(Strip(s)[|Strip(s)| - 1])
  {
  }

  lemma StripBlank(s: string)
    ensures Strip(s) == "" <==> Blank(s)
  {
    var before, after := StripIs(s);
    if Strip(s) != "" {
      assert s[|before|] == Strip(s)[0];
    } else {
      assert forall i :: 0 <= i < |s| ==> s[i] == if i < |before| then before[i] else after[i - |before|];
    }
  }

  ghost predicate Blank(s: string) {
    forall i :: 0 <= i < |s| ==> IsSpace(s[i])
  }

  lemma {:induction false} LStripDrops(s: string)
    ensures Blank(s[..|s| - |LStrip(s)|])
  {
    if s != "" && IsSpace(s[0]) {
      LStripDrops(s[1..]);
      assert forall i :: 0 < i < |s| - |LStrip(s)| ==> s[i] == s[1..][..|s[1..]| - |LStrip(s[1..])|][i - 1];
    }
  }

  lemma {:induction false} RStripDrops(s: string)
    ensures Blank(s[|RStrip(s)|..])
  {
    if s != "" && IsSpace(s[|s| - 1]) {
      var front := s[..|s| - 1];
      RStripDrops(front);
      assert forall i :: |RStrip(s)| <= i < |front| ==> s[i] == front[|RStrip(front)|..][i - |RStrip(front)|];
    }
  }

  /** `s.rstrip(c)` for one character. */
  function RStripChar(s: string, c: char): (r: string)
    ensures r == "" || r[|r| - 1] != c
    ensures |r| <= |s| && r == s[..|r|]
  {
    if s != "" && s[|s| - 1] == c then RStripChar(s[..|s| - 1], c) else s
  }

  /** Only the character itself is removed. */
  lemma {:induction false} RStripCharDrops(s: string, c: char)
    ensures forall i :: |RStripChar(s, c)| <= i < |s| ==> s[i] == c
  {
    if s != "" && s[|s| - 1] == c {
      RStripCharDrops(s[..|s| - 1], c);
    }
  }

  /** Decimal text of a natural number. */
  function NatText(n: nat): (t: string)
    ensures t != "" && forall i :: 0 <= i < |t| ==> '0' <= t[i] <= '9'
  {
    if n < 10 then [DigitChar(n)] else NatText(n / 10) + [DigitChar(n % 10)]
  }

  function DigitChar(d: nat): char
    requires d < 10
  {
    '0' + (d as char)
  }

  function DigitsValue(t: string): nat
    requires forall i :: 0 <= i < |t| ==> '0' <= t[i] <= '9'
  {
    if t == "" then 0 else 10 * DigitsValue(t[..|t| - 1]) + (t[|t| - 1] - '0') as nat
  }

  lemma {:induction false} DigitsOfNatText(n: nat)
    ensures DigitsValue(NatText(n)) == n && (n > 0 ==> NatText(n)[0] != '0') && (n == 0 ==> NatText(n) == "0")
  {
    if n < 10 {
      assert NatText(n)[..0] == "";
    } else {
      DigitsOfNatText(n / 10);
      assert NatText(n)[..|NatText(n)| - 1] == NatText(n / 10);
    }
  }

  /** Lists that are related place by place stay so behind one more related pair. */
  lemma PairedNext<A, B>(a: A, more: seq<A>, b: B, others: seq<B>, related: (A, B) -> bool)
    requires |more| == |others| && related(a, b) && forall k :: 0 <= k < |more| ==> related(more[k], others[k])
    ensures forall k :: 0 <= k <= |more| ==> related(([a] + more)[k], ([b] + others)[k])
  {
  }

  /** A loop over a set, part of the way: what is still to come and what was looked at. */
  ghost predicate LookedAt<T>(all: set<T>, todo: set<T>, done: set<T>) {
    todo + done == all && todo !! done
  }

  lemma LookedAtStart<T>(all: set<T>)
    ensures LookedAt(all, all, {})
  {
    assert all + {} == all;
  }

  lemma LookedAtNext<T>(all: set<T>, todo: set<T>, done: set<T>, x: T)
    requires LookedAt(all, todo, done) && x in todo
    ensures x !in done && LookedAt(all, todo - {x}, done + {x})
  {
    assert (todo - {x}) + (done + {x}) == todo + done;
  }

  lemma LookedAtEnd<T>(all: set<T>, done: set<T>)
    requires LookedAt(all, {}, done)
    ensures done == all
  {
    assert {} + done == done;
  }

  lemma Assoc(a: string, b: string, c: string)
    ensures a + b + c == a + (b + c)
  {
  }
}
