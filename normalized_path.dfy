// The text form of a path, as a JSONPath Normalized Path (section 2.7 of
// RFC 9535): `$` followed by one bracketed selector per segment, member
// names in single quotes with the minimal escapes, indices in decimal.
// The diff marker compares these texts by string prefix; this module
// proves that string prefix on the texts is exactly segment prefix on the
// paths, by giving a parser that inverts the text form.

module NormalizedPath {
  import opened JsonValue

  // ---------------------------------------------------------------------
  // Characters

  predicate IsDigit(c: char) {
    '0' <= c <= '9'
  }

  function Digit(d: nat): (c: char)
    requires d < 10
    ensures IsDigit(c)
  {
    ('0' as int + d) as char
  }

  /** The lower-case hexadecimal digit the standard requires in \u escapes. */
  function HexDigit(d: nat): char
    requires d < 16
  {
    if d < 10 then ('0' as int + d) as char else ('a' as int + d - 10) as char
  }

  function HexValue(c: char): (r: nat)
    ensures r < 16
  {
    if '0' <= c <= '9' then c as int - '0' as int
    else if 'a' <= c <= 'f' then c as int - 'a' as int + 10
    else 0
  }

  lemma HexRoundTrip(d: nat)
    requires d < 16
    ensures HexValue(HexDigit(d)) == d
  {
  }

  /** A name character inside the quotes: the short escapes for backspace,
      form feed, line feed, carriage return and tab, `\'` and `\\`, a
      `\u00xx` escape for the other control characters, the character
      itself otherwise. */
  function EscapeChar(c: char): (r: string)
    ensures |r| > 0 && r[0] != '\''
  {
    if c == '\'' then "\\'"
    else if c == '\\' then "\\\\"
    else if c as int == 0x08 then "\\b"
    else if c as int == 0x0C then "\\f"
    else if c as int == 0x0A then "\\n"
    else if c as int == 0x0D then "\\r"
    else if c as int == 0x09 then "\\t"
    else if c as int < 0x20 then "\\u00" + [HexDigit(c as int / 16), HexDigit(c as int % 16)]
    else [c]
  }

  function Escape(s: string): string {
    if s == [] then [] else EscapeChar(s[0]) + Escape(s[1..])
  }

  /** The decimal digits of an index, without leading zeros. */
  function DecimalText(n: nat): (r: string)
    ensures |r| > 0 && forall k | 0 <= k < |r| :: IsDigit(r[k])
  {
    if n < 10 then [Digit(n)] else DecimalText(n / 10) + [Digit(n % 10)]
  }

  // ---------------------------------------------------------------------
  // The text of a path

  function SegmentText(s: Segment): (r: string)
    ensures |r| >= 3 && r[0] == '['
  {
    match s
    case Name(n) => "['" + Escape(n) + "']"
    case Index(i) => "[" + DecimalText(i) + "]"
  }

  function SegmentsText(p: Path): string {
    if p == [] then "" else SegmentText(p[0]) + SegmentsText(p[1..])
  }

  /** NormalizedPath.String(): the root is `$`. */
  function Text(p: Path): (r: string)
    ensures |r| > 0 && r[0] == '$'
  {
    "$" + SegmentsText(p)
  }

  // ---------------------------------------------------------------------
  // Reading a text back

  function ParseChar(s: string): (r: Option<(char, string)>)
    requires |s| > 0
    ensures r.Some? ==> |r.value.1| < |s|
  {
    if s[0] != '\\' then Some((s[0], s[1..]))
    else if |s| < 2 then None
    else if s[1] == '\'' || s[1] == '\\' then Some((s[1], s[2..]))
    else if s[1] == 'b' then Some((0x08 as char, s[2..]))
    else if s[1] == 'f' then Some((0x0C as char, s[2..]))
    else if s[1] == 'n' then Some((0x0A as char, s[2..]))
    else if s[1] == 'r' then Some((0x0D as char, s[2..]))
    else if s[1] == 't' then Some((0x09 as char, s[2..]))
    else if s[1] == 'u' && |s| >= 6 then Some(((16 * HexValue(s[4]) + HexValue(s[5])) as char, s[6..]))
    else None
  }

  /** Reads an escaped name up to its closing `']`. */
  function ParseName(s: string): (r: Option<(string, string)>)
    ensures r.Some? ==> |r.value.1| < |s|
    decreases |s|
  {
    if |s| == 0 then None
    else if s[0] == '\'' then
      if |s| >= 2 && s[1] == ']' then Some(([], s[2..])) else None
    else
      match ParseChar(s)
      case None => None
      case Some((c, rest)) =>
        match ParseName(rest)
        case None => None
        case Some((n, tail)) => Some(([c] + n, tail))
  }

  function LeadingDigits(s: string): (k: nat)
    ensures k <= |s|
  {
    if |s| > 0 && IsDigit(s[0]) then 1 + LeadingDigits(s[1..]) else 0
  }

  function DigitsValue(ds: string): nat {
    if ds == [] then 0
    else 10 * DigitsValue(ds[..|ds| - 1]) + (ds[|ds| - 1] as int - '0' as int) % 10
  }

  /** Reads decimal digits up to the closing `]`. */
  function ParseIndex(s: string): (r: Option<(nat, string)>)
    ensures r.Some? ==> |r.value.1| < |s|
  {
    var k := LeadingDigits(s);
    if k == 0 || k == |s| || s[k] != ']' then None
    else Some((DigitsValue(s[..k]), s[k + 1..]))
  }

  function ParseSegment(s: string): (r: Option<(Segment, string)>)
    ensures r.Some? ==> |r.value.1| < |s|
  {
    if |s| < 2 || s[0] != '[' then None
    else if s[1] == '\'' then
      match ParseName(s[2..])
      case None => None
      case Some((n, rest)) => Some((Name(n), rest))
    else
      match ParseIndex(s[1..])
      case None => None
      case Some((i, rest)) => Some((Index(i), rest))
  }

  function ParseSegments(s: string): (r: Option<Path>)
    decreases |s|
  {
    if s == [] then Some([])
    else
      match ParseSegment(s)
      case None => None
      case Some((seg, rest)) =>
        match ParseSegments(rest)
        case None => None
        case Some(p) => Some([seg] + p)
  }

  function Parse(s: string): Option<Path> {
    if |s| == 0 || s[0] != '$' then None else ParseSegments(s[1..])
  }

  // ---------------------------------------------------------------------
  // Round trips

  lemma ParseEscapedChar(c: char, rest: string)
    ensures ParseChar(EscapeChar(c) + rest) == Some((c, rest))
  {
    var e := EscapeChar(c);
    var s := e + rest;
    if c as int < 0x20 && c as int !in {0x08, 0x0C, 0x0A, 0x0D, 0x09} {
      var hi, lo := c as int / 16, c as int % 16;
      assert e == ['\\', 'u', '0', '0', HexDigit(hi), HexDigit(lo)];
      assert s[4] == HexDigit(hi) && s[5] == HexDigit(lo);
      HexRoundTrip(hi);
      HexRoundTrip(lo);
      assert s[6..] == rest;
    } else if |e| == 2 {
      assert s[2..] == rest;
    } else {
      assert s[1..] == rest;
    }
  }

  lemma {:induction false} ParseEscapedName(n: string, rest: string)
    ensures ParseName(Escape(n) + "']" + rest) == Some((n, rest))
    decreases |n|
  {
    var s := Escape(n) + "']" + rest;
    if n == [] {
      assert s == "']" + rest;
      assert s[2..] == rest;
    } else {
      var tail := Escape(n[1..]) + "']" + rest;
      assert s == EscapeChar(n[0]) + tail;
      ParseEscapedChar(n[0], tail);
      ParseEscapedName(n[1..], rest);
      assert [n[0]] + n[1..] == n;
    }
  }

  lemma {:induction false} DecimalValue(n: nat)
    ensures DigitsValue(DecimalText(n)) == n
  {
    if n >= 10 {
      var ds := DecimalText(n);
      assert ds[..|ds| - 1] == DecimalText(n / 10);
      DecimalValue(n / 10);
    }
  }

  lemma {:induction false} LeadingDigitsOf(ds: string, rest: string)
    requires forall k | 0 <= k < |ds| :: IsDigit(ds[k])
    requires rest == [] || !IsDigit(rest[0])
    ensures LeadingDigits(ds + rest) == |ds|
  {
    if ds == [] {
      assert ds + rest == rest;
    } else {
      assert (ds + rest)[1..] == ds[1..] + rest;
      LeadingDigitsOf(ds[1..], rest);
    }
  }

  lemma ParseNameText(n: string, rest: string)
    ensures ParseSegment(SegmentText(Name(n)) + rest) == Some((Name(n), rest))
  {
    var s := SegmentText(Name(n)) + rest;
    assert s == "['" + (Escape(n) + "']" + rest);
    assert s[2..] == Escape(n) + "']" + rest;
    ParseEscapedName(n, rest);
  }

  lemma ParseDigits(ds: string, rest: string)
    requires |ds| > 0 && forall k | 0 <= k < |ds| :: IsDigit(ds[k])
    ensures ParseIndex(ds + ("]" + rest)) == Some((DigitsValue(ds), rest))
  {
    var t := ds + ("]" + rest);
    LeadingDigitsOf(ds, "]" + rest);
    assert t[|ds|] == ']';
    assert t[..|ds|] == ds;
    assert t[|ds| + 1..] == rest;
  }

  lemma ParseIndexText(i: nat, rest: string)
    ensures ParseSegment(SegmentText(Index(i)) + rest) == Some((Index(i), rest))
  {
    var ds := DecimalText(i);
    var s := SegmentText(Index(i)) + rest;
    var t := ds + ("]" + rest);
    assert s == "[" + t;
    assert s[1..] == t;
    assert s[1] == ds[0];
    ParseDigits(ds, rest);
    DecimalValue(i);
  }

  lemma ParseSegmentText(seg: Segment, rest: string)
    ensures ParseSegment(SegmentText(seg) + rest) == Some((seg, rest))
  {
    match seg
    case Name(n) => ParseNameText(n, rest);
    case Index(i) => ParseIndexText(i, rest);
  }

  /** Segment texts form a prefix code: a text that starts with two segment
      texts determines both. */
  lemma SameFirstSegment(s: Segment, t: Segment, x: string, y: string)
    requires SegmentText(s) + x == SegmentText(t) + y
    ensures s == t && x == y
  {
    ParseSegmentText(s, x);
    ParseSegmentText(t, y);
  }

  /** Reading the text of a path gives the path back. */
  lemma {:induction false} ParseText(p: Path)
    ensures Parse(Text(p)) == Some(p)
  {
    assert Text(p)[1..] == SegmentsText(p);
    ParseSegmentsText(p);
  }

  lemma {:induction false} ParseSegmentsText(p: Path)
    ensures ParseSegments(SegmentsText(p)) == Some(p)
  {
    if p != [] {
      ParseSegmentText(p[0], SegmentsText(p[1..]));
      ParseSegmentsText(p[1..]);
      assert [p[0]] + p[1..] == p;
    }
  }

  /** Different paths have different texts. */
  lemma TextInjective(p: Path, q: Path)
    requires Text(p) == Text(q)
    ensures p == q
  {
    ParseText(p);
    ParseText(q);
  }

  // ---------------------------------------------------------------------
  // Prefixes

  lemma {:induction false} SegmentsTextConcat(p: Path, q: Path)
    ensures SegmentsText(p + q) == SegmentsText(p) + SegmentsText(q)
  {
    if p == [] {
      assert p + q == q;
    } else {
      assert (p + q)[1..] == p[1..] + q;
      SegmentsTextConcat(p[1..], q);
    }
  }

  lemma StringAssoc(a: string, b: string, c: string)
    ensures (a + b) + c == a + (b + c)
  {
  }

  /** A prefix followed by the rest of the string is the string. */
  lemma PrefixRest(a: string, b: string)
    requires IsPrefix(a, b)
    ensures b == a + b[|a|..]
  {
  }

  /** A text of segments that starts with the text of p's segments, where
      p is not empty, starts with the text of p's first segment. */
  lemma PrefixStep(p: Path, q: Path)
    requires p != [] && IsPrefix(SegmentsText(p), SegmentsText(q))
    ensures q != [] && p[0] == q[0] && IsPrefix(SegmentsText(p[1..]), SegmentsText(q[1..]))
  {
    var a, b := SegmentsText(p), SegmentsText(q);
    var a' := SegmentsText(p[1..]);
    var z := b[|a|..];
    PrefixRest(a, b);
    assert a == SegmentText(p[0]) + a';
    assert q != [] by {
      assert |b| >= |a| >= 3;
    }
    var b' := SegmentsText(q[1..]);
    assert b == SegmentText(q[0]) + b';
    StringAssoc(SegmentText(p[0]), a', z);
    SameFirstSegment(p[0], q[0], a' + z, b');
    assert IsPrefix(a', a' + z);
  }

  /** Prefixes with the same head: the tails decide. */
  lemma PrefixCons(p: Path, q: Path)
    requires p != [] && q != [] && p[0] == q[0] && IsPrefix(p[1..], q[1..])
    ensures IsPrefix(p, q)
  {
    forall i | 0 <= i < |p| ensures q[i] == p[i] {
      if i > 0 {
        assert q[1..][i - 1] == p[1..][i - 1];
      }
    }
    assert q[..|p|] == p;
  }

  lemma {:induction false} SegmentsPrefixOnlyIf(p: Path, q: Path)
    requires IsPrefix(SegmentsText(p), SegmentsText(q))
    ensures IsPrefix(p, q)
  {
    if p != [] {
      PrefixStep(p, q);
      SegmentsPrefixOnlyIf(p[1..], q[1..]);
      PrefixCons(p, q);
    }
  }

  lemma SegmentsPrefix(p: Path, q: Path)
    ensures IsPrefix(SegmentsText(p), SegmentsText(q)) <==> IsPrefix(p, q)
  {
    if IsPrefix(p, q) {
      assert q == p + q[|p|..];
      SegmentsTextConcat(p, q[|p|..]);
    }
    if IsPrefix(SegmentsText(p), SegmentsText(q)) {
      SegmentsPrefixOnlyIf(p, q);
    }
  }

  /** The marking test of the diff view: the text of one path is a string
      prefix of the text of another exactly when the first path is a
      segment prefix of the second, that is, names the same node or an
      ancestor of it. */
  lemma TextPrefix(p: Path, q: Path)
    ensures IsPrefix(Text(p), Text(q)) <==> IsPrefix(p, q)
  {
    var a, b := SegmentsText(p), SegmentsText(q);
    assert Text(q)[..|Text(p)|] == "$" + b[..|a|] <== |a| <= |b|;
    if IsPrefix(Text(p), Text(q)) {
      assert Text(p)[1..] == a && Text(q)[1..] == b;
      assert b[..|a|] == Text(q)[..|Text(p)|][1..];
    }
    SegmentsPrefix(p, q);
  }

  /** A member whose name extends a sibling's name is not taken for its
      child: the text of `foo` is no prefix of the text of `foobar`,
      because the closing quote and bracket differ. */
  lemma SiblingNamesDoNotNest()
    ensures !IsPrefix(Text([Name("foo")]), Text([Name("foobar")]))
  {
    TextPrefix([Name("foo")], [Name("foobar")]);
  }
}
