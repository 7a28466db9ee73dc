/*
 * The pretty-printer behind the diff view (diff.go, generateLines and its
 * helpers): the subset tree written out one line at a time, two spaces of
 * indentation per level, each line tagged with the location it shows.
 *
 * Lines / ObjectLines / MembersLines / KeyValueLines / ArrayLines /
 * ElementsLines specify the list; the Generate methods are the source's
 * append loops, proved to build exactly that list.
 */
module Render {
  import opened JsonValue

  /** One output line and the location of the node it belongs to. */
  datatype Line = Line(content: string, path: Path)

  /** The two formatting calls whose text is not fixed here: %q of a
      string, and the number text (%.0f for integral values, %v
      otherwise). */
  datatype Formatter = Formatter(quote: string -> string, numText: real -> string)

  /** strings.Repeat("  ", n) */
  function Indent(n: nat): (r: string)
    ensures |r| == 2 * n && forall k | 0 <= k < |r| :: r[k] == ' '
  {
    if n == 0 then "" else Indent(n - 1) + "  "
  }

  /** formatPrimitive, for the values it is called on (never an object or
      an array). */
  function FormatPrimitive(v: Json, f: Formatter): (r: string)
    requires !v.Obj? && !v.Arr?
    ensures v.Null? ==> r == "null"
    ensures v.Bool? ==> r == (if v.b then "true" else "false")
    ensures v.Str? ==> r == f.quote(v.s)
    ensures v.Num? ==> r == f.numText(v.n)
  {
    match v
    case Str(s) => f.quote(s)
    case Num(n) => f.numText(n)
    case Bool(b) => if b then "true" else "false"
    case Null => "null"
  }

  /** The separator after entry i of count: none after the last. */
  function Comma(i: nat, count: nat): string {
    if i == count - 1 then "" else ","
  }

  /** The list with `suffix` added to the content of its last line. */
  function WithSuffix(ls: seq<Line>, suffix: string): seq<Line> {
    if ls == [] then []
    else ls[..|ls| - 1] + [ls[|ls| - 1].(content := ls[|ls| - 1].content + suffix)]
  }

  // ---------------------------------------------------------------------
  // Specification of the line list

  /** generateLines: an object or array between its brackets, anything
      else on one line. */
  function Lines(v: Json, path: Path, indent: nat, f: Formatter): seq<Line>
    decreases v, 2, 0
  {
    match v
    case Obj(fs) => ObjectLines(fs, path, indent, f)
    case Arr(es) => ArrayLines(es, path, indent, f)
    case _ => [Line(Indent(indent) + FormatPrimitive(v, f), path)]
  }

  function ObjectLines(fs: seq<(string, Json)>, path: Path, indent: nat, f: Formatter): seq<Line>
    decreases Obj(fs), 1, 0
  {
    [Line(Indent(indent) + "{", path)]
      + MembersLines(fs, path, indent + 1, |fs|, f)
      + [Line(Indent(indent) + "}", path)]
  }

  /** The lines of the first n members, each written as `"key": value`. */
  function MembersLines(fs: seq<(string, Json)>, path: Path, indent: nat, n: nat, f: Formatter): seq<Line>
    requires n <= |fs|
    decreases Obj(fs), 0, n
  {
    if n == 0 then []
    else
      var (key, value) := fs[n - 1];
      MembersLines(fs, path, indent, n - 1, f) + KeyValueLines(key, value, path + [Name(key)], indent, Comma(n - 1, |fs|), f)
  }

  function ArrayLines(es: seq<Json>, path: Path, indent: nat, f: Formatter): seq<Line>
    decreases Arr(es), 1, 0
  {
    [Line(Indent(indent) + "[", path)]
      + ElementsLines(es, path, indent + 1, |es|, f)
      + [Line(Indent(indent) + "]", path)]
  }

  /** The lines of the first n elements, the separator patched onto each
      element's last line. */
  function ElementsLines(es: seq<Json>, path: Path, indent: nat, n: nat, f: Formatter): seq<Line>
    requires n <= |es|
    decreases Arr(es), 0, n
  {
    if n == 0 then []
    else
      var element := WithSuffix(Lines(es[n - 1], path + [Index(n - 1)], indent, f), Comma(n - 1, |es|));
      ElementsLines(es, path, indent, n - 1, f) + element
  }

  /** generateKeyValueLines: a member, its quoted key on the first line and
      `comma` after its last. */
  function KeyValueLines(key: string, value: Json, path: Path, indent: nat, comma: string, f: Formatter): seq<Line>
    decreases value, 3, 0
  {
    var pad := Indent(indent);
    match value
    case Obj(fs) =>
      [Line(pad + f.quote(key) + ": {", path)]
        + MembersLines(fs, path, indent + 1, |fs|, f)
        + [Line(pad + "}" + comma, path)]
    case Arr(es) =>
      [Line(pad + f.quote(key) + ": [", path)]
        + ElementsLines(es, path, indent + 1, |es|, f)
        + [Line(pad + "]" + comma, path)]
    case _ => [Line(pad + f.quote(key) + ": " + FormatPrimitive(value, f) + comma, path)]
  }

  // ---------------------------------------------------------------------
  // The generators

  /** Appending to the content of the last line, as the loops do it. */
  lemma PatchLast(ls: seq<Line>, suffix: string)
    ensures |ls| > 0 ==> ls[|ls| - 1 := ls[|ls| - 1].(content := ls[|ls| - 1].content + suffix)] == WithSuffix(ls, suffix)
    ensures |ls| == 0 ==> ls == WithSuffix(ls, suffix)
  {
  }

  lemma AppendAssoc(a: seq<Line>, b: seq<Line>, c: seq<Line>)
    ensures (a + b) + c == a + (b + c)
  {
  }

  lemma ElementsLinesStep(es: seq<Json>, path: Path, indent: nat, i: nat, f: Formatter)
    requires i < |es|
    ensures ElementsLines(es, path, indent, i + 1, f)
         == ElementsLines(es, path, indent, i, f) + WithSuffix(Lines(es[i], path + [Index(i)], indent, f), Comma(i, |es|))
  {
  }

  /** One more element appended after the opening line. */
  lemma ElementsLinesGrow(open: Line, es: seq<Json>, path: Path, indent: nat, i: nat, f: Formatter, child: seq<Line>)
    requires i < |es|
    requires child == WithSuffix(Lines(es[i], path + [Index(i)], indent, f), Comma(i, |es|))
    ensures [open] + ElementsLines(es, path, indent, i, f) + child == [open] + ElementsLines(es, path, indent, i + 1, f)
  {
    ElementsLinesStep(es, path, indent, i, f);
    AppendAssoc([open], ElementsLines(es, path, indent, i, f), child);
  }

  /** One more member appended after the opening line. */
  lemma MembersLinesGrow(open: Line, fs: seq<(string, Json)>, path: Path, indent: nat, i: nat, f: Formatter, child: seq<Line>)
    requires i < |fs|
    requires child == KeyValueLines(fs[i].0, fs[i].1, path + [Name(fs[i].0)], indent, Comma(i, |fs|), f)
    ensures [open] + MembersLines(fs, path, indent, i, f) + child == [open] + MembersLines(fs, path, indent, i + 1, f)
  {
    assert MembersLines(fs, path, indent, i + 1, f) == MembersLines(fs, path, indent, i, f) + child;
    AppendAssoc([open], MembersLines(fs, path, indent, i, f), child);
  }

  /** The in-place patch of the element loops: the separator appended to
      the content of the last line, if there is one. */
  method AppendToLast(ls: seq<Line>, suffix: string) returns (patched: seq<Line>)
    ensures patched == WithSuffix(ls, suffix)
  {
    patched := ls;
    if |patched| > 0 {
      var lastIdx := |patched| - 1;
      patched := patched[lastIdx := patched[lastIdx].(content := patched[lastIdx].content + suffix)];
    }
    PatchLast(ls, suffix);
  }

  method GenerateLines(value: Json, path: Path, indent: nat, f: Formatter) returns (lines: seq<Line>)
    ensures lines == Lines(value, path, indent, f)
    decreases value, 1
  {
    match value
    case Obj(fs) =>
      lines := GenerateObjectLines(fs, path, indent, f);
    case Arr(es) =>
      lines := GenerateArrayLines(es, path, indent, f);
    case _ =>
      lines := [Line(Indent(indent) + FormatPrimitive(value, f), path)];
  }

  method GenerateObjectLines(obj: seq<(string, Json)>, path: Path, indent: nat, f: Formatter) returns (lines: seq<Line>)
    ensures lines == ObjectLines(obj, path, indent, f)
    decreases Obj(obj), 0
  {
    var indentStr := Indent(indent);
    var open := Line(indentStr + "{", path);
    lines := [open];
    for i := 0 to |obj|
      invariant lines == [open] + MembersLines(obj, path, indent + 1, i, f)
    {
      var (key, childValue) := obj[i];
      var childPath := path + [Name(key)];
      var comma := ",";
      if i == |obj| - 1 {
        comma := "";
      }
      var childLines := GenerateKeyValueLines(key, childValue, childPath, indent + 1, comma, f);
      assert comma == Comma(i, |obj|);
      MembersLinesGrow(open, obj, path, indent + 1, i, f, childLines);
      lines := lines + childLines;
    }
    var close := Line(indentStr + "}", path);
    assert ObjectLines(obj, path, indent, f) == [open] + MembersLines(obj, path, indent + 1, |obj|, f) + [close];
    lines := lines + [close];
  }

  method GenerateArrayLines(arr: seq<Json>, path: Path, indent: nat, f: Formatter) returns (lines: seq<Line>)
    ensures lines == ArrayLines(arr, path, indent, f)
    decreases Arr(arr), 0
  {
    var indentStr := Indent(indent);
    var open := Line(indentStr + "[", path);
    lines := [open];
    for i := 0 to |arr|
      invariant lines == [open] + ElementsLines(arr, path, indent + 1, i, f)
    {
      var childPath := path + [Index(i)];
      var comma := ",";
      if i == |arr| - 1 {
        comma := "";
      }
      var childLines := GenerateLines(arr[i], childPath, indent + 1, f);
      childLines := AppendToLast(childLines, comma);
      assert comma == Comma(i, |arr|);
      ElementsLinesGrow(open, arr, path, indent + 1, i, f, childLines);
      lines := lines + childLines;
    }
    var close := Line(indentStr + "]", path);
    assert ArrayLines(arr, path, indent, f) == [open] + ElementsLines(arr, path, indent + 1, |arr|, f) + [close];
    lines := lines + [close];
  }

  method GenerateKeyValueLines(key: string, value: Json, path: Path, indent: nat, comma: string, f: Formatter)
    returns (lines: seq<Line>)
    ensures lines == KeyValueLines(key, value, path, indent, comma, f)
    decreases value, 2
  {
    match value
    case Obj(fs) =>
      lines := GenerateKeyObjectLines(key, fs, path, indent, comma, f);
    case Arr(es) =>
      lines := GenerateKeyArrayLines(key, es, path, indent, comma, f);
    case _ =>
      lines := [Line(Indent(indent) + f.quote(key) + ": " + FormatPrimitive(value, f) + comma, path)];
  }

  /** The object case of generateKeyValueLines. */
  method GenerateKeyObjectLines(key: string, fs: seq<(string, Json)>, path: Path, indent: nat, comma: string, f: Formatter)
    returns (lines: seq<Line>)
    ensures lines == KeyValueLines(key, Obj(fs), path, indent, comma, f)
    decreases Obj(fs), 1
  {
    var indentStr := Indent(indent);
    var open := Line(indentStr + f.quote(key) + ": {", path);
    lines := [open];
    for i := 0 to |fs|
      invariant lines == [open] + MembersLines(fs, path, indent + 1, i, f)
    {
      var (childKey, childValue) := fs[i];
      var childPath := path + [Name(childKey)];
      var childComma := ",";
      if i == |fs| - 1 {
        childComma := "";
      }
      var childLines := GenerateKeyValueLines(childKey, childValue, childPath, indent + 1, childComma, f);
      assert childComma == Comma(i, |fs|);
      MembersLinesGrow(open, fs, path, indent + 1, i, f, childLines);
      lines := lines + childLines;
    }
    var close := Line(indentStr + "}" + comma, path);
    assert KeyValueLines(key, Obj(fs), path, indent, comma, f) == [open] + MembersLines(fs, path, indent + 1, |fs|, f) + [close];
    lines := lines + [close];
  }

  /** The array case of generateKeyValueLines. */
  method GenerateKeyArrayLines(key: string, es: seq<Json>, path: Path, indent: nat, comma: string, f: Formatter)
    returns (lines: seq<Line>)
    ensures lines == KeyValueLines(key, Arr(es), path, indent, comma, f)
    decreases Arr(es), 1
  {
    var indentStr := Indent(indent);
    var open := Line(indentStr + f.quote(key) + ": [", path);
    lines := [open];
    for i := 0 to |es|
      invariant lines == [open] + ElementsLines(es, path, indent + 1, i, f)
    {
      var childPath := path + [Index(i)];
      var childComma := ",";
      if i == |es| - 1 {
        childComma := "";
      }
      var childLines := GenerateLines(es[i], childPath, indent + 1, f);
      childLines := AppendToLast(childLines, childComma);
      assert childComma == Comma(i, |es|);
      ElementsLinesGrow(open, es, path, indent + 1, i, f, childLines);
      lines := lines + childLines;
    }
    var close := Line(indentStr + "]" + comma, path);
    assert KeyValueLines(key, Arr(es), path, indent, comma, f) == [open] + ElementsLines(es, path, indent + 1, |es|, f) + [close];
    lines := lines + [close];
  }

  // ---------------------------------------------------------------------
  // Properties of the layout

  /** The location of every line. */
  function Paths(ls: seq<Line>): (r: seq<Path>)
    ensures |r| == |ls| && forall k | 0 <= k < |ls| :: r[k] == ls[k].path
  {
    seq(|ls|, k requires 0 <= k < |ls| => ls[k].path)
  }

  lemma PathsConcat(a: seq<Line>, b: seq<Line>)
    ensures Paths(a + b) == Paths(a) + Paths(b)
  {
  }

  /** Patching the last line changes no line's location. */
  lemma WithSuffixPaths(ls: seq<Line>, suffix: string)
    ensures Paths(WithSuffix(ls, suffix)) == Paths(ls)
  {
  }

  /** A member is laid out at the same locations as the bare value: only
      the key and the separator are added to the contents. */
  lemma KeyValuePaths(key: string, value: Json, path: Path, indent: nat, comma: string, f: Formatter)
    ensures Paths(KeyValueLines(key, value, path, indent, comma, f)) == Paths(Lines(value, path, indent, f))
  {
    var pad := Indent(indent);
    match value
    case Obj(fs) =>
      var mid := MembersLines(fs, path, indent + 1, |fs|, f);
      BracketPaths(Line(pad + f.quote(key) + ": {", path), mid, Line(pad + "}" + comma, path));
      BracketPaths(Line(pad + "{", path), mid, Line(pad + "}", path));
    case Arr(es) =>
      var mid := ElementsLines(es, path, indent + 1, |es|, f);
      BracketPaths(Line(pad + f.quote(key) + ": [", path), mid, Line(pad + "]" + comma, path));
      BracketPaths(Line(pad + "[", path), mid, Line(pad + "]", path));
    case _ =>
  }

  /** Every line shows a node of the value: its location lies at or below
      `path`, and the remainder addresses a node of `v`. */
  ghost predicate Locates(ps: seq<Path>, v: Json, path: Path) {
    forall k | 0 <= k < |ps| :: LocatedAt(ps[k], v, path)
  }

  /** `p` is at or below `path`, at a node of `v`. */
  ghost predicate LocatedAt(p: Path, v: Json, path: Path) {
    IsPrefix(path, p) && At(v, p[|path|..]).Some?
  }

  lemma LocatesConcat(a: seq<Path>, b: seq<Path>, v: Json, path: Path)
    requires Locates(a, v, path) && Locates(b, v, path)
    ensures Locates(a + b, v, path)
  {
    forall k | 0 <= k < |a + b| ensures LocatedAt((a + b)[k], v, path) {
      if k < |a| {
        assert (a + b)[k] == a[k];
      } else {
        assert (a + b)[k] == b[k - |a|];
      }
    }
  }

  /** Every location of a node of `v` below `path` is the location of some
      line. */
  ghost predicate Covers(ps: seq<Path>, v: Json, path: Path) {
    forall q: Path | At(v, q).Some? :: path + q in ps
  }

  /** Bracket lines at the container's own location keep Locates. */
  lemma BracketedLocate(open: Line, mid: seq<Line>, close: Line, v: Json, path: Path)
    requires open.path == path && close.path == path
    requires Locates(Paths(mid), v, path)
    ensures Locates(Paths([open] + mid + [close]), v, path)
  {
    assert path[|path|..] == [];
    var ls := [open] + mid + [close];
    forall k | 0 <= k < |ls| ensures LocatedAt(Paths(ls)[k], v, path) {
      if 0 < k < |ls| - 1 {
        assert ls[k] == mid[k - 1];
        assert LocatedAt(Paths(mid)[k - 1], v, path);
      }
    }
  }

  lemma {:induction false} LinesLocate(v: Json, path: Path, indent: nat, f: Formatter)
    requires WellFormed(v)
    ensures Locates(Paths(Lines(v, path, indent, f)), v, path)
    decreases v, 2, 0
  {
    assert path[|path|..] == [];
    match v
    case Obj(fs) =>
      MembersLocate(fs, path, indent + 1, |fs|, f);
      BracketedLocate(Line(Indent(indent) + "{", path), MembersLines(fs, path, indent + 1, |fs|, f), Line(Indent(indent) + "}", path), v, path);
    case Arr(es) =>
      ElementsLocate(es, path, indent + 1, |es|, f);
      BracketedLocate(Line(Indent(indent) + "[", path), ElementsLines(es, path, indent + 1, |es|, f), Line(Indent(indent) + "]", path), v, path);
    case _ =>
  }

  /** The lines shown below a child sit below the parent's path, at
      locations of the parent's nodes. */
  lemma LocateLift(ps: seq<Path>, v: Json, path: Path, s: Segment, c: Json)
    requires Step(v, s) == Some(c)
    requires Locates(ps, c, path + [s])
    ensures Locates(ps, v, path)
  {
    forall k | 0 <= k < |ps| ensures LocatedAt(ps[k], v, path) {
      var p := ps[k];
      assert LocatedAt(p, c, path + [s]);
      assert p[..|path| + 1] == path + [s];
      assert p[..|path|] == path by {
        assert p[..|path|] == p[..|path| + 1][..|path|];
      }
      assert p[|path|..] == [s] + p[|path| + 1..] by {
        assert p[|path|..][0] == s;
      }
      AtCons(v, s, c, p[|path| + 1..]);
    }
  }

  lemma {:induction false} MembersLocate(fs: seq<(string, Json)>, path: Path, indent: nat, n: nat, f: Formatter)
    requires n <= |fs| && WellFormed(Obj(fs))
    ensures Locates(Paths(MembersLines(fs, path, indent, n, f)), Obj(fs), path)
    decreases Obj(fs), 0, n
  {
    if n > 0 {
      var (key, value) := fs[n - 1];
      MembersLocate(fs, path, indent, n - 1, f);
      var kv := KeyValueLines(key, value, path + [Name(key)], indent, Comma(n - 1, |fs|), f);
      PathsConcat(MembersLines(fs, path, indent, n - 1, f), kv);
      KeyValuePaths(key, value, path + [Name(key)], indent, Comma(n - 1, |fs|), f);
      LinesLocate(value, path + [Name(key)], indent, f);
      LookupSorted(fs, n - 1);
      LocateLift(Paths(kv), Obj(fs), path, Name(key), value);
      LocatesConcat(Paths(MembersLines(fs, path, indent, n - 1, f)), Paths(kv), Obj(fs), path);
    }
  }

  lemma {:induction false} ElementsLocate(es: seq<Json>, path: Path, indent: nat, n: nat, f: Formatter)
    requires n <= |es| && WellFormed(Arr(es))
    ensures Locates(Paths(ElementsLines(es, path, indent, n, f)), Arr(es), path)
    decreases Arr(es), 0, n
  {
    if n > 0 {
      ElementsLocate(es, path, indent, n - 1, f);
      var child := Lines(es[n - 1], path + [Index(n - 1)], indent, f);
      var patched := WithSuffix(child, Comma(n - 1, |es|));
      PathsConcat(ElementsLines(es, path, indent, n - 1, f), patched);
      WithSuffixPaths(child, Comma(n - 1, |es|));
      LinesLocate(es[n - 1], path + [Index(n - 1)], indent, f);
      LocateLift(Paths(patched), Arr(es), path, Index(n - 1), es[n - 1]);
      LocatesConcat(Paths(ElementsLines(es, path, indent, n - 1, f)), Paths(patched), Arr(es), path);
    }
  }

  // ---------------------------------------------------------------------
  // Every node of the value has a line

  /** The first line of a value is at the value's own location. */
  lemma FirstLine(v: Json, path: Path, indent: nat, f: Formatter)
    ensures |Lines(v, path, indent, f)| > 0 && Lines(v, path, indent, f)[0].path == path
  {
  }

  /** The member lines of the first n members include the lines of each of
      them. */
  lemma {:induction false} MembersInclude(fs: seq<(string, Json)>, path: Path, indent: nat, n: nat, i: nat, f: Formatter)
    requires i < n <= |fs|
    ensures forall x | x in Paths(KeyValueLines(fs[i].0, fs[i].1, path + [Name(fs[i].0)], indent, Comma(i, |fs|), f)) ::
      x in Paths(MembersLines(fs, path, indent, n, f))
  {
    var (key, value) := fs[n - 1];
    var kv := KeyValueLines(key, value, path + [Name(key)], indent, Comma(n - 1, |fs|), f);
    PathsConcat(MembersLines(fs, path, indent, n - 1, f), kv);
    if i < n - 1 {
      MembersInclude(fs, path, indent, n - 1, i, f);
    }
  }

  lemma {:induction false} ElementsInclude(es: seq<Json>, path: Path, indent: nat, n: nat, i: nat, f: Formatter)
    requires i < n <= |es|
    ensures forall x | x in Paths(Lines(es[i], path + [Index(i)], indent, f)) ::
      x in Paths(ElementsLines(es, path, indent, n, f))
  {
    var child := Lines(es[n - 1], path + [Index(n - 1)], indent, f);
    PathsConcat(ElementsLines(es, path, indent, n - 1, f), WithSuffix(child, Comma(n - 1, |es|)));
    WithSuffixPaths(child, Comma(n - 1, |es|));
    if i < n - 1 {
      ElementsInclude(es, path, indent, n - 1, i, f);
    }
  }

  lemma BracketPaths(open: Line, mid: seq<Line>, close: Line)
    ensures Paths([open] + mid + [close]) == [open.path] + Paths(mid) + [close.path]
  {
  }

  /** Every node of `v` is shown on some line tagged with its location. */
  lemma {:induction false} LinesCover(v: Json, path: Path, indent: nat, f: Formatter)
    ensures Covers(Paths(Lines(v, path, indent, f)), v, path)
    decreases v, 1
  {
    var ps := Paths(Lines(v, path, indent, f));
    forall q: Path | At(v, q).Some? ensures path + q in ps {
      if q == [] {
        FirstLine(v, path, indent, f);
        assert path + q == ps[0];
      } else {
        ChildCovered(v, path, indent, f, q);
      }
    }
  }

  /** A location below the value's own one, reached through a member or
      an element, has a line inside the member or element lines. */
  lemma {:induction false} ChildCovered(v: Json, path: Path, indent: nat, f: Formatter, q: Path)
    requires q != [] && At(v, q).Some?
    ensures path + q in Paths(Lines(v, path, indent, f))
    decreases v, 0
  {
    var s, rest := q[0], q[1..];
    assert q == [s] + rest;
    var c := Step(v, s).value;
    AtCons(v, s, c, rest);
    assert path + q == (path + [s]) + rest;
    LinesCover(c, path + [s], indent + 1, f);
    assert path + q in Paths(Lines(c, path + [s], indent + 1, f));
    match v
    case Obj(fs) => MemberLinesShown(fs, path, indent, f, s, c, path + q);
    case Arr(es) => ElementLinesShown(es, path, indent, f, s, c, path + q);
  }

  /** A location shown among a member's lines is shown by the object. */
  lemma MemberLinesShown(fs: seq<(string, Json)>, path: Path, indent: nat, f: Formatter, s: Segment, c: Json, x: Path)
    requires Step(Obj(fs), s) == Some(c)
    requires x in Paths(Lines(c, path + [s], indent + 1, f))
    ensures x in Paths(Lines(Obj(fs), path, indent, f))
  {
    assert s.Name?;
    var i :| 0 <= i < |fs| && fs[i] == (s.name, c);
    assert s == Name(fs[i].0);
    KeyValuePaths(s.name, c, path + [s], indent + 1, Comma(i, |fs|), f);
    MembersInclude(fs, path, indent + 1, |fs|, i, f);
    BracketPaths(Line(Indent(indent) + "{", path), MembersLines(fs, path, indent + 1, |fs|, f), Line(Indent(indent) + "}", path));
  }

  /** A location shown among an element's lines is shown by the array. */
  lemma ElementLinesShown(es: seq<Json>, path: Path, indent: nat, f: Formatter, s: Segment, c: Json, x: Path)
    requires Step(Arr(es), s) == Some(c)
    requires x in Paths(Lines(c, path + [s], indent + 1, f))
    ensures x in Paths(Lines(Arr(es), path, indent, f))
  {
    assert s.Index? && s.index < |es| && c == es[s.index];
    ElementsInclude(es, path, indent + 1, |es|, s.index, f);
    BracketPaths(Line(Indent(indent) + "[", path), ElementsLines(es, path, indent + 1, |es|, f), Line(Indent(indent) + "]", path));
  }

  // ---------------------------------------------------------------------
  // Separators and closing lines

  /** The separator after entry i of n siblings is a comma for every entry
      but the last, and nothing for the last. */
  lemma SeparatorRule(i: nat, n: nat)
    requires i < n
    ensures Comma(i, n) == "," <==> i < n - 1
    ensures Comma(i, n) == "" <==> i == n - 1
  {
  }

  /** Every value has at least one line, so the comma patch always finds a
      last line; that line carries the value's own location and, for an
      object or an array, is its closing brace or bracket. */
  lemma LastLine(v: Json, path: Path, indent: nat, f: Formatter)
    ensures var ls := Lines(v, path, indent, f);
      && |ls| >= 1
      && ls[|ls| - 1].path == path
      && (v.Obj? ==> ls[|ls| - 1].content == Indent(indent) + "}")
      && (v.Arr? ==> ls[|ls| - 1].content == Indent(indent) + "]")
      && (!v.Obj? && !v.Arr? ==> |ls| == 1)
  {
  }

  /** A member's separator goes at the end of its last line and nowhere else:
      its lines are those without a separator, with the separator appended
      to the last one. */
  lemma KeyValueSeparator(key: string, value: Json, path: Path, indent: nat, comma: string, f: Formatter)
    ensures KeyValueLines(key, value, path, indent, comma, f) == WithSuffix(KeyValueLines(key, value, path, indent, "", f), comma)
  {
    var pad := Indent(indent);
    match value
    case Obj(fs) =>
      var front := [Line(pad + f.quote(key) + ": {", path)] + MembersLines(fs, path, indent + 1, |fs|, f);
      assert pad + "}" + "" == pad + "}";
      SuffixOfLast(front, Line(pad + "}", path), comma);
    case Arr(es) =>
      var front := [Line(pad + f.quote(key) + ": [", path)] + ElementsLines(es, path, indent + 1, |es|, f);
      assert pad + "]" + "" == pad + "]";
      SuffixOfLast(front, Line(pad + "]", path), comma);
    case _ =>
      var c := pad + f.quote(key) + ": " + FormatPrimitive(value, f);
      assert c + "" == c;
      SuffixOfLast([], Line(c, path), comma);
  }

  lemma SuffixOfLast(front: seq<Line>, last: Line, suffix: string)
    ensures WithSuffix(front + [last], suffix) == front + [last.(content := last.content + suffix)]
  {
    var ls := front + [last];
    assert ls[..|ls| - 1] == front;
  }

  // ---------------------------------------------------------------------
  // Indentation

  /** A line `depth` levels below `path` starts with the indentation of
      `indent + depth` levels. */
  ghost predicate LineIndented(l: Line, path: Path, indent: nat) {
    |path| <= |l.path| && IsPrefix(Indent(indent + (|l.path| - |path|)), l.content)
  }

  /** A line strictly below `path`, the first level below it at `indent`. */
  ghost predicate LineInside(l: Line, path: Path, indent: nat) {
    |path| < |l.path| && IsPrefix(Indent(indent + (|l.path| - |path| - 1)), l.content)
  }

  /** Each line is indented two spaces per level below `path`, starting
      from `indent`. */
  ghost predicate IndentedBelow(ls: seq<Line>, path: Path, indent: nat) {
    forall k | 0 <= k < |ls| :: LineIndented(ls[k], path, indent)
  }

  /** Member and element lines sit strictly below the container. */
  ghost predicate IndentedInside(ls: seq<Line>, path: Path, indent: nat) {
    forall k | 0 <= k < |ls| :: LineInside(ls[k], path, indent)
  }

  lemma Padded(pad: string, x: string, y: string)
    ensures IsPrefix(pad, pad + x) && IsPrefix(pad, pad + x + y)
  {
    assert (pad + x)[..|pad|] == pad;
    assert (pad + x + y)[..|pad|] == pad;
  }

  lemma IndentedConcat(a: seq<Line>, b: seq<Line>, path: Path, indent: nat)
    requires IndentedBelow(a, path, indent) && IndentedBelow(b, path, indent)
    ensures IndentedBelow(a + b, path, indent)
  {
    forall k | 0 <= k < |a + b| ensures LineIndented((a + b)[k], path, indent) {
      if k < |a| {
        assert (a + b)[k] == a[k];
      } else {
        assert (a + b)[k] == b[k - |a|];
      }
    }
  }

  lemma IndentedInsideConcat(a: seq<Line>, b: seq<Line>, path: Path, indent: nat)
    requires IndentedInside(a, path, indent) && IndentedInside(b, path, indent)
    ensures IndentedInside(a + b, path, indent)
  {
    forall k | 0 <= k < |a + b| ensures LineInside((a + b)[k], path, indent) {
      if k < |a| {
        assert (a + b)[k] == a[k];
      } else {
        assert (a + b)[k] == b[k - |a|];
      }
    }
  }

  lemma BracketIndented(open: Line, mid: seq<Line>, close: Line, path: Path, indent: nat)
    requires open.path == path && close.path == path
    requires IsPrefix(Indent(indent), open.content) && IsPrefix(Indent(indent), close.content)
    requires IndentedInside(mid, path, indent + 1)
    ensures IndentedBelow([open] + mid + [close], path, indent)
  {
    assert LineIndented(open, path, indent) && LineIndented(close, path, indent);
    forall k | 0 <= k < |mid| ensures LineIndented(mid[k], path, indent) {
      assert LineInside(mid[k], path, indent + 1);
      assert indent + 1 + (|mid[k].path| - |path| - 1) == indent + (|mid[k].path| - |path|);
    }
    IndentedConcat([open], mid, path, indent);
    IndentedConcat([open] + mid, [close], path, indent);
  }

  lemma WithSuffixIndented(ls: seq<Line>, suffix: string, path: Path, indent: nat)
    requires IndentedBelow(ls, path, indent)
    ensures IndentedBelow(WithSuffix(ls, suffix), path, indent)
  {
    if ls != [] {
      var last := ls[|ls| - 1];
      var pad := Indent(indent + (|last.path| - |path|));
      assert LineIndented(last, path, indent);
      assert last.content == pad + last.content[|pad|..];
      Padded(pad, last.content[|pad|..], suffix);
      assert LineIndented(last.(content := last.content + suffix), path, indent);
      IndentedConcat(ls[..|ls| - 1], [last.(content := last.content + suffix)], path, indent);
    }
  }

  lemma InsideFromChild(ls: seq<Line>, path: Path, s: Segment, indent: nat)
    requires IndentedBelow(ls, path + [s], indent)
    ensures IndentedInside(ls, path, indent)
  {
    forall k | 0 <= k < |ls| ensures LineInside(ls[k], path, indent) {
      assert LineIndented(ls[k], path + [s], indent);
      assert |ls[k].path| - |path + [s]| == |ls[k].path| - |path| - 1;
    }
  }

  /** Two spaces per nesting level: every line of a value starts with the
      indentation of its own depth. */
  lemma {:induction false} LinesIndented(v: Json, path: Path, indent: nat, f: Formatter)
    ensures IndentedBelow(Lines(v, path, indent, f), path, indent)
    decreases v, 2, 0
  {
    var pad := Indent(indent);
    match v
    case Obj(fs) =>
      MembersIndented(fs, path, indent + 1, |fs|, f);
      Padded(pad, "{", "");
      Padded(pad, "}", "");
      BracketIndented(Line(pad + "{", path), MembersLines(fs, path, indent + 1, |fs|, f), Line(pad + "}", path), path, indent);
    case Arr(es) =>
      ElementsIndented(es, path, indent + 1, |es|, f);
      Padded(pad, "[", "");
      Padded(pad, "]", "");
      BracketIndented(Line(pad + "[", path), ElementsLines(es, path, indent + 1, |es|, f), Line(pad + "]", path), path, indent);
    case _ =>
      Padded(pad, FormatPrimitive(v, f), "");
      assert LineIndented(Line(pad + FormatPrimitive(v, f), path), path, indent);
  }

  lemma {:induction false} KeyValueIndented(key: string, value: Json, path: Path, indent: nat, comma: string, f: Formatter)
    ensures IndentedBelow(KeyValueLines(key, value, path, indent, comma, f), path, indent)
    decreases value, 3, 0
  {
    match value
    case Obj(fs) => KeyObjectIndented(key, fs, path, indent, comma, f);
    case Arr(es) => KeyArrayIndented(key, es, path, indent, comma, f);
    case _ => KeyScalarIndented(key, value, path, indent, comma, f);
  }

  lemma KeyScalarIndented(key: string, value: Json, path: Path, indent: nat, comma: string, f: Formatter)
    requires !value.Obj? && !value.Arr?
    ensures IndentedBelow(KeyValueLines(key, value, path, indent, comma, f), path, indent)
  {
    var pad := Indent(indent);
    var c := pad + f.quote(key) + ": " + FormatPrimitive(value, f) + comma;
    assert KeyValueLines(key, value, path, indent, comma, f) == [Line(c, path)];
    assert c[..|pad|] == pad;
    assert LineIndented(Line(c, path), path, indent);
  }

  lemma {:induction false} KeyObjectIndented(key: string, fs: seq<(string, Json)>, path: Path, indent: nat, comma: string, f: Formatter)
    ensures IndentedBelow(KeyValueLines(key, Obj(fs), path, indent, comma, f), path, indent)
    decreases Obj(fs), 2, 0
  {
    var pad := Indent(indent);
    MembersIndented(fs, path, indent + 1, |fs|, f);
    Padded(pad, f.quote(key), ": {");
    Padded(pad, "}", comma);
    BracketIndented(Line(pad + f.quote(key) + ": {", path), MembersLines(fs, path, indent + 1, |fs|, f), Line(pad + "}" + comma, path), path, indent);
  }

  lemma {:induction false} KeyArrayIndented(key: string, es: seq<Json>, path: Path, indent: nat, comma: string, f: Formatter)
    ensures IndentedBelow(KeyValueLines(key, Arr(es), path, indent, comma, f), path, indent)
    decreases Arr(es), 2, 0
  {
    var pad := Indent(indent);
    ElementsIndented(es, path, indent + 1, |es|, f);
    Padded(pad, f.quote(key), ": [");
    Padded(pad, "]", comma);
    BracketIndented(Line(pad + f.quote(key) + ": [", path), ElementsLines(es, path, indent + 1, |es|, f), Line(pad + "]" + comma, path), path, indent);
  }

  lemma {:induction false} MembersIndented(fs: seq<(string, Json)>, path: Path, indent: nat, n: nat, f: Formatter)
    requires n <= |fs|
    ensures IndentedInside(MembersLines(fs, path, indent, n, f), path, indent)
    decreases Obj(fs), 0, n
  {
    if n > 0 {
      var (key, value) := fs[n - 1];
      MembersIndented(fs, path, indent, n - 1, f);
      var kv := KeyValueLines(key, value, path + [Name(key)], indent, Comma(n - 1, |fs|), f);
      KeyValueIndented(key, value, path + [Name(key)], indent, Comma(n - 1, |fs|), f);
      InsideFromChild(kv, path, Name(key), indent);
      IndentedInsideConcat(MembersLines(fs, path, indent, n - 1, f), kv, path, indent);
    }
  }

  lemma {:induction false} ElementsIndented(es: seq<Json>, path: Path, indent: nat, n: nat, f: Formatter)
    requires n <= |es|
    ensures IndentedInside(ElementsLines(es, path, indent, n, f), path, indent)
    decreases Arr(es), 0, n
  {
    if n > 0 {
      var childPath := path + [Index(n - 1)];
      var child := Lines(es[n - 1], childPath, indent, f);
      var patched := WithSuffix(child, Comma(n - 1, |es|));
      ElementsIndented(es, path, indent, n - 1, f);
      LinesIndented(es[n - 1], childPath, indent, f);
      WithSuffixIndented(child, Comma(n - 1, |es|), childPath, indent);
      InsideFromChild(patched, path, Index(n - 1), indent);
      IndentedInsideConcat(ElementsLines(es, path, indent, n - 1, f), patched, path, indent);
    }
  }
}
