/*
 * The diff view (diff.go, FormatDiffOutput, formatOutput and
 * shouldMarkAsDiff): the subset written out by the renderer, each line
 * prefixed with `-` when it shows a node at or below a recorded
 * difference, and with a space otherwise.
 *
 * The source keeps the diff locations as the texts of their normalized
 * paths and marks a line when one of those texts is a string prefix of
 * the line's own path text. With the prefix lemma of NormalizedPath that
 * test is exactly "some diff path is a prefix of the line's path".
 */
module DiffOutput {
  import opened JsonValue
  import NormalizedPath
  import DiffCheck
  import Render

  /** The key set of the diffPaths map: the texts of the diff locations. */
  function DiffTexts(diffs: seq<DiffCheck.Diff>): set<string> {
    set d | d in diffs :: NormalizedPath.Text(d.path)
  }

  /** A line at `path` is marked when some diff text is a prefix of (or
      equal to) the line's path text. */
  predicate Marked(path: Path, diffPaths: set<string>) {
    exists dp | dp in diffPaths :: IsPrefix(dp, NormalizedPath.Text(path))
  }

  function Marker(path: Path, diffPaths: set<string>): char {
    if Marked(path, diffPaths) then '-' else ' '
  }

  /** The whole view: per line, its marker, its content and a newline. */
  function OutputText(lines: seq<Render.Line>, diffPaths: set<string>): string {
    if lines == [] then ""
    else
      var last := lines[|lines| - 1];
      OutputText(lines[..|lines| - 1], diffPaths) + [Marker(last.path, diffPaths)] + last.content + "\n"
  }

  // ---------------------------------------------------------------------
  // The source's loops

  /** shouldMarkAsDiff: the exact lookup first, then a scan of all diff
      texts for a proper prefix. Between them the two tests accept exactly
      the prefixes. */
  method ShouldMarkAsDiff(path: Path, diffPaths: set<string>) returns (r: bool)
    ensures r <==> exists dp | dp in diffPaths :: IsPrefix(dp, NormalizedPath.Text(path))
  {
    var pathText := NormalizedPath.Text(path);
    if pathText in diffPaths {
      assert IsPrefix(pathText, pathText);
      return true;
    }
    var rest := diffPaths;
    while rest != {}
      invariant rest <= diffPaths
      invariant forall dp | dp in diffPaths - rest :: !IsPrefix(dp, pathText)
      decreases |rest|
    {
      var dp :| dp in rest;
      if IsPrefix(dp, pathText) && |pathText| > |dp| {
        return true;
      }
      assert dp != pathText;
      rest := rest - {dp};
    }
    return false;
  }

  /** formatOutput: one marker, the content and a newline per line. */
  method FormatOutput(lines: seq<Render.Line>, diffPaths: set<string>) returns (out: string)
    ensures out == OutputText(lines, diffPaths)
  {
    out := "";
    for i := 0 to |lines|
      invariant out == OutputText(lines[..i], diffPaths)
    {
      var marked := ShouldMarkAsDiff(lines[i].path, diffPaths);
      var prefix := if marked then '-' else ' ';
      assert lines[..i + 1][..i] == lines[..i];
      out := out + [prefix] + lines[i].content + "\n";
    }
    assert lines[..|lines|] == lines;
  }

  /** FormatDiffOutput: the set of diff texts, then the rendered subset
      with its markers. */
  method FormatDiffOutput(subset: Json, diffs: seq<DiffCheck.Diff>, f: Render.Formatter) returns (out: string)
    ensures out == OutputText(Render.Lines(subset, [], 0, f), DiffTexts(diffs))
  {
    var diffPaths: set<string> := {};
    for i := 0 to |diffs|
      invariant diffPaths == DiffTexts(diffs[..i])
    {
      assert diffs[..i + 1] == diffs[..i] + [diffs[i]];
      diffPaths := diffPaths + {NormalizedPath.Text(diffs[i].path)};
    }
    assert diffs[..|diffs|] == diffs;
    var lines := Render.GenerateLines(subset, [], 0, f);
    out := FormatOutput(lines, diffPaths);
  }

  // ---------------------------------------------------------------------
  // What the marks mean

  /** A line is marked exactly when it lies at or below one of the diff
      locations. */
  lemma MarkedIffBelowDiff(path: Path, diffs: seq<DiffCheck.Diff>)
    ensures Marked(path, DiffTexts(diffs)) <==> exists d | d in diffs :: IsPrefix(d.path, path)
  {
    if Marked(path, DiffTexts(diffs)) {
      var dp :| dp in DiffTexts(diffs) && IsPrefix(dp, NormalizedPath.Text(path));
      var d :| d in diffs && dp == NormalizedPath.Text(d.path);
      NormalizedPath.TextPrefix(d.path, path);
    }
    if exists d | d in diffs :: IsPrefix(d.path, path) {
      var d :| d in diffs && IsPrefix(d.path, path);
      NormalizedPath.TextPrefix(d.path, path);
      assert NormalizedPath.Text(d.path) in DiffTexts(diffs);
    }
  }

  lemma {:induction false} OutputTextConcat(a: seq<Render.Line>, b: seq<Render.Line>, diffPaths: set<string>)
    ensures OutputText(a + b, diffPaths) == OutputText(a, diffPaths) + OutputText(b, diffPaths)
    decreases |b|
  {
    if b == [] {
      assert a + b == a;
    } else {
      var b' := b[..|b| - 1];
      var last := b[|b| - 1];
      assert (a + b)[..|a + b| - 1] == a + b';
      OutputTextConcat(a, b', diffPaths);
      var m := [Marker(last.path, diffPaths)] + last.content + "\n";
      assert OutputText(b, diffPaths) == OutputText(b', diffPaths) + m;
      assert OutputText(a + b, diffPaths) == (OutputText(a, diffPaths) + OutputText(b', diffPaths)) + m;
    }
  }

  /** Line k of the view starts at the end of the text of the lines before
      it, with its marker. */
  lemma MarkerOfLine(lines: seq<Render.Line>, diffPaths: set<string>, k: nat)
    requires k < |lines|
    ensures |OutputText(lines[..k], diffPaths)| < |OutputText(lines, diffPaths)|
    ensures OutputText(lines, diffPaths)[|OutputText(lines[..k], diffPaths)|] == Marker(lines[k].path, diffPaths)
  {
    var head := OutputText(lines[..k], diffPaths);
    var one := OutputText([lines[k]], diffPaths);
    assert [lines[k]][..0] == [];
    assert OutputText([], diffPaths) == [];
    assert one == [] + [Marker(lines[k].path, diffPaths)] + lines[k].content + "\n";
    assert one[0] == Marker(lines[k].path, diffPaths);
    assert lines == lines[..k] + [lines[k]] + lines[k + 1..];
    OutputTextConcat(lines[..k], [lines[k]], diffPaths);
    OutputTextConcat(lines[..k] + [lines[k]], lines[k + 1..], diffPaths);
    assert OutputText(lines, diffPaths) == head + one + OutputText(lines[k + 1..], diffPaths);
  }

  /** Every difference shows: its own node has a line in the view of a
      well-formed subset, and that line is marked. */
  lemma DiffShown(sub: Json, sup: Json, f: Render.Formatter, d: DiffCheck.Diff)
    requires WellFormed(sub)
    requires d in DiffCheck.Diffs(sub, sup, [])
    ensures exists k | 0 <= k < |Render.Lines(sub, [], 0, f)| ::
      && Render.Lines(sub, [], 0, f)[k].path == d.path
      && Marked(d.path, DiffTexts(DiffCheck.Diffs(sub, sup, [])))
  {
    var ls := Render.Lines(sub, [], 0, f);
    DiffCheck.DiffsExplained(sub, sup, []);
    assert DiffCheck.Explained(d, sub, sup, []);
    assert d.path[0..] == d.path;
    Render.LinesCover(sub, [], 0, f);
    assert [] + d.path == d.path;
    assert d.path in Render.Paths(ls);
    var k :| 0 <= k < |ls| && Render.Paths(ls)[k] == d.path;
    assert IsPrefix(d.path, d.path);
    MarkedIffBelowDiff(d.path, DiffCheck.Diffs(sub, sup, []));
  }

  /** Line k of the view begins with a `-`. */
  ghost predicate ShownMarked(lines: seq<Render.Line>, diffPaths: set<string>, k: nat) {
    && k < |lines|
    && |OutputText(lines[..k], diffPaths)| < |OutputText(lines, diffPaths)|
    && OutputText(lines, diffPaths)[|OutputText(lines[..k], diffPaths)|] == '-'
  }

  /** A subset that is not contained shows at least one `-` marker. */
  lemma FailureIsVisible(sub: Json, sup: Json, f: Render.Formatter)
    requires WellFormed(sub) && !Contained(sub, sup)
    ensures exists k: nat :: ShownMarked(Render.Lines(sub, [], 0, f), DiffTexts(DiffCheck.Diffs(sub, sup, [])), k)
  {
    var ls := Render.Lines(sub, [], 0, f);
    var ds := DiffCheck.Diffs(sub, sup, []);
    DiffCheck.NoDiffsIffContained(sub, sup, []);
    var d := ds[0];
    DiffShown(sub, sup, f, d);
    var k :| 0 <= k < |ls| && ls[k].path == d.path && Marked(d.path, DiffTexts(ds));
    MarkerOfLine(ls, DiffTexts(ds), k);
    assert ShownMarked(ls, DiffTexts(ds), k);
  }

  /** A contained subset shows no marker at all. */
  lemma ContainedShowsNoMarker(sub: Json, sup: Json, f: Render.Formatter)
    requires Contained(sub, sup)
    ensures forall k | 0 <= k < |Render.Lines(sub, [], 0, f)| ::
      !Marked(Render.Lines(sub, [], 0, f)[k].path, DiffTexts(DiffCheck.Diffs(sub, sup, [])))
  {
    DiffCheck.NoDiffsIffContained(sub, sup, []);
    assert DiffTexts(DiffCheck.Diffs(sub, sup, [])) == {};
  }

  /** The subset and superset of the source's own example. */
  function ExampleSubset(): Json {
    Obj([("user", ExampleUser())])
  }

  function ExampleSuperset(): Json {
    Obj([("user", Obj([("name", Str("alice"))]))])
  }

  /** Its one difference: the missing email member. */
  lemma ExampleDiffs()
    ensures DiffCheck.Diffs(ExampleSubset(), ExampleSuperset(), [])
         == [DiffCheck.Diff([Name("user"), Name("email")], DiffCheck.MissingKey, Str("alice@example.com"), Null)]
  {
    var u := [Name("user")];
    var ufs := [("email", Str("alice@example.com")), ("name", Str("alice"))];
    var sfs := [("name", Str("alice"))];
    assert Lookup(sfs, "email") == None;
    assert Lookup(sfs, "name") == Some(Str("alice"));
    assert [] + [Name("user")] == u;
    assert u + [Name("email")] == [Name("user"), Name("email")];
    assert DiffCheck.MemberDiffs("email", Str("alice@example.com"), sfs, u)
        == [DiffCheck.Diff([Name("user"), Name("email")], DiffCheck.MissingKey, Str("alice@example.com"), Null)];
    assert DiffCheck.Diffs(Str("alice"), Str("alice"), u + [Name("name")]) == [];
    assert DiffCheck.MemberDiffs("name", Str("alice"), sfs, u) == [];
    assert DiffCheck.ObjectDiffs(ufs, sfs, u, 1) == [] + DiffCheck.MemberDiffs("email", Str("alice@example.com"), sfs, u);
    assert DiffCheck.ObjectDiffs(ufs, sfs, u, 2) == DiffCheck.ObjectDiffs(ufs, sfs, u, 1) + [];
    assert Lookup(ExampleSuperset().fields, "user") == Some(Obj(sfs));
    assert DiffCheck.MemberDiffs("user", Obj(ufs), ExampleSuperset().fields, []) == DiffCheck.Diffs(Obj(ufs), Obj(sfs), u);
    assert DiffCheck.ObjectDiffs(ExampleSubset().fields, ExampleSuperset().fields, [], 1)
        == [] + DiffCheck.MemberDiffs("user", Obj(ufs), ExampleSuperset().fields, []);
  }

  function ExampleUser(): Json {
    Obj([("email", Str("alice@example.com")), ("name", Str("alice"))])
  }

  /** The "user" member's four lines: its braces and one line per inner
      member. */
  lemma ExampleUserLines(f: Render.Formatter)
    ensures
      var kv := Render.KeyValueLines("user", ExampleUser(), [Name("user")], 1, "", f);
      && |kv| == 4
      && kv[0].path == [Name("user")] && kv[1].path == [Name("user"), Name("email")]
      && kv[2].path == [Name("user"), Name("name")] && kv[3].path == [Name("user")]
  {
    var u := [Name("user")];
    var fs := ExampleUser().fields;
    var emailLines := Render.KeyValueLines("email", Str("alice@example.com"), u + [Name("email")], 2, ",", f);
    var nameLines := Render.KeyValueLines("name", Str("alice"), u + [Name("name")], 2, "", f);
    assert |emailLines| == 1 && emailLines[0].path == [Name("user"), Name("email")];
    assert |nameLines| == 1 && nameLines[0].path == [Name("user"), Name("name")];
    assert Render.MembersLines(fs, u, 2, 1, f) == [] + emailLines;
    var inner := Render.MembersLines(fs, u, 2, 2, f);
    assert inner == emailLines + nameLines;
    var kv := Render.KeyValueLines("user", ExampleUser(), u, 1, "", f);
    assert kv == [kv[0]] + inner + [kv[3]] && kv[0].path == u && kv[3].path == u;
  }

  /** Its six lines: the outer braces around the "user" member's lines. */
  lemma ExampleLines(f: Render.Formatter)
    ensures
      var ls := Render.Lines(ExampleSubset(), [], 0, f);
      && |ls| == 6
      && ls[0].path == [] && ls[1].path == [Name("user")]
      && ls[2].path == [Name("user"), Name("email")] && ls[3].path == [Name("user"), Name("name")]
      && ls[4].path == [Name("user")] && ls[5].path == []
  {
    var ls := Render.Lines(ExampleSubset(), [], 0, f);
    var kv := Render.KeyValueLines("user", ExampleUser(), [Name("user")], 1, "", f);
    ExampleUserLines(f);
    assert [] + [Name("user")] == [Name("user")];
    assert Render.MembersLines(ExampleSubset().fields, [], 1, 1, f) == [] + kv;
    assert ls == [Render.Line(Render.Indent(0) + "{", [])] + kv + [Render.Line(Render.Indent(0) + "}", [])];
    assert ls[1] == kv[0] && ls[2] == kv[1] && ls[3] == kv[2] && ls[4] == kv[3];
  }

  lemma MarkedByOneDiff(path: Path, d: DiffCheck.Diff)
    ensures Marked(path, DiffTexts([d])) <==> IsPrefix(d.path, path)
  {
    MarkedIffBelowDiff(path, [d]);
  }

  /** The view of the source's own example: only the email line is marked;
      the lines of "user", its parent, are not. */
  lemma MissingEmailScenario(f: Render.Formatter)
    ensures
      var ls := Render.Lines(ExampleSubset(), [], 0, f);
      && |ls| == 6
      && ls[2].path == [Name("user"), Name("email")]
      && forall k | 0 <= k < 6 :: Marked(ls[k].path, DiffTexts(DiffCheck.Diffs(ExampleSubset(), ExampleSuperset(), []))) <==> k == 2
  {
    var email := [Name("user"), Name("email")];
    var d := DiffCheck.Diff(email, DiffCheck.MissingKey, Str("alice@example.com"), Null);
    ExampleDiffs();
    var ls := Render.Lines(ExampleSubset(), [], 0, f);
    ExampleLines(f);
    var name := [Name("user"), Name("name")];
    MarkedByOneDiff([], d);
    MarkedByOneDiff([Name("user")], d);
    MarkedByOneDiff(email, d);
    MarkedByOneDiff(name, d);
    assert !IsPrefix(email, name) by {
      assert name[..2] != email by { assert name[1] != email[1]; }
    }
    forall k | 0 <= k < 6
      ensures Marked(ls[k].path, DiffTexts([d])) <==> k == 2
    {
      if k == 0 || k == 5 {
        assert ls[k].path == [];
      } else if k == 1 || k == 4 {
        assert ls[k].path == [Name("user")];
      } else if k == 3 {
        assert ls[k].path == name;
      }
    }
  }
}
