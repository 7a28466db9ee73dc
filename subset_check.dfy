/*
 * The message-based checker of subset.go: the same containment walk as
 * diff.go, reporting each failure as a human-readable line of text whose
 * location is a dotted path such as "$.user.profile.age" or "$[1]".
 *
 * Go strings are byte strings, and formatValue truncates by byte count,
 * so messages are byte sequences; keys are written in UTF-8. The two
 * library calls whose output is not fixed here (json.Marshal of a value and
 * the fallback %v) are a parameter; %T of a decoded value is one of six
 * fixed type names and is written out.
 */
module SubsetCheck {
  import opened JsonValue
  import DiffCheck
  import NormalizedPath

  type byte = b: int | 0 <= b < 256
  type Bytes = seq<byte>

  /** The UTF-8 encoding of one character. */
  function Utf8Char(c: char): Bytes {
    var cp := c as int;
    if cp < 0x80 then [cp]
    else if cp < 0x800 then [0xC0 + cp / 0x40, 0x80 + cp % 0x40]
    else if cp < 0x10000 then [0xE0 + cp / 0x1000, 0x80 + (cp / 0x40) % 0x40, 0x80 + cp % 0x40]
    else [0xF0 + cp / 0x40000, 0x80 + (cp / 0x1000) % 0x40, 0x80 + (cp / 0x40) % 0x40, 0x80 + cp % 0x40]
  }

  /** The bytes of a Go string holding `s`. */
  function Utf8(s: string): Bytes {
    if s == [] then [] else Utf8Char(s[0]) + Utf8(s[1..])
  }

  lemma {:induction false} Utf8Concat(a: string, b: string)
    ensures Utf8(a + b) == Utf8(a) + Utf8(b)
  {
    if a != [] {
      assert (a + b)[0] == a[0] && (a + b)[1..] == a[1..] + b;
      Utf8Concat(a[1..], b);
      calc {
        Utf8(a + b);
        Utf8Char(a[0]) + Utf8(a[1..] + b);
        Utf8Char(a[0]) + (Utf8(a[1..]) + Utf8(b));
        (Utf8Char(a[0]) + Utf8(a[1..])) + Utf8(b);
      }
    } else {
      assert a + b == b;
    }
  }

  /** The bytes of a literal made of ASCII characters, which UTF-8 writes
      one byte each (see AsciiIsUtf8). */
  function Ascii(s: string): Bytes {
    seq(|s|, i requires 0 <= i < |s| => s[i] as int % 0x80)
  }

  lemma AsciiConcat(a: string, b: string)
    ensures Ascii(a + b) == Ascii(a) + Ascii(b)
  {
  }

  lemma {:induction false} AsciiIsUtf8(s: string)
    requires forall i | 0 <= i < |s| :: s[i] as int < 0x80
    ensures Ascii(s) == Utf8(s)
  {
    if s != [] {
      AsciiIsUtf8(s[1..]);
      assert Ascii(s) == [s[0] as int] + Ascii(s[1..]);
    }
  }

  /** %d of a non-negative int. Go's fmt writes bytes here, while the path
      library writes an index as characters (`NormalizedPath.DecimalText`);
      `DecimalIsDecimalText` shows the two agree. */
  function Decimal(n: nat): Bytes {
    if n < 10 then [0x30 + n] else Decimal(n / 10) + [0x30 + n % 10]
  }

  lemma {:induction false} DecimalIsDecimalText(n: nat)
    ensures Decimal(n) == Ascii(NormalizedPath.DecimalText(n))
  {
    if n < 10 {
      assert NormalizedPath.DecimalText(n) == [NormalizedPath.Digit(n)];
    } else {
      DecimalIsDecimalText(n / 10);
      AsciiConcat(NormalizedPath.DecimalText(n / 10), [NormalizedPath.Digit(n % 10)]);
    }
  }

  /** The dynamic type of a decoded value, as %T prints it. */
  datatype GoType = NilType | BoolType | Float64Type | StringType | MapType | SliceType

  function TypeOf(v: Json): GoType {
    match v
    case Null => NilType
    case Bool(_) => BoolType
    case Num(_) => Float64Type
    case Str(_) => StringType
    case Obj(_) => MapType
    case Arr(_) => SliceType
  }

  function TypeName(t: GoType): Bytes {
    match t
    case NilType => Ascii("<nil>")
    case BoolType => Ascii("bool")
    case Float64Type => Ascii("float64")
    case StringType => Ascii("string")
    case MapType => Ascii("map[string]interface {}")
    case SliceType => Ascii("[]interface {}")
  }

  /** json.Marshal of a decoded value. Marshalling a value the decoder
      produced cannot fail, so the %v fallback is never taken. */
  datatype Formatter = Formatter(marshal: Json -> Bytes)

  const MaxValueLen := 50
  const KeptLen := 47

  /** formatValue: "null" for null, otherwise the marshalled text, cut to
      47 bytes plus "..." when it is longer than 50 bytes. */
  function FormatValue(v: Json, f: Formatter): Bytes {
    if v.Null? then Ascii("null")
    else
      var s := f.marshal(v);
      if |s| > MaxValueLen then s[..KeptLen] + Ascii("...") else s
  }

  /** Shown values never exceed 50 bytes; a value that fits is shown whole,
      a longer one keeps its first 47 bytes and ends in "...". */
  lemma FormatValueBounded(v: Json, f: Formatter)
    ensures |FormatValue(v, f)| <= MaxValueLen
    ensures !v.Null? && |f.marshal(v)| <= MaxValueLen ==> FormatValue(v, f) == f.marshal(v)
    ensures !v.Null? && |f.marshal(v)| > MaxValueLen ==>
      && |FormatValue(v, f)| == MaxValueLen
      && FormatValue(v, f)[..KeptLen] == f.marshal(v)[..KeptLen]
      && FormatValue(v, f)[KeptLen..] == Ascii("...")
  {
    var dots := Ascii("...");
    assert dots == [0x2E, 0x2E, 0x2E];
    assert |Ascii("null")| == 4;
  }

  // ---------------------------------------------------------------------
  // The four messages

  function ValueMessage(path: Bytes, sub: Json, sup: Json, f: Formatter): Bytes {
    path + Ascii(": value mismatch (subset: ") + FormatValue(sub, f)
      + Ascii(", superset: ") + FormatValue(sup, f) + Ascii(")")
  }

  function TypeMessage(path: Bytes, sub: Json, sup: Json): Bytes {
    path + Ascii(": type mismatch (subset: ") + TypeName(TypeOf(sub))
      + Ascii(", superset: ") + TypeName(TypeOf(sup)) + Ascii(")")
  }

  function MissingMessage(childPath: Bytes): Bytes {
    childPath + Ascii(": missing key in superset")
  }

  function NotFoundMessage(elemPath: Bytes, elem: Json, f: Formatter): Bytes {
    elemPath + Ascii(": element not found in superset array: ") + FormatValue(elem, f)
  }

  /** The path of a member: "%s.%s". */
  function ChildPath(path: Bytes, key: string): Bytes {
    path + Ascii(".") + Utf8(key)
  }

  /** The path of an element: "%s[%d]". */
  function ElementPath(path: Bytes, i: nat): Bytes {
    path + Ascii("[") + Decimal(i) + Ascii("]")
  }

  // ---------------------------------------------------------------------
  // Specification of the message list

  /** The messages reported for `sub` against `sup` at `path`: a null
      subset is compared by deep equality; otherwise different dynamic
      types give a type mismatch; objects and arrays are walked; other
      values must be equal. */
  function Messages(sub: Json, sup: Json, path: Bytes, f: Formatter): seq<Bytes>
    decreases sub, 1, 0
  {
    if sub.Null? then
      if sup.Null? then [] else [ValueMessage(path, sub, sup, f)]
    else if TypeOf(sub) != TypeOf(sup) then [TypeMessage(path, sub, sup)]
    else match sub
      case Obj(fs) => ObjectMessages(fs, sup.fields, path, |fs|, f)
      case Arr(es) => ArrayMessages(es, sup.elems, path, |es|, f)
      case _ => if sub == sup then [] else [ValueMessage(path, sub, sup, f)]
  }

  function ObjectMessages(fs: seq<(string, Json)>, supFs: seq<(string, Json)>, path: Bytes, n: nat, f: Formatter): seq<Bytes>
    requires n <= |fs|
    decreases Obj(fs), 0, n
  {
    if n == 0 then []
    else ObjectMessages(fs, supFs, path, n - 1, f) + MemberMessages(fs[n - 1].0, fs[n - 1].1, supFs, path, f)
  }

  function MemberMessages(key: string, value: Json, supFs: seq<(string, Json)>, path: Bytes, f: Formatter): seq<Bytes>
    decreases value, 2, 0
  {
    match Lookup(supFs, key)
    case None => [MissingMessage(ChildPath(path, key))]
    case Some(w) => Messages(value, w, ChildPath(path, key), f)
  }

  function ArrayMessages(es: seq<Json>, supEs: seq<Json>, path: Bytes, n: nat, f: Formatter): seq<Bytes>
    requires n <= |es|
  {
    if n == 0 then []
    else
      var last := if ElementFound(es[n - 1], supEs) then [] else [NotFoundMessage(ElementPath(path, n - 1), es[n - 1], f)];
      ArrayMessages(es, supEs, path, n - 1, f) + last
  }

  // ---------------------------------------------------------------------
  // The checker

  /** checkSubset: the walk from the root path "$". */
  method CheckSubset(subset: Json, superset: Json, f: Formatter) returns (ok: bool, diffs: seq<Bytes>)
    ensures ok == Contained(subset, superset)
    ensures diffs == Messages(subset, superset, Ascii("$"), f)
    ensures ok <==> diffs == []
  {
    ok, diffs := CheckSubsetPath(subset, superset, Ascii("$"), f);
    NoMessagesIffContained(subset, superset, Ascii("$"), f);
  }

  method CheckSubsetPath(subset: Json, superset: Json, path: Bytes, f: Formatter) returns (ok: bool, diffs: seq<Bytes>)
    ensures ok == Contained(subset, superset)
    ensures diffs == Messages(subset, superset, path, f)
    decreases subset, 1
  {
    if subset.Null? {
      ok := superset.Null?;
      diffs := DiffIfNotEqual(path, subset, superset, f);
      return;
    }
    if TypeOf(subset) != TypeOf(superset) {
      return false, [TypeMessage(path, subset, superset)];
    }
    match subset
    case Obj(fs) =>
      ok, diffs := CheckObjectSubset(fs, superset.fields, path, f);
    case Arr(es) =>
      ok, diffs := CheckArraySubset(es, superset.elems, path, f);
    case _ =>
      if subset == superset {
        return true, [];
      }
      return false, [ValueMessage(path, subset, superset, f)];
  }

  method CheckObjectSubset(subset: seq<(string, Json)>, superset: seq<(string, Json)>, path: Bytes, f: Formatter)
    returns (ok: bool, diffs: seq<Bytes>)
    ensures ok == Contained(Obj(subset), Obj(superset))
    ensures diffs == ObjectMessages(subset, superset, path, |subset|, f)
    decreases Obj(subset), 0
  {
    diffs := [];
    ok := true;
    for i := 0 to |subset|
      invariant ok <==> diffs == []
      invariant diffs == ObjectMessages(subset, superset, path, i, f)
    {
      var (key, value) := subset[i];
      var supersetValue := Lookup(superset, key);
      var childPath := ChildPath(path, key);
      assert ObjectMessages(subset, superset, path, i + 1, f)
          == diffs + MemberMessages(key, value, superset, path, f);
      if supersetValue.None? {
        ok := false;
        diffs := diffs + [MissingMessage(childPath)];
        continue;
      }
      var childOk, childDiffs := CheckSubsetPath(value, supersetValue.value, childPath, f);
      NoMessagesIffContained(value, supersetValue.value, childPath, f);
      if !childOk {
        ok := false;
        diffs := diffs + childDiffs;
      }
    }
    NoMessagesIffContained(Obj(subset), Obj(superset), path, f);
  }

  method CheckArraySubset(subset: seq<Json>, superset: seq<Json>, path: Bytes, f: Formatter)
    returns (ok: bool, diffs: seq<Bytes>)
    ensures ok == Contained(Arr(subset), Arr(superset))
    ensures diffs == ArrayMessages(subset, superset, path, |subset|, f)
    decreases Arr(subset), 0
  {
    diffs := [];
    ok := true;
    for i := 0 to |subset|
      invariant ok == forall k | 0 <= k < i :: ElementFound(subset[k], superset)
      invariant diffs == ArrayMessages(subset, superset, path, i, f)
    {
      var found := false;
      var j := 0;
      while j < |superset|
        invariant j <= |superset|
        invariant !found
        invariant forall m | 0 <= m < j :: !Contained(subset[i], superset[m])
      {
        var elemOk := IsSubsetOf(subset[i], superset[j], f);
        if elemOk {
          found := true;
          assert ElementFound(subset[i], superset);
          break;
        }
        j := j + 1;
      }
      assert found == ElementFound(subset[i], superset);
      assert ArrayMessages(subset, superset, path, i + 1, f)
          == diffs + (if found then [] else [NotFoundMessage(ElementPath(path, i), subset[i], f)]);
      if !found {
        ok := false;
        diffs := diffs + [NotFoundMessage(ElementPath(path, i), subset[i], f)];
      }
    }
  }

  /** isSubsetOf: the verdict alone, from an empty path. */
  method IsSubsetOf(a: Json, b: Json, f: Formatter) returns (ok: bool)
    ensures ok == Contained(a, b)
    decreases a, 2
  {
    var r, _ := CheckSubsetPath(a, b, [], f);
    ok := r;
  }

  /** diffIfNotEqual: nothing when the values are deeply equal, otherwise a
      value mismatch. On a scalar or null subset it is silent exactly when
      the subset is contained; for a null subset it is the checker's whole
      report; its one message is written at the given path. */
  function DiffIfNotEqual(path: Bytes, sub: Json, sup: Json, f: Formatter): (r: seq<Bytes>)
    ensures |r| <= 1
    ensures !sub.Obj? && !sub.Arr? ==> (r == [] <==> Contained(sub, sup))
    ensures sub.Null? ==> r == Messages(sub, sup, path, f)
    ensures forall m | m in r :: IsPrefix(path, m)
  {
    if sub == sup then []
    else
      ValueMessageStarts(path, sub, sup, f);
      [ValueMessage(path, sub, sup, f)]
  }

  // ---------------------------------------------------------------------
  // Relation to the diff.go walk

  /** The dotted text of a path: "." and the key for a member, "[i]" for
      an element, after the root text. */
  function DotText(root: Bytes, p: Path): Bytes
    decreases |p|
  {
    if p == [] then root
    else
      var parent := DotText(root, p[..|p| - 1]);
      match p[|p| - 1]
      case Name(k) => ChildPath(parent, k)
      case Index(i) => ElementPath(parent, i)
  }

  lemma DotTextAppend(root: Bytes, p: Path, s: Segment)
    ensures s.Name? ==> DotText(root, p + [s]) == ChildPath(DotText(root, p), s.name)
    ensures s.Index? ==> DotText(root, p + [s]) == ElementPath(DotText(root, p), s.index)
  {
    assert (p + [s])[..|p|] == p;
  }

  /** The message subset.go writes for a diff.go record. The kinds agree
      except on one point: a non-null scalar compared with a value of
      another dynamic type is a ValueMismatch record but a "type mismatch"
      message. */
  function MessageOf(root: Bytes, d: DiffCheck.Diff, f: Formatter): Bytes {
    var p := DotText(root, d.path);
    match d.kind
    case MissingKey => MissingMessage(p)
    case ElementNotFound => NotFoundMessage(p, d.subsetValue, f)
    case TypeMismatch => TypeMessage(p, d.subsetValue, d.supersetValue)
    case ValueMismatch =>
      if !d.subsetValue.Null? && TypeOf(d.subsetValue) != TypeOf(d.supersetValue)
      then TypeMessage(p, d.subsetValue, d.supersetValue)
      else ValueMessage(p, d.subsetValue, d.supersetValue, f)
  }

  function RenderMessages(root: Bytes, ds: seq<DiffCheck.Diff>, f: Formatter): (r: seq<Bytes>)
    ensures |r| == |ds|
  {
    if ds == [] then [] else [MessageOf(root, ds[0], f)] + RenderMessages(root, ds[1..], f)
  }

  lemma {:induction false} RenderConcat(root: Bytes, a: seq<DiffCheck.Diff>, b: seq<DiffCheck.Diff>, f: Formatter)
    ensures RenderMessages(root, a + b, f) == RenderMessages(root, a, f) + RenderMessages(root, b, f)
  {
    if a != [] {
      assert (a + b)[0] == a[0] && (a + b)[1..] == a[1..] + b;
      RenderConcat(root, a[1..], b, f);
      calc {
        RenderMessages(root, a + b, f);
        [MessageOf(root, a[0], f)] + RenderMessages(root, a[1..] + b, f);
        [MessageOf(root, a[0], f)] + (RenderMessages(root, a[1..], f) + RenderMessages(root, b, f));
        ([MessageOf(root, a[0], f)] + RenderMessages(root, a[1..], f)) + RenderMessages(root, b, f);
      }
    } else {
      assert a + b == b;
    }
  }

  /** The two checkers report the same failures in the same order: the
      messages of subset.go are exactly diff.go's records, one message per
      record, written at the dotted text of the record's path. */
  lemma {:induction false} MessagesMirrorDiffs(sub: Json, sup: Json, root: Bytes, p: Path, f: Formatter)
    ensures Messages(sub, sup, DotText(root, p), f) == RenderMessages(root, DiffCheck.Diffs(sub, sup, p), f)
    decreases sub, 1, 0
  {
    match sub
    case Obj(fs) =>
      if sup.Obj? {
        ObjectMessagesMirror(fs, sup.fields, root, p, |fs|, f);
      }
    case Arr(es) =>
      if sup.Arr? {
        ArrayMessagesMirror(es, sup.elems, root, p, |es|, f);
      }
    case _ =>
  }

  lemma {:induction false} ObjectMessagesMirror(fs: seq<(string, Json)>, supFs: seq<(string, Json)>, root: Bytes, p: Path, n: nat, f: Formatter)
    requires n <= |fs|
    ensures ObjectMessages(fs, supFs, DotText(root, p), n, f) == RenderMessages(root, DiffCheck.ObjectDiffs(fs, supFs, p, n), f)
    decreases Obj(fs), 0, n
  {
    if n > 0 {
      var key, value := fs[n - 1].0, fs[n - 1].1;
      var before := DiffCheck.ObjectDiffs(fs, supFs, p, n - 1);
      var member := DiffCheck.MemberDiffs(key, value, supFs, p);
      assert DiffCheck.ObjectDiffs(fs, supFs, p, n) == before + member;
      var text := DotText(root, p);
      assert ObjectMessages(fs, supFs, text, n, f)
          == ObjectMessages(fs, supFs, text, n - 1, f) + MemberMessages(key, value, supFs, text, f);
      calc {
        ObjectMessages(fs, supFs, text, n, f);
        ObjectMessages(fs, supFs, text, n - 1, f) + MemberMessages(key, value, supFs, text, f);
        { ObjectMessagesMirror(fs, supFs, root, p, n - 1, f);
          MemberMessagesMirror(key, value, supFs, root, p, f); }
        RenderMessages(root, before, f) + RenderMessages(root, member, f);
        { RenderConcat(root, before, member, f); }
        RenderMessages(root, DiffCheck.ObjectDiffs(fs, supFs, p, n), f);
      }
    } else {
      assert RenderMessages(root, [], f) == [];
    }
  }

  lemma {:induction false} MemberMessagesMirror(key: string, value: Json, supFs: seq<(string, Json)>, root: Bytes, p: Path, f: Formatter)
    ensures MemberMessages(key, value, supFs, DotText(root, p), f) == RenderMessages(root, DiffCheck.MemberDiffs(key, value, supFs, p), f)
    decreases value, 2, 0
  {
    DotTextAppend(root, p, Name(key));
    match Lookup(supFs, key)
    case None =>
      var d := DiffCheck.Diff(p + [Name(key)], DiffCheck.MissingKey, value, Null);
      assert [d][1..] == [];
      assert RenderMessages(root, [d], f) == [MessageOf(root, d, f)];
    case Some(w) =>
      MessagesMirrorDiffs(value, w, root, p + [Name(key)], f);
  }

  lemma {:induction false} ArrayMessagesMirror(es: seq<Json>, supEs: seq<Json>, root: Bytes, p: Path, n: nat, f: Formatter)
    requires n <= |es|
    ensures ArrayMessages(es, supEs, DotText(root, p), n, f) == RenderMessages(root, DiffCheck.ArrayDiffs(es, supEs, p, n), f)
  {
    if n > 0 {
      ArrayMessagesMirror(es, supEs, root, p, n - 1, f);
      var before := DiffCheck.ArrayDiffs(es, supEs, p, n - 1);
      if ElementFound(es[n - 1], supEs) {
        assert DiffCheck.ArrayDiffs(es, supEs, p, n) == before;
        assert ArrayMessages(es, supEs, DotText(root, p), n, f) == ArrayMessages(es, supEs, DotText(root, p), n - 1, f);
      } else {
        var d := DiffCheck.NotFound(p, n - 1, es[n - 1]);
        assert DiffCheck.ArrayDiffs(es, supEs, p, n) == before + [d];
        RenderConcat(root, before, [d], f);
        NotFoundMirror(root, p, n - 1, es[n - 1], f);
      }
    }
  }

  /** The message of one element that no superset element contains. */
  lemma NotFoundMirror(root: Bytes, p: Path, i: nat, e: Json, f: Formatter)
    ensures RenderMessages(root, [DiffCheck.NotFound(p, i, e)], f) == [NotFoundMessage(ElementPath(DotText(root, p), i), e, f)]
  {
    DotTextAppend(root, p, Index(i));
    assert [DiffCheck.NotFound(p, i, e)][1..] == [];
  }

  /** As many messages as diff.go records, from any starting path text. */
  lemma MessagesCountDiffs(sub: Json, sup: Json, path: Bytes, f: Formatter)
    ensures |Messages(sub, sup, path, f)| == |DiffCheck.Diffs(sub, sup, [])|
  {
    MessagesMirrorDiffs(sub, sup, path, [], f);
  }

  /** The verdict is true exactly when no message is produced. */
  lemma NoMessagesIffContained(sub: Json, sup: Json, path: Bytes, f: Formatter)
    ensures Messages(sub, sup, path, f) == [] <==> Contained(sub, sup)
  {
    MessagesCountDiffs(sub, sup, path, f);
    DiffCheck.NoDiffsIffContained(sub, sup, []);
  }

  /** A well-formed document checked against itself gives no message. */
  lemma MessagesReflexive(v: Json, path: Bytes, f: Formatter)
    requires WellFormed(v)
    ensures Messages(v, v, path, f) == []
  {
    ContainedReflexive(v);
    NoMessagesIffContained(v, v, path, f);
  }

  /** A non-null subset whose dynamic type differs from the superset's gives
      exactly one type-mismatch message at its own path, and nothing from
      inside it. */
  lemma TypeMismatchRule(sub: Json, sup: Json, path: Bytes, f: Formatter)
    requires !sub.Null? && TypeOf(sub) != TypeOf(sup)
    ensures Messages(sub, sup, path, f) == [TypeMessage(path, sub, sup)]
    ensures !Contained(sub, sup)
  {
    NoMessagesIffContained(sub, sup, path, f);
  }

  /** Every message starts with the dotted text of the path it was
      reported from. */
  lemma {:induction false} DotTextExtends(root: Bytes, p: Path, q: Path)
    requires IsPrefix(p, q)
    ensures IsPrefix(DotText(root, p), DotText(root, q))
    decreases |q|
  {
    if |q| > |p| {
      var parent := q[..|q| - 1];
      assert parent[..|p|] == p;
      DotTextExtends(root, p, parent);
      assert q == parent + [q[|q| - 1]];
      DotTextAppend(root, parent, q[|q| - 1]);
    } else {
      assert q == p;
    }
  }

  lemma MessagesStartWithPath(sub: Json, sup: Json, root: Bytes, p: Path, f: Formatter)
    ensures forall m | m in Messages(sub, sup, DotText(root, p), f) :: IsPrefix(DotText(root, p), m)
  {
    MessagesMirrorDiffs(sub, sup, root, p, f);
    var ds := DiffCheck.Diffs(sub, sup, p);
    DiffCheck.DiffsUnderPath(sub, sup, p);
    forall m | m in Messages(sub, sup, DotText(root, p), f) ensures IsPrefix(DotText(root, p), m) {
      var k :| 0 <= k < |ds| && m == RenderMessages(root, ds, f)[k];
      RenderAt(root, ds, f, k);
      assert ds[k] in ds;
      DotTextExtends(root, p, ds[k].path);
    }
  }

  lemma {:induction false} RenderAt(root: Bytes, ds: seq<DiffCheck.Diff>, f: Formatter, k: nat)
    requires k < |ds|
    ensures RenderMessages(root, ds, f)[k] == MessageOf(root, ds[k], f)
    ensures IsPrefix(DotText(root, ds[k].path), MessageOf(root, ds[k], f))
  {
    if k > 0 {
      RenderAt(root, ds[1..], f, k - 1);
    } else {
      MessageStartsWithPath(root, ds[0], f);
    }
  }

  /** A message starts with the text of its record's location. */
  lemma MessageStartsWithPath(root: Bytes, d: DiffCheck.Diff, f: Formatter)
    ensures IsPrefix(DotText(root, d.path), MessageOf(root, d, f))
  {
    var p := DotText(root, d.path);
    assert IsPrefix(p, p);
    match d.kind
    case MissingKey =>
      PrefixThen(p, p, Ascii(": missing key in superset"));
    case ElementNotFound =>
      PrefixThen(p, p, Ascii(": element not found in superset array: "));
      PrefixThen(p, p + Ascii(": element not found in superset array: "), FormatValue(d.subsetValue, f));
    case _ =>
      TypeMessageStarts(p, d.subsetValue, d.supersetValue);
      ValueMessageStarts(p, d.subsetValue, d.supersetValue, f);
  }

  /** A string stays a prefix of what it starts, whatever is appended. */
  lemma PrefixThen(p: Bytes, x: Bytes, y: Bytes)
    requires IsPrefix(p, x)
    ensures IsPrefix(p, x + y)
  {
    assert (x + y)[..|p|] == x[..|p|];
  }

  lemma TypeMessageStarts(p: Bytes, sub: Json, sup: Json)
    ensures IsPrefix(p, TypeMessage(p, sub, sup))
  {
    var a := p + Ascii(": type mismatch (subset: ");
    var b := a + TypeName(TypeOf(sub));
    var c := b + Ascii(", superset: ");
    var e := c + TypeName(TypeOf(sup));
    assert IsPrefix(p, p);
    PrefixThen(p, p, Ascii(": type mismatch (subset: "));
    PrefixThen(p, a, TypeName(TypeOf(sub)));
    PrefixThen(p, b, Ascii(", superset: "));
    PrefixThen(p, c, TypeName(TypeOf(sup)));
    PrefixThen(p, e, Ascii(")"));
  }

  lemma ValueMessageStarts(p: Bytes, sub: Json, sup: Json, f: Formatter)
    ensures IsPrefix(p, ValueMessage(p, sub, sup, f))
  {
    var a := p + Ascii(": value mismatch (subset: ");
    var b := a + FormatValue(sub, f);
    var c := b + Ascii(", superset: ");
    var e := c + FormatValue(sup, f);
    assert IsPrefix(p, p);
    PrefixThen(p, p, Ascii(": value mismatch (subset: "));
    PrefixThen(p, a, FormatValue(sub, f));
    PrefixThen(p, b, Ascii(", superset: "));
    PrefixThen(p, c, FormatValue(sup, f));
    PrefixThen(p, e, Ascii(")"));
  }

  /** Dotted paths do not identify a location: a key holding "." reads
      like two nested keys. */
  lemma DotPathsCollide()
    ensures DotText(Ascii("$"), [Name("a.b")]) == DotText(Ascii("$"), [Name("a"), Name("b")])
  {
    DotTextAppend(Ascii("$"), [], Name("a.b"));
    DotTextAppend(Ascii("$"), [Name("a")], Name("b"));
    DotTextAppend(Ascii("$"), [], Name("a"));
    assert [Name("a"), Name("b")] == [Name("a")] + [Name("b")];
    Utf8Concat("a", ".b");
    Utf8Concat(".", "b");
    AsciiIsUtf8(".");
  }

  // ---------------------------------------------------------------------
  // Scenarios from the source's tests

  /** {"a":"1"} against {"a":1}: "$.a: type mismatch (subset: string,
      superset: float64)". */
  lemma TypeMismatchScenario(f: Formatter)
    ensures Messages(Obj([("a", Str("1"))]), Obj([("a", Num(1.0))]), Ascii("$"), f)
         == [TypeMessage(Ascii("$.a"), Str("1"), Num(1.0))]
  {
    var fs := [("a", Str("1"))];
    var sup := [("a", Num(1.0))];
    var root := Ascii("$");
    assert Lookup(sup, "a") == Some(Num(1.0));
    var cp := ChildPath(root, "a");
    assert Messages(Str("1"), Num(1.0), cp, f) == [TypeMessage(cp, Str("1"), Num(1.0))];
    assert ObjectMessages(fs, sup, root, 1, f) == ObjectMessages(fs, sup, root, 0, f) + MemberMessages("a", Str("1"), sup, root, f);
    assert Messages(Obj(fs), Obj(sup), root, f) == [TypeMessage(cp, Str("1"), Num(1.0))];
    AsciiIsUtf8("a");
    AsciiConcat("$", ".");
    AsciiConcat("$.", "a");
    assert cp == Ascii("$.a");
  }

  /** {"a":1,"c":3} against {"a":1,"b":2}: "$.c: missing key in superset". */
  lemma MissingKeyScenario(f: Formatter)
    ensures Messages(Obj([("a", Num(1.0)), ("c", Num(3.0))]), Obj([("a", Num(1.0)), ("b", Num(2.0))]), Ascii("$"), f)
         == [MissingMessage(Ascii("$.c"))]
  {
    var fs := [("a", Num(1.0)), ("c", Num(3.0))];
    var sup := [("a", Num(1.0)), ("b", Num(2.0))];
    var root := Ascii("$");
    assert Lookup(sup, "a") == Some(Num(1.0));
    assert Lookup(sup, "c") == None;
    assert Messages(Num(1.0), Num(1.0), ChildPath(root, "a"), f) == [];
    assert MemberMessages("a", Num(1.0), sup, root, f) == [];
    assert ObjectMessages(fs, sup, root, 1, f) == ObjectMessages(fs, sup, root, 0, f) + MemberMessages("a", Num(1.0), sup, root, f);
    assert ObjectMessages(fs, sup, root, 2, f) == ObjectMessages(fs, sup, root, 1, f) + MemberMessages("c", Num(3.0), sup, root, f);
    var cp := ChildPath(root, "c");
    assert MemberMessages("c", Num(3.0), sup, root, f) == [MissingMessage(cp)];
    assert Messages(Obj(fs), Obj(sup), root, f) == [MissingMessage(cp)];
    AsciiIsUtf8("c");
    AsciiConcat("$", ".");
    AsciiConcat("$.", "c");
    assert cp == Ascii("$.c");
  }

  /** [1,999] against [1,2]: the message for element 1 starts with "$[1]". */
  lemma ElementPathScenario(f: Formatter)
    ensures var ms := Messages(Arr([Num(1.0), Num(999.0)]), Arr([Num(1.0), Num(2.0)]), Ascii("$"), f);
      |ms| == 1 && IsPrefix(Ascii("$[1]"), ms[0])
  {
    var es := [Num(1.0), Num(999.0)];
    var sup := [Num(1.0), Num(2.0)];
    var root := Ascii("$");
    assert Contained(Num(1.0), sup[0]);
    assert ElementFound(es[0], sup);
    assert !Contained(Num(999.0), sup[0]) && !Contained(Num(999.0), sup[1]);
    assert !ElementFound(es[1], sup);
    assert ArrayMessages(es, sup, root, 1, f) == [];
    var m := NotFoundMessage(ElementPath(root, 1), es[1], f);
    assert ArrayMessages(es, sup, root, 2, f) == [m];
    assert Messages(Arr(es), Arr(sup), root, f) == [m];
    SecondElementText();
    assert IsPrefix(Ascii("$[1]"), Ascii("$[1]"));
    PrefixThen(Ascii("$[1]"), Ascii("$[1]"), Ascii(": element not found in superset array: "));
    PrefixThen(Ascii("$[1]"), Ascii("$[1]") + Ascii(": element not found in superset array: "), FormatValue(es[1], f));
  }

  lemma SecondElementText()
    ensures ElementPath(Ascii("$"), 1) == Ascii("$[1]")
  {
    AsciiConcat("$", "[");
    AsciiConcat("$[", "1");
    AsciiConcat("$[1", "]");
    assert Decimal(1) == Ascii("1");
  }

  /** {"user":{"profile":{"age":99}}} against the same with 30: one value
      mismatch reported at "$.user.profile.age". */
  lemma NestedPathScenario(f: Formatter)
    ensures var ms := Messages(
        Obj([("user", Obj([("profile", Obj([("age", Num(99.0))]))]))]),
        Obj([("user", Obj([("profile", Obj([("age", Num(30.0))]))]))]),
        Ascii("$"), f);
      ms == [ValueMessage(Ascii("$.user.profile.age"), Num(99.0), Num(30.0), f)]
  {
    var root := Ascii("$");
    var fs3 := [("age", Num(99.0))];
    var sup3 := [("age", Num(30.0))];
    var fs2 := [("profile", Obj(fs3))];
    var sup2 := [("profile", Obj(sup3))];
    var fs1 := [("user", Obj(fs2))];
    var sup1 := [("user", Obj(sup2))];
    var cp1 := ChildPath(root, "user");
    var cp2 := ChildPath(cp1, "profile");
    var cp3 := ChildPath(cp2, "age");
    var msg := ValueMessage(cp3, Num(99.0), Num(30.0), f);
    assert Messages(Num(99.0), Num(30.0), cp3, f) == [msg];
    assert Lookup(sup3, "age") == Some(Num(30.0));
    assert ObjectMessages(fs3, sup3, cp2, 1, f) == ObjectMessages(fs3, sup3, cp2, 0, f) + MemberMessages("age", Num(99.0), sup3, cp2, f);
    assert Messages(Obj(fs3), Obj(sup3), cp2, f) == [msg];
    assert Lookup(sup2, "profile") == Some(Obj(sup3));
    assert ObjectMessages(fs2, sup2, cp1, 1, f) == ObjectMessages(fs2, sup2, cp1, 0, f) + MemberMessages("profile", Obj(fs3), sup2, cp1, f);
    assert Messages(Obj(fs2), Obj(sup2), cp1, f) == [msg];
    assert Lookup(sup1, "user") == Some(Obj(sup2));
    assert ObjectMessages(fs1, sup1, root, 1, f) == ObjectMessages(fs1, sup1, root, 0, f) + MemberMessages("user", Obj(fs2), sup1, root, f);
    assert Messages(Obj(fs1), Obj(sup1), root, f) == [msg];
    NestedPathText();
  }

  /** The member text of an ASCII key below an ASCII path text. */
  lemma ChildPathAscii(p: string, key: string)
    requires forall i | 0 <= i < |key| :: key[i] as int < 0x80
    ensures ChildPath(Ascii(p), key) == Ascii(p + "." + key)
  {
    AsciiIsUtf8(key);
    AsciiConcat(p, ".");
    AsciiConcat(p + ".", key);
  }

  lemma NestedPathText()
    ensures ChildPath(ChildPath(ChildPath(Ascii("$"), "user"), "profile"), "age") == Ascii("$.user.profile.age")
  {
    UserText();
    ProfileText();
    AgeText();
  }

  lemma UserText()
    ensures ChildPath(Ascii("$"), "user") == Ascii("$.user")
  {
    ChildPathAscii("$", "user");
    assert "$" + "." + "user" == "$.user";
  }

  lemma ProfileText()
    ensures ChildPath(Ascii("$.user"), "profile") == Ascii("$.user.profile")
  {
    ChildPathAscii("$.user", "profile");
    assert "$.user" + "." + "profile" == "$.user.profile";
  }

  lemma AgeText()
    ensures ChildPath(Ascii("$.user.profile"), "age") == Ascii("$.user.profile.age")
  {
    ChildPathAscii("$.user.profile", "age");
    assert "$.user.profile" + "." + "age" == "$.user.profile.age";
  }
}
