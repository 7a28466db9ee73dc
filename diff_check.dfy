/*
 * The containment checker of diff.go (lines 11-138): the same walk as the
 * verdict `JsonValue.Contained`, recording typed, path-tagged Diff records
 * at the points where containment fails.
 *
 * Diffs / ObjectDiffs / ArrayDiffs specify the list the walk produces;
 * the methods CheckSubsetPath, CheckObjectSubset and CheckArraySubset are
 * the source's loops, proved to return exactly (Contained, Diffs).
 */
module DiffCheck {
  import opened JsonValue

  /** DiffType: the four kinds of difference. */
  datatype DiffKind = MissingKey | ValueMismatch | TypeMismatch | ElementNotFound

  /** One recorded difference. The source keeps both sides as interface{},
      whose nil means both "JSON null" and "no value": MissingKey and
      ElementNotFound leave the superset side nil, here Null. */
  datatype Diff = Diff(path: Path, kind: DiffKind, subsetValue: Json, supersetValue: Json)

  // ---------------------------------------------------------------------
  // Specification of the diff list

  /** The differences reported for `sub` against `sup` at `path`. */
  function Diffs(sub: Json, sup: Json, path: Path): seq<Diff>
    decreases sub, 1, 0
  {
    match sub
    case Null => if sup.Null? then [] else [Diff(path, ValueMismatch, sub, sup)]
    case Obj(fs) =>
      if sup.Obj? then ObjectDiffs(fs, sup.fields, path, |fs|)
      else [Diff(path, TypeMismatch, sub, sup)]
    case Arr(es) =>
      if sup.Arr? then ArrayDiffs(es, sup.elems, path, |es|)
      else [Diff(path, TypeMismatch, sub, sup)]
    case _ => if sub == sup then [] else [Diff(path, ValueMismatch, sub, sup)]
  }

  /** The differences of the first `n` subset members, member after member. */
  function ObjectDiffs(fs: seq<(string, Json)>, supFs: seq<(string, Json)>, path: Path, n: nat): seq<Diff>
    requires n <= |fs|
    decreases Obj(fs), 0, n
  {
    if n == 0 then []
    else ObjectDiffs(fs, supFs, path, n - 1) + MemberDiffs(fs[n - 1].0, fs[n - 1].1, supFs, path)
  }

  /** A subset member absent from the superset is one MissingKey record
      carrying only the subset value; a present one contributes whatever is
      found below it. */
  function MemberDiffs(key: string, value: Json, supFs: seq<(string, Json)>, path: Path): seq<Diff>
    decreases value, 2, 0
  {
    match Lookup(supFs, key)
    case None => [Diff(path + [Name(key)], MissingKey, value, Null)]
    case Some(w) => Diffs(value, w, path + [Name(key)])
  }

  /** The record for an array element that no superset element contains. */
  function NotFound(path: Path, i: nat, elem: Json): Diff {
    Diff(path + [Index(i)], ElementNotFound, elem, Null)
  }

  /** The differences of the first `n` subset elements: one NotFound per
      element no superset element contains, nothing from inside it. */
  function ArrayDiffs(es: seq<Json>, supEs: seq<Json>, path: Path, n: nat): seq<Diff>
    requires n <= |es|
  {
    if n == 0 then []
    else
      var last := if ElementFound(es[n - 1], supEs) then [] else [NotFound(path, n - 1, es[n - 1])];
      ArrayDiffs(es, supEs, path, n - 1) + last
  }

  // ---------------------------------------------------------------------
  // The checker

  /** checkSubsetWithDiffs: the walk from the root path. */
  method CheckSubsetWithDiffs(subset: Json, superset: Json) returns (ok: bool, diffs: seq<Diff>)
    ensures ok == Contained(subset, superset)
    ensures diffs == Diffs(subset, superset, [])
    ensures ok <==> diffs == []
  {
    ok, diffs := CheckSubsetPath(subset, superset, []);
    NoDiffsIffContained(subset, superset, []);
  }

  method CheckSubsetPath(subset: Json, superset: Json, path: Path) returns (ok: bool, diffs: seq<Diff>)
    ensures ok == Contained(subset, superset)
    ensures diffs == Diffs(subset, superset, path)
    decreases subset, 1
  {
    if subset.Null? {
      if superset.Null? {
        return true, [];
      }
      return false, [Diff(path, ValueMismatch, subset, superset)];
    }
    if subset.Obj? && !superset.Obj? {
      return false, [Diff(path, TypeMismatch, subset, superset)];
    }
    if subset.Arr? && !superset.Arr? {
      return false, [Diff(path, TypeMismatch, subset, superset)];
    }
    if subset.Obj? {
      ok, diffs := CheckObjectSubset(subset.fields, superset.fields, path);
      return;
    }
    if subset.Arr? {
      ok, diffs := CheckArraySubset(subset.elems, superset.elems, path);
      return;
    }
    if subset == superset {
      return true, [];
    }
    return false, [Diff(path, ValueMismatch, subset, superset)];
  }

  /** checkObjectSubset: members in key order (the fields are kept sorted),
      clearing the flag and appending on every failing member. */
  method CheckObjectSubset(subset: seq<(string, Json)>, superset: seq<(string, Json)>, path: Path)
    returns (ok: bool, diffs: seq<Diff>)
    ensures ok == Contained(Obj(subset), Obj(superset))
    ensures diffs == ObjectDiffs(subset, superset, path, |subset|)
    decreases Obj(subset), 0
  {
    diffs := [];
    ok := true;
    for i := 0 to |subset|
      invariant ok == forall k | 0 <= k < i :: FieldContained(subset[k].0, subset[k].1, superset)
      invariant diffs == ObjectDiffs(subset, superset, path, i)
    {
      var (key, value) := subset[i];
      assert ObjectDiffs(subset, superset, path, i + 1) == diffs + MemberDiffs(key, value, superset, path);
      var childPath := path + [Name(key)];
      var supersetValue := Lookup(superset, key);
      if supersetValue.None? {
        assert !FieldContained(key, value, superset);
        ok := false;
        diffs := diffs + [Diff(childPath, MissingKey, value, Null)];
        continue;
      }
      var childOk, childDiffs := CheckSubsetPath(value, supersetValue.value, childPath);
      assert MemberDiffs(key, value, superset, path) == childDiffs;
      assert FieldContained(key, value, superset) == childOk;
      if !childOk {
        ok := false;
        diffs := diffs + childDiffs;
      } else {
        NoDiffsIffContained(value, supersetValue.value, childPath);
      }
    }
  }

  /** checkArraySubset: for each subset element, a linear search of the
      superset for any element that contains it (the nested walk runs at
      the root path and its diffs are dropped). */
  method CheckArraySubset(subset: seq<Json>, superset: seq<Json>, path: Path)
    returns (ok: bool, diffs: seq<Diff>)
    ensures ok == Contained(Arr(subset), Arr(superset))
    ensures diffs == ArrayDiffs(subset, superset, path, |subset|)
    decreases Arr(subset), 0
  {
    diffs := [];
    ok := true;
    for i := 0 to |subset|
      invariant ok == forall k | 0 <= k < i :: ElementFound(subset[k], superset)
      invariant diffs == ArrayDiffs(subset, superset, path, i)
    {
      var found := false;
      var j := 0;
      while j < |superset|
        invariant j <= |superset|
        invariant !found
        invariant forall m | 0 <= m < j :: !Contained(subset[i], superset[m])
      {
        var elemOk, _ := CheckSubsetPath(subset[i], superset[j], []);
        if elemOk {
          found := true;
          assert ElementFound(subset[i], superset);
          break;
        }
        j := j + 1;
      }
      if !found {
        ok := false;
        diffs := diffs + [NotFound(path, i, subset[i])];
      }
    }
  }

  // ---------------------------------------------------------------------
  // Verdict and diff list agree

  /** The verdict is true exactly when no difference is recorded: every
      failing node leaves a record, every record marks a failure. */
  lemma {:induction false} NoDiffsIffContained(sub: Json, sup: Json, path: Path)
    ensures Diffs(sub, sup, path) == [] <==> Contained(sub, sup)
    decreases sub, 1, 0
  {
    match sub
    case Obj(fs) =>
      if sup.Obj? {
        ObjectNoDiffs(fs, sup.fields, path, |fs|);
      }
    case Arr(es) =>
      if sup.Arr? {
        ArrayNoDiffs(es, sup.elems, path, |es|);
      }
    case _ =>
  }

  lemma {:induction false} ObjectNoDiffs(fs: seq<(string, Json)>, supFs: seq<(string, Json)>, path: Path, n: nat)
    requires n <= |fs|
    ensures ObjectDiffs(fs, supFs, path, n) == []
        <==> forall k | 0 <= k < n :: FieldContained(fs[k].0, fs[k].1, supFs)
    decreases Obj(fs), 0, n
  {
    if n > 0 {
      ObjectNoDiffs(fs, supFs, path, n - 1);
      match Lookup(supFs, fs[n - 1].0)
      case None =>
      case Some(w) =>
        NoDiffsIffContained(fs[n - 1].1, w, path + [Name(fs[n - 1].0)]);
    }
  }

  lemma {:induction false} ArrayNoDiffs(es: seq<Json>, supEs: seq<Json>, path: Path, n: nat)
    requires n <= |es|
    ensures ArrayDiffs(es, supEs, path, n) == []
        <==> forall k | 0 <= k < n :: ElementFound(es[k], supEs)
  {
    if n > 0 {
      ArrayNoDiffs(es, supEs, path, n - 1);
    }
  }

  /** Null, shape mismatch and scalars: at most one record, at the current
      path, and no descent below it. */
  lemma LeafOutcomes(sub: Json, sup: Json, path: Path)
    ensures sub.Null? ==>
      (Contained(sub, sup) <==> sup.Null?) &&
      (!sup.Null? ==> Diffs(sub, sup, path) == [Diff(path, ValueMismatch, Null, sup)])
    ensures (sub.Obj? && !sup.Obj?) || (sub.Arr? && !sup.Arr?) ==>
      !Contained(sub, sup) && Diffs(sub, sup, path) == [Diff(path, TypeMismatch, sub, sup)]
    ensures !sub.Null? && !sub.Obj? && !sub.Arr? ==>
      (Contained(sub, sup) <==> sub == sup) &&
      (sub != sup ==> Diffs(sub, sup, path) == [Diff(path, ValueMismatch, sub, sup)])
  {
  }

  /** A well-formed value checked against itself yields no difference. */
  lemma CheckReflexive(v: Json, path: Path)
    requires WellFormed(v)
    ensures Diffs(v, v, path) == []
  {
    ContainedReflexive(v);
    NoDiffsIffContained(v, v, path);
  }

  // ---------------------------------------------------------------------
  // Paths

  /** The same records, reported below `prefix`. */
  function Rebased(prefix: Path, ds: seq<Diff>): seq<Diff> {
    seq(|ds|, i requires 0 <= i < |ds| => ds[i].(path := prefix + ds[i].path))
  }

  lemma RebasedConcat(prefix: Path, a: seq<Diff>, b: seq<Diff>)
    ensures Rebased(prefix, a + b) == Rebased(prefix, a) + Rebased(prefix, b)
  {
  }

  /** The starting path only prefixes the records: the walk started at
      `p + r` reports what the walk started at `r` reports, with `p` in
      front of every path. */
  lemma {:induction false} DiffsFollowPath(sub: Json, sup: Json, p: Path, r: Path)
    ensures Diffs(sub, sup, p + r) == Rebased(p, Diffs(sub, sup, r))
    decreases sub, 1, 0
  {
    match sub
    case Obj(fs) =>
      if sup.Obj? {
        ObjectDiffsFollowPath(fs, sup.fields, p, r, |fs|);
      }
    case Arr(es) =>
      if sup.Arr? {
        ArrayDiffsFollowPath(es, sup.elems, p, r, |es|);
      }
    case _ =>
  }

  lemma {:induction false} ObjectDiffsFollowPath(fs: seq<(string, Json)>, supFs: seq<(string, Json)>, p: Path, r: Path, n: nat)
    requires n <= |fs|
    ensures ObjectDiffs(fs, supFs, p + r, n) == Rebased(p, ObjectDiffs(fs, supFs, r, n))
    decreases Obj(fs), 0, n
  {
    if n > 0 {
      var (key, value) := fs[n - 1];
      ObjectDiffsFollowPath(fs, supFs, p, r, n - 1);
      RebasedConcat(p, ObjectDiffs(fs, supFs, r, n - 1), MemberDiffs(key, value, supFs, r));
      assert (p + r) + [Name(key)] == p + (r + [Name(key)]);
      match Lookup(supFs, key)
      case None =>
      case Some(w) =>
        DiffsFollowPath(value, w, p, r + [Name(key)]);
    }
  }

  lemma {:induction false} ArrayDiffsFollowPath(es: seq<Json>, supEs: seq<Json>, p: Path, r: Path, n: nat)
    requires n <= |es|
    ensures ArrayDiffs(es, supEs, p + r, n) == Rebased(p, ArrayDiffs(es, supEs, r, n))
  {
    if n > 0 {
      ArrayDiffsFollowPath(es, supEs, p, r, n - 1);
      var last := if ElementFound(es[n - 1], supEs) then [] else [NotFound(r, n - 1, es[n - 1])];
      RebasedConcat(p, ArrayDiffs(es, supEs, r, n - 1), last);
      assert (p + r) + [Index(n - 1)] == p + (r + [Index(n - 1)]);
    }
  }

  /** Every record lies at the starting path or below it. */
  lemma DiffsUnderPath(sub: Json, sup: Json, path: Path)
    ensures forall d | d in Diffs(sub, sup, path) :: IsPrefix(path, d.path)
  {
    DiffsFollowPath(sub, sup, path, []);
    assert path + [] == path;
  }

  /** The boolean outcome does not depend on the starting path, and neither
      does the number of records. */
  lemma VerdictIgnoresPath(sub: Json, sup: Json, p: Path, q: Path)
    ensures |Diffs(sub, sup, p)| == |Diffs(sub, sup, q)|
    ensures Diffs(sub, sup, p) == [] <==> Diffs(sub, sup, q) == []
  {
    DiffsFollowPath(sub, sup, p, []);
    DiffsFollowPath(sub, sup, q, []);
    assert p + [] == p && q + [] == q;
  }

  // ---------------------------------------------------------------------
  // What each record says

  /** `d`, reported by the walk of `sub` against `sup` from `path`, is true
      of the two trees: it sits at a location q below `path`; its subset side
      is the subset node at q; a mismatch carries the superset node at q,
      which does not contain it; a missing key names a member absent from
      the superset object at the parent location; an element not found is
      contained in no element of the superset array at the parent location. */
  ghost predicate Explained(d: Diff, sub: Json, sup: Json, path: Path) {
    IsPrefix(path, d.path) && ExplainedAt(d, sub, sup, d.path[|path|..])
  }

  /** What `d` says, read at the location q relative to the two trees. */
  ghost predicate ExplainedAt(d: Diff, sub: Json, sup: Json, q: Path) {
       && At(sub, q) == Some(d.subsetValue)
       && match d.kind
          case ValueMismatch =>
            && At(sup, q) == Some(d.supersetValue)
            && !d.subsetValue.Obj? && !d.subsetValue.Arr?
            && !Contained(d.subsetValue, d.supersetValue)
          case TypeMismatch =>
            && At(sup, q) == Some(d.supersetValue)
            && ((d.subsetValue.Obj? && !d.supersetValue.Obj?) || (d.subsetValue.Arr? && !d.supersetValue.Arr?))
          case MissingKey =>
            && q != [] && q[|q| - 1].Name?
            && d.supersetValue == Null
            && At(sup, q) == None
            && (match At(sup, q[..|q| - 1]) case Some(Obj(_)) => true case _ => false)
          case ElementNotFound =>
            && q != [] && q[|q| - 1].Index?
            && d.supersetValue == Null
            && (match At(sup, q[..|q| - 1])
                case Some(Arr(ses)) => !ElementFound(d.subsetValue, ses)
                case _ => false)
  }

  lemma ExplainedLift(d: Diff, sub: Json, sup: Json, path: Path, s: Segment, c: Json, w: Json)
    requires Step(sub, s) == Some(c) && Step(sup, s) == Some(w)
    requires Explained(d, c, w, path + [s])
    ensures Explained(d, sub, sup, path)
  {
    var q' := d.path[|path| + 1..];
    var q := d.path[|path|..];
    assert d.path[..|path|] == path by {
      assert d.path[..|path|] == d.path[..|path| + 1][..|path|];
    }
    assert q == [s] + q' by {
      assert d.path[..|path| + 1] == path + [s];
      assert q[0] == s;
      assert q[1..] == q';
    }
    ExplainedAtCons(d, sub, sup, s, c, w, q');
  }

  lemma ExplainedAtCons(d: Diff, sub: Json, sup: Json, s: Segment, c: Json, w: Json, q: Path)
    requires Step(sub, s) == Some(c) && Step(sup, s) == Some(w)
    requires ExplainedAt(d, c, w, q)
    ensures ExplainedAt(d, sub, sup, [s] + q)
  {
    AtCons(sub, s, c, q);
    AtCons(sup, s, w, q);
    if q != [] {
      assert ([s] + q)[..|q|] == [s] + q[..|q| - 1];
      AtCons(sup, s, w, q[..|q| - 1]);
    }
  }

  /** Every record the walk reports is true of the two trees. */
  lemma {:induction false} DiffsExplained(sub: Json, sup: Json, path: Path)
    requires WellFormed(sub)
    ensures forall d | d in Diffs(sub, sup, path) :: Explained(d, sub, sup, path)
    decreases sub, 1, 0
  {
    assert path[|path|..] == [];
    match sub
    case Obj(fs) =>
      if sup.Obj? {
        ObjectDiffsExplained(fs, sup.fields, path, |fs|);
      }
    case Arr(es) =>
      if sup.Arr? {
        ArrayDiffsExplained(es, sup.elems, path, |es|);
      }
    case _ =>
  }

  lemma {:induction false} ObjectDiffsExplained(fs: seq<(string, Json)>, supFs: seq<(string, Json)>, path: Path, n: nat)
    requires n <= |fs| && WellFormed(Obj(fs))
    ensures forall d | d in ObjectDiffs(fs, supFs, path, n) :: Explained(d, Obj(fs), Obj(supFs), path)
    decreases Obj(fs), 0, n
  {
    if n > 0 {
      ObjectDiffsExplained(fs, supFs, path, n - 1);
      var (key, value) := fs[n - 1];
      LookupSorted(fs, n - 1);
      var s := Name(key);
      assert Step(Obj(fs), s) == Some(value);
      match Lookup(supFs, key)
      case None =>
        var d := Diff(path + [s], MissingKey, value, Null);
        var q := d.path[|path|..];
        assert q == [s];
        assert At(Obj(fs), q) == At(value, []) by { AtCons(Obj(fs), s, value, []); }
        assert q[..|q| - 1] == [];
        assert Explained(d, Obj(fs), Obj(supFs), path);
      case Some(w) =>
        DiffsExplained(value, w, path + [s]);
        forall d | d in Diffs(value, w, path + [s]) ensures Explained(d, Obj(fs), Obj(supFs), path) {
          ExplainedLift(d, Obj(fs), Obj(supFs), path, s, value, w);
        }
    }
  }

  lemma {:induction false} ArrayDiffsExplained(es: seq<Json>, supEs: seq<Json>, path: Path, n: nat)
    requires n <= |es|
    ensures forall d | d in ArrayDiffs(es, supEs, path, n) :: Explained(d, Arr(es), Arr(supEs), path)
  {
    if n > 0 {
      ArrayDiffsExplained(es, supEs, path, n - 1);
      if !ElementFound(es[n - 1], supEs) {
        var d := NotFound(path, n - 1, es[n - 1]);
        var q := d.path[|path|..];
        assert q == [Index(n - 1)];
        assert At(Arr(es), q) == At(es[n - 1], []) by { AtCons(Arr(es), Index(n - 1), es[n - 1], []); }
        assert q[..|q| - 1] == [];
      }
    }
  }

  // ---------------------------------------------------------------------
  // Objects

  /** Only the superset's members at the subset's keys matter: superset-only
      keys never produce a record, and the superset's order is irrelevant. */
  lemma {:induction false} ObjectDiffsSeeOnlySubsetKeys(fs: seq<(string, Json)>, supFs: seq<(string, Json)>, supFs': seq<(string, Json)>, path: Path, n: nat)
    requires n <= |fs|
    requires forall i | 0 <= i < |fs| :: Lookup(supFs, fs[i].0) == Lookup(supFs', fs[i].0)
    ensures ObjectDiffs(fs, supFs, path, n) == ObjectDiffs(fs, supFs', path, n)
  {
    if n > 0 {
      ObjectDiffsSeeOnlySubsetKeys(fs, supFs, supFs', path, n - 1);
      assert Lookup(supFs, fs[n - 1].0) == Lookup(supFs', fs[n - 1].0);
    }
  }

  /** The member key a record below `path` was reported under. */
  ghost predicate ReportedUnder(d: Diff, path: Path, key: string) {
    |path| < |d.path| && d.path[|path|] == Name(key)
  }

  lemma StrLessDistinct(a: string, b: string)
    requires StrLess(a, b)
    ensures a != b
  {
    StrLessIrreflexive(a);
  }

  /** The records of one member all lie below that member's path. */
  lemma MemberDiffsUnder(key: string, value: Json, supFs: seq<(string, Json)>, path: Path)
    ensures forall d | d in MemberDiffs(key, value, supFs, path) :: ReportedUnder(d, path, key)
  {
    var p := path + [Name(key)];
    match Lookup(supFs, key)
    case None =>
    case Some(w) =>
      DiffsUnderPath(value, w, p);
      forall d | d in MemberDiffs(key, value, supFs, path) ensures ReportedUnder(d, path, key) {
        assert d.path[..|p|] == p;
        assert d.path[|path|] == d.path[..|p|][|path|];
      }
  }

  /** The records of the first `n` members each lie below one of them. */
  lemma {:induction false} ObjectDiffsFrom(fs: seq<(string, Json)>, supFs: seq<(string, Json)>, path: Path, n: nat)
    requires n <= |fs|
    ensures forall d | d in ObjectDiffs(fs, supFs, path, n) ::
      exists m | 0 <= m < n :: ReportedUnder(d, path, fs[m].0)
  {
    if n > 0 {
      ObjectDiffsFrom(fs, supFs, path, n - 1);
      MemberDiffsUnder(fs[n - 1].0, fs[n - 1].1, supFs, path);
    }
  }

  /** Records come out in sorted-key order: a record reported under a
      member key never precedes one reported under a smaller key. */
  ghost predicate InKeyOrder(ds: seq<Diff>, path: Path) {
    forall a, b, ka, kb | 0 <= a < b < |ds| && ReportedUnder(ds[a], path, ka) && ReportedUnder(ds[b], path, kb) ::
      ka == kb || StrLess(ka, kb)
  }

  lemma {:induction false} ObjectDiffsInKeyOrder(fs: seq<(string, Json)>, supFs: seq<(string, Json)>, path: Path, n: nat)
    requires n <= |fs| && KeysSorted(fs)
    ensures InKeyOrder(ObjectDiffs(fs, supFs, path, n), path)
  {
    if n > 0 {
      var old_ := ObjectDiffs(fs, supFs, path, n - 1);
      var new_ := MemberDiffs(fs[n - 1].0, fs[n - 1].1, supFs, path);
      var ds := old_ + new_;
      assert ds == ObjectDiffs(fs, supFs, path, n);
      ObjectDiffsInKeyOrder(fs, supFs, path, n - 1);
      ObjectDiffsFrom(fs, supFs, path, n - 1);
      MemberDiffsUnder(fs[n - 1].0, fs[n - 1].1, supFs, path);
      forall a, b, ka, kb | 0 <= a < b < |ds| && ReportedUnder(ds[a], path, ka) && ReportedUnder(ds[b], path, kb)
        ensures ka == kb || StrLess(ka, kb)
      {
        if b < |old_| {
          assert ds[a] == old_[a] && ds[b] == old_[b];
          assert InKeyOrder(old_, path);
          assert ReportedUnder(old_[a], path, ka) && ReportedUnder(old_[b], path, kb);
        } else {
          assert ds[b] == new_[b - |old_|];
          assert ds[b] in new_;
          assert kb == fs[n - 1].0;
          if a >= |old_| {
            assert ds[a] == new_[a - |old_|];
            assert ds[a] in new_;
            assert ka == kb;
          } else {
            assert ds[a] == old_[a];
            assert ds[a] in old_;
            var m :| 0 <= m < n - 1 && ReportedUnder(ds[a], path, fs[m].0);
            assert ka == fs[m].0;
            assert StrLess(fs[m].0, fs[n - 1].0);
            assert StrLess(ka, kb);
          }
        }
      }
    }
  }

  /** A subset member absent from the superset yields exactly one
      MissingKey record, at its own path, carrying only the subset value. */
  lemma {:induction false} MissingKeyReportedOnce(fs: seq<(string, Json)>, supFs: seq<(string, Json)>, path: Path, i: nat, n: nat)
    requires i < n <= |fs| && KeysSorted(fs)
    requires Lookup(supFs, fs[i].0) == None
    ensures multiset(ObjectDiffs(fs, supFs, path, n))[Diff(path + [Name(fs[i].0)], MissingKey, fs[i].1, Null)] == 1
  {
    var target := Diff(path + [Name(fs[i].0)], MissingKey, fs[i].1, Null);
    assert ReportedUnder(target, path, fs[i].0);
    var old_ := ObjectDiffs(fs, supFs, path, n - 1);
    var new_ := MemberDiffs(fs[n - 1].0, fs[n - 1].1, supFs, path);
    assert ObjectDiffs(fs, supFs, path, n) == old_ + new_;
    assert multiset(old_ + new_) == multiset(old_) + multiset(new_);
    if n - 1 == i {
      assert new_ == [target];
      ObjectDiffsFrom(fs, supFs, path, n - 1);
      forall d | d in old_ ensures d != target {
        var m :| 0 <= m < n - 1 && ReportedUnder(d, path, fs[m].0);
        StrLessDistinct(fs[m].0, fs[i].0);
      }
      assert target !in old_;
      assert multiset(old_)[target] == 0;
    } else {
      MissingKeyReportedOnce(fs, supFs, path, i, n - 1);
      MemberDiffsUnder(fs[n - 1].0, fs[n - 1].1, supFs, path);
      StrLessDistinct(fs[i].0, fs[n - 1].0);
      assert target !in new_;
      assert multiset(new_)[target] == 0;
    }
  }

  // ---------------------------------------------------------------------
  // Arrays

  /** Every record of the array check is a NotFound for an element that
      no superset element contains: nothing is reported from inside an
      element. */
  lemma {:induction false} ArrayDiffsAreNotFound(es: seq<Json>, supEs: seq<Json>, path: Path, n: nat)
    requires n <= |es|
    ensures forall d | d in ArrayDiffs(es, supEs, path, n) ::
      exists i | 0 <= i < n :: d == NotFound(path, i, es[i]) && !ElementFound(es[i], supEs)
  {
    if n > 0 {
      ArrayDiffsAreNotFound(es, supEs, path, n - 1);
    }
  }

  lemma NotFoundAt(path: Path, i: nat, elem: Json)
    ensures |NotFound(path, i, elem).path| == |path| + 1
    ensures NotFound(path, i, elem).path[|path|] == Index(i)
  {
  }

  /** Element i is reported exactly when no superset element contains it. */
  lemma {:induction false} ArrayDiffsReportFailures(es: seq<Json>, supEs: seq<Json>, path: Path, n: nat)
    requires n <= |es|
    ensures forall i | 0 <= i < n :: NotFound(path, i, es[i]) in ArrayDiffs(es, supEs, path, n) <==> !ElementFound(es[i], supEs)
  {
    if n > 0 {
      ArrayDiffsReportFailures(es, supEs, path, n - 1);
      var last := if ElementFound(es[n - 1], supEs) then [] else [NotFound(path, n - 1, es[n - 1])];
      assert ArrayDiffs(es, supEs, path, n) == ArrayDiffs(es, supEs, path, n - 1) + last;
      forall i | 0 <= i < n - 1 ensures NotFound(path, i, es[i]) != NotFound(path, n - 1, es[n - 1]) {
        NotFoundAt(path, i, es[i]);
        NotFoundAt(path, n - 1, es[n - 1]);
      }
      ArrayDiffsAreNotFound(es, supEs, path, n - 1);
    }
  }

  /** Records come in strictly increasing index order, so each failing
      element is reported exactly once. */
  /** The array index a record below `path` was reported at, or -1. */
  ghost function ReportedIndex(d: Diff, path: Path): int {
    if |path| < |d.path| && d.path[|path|].Index? then d.path[|path|].index else -1
  }

  /** Every record sits at an index below n, in strictly increasing order. */
  ghost predicate InIndexOrder(ds: seq<Diff>, path: Path, n: nat) {
    (forall a | 0 <= a < |ds| :: 0 <= ReportedIndex(ds[a], path) < n) &&
    (forall a, b | 0 <= a < b < |ds| :: ReportedIndex(ds[a], path) < ReportedIndex(ds[b], path))
  }

  lemma {:induction false} ArrayDiffsInIndexOrder(es: seq<Json>, supEs: seq<Json>, path: Path, n: nat)
    requires n <= |es|
    ensures InIndexOrder(ArrayDiffs(es, supEs, path, n), path, n)
  {
    if n > 0 {
      ArrayDiffsInIndexOrder(es, supEs, path, n - 1);
      var old_ := ArrayDiffs(es, supEs, path, n - 1);
      var last := if ElementFound(es[n - 1], supEs) then [] else [NotFound(path, n - 1, es[n - 1])];
      var ds := ArrayDiffs(es, supEs, path, n);
      assert ds == old_ + last;
      assert InIndexOrder(old_, path, n - 1);
      NotFoundAt(path, n - 1, es[n - 1]);
      forall a | 0 <= a < |ds| ensures 0 <= ReportedIndex(ds[a], path) < n {
        if a < |old_| {
          assert ds[a] == old_[a];
        } else {
          assert ds[a] == NotFound(path, n - 1, es[n - 1]);
        }
      }
      forall a, b | 0 <= a < b < |ds| ensures ReportedIndex(ds[a], path) < ReportedIndex(ds[b], path) {
        assert ds[a] == old_[a];
        if b < |old_| {
          assert ds[b] == old_[b];
        } else {
          assert ds[b] == NotFound(path, n - 1, es[n - 1]);
          assert ReportedIndex(old_[a], path) < n - 1;
        }
      }
    }
  }

  /** Permuting the superset array changes neither the verdict nor the
      records. */
  lemma {:induction false} ArrayDiffsIgnoreSupersetOrder(es: seq<Json>, supEs: seq<Json>, supEs': seq<Json>, path: Path, n: nat)
    requires n <= |es| && multiset(supEs) == multiset(supEs')
    ensures ArrayDiffs(es, supEs, path, n) == ArrayDiffs(es, supEs', path, n)
  {
    if n > 0 {
      ArrayDiffsIgnoreSupersetOrder(es, supEs, supEs', path, n - 1);
      ElementFoundIgnoresOrder(es[n - 1], supEs, supEs');
    }
  }

  // ---------------------------------------------------------------------
  // Scenarios from the source's tests

  /** {"a":1,"c":3} against {"a":1,"b":2}: one MissingKey at $.c. */
  lemma MissingKeyScenario()
    ensures Diffs(Obj([("a", Num(1.0)), ("c", Num(3.0))]), Obj([("a", Num(1.0)), ("b", Num(2.0))]), [])
         == [Diff([Name("c")], MissingKey, Num(3.0), Null)]
  {
    var fs := [("a", Num(1.0)), ("c", Num(3.0))];
    var sup := [("a", Num(1.0)), ("b", Num(2.0))];
    assert Lookup(sup, "a") == Some(Num(1.0));
    assert Lookup(sup, "c") == None;
    assert MemberDiffs("a", Num(1.0), sup, []) == [];
    assert Diffs(Num(1.0), Num(1.0), [Name("a")]) == [];
    assert MemberDiffs("a", Num(1.0), sup, []) == Diffs(Num(1.0), Num(1.0), [Name("a")]);
    assert ObjectDiffs(fs, sup, [], 0) == [];
    assert ObjectDiffs(fs, sup, [], 1) == [];
    assert [] + [Name("c")] == [Name("c")];
    assert MemberDiffs("c", Num(3.0), sup, []) == [Diff([Name("c")], MissingKey, Num(3.0), Null)];
    assert ObjectDiffs(fs, sup, [], 2) == ObjectDiffs(fs, sup, [], 1) + MemberDiffs("c", Num(3.0), sup, []);
  }

  /** [1,4] against [1,2,3]: 1 is found, 4 is not, reported at $[1]. */
  lemma ElementNotFoundScenario()
    ensures Diffs(Arr([Num(1.0), Num(4.0)]), Arr([Num(1.0), Num(2.0), Num(3.0)]), [])
         == [Diff([Index(1)], ElementNotFound, Num(4.0), Null)]
  {
    var es := [Num(1.0), Num(4.0)];
    var sup := [Num(1.0), Num(2.0), Num(3.0)];
    assert Contained(Num(1.0), sup[0]);
    assert ElementFound(Num(1.0), sup);
    assert !ElementFound(Num(4.0), sup);
    assert ArrayDiffs(es, sup, [], 1) == [];
    assert NotFound([], 1, Num(4.0)) == Diff([Index(1)], ElementNotFound, Num(4.0), Null);
  }

  /** [2,1] against [1,2,3]: contained, order ignored. */
  lemma SetModeScenario()
    ensures Diffs(Arr([Num(2.0), Num(1.0)]), Arr([Num(1.0), Num(2.0), Num(3.0)]), []) == []
  {
    var sup := [Num(1.0), Num(2.0), Num(3.0)];
    var es := [Num(2.0), Num(1.0)];
    assert Contained(Num(2.0), sup[1]);
    assert Contained(Num(1.0), sup[0]);
    assert ElementFound(es[0], sup) && ElementFound(es[1], sup);
    assert ArrayDiffs(es, sup, [], 1) == [];
  }
}
