/*
 * The decoded JSON tree both checkers and the renderer walk, the paths that
 * address its nodes, and the structural-containment relation "subset is
 * contained in superset" that both checker variants decide.
 *
 * Go's encoding/json decodes a document into nil, bool, float64, string,
 * map[string]interface{} and []interface{}; Json has one constructor for each.
 */
module JsonValue {

  datatype Option<T> = None | Some(value: T)

  /** A decoded JSON value. A number is the float64 the decoder produced,
      held as a real: the decoder never yields NaN or an infinity, so number
      equality is plain equality. An object is a Go map: its fields are
      kept with distinct keys in ascending key order (see WellFormed). */
  datatype Json =
    | Null
    | Bool(b: bool)
    | Num(n: real)
    | Str(s: string)
    | Obj(fields: seq<(string, Json)>)
    | Arr(elems: seq<Json>)

  /** One step of a path: a member name or an array index. */
  datatype Segment = Name(name: string) | Index(index: nat)

  /** A location in a tree; the root is the empty path. */
  type Path = seq<Segment>

  predicate IsPrefix<T(==)>(p: seq<T>, q: seq<T>) {
    |p| <= |q| && q[..|p|] == p
  }

  /** Go's string order (sort.Strings). Go compares the UTF-8 bytes, and
      UTF-8 preserves code-point order, so comparing characters agrees. */
  predicate StrLess(a: string, b: string) {
    if |a| == 0 then |b| > 0
    else if |b| == 0 then false
    else a[0] < b[0] || (a[0] == b[0] && StrLess(a[1..], b[1..]))
  }

  lemma {:induction false} StrLessIrreflexive(a: string)
    ensures !StrLess(a, a)
  {
    if |a| > 0 {
      StrLessIrreflexive(a[1..]);
    }
  }

  /** Keys in strictly ascending order, hence distinct. */
  predicate KeysSorted(fields: seq<(string, Json)>) {
    forall i, j | 0 <= i < j < |fields| :: StrLess(fields[i].0, fields[j].0)
  }

  /** Every object in the tree has sorted, distinct keys: a Go map after
      its keys went through sort.Strings. */
  predicate WellFormed(v: Json) {
    match v
    case Obj(fs) => KeysSorted(fs) && forall i | 0 <= i < |fs| :: WellFormed(fs[i].1)
    case Arr(es) => forall i | 0 <= i < |es| :: WellFormed(es[i])
    case _ => true
  }

  /** The map lookup `superset[key]` with its `exists` flag. */
  function Lookup(fields: seq<(string, Json)>, key: string): (r: Option<Json>)
    ensures r.None? <==> forall i | 0 <= i < |fields| :: fields[i].0 != key
    ensures r.Some? ==> exists i | 0 <= i < |fields| :: fields[i] == (key, r.value)
  {
    if fields == [] then None
    else if fields[0].0 == key then Some(fields[0].1)
    else Lookup(fields[1..], key)
  }

  lemma {:induction false} LookupSorted(fields: seq<(string, Json)>, i: nat)
    requires KeysSorted(fields) && i < |fields|
    ensures Lookup(fields, fields[i].0) == Some(fields[i].1)
  {
    if i > 0 {
      StrLessIrreflexive(fields[0].0);
      assert StrLess(fields[0].0, fields[i].0);
      assert KeysSorted(fields[1..]) by {
        forall a, b | 0 <= a < b < |fields[1..]|
          ensures StrLess(fields[1..][a].0, fields[1..][b].0)
        {
          assert fields[1..][a] == fields[a + 1] && fields[1..][b] == fields[b + 1];
        }
      }
      LookupSorted(fields[1..], i - 1);
    }
  }

  /** The child reached from `v` by one segment, if there is one. */
  function Step(v: Json, s: Segment): Option<Json> {
    match s
    case Name(k) => if v.Obj? then Lookup(v.fields, k) else None
    case Index(i) => if v.Arr? && i < |v.elems| then Some(v.elems[i]) else None
  }

  /** The node at location `q` below `v`, if there is one. */
  function At(v: Json, q: Path): Option<Json>
    decreases q
  {
    if q == [] then Some(v)
    else match Step(v, q[0])
      case None => None
      case Some(c) => At(c, q[1..])
  }

  lemma AtCons(v: Json, s: Segment, c: Json, r: Path)
    requires Step(v, s) == Some(c)
    ensures At(v, [s] + r) == At(c, r)
  {
    assert ([s] + r)[0] == s && ([s] + r)[1..] == r;
  }

  // ---------------------------------------------------------------------
  // Structural containment

  /** `sub` is contained in `sup`: a null matches only null; every subset
      key must be present in the superset object with a contained value
      (extra superset keys are ignored); every subset array element must be
      contained in SOME superset element (set mode: order is ignored and
      one superset element may serve several subset elements); any other
      value must be equal. This is the verdict of both checkers. */
  predicate Contained(sub: Json, sup: Json)
    decreases sub, 0
  {
    match sub
    case Null => sup.Null?
    case Obj(fs) => sup.Obj? && forall i | 0 <= i < |fs| :: FieldContained(fs[i].0, fs[i].1, sup.fields)
    case Arr(es) => sup.Arr? && forall i | 0 <= i < |es| :: ElementFound(es[i], sup.elems)
    case _ => sub == sup
  }

  /** The subset member `key: value` is present in the superset object and
      its value there contains `value`. */
  predicate FieldContained(key: string, value: Json, supFields: seq<(string, Json)>)
    decreases value, 1
  {
    match Lookup(supFields, key)
    case None => false
    case Some(w) => Contained(value, w)
  }

  /** Some superset element contains the subset element. */
  predicate ElementFound(elem: Json, supElems: seq<Json>)
    decreases elem, 1
  {
    exists j | 0 <= j < |supElems| :: Contained(elem, supElems[j])
  }

  /** Every well-formed value is contained in itself. */
  lemma {:induction false} ContainedReflexive(v: Json)
    requires WellFormed(v)
    ensures Contained(v, v)
    decreases v
  {
    match v
    case Obj(fs) =>
      forall i | 0 <= i < |fs| ensures FieldContained(fs[i].0, fs[i].1, fs) {
        LookupSorted(fs, i);
        ContainedReflexive(fs[i].1);
      }
    case Arr(es) =>
      forall i | 0 <= i < |es| ensures ElementFound(es[i], es) {
        ContainedReflexive(es[i]);
      }
    case _ =>
  }

  /** Containment is transitive. With reflexivity this gives monotonicity:
      a superset that grows (gains keys or elements) still contains
      whatever it contained before. */
  lemma {:induction false} ContainedTransitive(a: Json, b: Json, c: Json)
    requires Contained(a, b) && Contained(b, c)
    ensures Contained(a, c)
    decreases a
  {
    match a
    case Obj(fs) =>
      forall i | 0 <= i < |fs| ensures FieldContained(fs[i].0, fs[i].1, c.fields) {
        var w := Lookup(b.fields, fs[i].0).value;
        var j :| 0 <= j < |b.fields| && b.fields[j] == (fs[i].0, w);
        assert FieldContained(b.fields[j].0, b.fields[j].1, c.fields);
        ContainedTransitive(fs[i].1, w, Lookup(c.fields, fs[i].0).value);
      }
    case Arr(es) =>
      forall i | 0 <= i < |es| ensures ElementFound(es[i], c.elems) {
        assert ElementFound(es[i], b.elems);
        var j :| 0 <= j < |b.elems| && Contained(es[i], b.elems[j]);
        assert ElementFound(b.elems[j], c.elems);
        var m :| 0 <= m < |c.elems| && Contained(b.elems[j], c.elems[m]);
        ContainedTransitive(es[i], b.elems[j], c.elems[m]);
      }
    case _ =>
  }

  /** An empty object is contained in every object and in nothing else; an
      empty array likewise in every array. */
  lemma EmptyContainers(sup: Json)
    ensures Contained(Obj([]), sup) <==> sup.Obj?
    ensures Contained(Arr([]), sup) <==> sup.Arr?
  {
  }

  /** Monotonicity: appending elements to a superset array keeps every
      containment it had. */
  lemma ContainedInLongerArray(sub: Json, es: seq<Json>, more: seq<Json>)
    requires Contained(sub, Arr(es))
    ensures Contained(sub, Arr(es + more))
  {
    var big := es + more;
    forall i | 0 <= i < |sub.elems| ensures ElementFound(sub.elems[i], big) {
      assert ElementFound(sub.elems[i], es);
      var j :| 0 <= j < |es| && Contained(sub.elems[i], es[j]);
      assert big[j] == es[j];
    }
  }

  /** Whether a superset array finds an element depends only on which
      elements it holds, not on their order. */
  lemma ElementFoundIgnoresOrder(elem: Json, es: seq<Json>, es': seq<Json>)
    requires multiset(es) == multiset(es')
    ensures ElementFound(elem, es) <==> ElementFound(elem, es')
  {
    if ElementFound(elem, es) {
      var j :| 0 <= j < |es| && Contained(elem, es[j]);
      assert es[j] in multiset(es');
      var j' :| 0 <= j' < |es'| && es'[j'] == es[j];
    }
    if ElementFound(elem, es') {
      var j :| 0 <= j < |es'| && Contained(elem, es'[j]);
      assert es'[j] in multiset(es);
      var j' :| 0 <= j' < |es| && es[j'] == es'[j];
    }
  }

  /** Array containment is invariant under permuting the superset array. */
  lemma ContainedIgnoresSupersetOrder(sub: Json, es: seq<Json>, es': seq<Json>)
    requires multiset(es) == multiset(es')
    ensures Contained(sub, Arr(es)) <==> Contained(sub, Arr(es'))
  {
    if sub.Arr? {
      forall i | 0 <= i < |sub.elems|
        ensures ElementFound(sub.elems[i], es) <==> ElementFound(sub.elems[i], es')
      {
        ElementFoundIgnoresOrder(sub.elems[i], es, es');
      }
    }
  }

  /** Object containment looks at the superset only through the subset's
      keys: superset-only keys and the superset's field order are ignored. */
  lemma ContainedSeesOnlySubsetKeys(fs: seq<(string, Json)>, sup: seq<(string, Json)>, sup': seq<(string, Json)>)
    requires forall i | 0 <= i < |fs| :: Lookup(sup, fs[i].0) == Lookup(sup', fs[i].0)
    ensures Contained(Obj(fs), Obj(sup)) <==> Contained(Obj(fs), Obj(sup'))
  {
  }
}
