# json-subset in Dafny

json-subset decides whether one JSON document (the *subset*) is structurally
contained in another (the *superset*), and explains a failure. The rules are:

- every subset key must be present in the superset object, with a contained
  value; extra superset keys are ignored;
- arrays are compared in set mode: every subset element must be contained in
  some superset element, in any order;
- `null` matches only `null`, and every other scalar must be equal.

The repository has two checkers with the same verdict. diff.go collects
typed difference records, each with a location, a kind and the values on
both sides. It then re-renders the subset as indented JSON and marks with
`-` every line at or below a recorded difference. subset.go collects
human-readable messages, with locations written `$`, `.key` and `[i]`.

This project models both checkers, the renderer and the marking. It proves:

- the imperative checking and rendering loops against specification
  functions;
- the properties the marking relies on: the verdict is containment, no
  differences exactly when contained, and where each difference sits and
  what it records;
- every failure is visible in the rendered view;
- the two checkers report the same failures.

Modules:

- `JsonValue` (json_value.dfy): the decoded value, object keys kept sorted
  and distinct as after `sort.Strings`. It defines locations (`Path`, a
  sequence of `Name` and `Index` segments), lookup, and the declarative
  containment predicate `Contained` shared by both checkers.
- `DiffCheck` (diff.go, lines 11-133): the difference records, their
  specification `Diffs`, the checking methods, and the lemmas about them.
- `SubsetCheck` (subset.go): the message checker on byte strings. It also
  proves that its messages are the rendering of the `DiffCheck` records.
- `Render` (diff.go, lines 151-273): the line list of the pretty-printer.
  Each line is tagged with the location it shows. The lemmas prove that the
  locations are exact, that every location gets a line, and that the
  indentation is right.
- `NormalizedPath`: the text form of a location, as a JSONPath Normalized
  Path (section 2.7 of RFC 9535). A parser reads it back, and a lemma proves
  that string prefix on texts is segment prefix on locations.
- `DiffOutput` (diff.go, lines 140-149 and 293-326): the diff-path set, the
  marking scan and the output text. The lemmas say what a mark means.

Three points of the code's behaviour deserve a note:

- **Marking stops at the failed node.** Only the failed node's lines and the
  lines below it are marked; the enclosing `"user": {` and `}` are not.
  `shouldMarkAsDiff` (diff.go:311-326) marks a line only when a diff path
  text is a prefix of the line's own path text.
  `DiffOutput.MissingEmailScenario` states the markers of the repository's
  own example: only the `email` line is marked.
- **No false prefix matches.** Prefix marking on Normalized Path text
  (`$['foo']`, `$['foobar']`) cannot confuse a member `foo` with a sibling
  `foobar`: `NormalizedPath.TextPrefix` proves that string prefix equals
  segment prefix, and `NormalizedPath.SiblingNamesDoNotNest` shows the
  example.
- **Scalars of different types.** diff.go records a scalar of another type
  as a value mismatch. subset.go reports any difference of dynamic type as a
  type mismatch. `SubsetCheck.MessageOf` makes that difference explicit.

## Model

| member | source | states |
|---|---|---|
| JsonValue.Lookup | diff.go:93 | the lookup finds nothing exactly when no member has the key, and a found value belongs to a member with that key |
| JsonValue.LookupSorted | diff.go:92-93 | with sorted distinct keys, looking up a member's key yields that member's own value |
| JsonValue.StrLessIrreflexive | diff.go:89 | the key order of sort.Strings is strict: no key sorts before itself |
| JsonValue.ContainedReflexive | diff.go:40-133 | every well-formed document is contained in itself |
| JsonValue.ContainedTransitive | diff.go:40-133 | containment is transitive |
| JsonValue.ContainedInLongerArray | diff.go:112-133 | appending elements to a superset array never breaks containment |
| JsonValue.ElementFoundIgnoresOrder | diff.go:116-124 | whether a subset element is found does not depend on the order of the superset elements |
| JsonValue.ContainedIgnoresSupersetOrder | diff.go:112-133 | containment in an array is insensitive to reordering the superset array |
| JsonValue.ContainedSeesOnlySubsetKeys | diff.go:81-110 | containment in an object depends only on the superset members whose keys the subset has |
| JsonValue.EmptyContainers | subset_test.go:110-121 | an empty object is contained in every object and in nothing else, and an empty array in every array and in nothing else |
| DiffCheck.CheckSubsetWithDiffs | diff.go:36-38 | the verdict is containment, the records are those the specification lists from the root, and the verdict holds exactly when there is no record |
| DiffCheck.CheckSubsetPath | diff.go:40-79 | the verdict is containment and the records are the specified ones at the given location |
| DiffCheck.CheckObjectSubset | diff.go:81-110 | the member loop in sorted key order yields containment as its verdict and the specified records of all members |
| DiffCheck.CheckArraySubset | diff.go:112-133 | the nested search loop yields containment as its verdict and one record per unmatched element |
| DiffCheck.NoDiffsIffContained | diff.go:36-133 | no record is produced exactly when the subset is contained |
| DiffCheck.ObjectNoDiffs | diff.go:91-107 | the members produce no record exactly when every member is present with a contained value |
| DiffCheck.ArrayNoDiffs | diff.go:116-130 | the elements produce no record exactly when each one is found in the superset |
| DiffCheck.LeafOutcomes | diff.go:40-79 | null matches only null, else one value mismatch; an object or array against another shape is one type mismatch without descent; an unequal scalar is one value mismatch |
| DiffCheck.CheckReflexive | diff.go:40-133 | a well-formed document checked against itself yields no record |
| DiffCheck.DiffsFollowPath | diff.go:94-127 | checking under a longer starting location gives the same records with that location put in front |
| DiffCheck.DiffsUnderPath | diff.go:40-133 | every record lies at or below the starting location |
| DiffCheck.VerdictIgnoresPath | diff.go:119 | the number of records and the verdict do not depend on the starting location, so the bare check in the element search is sound |
| DiffCheck.DiffsExplained | diff.go:40-133 | each record's location exists in the subset with the recorded value, and its kind is justified there: unequal values, a shape clash, a key absent from the superset object, or an element no superset element contains |
| DiffCheck.ObjectDiffsExplained | diff.go:81-110 | the same justification for the records of an object's members |
| DiffCheck.ArrayDiffsExplained | diff.go:112-133 | the same justification for the records of an array's elements |
| DiffCheck.ObjectDiffsSeeOnlySubsetKeys | diff.go:91-107 | the records of an object depend only on the superset members whose keys the subset has |
| DiffCheck.MemberDiffsUnder | diff.go:94-105 | every record from a member lies under that member's key |
| DiffCheck.ObjectDiffsFrom | diff.go:91-107 | every record of the first n members lies under one of those members' keys |
| DiffCheck.ObjectDiffsInKeyOrder | diff.go:85-91 | records of different members appear in sorted key order |
| DiffCheck.MissingKeyReportedOnce | diff.go:96-99 | a key absent from the superset is reported by exactly one missing-key record carrying the subset value |
| DiffCheck.ArrayDiffsAreNotFound | diff.go:125-129 | every record of an array is an element-not-found record of an element that no superset element contains |
| DiffCheck.NotFoundAt | diff.go:127 | an element record lies one index segment below the array |
| DiffCheck.ArrayDiffsReportFailures | diff.go:116-130 | an element is reported exactly when no superset element contains it |
| DiffCheck.ArrayDiffsInIndexOrder | diff.go:116-130 | element records come in strictly increasing index order, all below the array length |
| DiffCheck.ArrayDiffsIgnoreSupersetOrder | diff.go:116-124 | reordering the superset array does not change the records |
| DiffCheck.MissingKeyScenario | diff_test.go:21-26 | {"a":1,"c":3} against {"a":1,"b":2} yields one missing-key record at c |
| DiffCheck.SetModeScenario | diff_test.go:27-32 | [2,1] is contained in [1,2,3], order ignored |
| DiffCheck.ElementNotFoundScenario | diff_test.go:33-38 | [1,4] against [1,2,3] yields one element-not-found record at index 1 |
| SubsetCheck.FormatValueBounded | subset.go:111-127 | a shown value is at most 50 bytes; a value that fits is shown whole, a longer one keeps its first 47 bytes and ends in "..." |
| SubsetCheck.CheckSubset | subset.go:12-14 | from `$`, the verdict is containment, the messages are the specified ones, and the verdict holds exactly when there is no message |
| SubsetCheck.CheckSubsetPath | subset.go:16-41 | the verdict is containment and the messages are the specified ones at the given path text |
| SubsetCheck.CheckObjectSubset | subset.go:43-74 | the member loop yields containment as its verdict and the specified messages of all members |
| SubsetCheck.CheckArraySubset | subset.go:76-96 | the nested search loop yields containment as its verdict and one message per unmatched element |
| SubsetCheck.IsSubsetOf | subset.go:99-102 | the answer is containment, whatever path text the check runs with |
| SubsetCheck.DiffIfNotEqual | subset.go:104-109 | at most one message; for a scalar or null subset, no message exactly when the subset is contained; for a null subset, exactly the messages of the checker (none when the superset is null, one value mismatch otherwise); the message starts with the path |
| SubsetCheck.MessagesReflexive | subset_test.go:16-21 | a well-formed document checked against itself gives no message |
| SubsetCheck.TypeMismatchRule | subset.go:22-27 | a non-null subset whose dynamic type differs from the superset's gives exactly one type-mismatch message at its own path, nothing from inside it, and is not contained |
| SubsetCheck.DecimalIsDecimalText | subset.go:91 | the bytes `%d` writes for an index are the ASCII bytes of the index text of a Normalized Path |
| SubsetCheck.DotTextAppend | subset.go:58 | the text of a member location is the parent's text, a dot and the key; the text of an element location is the parent's text and the bracketed index |
| SubsetCheck.MessagesMirrorDiffs | subset.go:16-96 | the messages are, one for one and in order, the rendering of the diff.go records, so both checkers report the same failures at the same locations |
| SubsetCheck.ObjectMessagesMirror | subset.go:43-74 | the same correspondence for the messages of an object's members |
| SubsetCheck.ArrayMessagesMirror | subset.go:76-96 | the same correspondence for the messages of an array's elements |
| SubsetCheck.MessagesCountDiffs | subset.go:16-96 | there are as many messages as diff.go records, whatever the path text |
| SubsetCheck.NoMessagesIffContained | subset.go:16-96 | no message is produced exactly when the subset is contained |
| SubsetCheck.DotTextExtends | subset.go:58 | a deeper location's text extends the text of its ancestor |
| SubsetCheck.MessagesStartWithPath | subset.go:16-96 | every message starts with the text of the location being checked |
| SubsetCheck.RenderAt | subset.go:16-96 | message k renders record k and starts with the text of that record's location |
| SubsetCheck.MessageStartsWithPath | subset.go:16-96 | every kind of message begins with the dotted text of the location it reports |
| SubsetCheck.MemberMessagesMirror | subset.go:55-70 | the messages of one member correspond to diff.go's records for it: a missing-key message, or the nested member's messages |
| SubsetCheck.DotPathsCollide | subset.go:58 | the member `a.b` and the member `b` of `a` get the same text `$.a.b` |
| SubsetCheck.TypeMismatchScenario | subset_test.go:129-134 | {"a":"1"} against {"a":1} yields exactly one type-mismatch message at `$.a` |
| SubsetCheck.MissingKeyScenario | subset_test.go:28-34 | {"a":1,"c":3} against {"a":1,"b":2} yields exactly one missing-key message at `$.c` |
| SubsetCheck.ElementPathScenario | subset_test.go:192-197 | [1,999] against [1,2] yields exactly one message, starting with `$[1]` |
| SubsetCheck.NestedPathScenario | subset_test.go:186-191 | the nested age mismatch yields exactly one value-mismatch message at `$.user.profile.age` |
| SubsetCheck.NestedPathText | subset_test.go:190 | the member texts of user, profile and age spell `$.user.profile.age` |
| Render.Indent | diff.go:153 | the indentation is two spaces per level |
| Render.FormatPrimitive | diff.go:275-291 | null is written `null`, booleans `true` and `false`, strings through the `%q` quoting and numbers through the number formatter |
| Render.SeparatorRule | diff.go:200-206 | the separator after a sibling is a comma for every sibling but the last, and nothing for the last |
| Render.LastLine | diff.go:152-218 | every value has at least one line, so the comma patch always applies; the last line carries the value's own location and, for an object or array, is its closing brace or bracket |
| Render.KeyValueSeparator | diff.go:220-273 | a member's separator is appended to its last line and changes no other line |
| Render.GenerateLines | diff.go:152-165 | the lines built are exactly the specified line list of the value |
| Render.GenerateObjectLines | diff.go:167-193 | the append loop builds the opening brace, the member lines in key order with commas between them, and the closing brace |
| Render.GenerateArrayLines | diff.go:195-218 | the append loop, with its in-place comma patch on each element's last line, builds exactly the specified element lines between brackets |
| Render.GenerateKeyValueLines | diff.go:220-273 | the member lines built are exactly the specified ones: the quoted key on the first line and the comma after the last |
| Render.GenerateKeyObjectLines | diff.go:224-245 | for an object member, the loop builds the quoted key with the opening brace, the nested member lines in key order, and the closing brace carrying the member's comma |
| Render.GenerateKeyArrayLines | diff.go:247-267 | for an array member, the loop builds the quoted key with the opening bracket, each element's lines with its comma patched on, and the closing bracket carrying the member's comma |
| Render.AppendToLast | diff.go:209-212 | the separator is appended to the content of the last line only, and an empty line list is left as it is |
| Render.WithSuffixPaths | diff.go:209-212 | patching a comma onto the last line leaves every line's location unchanged |
| Render.KeyValuePaths | diff.go:220-273 | a member's lines carry the same locations as the lines of its bare value |
| Render.FirstLine | diff.go:152-165 | a value's first line carries the value's own location |
| Render.LinesLocate | diff.go:152-273 | every line of a well-formed value lies at or below the starting location, at a node that exists in the value |
| Render.LinesCover | diff.go:152-273 | every node of the value has a line tagged with its location |
| Render.LinesIndented | diff.go:152-273 | every line starts with two spaces per level of its depth |
| Render.KeyValueIndented | diff.go:220-273 | the same indentation for the lines of a member |
| NormalizedPath.ParseText | diff.go:144 | reading a location's text gives the location back |
| NormalizedPath.TextInjective | diff.go:142-145 | different locations have different texts, so the diff-path set loses no location |
| NormalizedPath.SegmentsPrefix | diff.go:311-326 | the segment texts of one location are a prefix of those of another exactly when the first location is a prefix of the second |
| NormalizedPath.TextPrefix | diff.go:311-326 | a location's text is a string prefix of another's exactly when the first location is the same node as the second or an ancestor of it |
| NormalizedPath.SiblingNamesDoNotNest | diff.go:319-322 | the text of member `foo` is not a prefix of the text of its sibling `foobar` |
| DiffOutput.ShouldMarkAsDiff | diff.go:311-326 | the exact lookup and the scan for a longer match together accept exactly the lines whose text has a diff text as a prefix |
| DiffOutput.FormatOutput | diff.go:294-308 | the loop writes, per line, its marker, its content and a newline |
| DiffOutput.FormatDiffOutput | diff.go:141-149 | the output is the marked rendering of the subset under the set of diff-path texts |
| DiffOutput.MarkedIffBelowDiff | diff.go:311-326 | a line is marked exactly when it lies at or below the location of some record |
| DiffOutput.MarkerOfLine | diff.go:294-308 | the text of line k starts right after the text of the lines before it, with that line's marker |
| DiffOutput.DiffShown | diff.go:141-149 | the node of every record has its own line in the view, and that line is marked |
| DiffOutput.FailureIsVisible | diff_test.go:78-82 | when the subset is not contained, some line of the view starts with `-` |
| DiffOutput.ContainedShowsNoMarker | diff.go:141-149 | when the subset is contained, no line is marked |
| DiffOutput.ExampleDiffs | diff_test.go:63-76 | the repository's example has exactly one record, the missing `email` member of `user` |
| DiffOutput.ExampleLines | diff_test.go:63-77 | the example renders as six lines at the root, user, user.email, user.name, user and the root |
| DiffOutput.MissingEmailScenario | diff_test.go:63-85 | in the example only the `email` line is marked; neither `user` line nor the root lines are |

## Left out

- main.go is not part of this model: argument parsing, file and stdin
  reading, `json.Unmarshal`, the report printing and the exit codes are I/O.
  The model starts from decoded values.
- Library formatting is passed in as function parameters:
  - `json.Marshal` (`SubsetCheck.Formatter.marshal`);
  - `%q` quoting of keys and strings, and the number text `%.0f` or `%v`
    (`Render.Formatter`).

  Only the `%T` names of the six decoded types are written out.
- SubsetCheck.FormatValue: does not model the `%v` fallback taken when
  `json.Marshal` fails (subset.go:117-119). Marshalling a decoded value
  cannot fail.
- Render.FormatPrimitive: requires a scalar, because the renderer only calls
  it on scalars. The `default` branch of formatPrimitive is unreachable for
  decoded values.
- `copyPath` (diff.go:136-138) is not a member: locations are immutable
  sequences here, so a copy is the value itself.
- DiffCheck.CheckSubsetPath: the separate float64 comparison (diff.go:71-77)
  is subsumed by the equality test before it. Numbers are reals, and JSON
  decoding never yields NaN.
- `reflect.DeepEqual` and Go's `==` on interface values are modelled as
  equality of values.
- Go map iteration order is not modelled. Objects are key-sorted sequences
  with distinct keys (`JsonValue.WellFormed`), so `sort.Strings` is the
  identity. The scan of the diff-path map in ShouldMarkAsDiff picks elements
  in any order, and its result does not depend on that order.
- NormalizedPath.Text: the `String()` method of the path library is assumed
  to produce the Normalized Path text of section 2.7 of RFC 9535. The
  library itself is not part of this model.
- DiffOutput.ShouldMarkAsDiff: compares texts as character sequences, while
  Go compares their UTF-8 bytes. UTF-8 is a prefix code, so byte prefix and
  character prefix agree, but that is not proved here.
- SubsetCheck: message texts are byte strings (Go strings). The fixed parts
  are ASCII, and `SubsetCheck.AsciiIsUtf8` shows their bytes are their UTF-8
  encoding.
- DiffOutput.FailureIsVisible: states that a `-` marker begins some line. It
  does not state that the text `email` appears in the output, which depends
  on the `%q` parameter.
- Go `nil` stands both for JSON null and for "no value". The records of
  missing keys and unfound elements carry `Null` on the superset side, as the
  source's zero value does.
