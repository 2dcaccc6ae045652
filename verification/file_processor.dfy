/**
 * The deterministic part of the upload pipeline: flattening JSON values into
 * column maps, discovering the columns of a JSONL file, building one record
 * per JSONL line over those columns, and the table- and column-name clean-up.
 */
module FileProcessor {
  import opened Wrappers
  import opened Text

  // ---------------------------------------------------------------- JSON values

  /**
   * A parsed JSON value. Numbers are kept as their literal text, since they
   * are only carried through, never computed with.
   */
  datatype Json =
    | JNull
    | JBool(b: bool)
    | JNum(literal: string)
    | JStr(s: string)
    | JArr(items: seq<Json>)
    | JObj(members: seq<(string, Json)>)
  {
    /** Strings, numbers, booleans and null: what ends up in a table cell. */
    predicate IsPrimitive() {
      !JArr? && !JObj?
    }
  }

  /** Separator between an object key and its member's key. */
  const NestedDelimiter: string := "__"
  /** Separator between an array's key and an element index. */
  const ListIndexDelimiter: string := "_"

  /** The key of object member `key` under `prefix`; the bare key at top level. */
  function MemberKey(prefix: string, key: string): string {
    if prefix != "" then prefix + NestedDelimiter + key else key
  }

  /** The key of array element `i` under `prefix`, even at top level. */
  function ItemKey(prefix: string, i: nat): string {
    prefix + ListIndexDelimiter + NatToString(i)
  }

  // ---------------------------------------------------------------- flattening

  /**
   * `flatten_json_object`: a primitive becomes one entry under `prefix`;
   * objects and arrays contribute their members' and elements' entries, merged
   * left to right so that a later entry overwrites an earlier one with the
   * same key.
   */
  function Flatten(value: Json, prefix: string): map<string, Json>
    decreases value, 1
  {
    match value
    case JObj(members) => FlattenMembers(value, members, prefix)
    case JArr(items) => FlattenItems(value, items, prefix)
    case _ => map[prefix := value]
  }

  /** The merge over an object's members; `owner` is the object, for termination. */
  function FlattenMembers(ghost owner: Json, members: seq<(string, Json)>, prefix: string): map<string, Json>
    requires forall i | 0 <= i < |members| :: members[i].1 < owner
    decreases owner, 0, |members|
  {
    if members == [] then map[]
    else
      var last := members[|members| - 1];
      FlattenMembers(owner, members[..|members| - 1], prefix) + Flatten(last.1, MemberKey(prefix, last.0))
  }

  /** The merge over an array's elements; `owner` is the array, for termination. */
  function FlattenItems(ghost owner: Json, items: seq<Json>, prefix: string): map<string, Json>
    requires forall i | 0 <= i < |items| :: items[i] < owner
    decreases owner, 0, |items|
  {
    if items == [] then map[]
    else
      var n := |items| - 1;
      FlattenItems(owner, items[..n], prefix) + Flatten(items[n], ItemKey(prefix, n))
  }

  /** The column map of a flattened value: every cell is primitive and every key extends the prefix. */
  predicate FlatUnder(flat: map<string, Json>, prefix: string) {
    forall k | k in flat :: flat[k].IsPrimitive() && StartsWith(k, prefix)
  }

  lemma MemberKeyExtends(prefix: string, key: string)
    ensures StartsWith(MemberKey(prefix, key), prefix)
  {
    if prefix != "" {
      assert MemberKey(prefix, key)[..|prefix|] == prefix;
    }
  }

  lemma ItemKeyExtends(prefix: string, i: nat)
    ensures StartsWith(ItemKey(prefix, i), prefix)
  {
    assert ItemKey(prefix, i)[..|prefix|] == prefix;
  }

  lemma StartsWithTrans(s: string, t: string, u: string)
    requires StartsWith(s, t) && StartsWith(t, u)
    ensures StartsWith(s, u)
  {
    assert s[..|u|] == s[..|t|][..|u|];
  }

  lemma FlatUnderMerge(a: map<string, Json>, b: map<string, Json>, prefix: string)
    requires FlatUnder(a, prefix) && FlatUnder(b, prefix)
    ensures FlatUnder(a + b, prefix)
  {
  }

  lemma FlatUnderNarrow(flat: map<string, Json>, inner: string, prefix: string)
    requires FlatUnder(flat, inner) && StartsWith(inner, prefix)
    ensures FlatUnder(flat, prefix)
  {
    forall k | k in flat ensures StartsWith(k, prefix) {
      StartsWithTrans(k, inner, prefix);
    }
  }

  /**
   * Every flattened cell is a primitive value, and with any prefix every key
   * starts with that prefix.
   */
  lemma {:induction false} FlattenIsFlat(value: Json, prefix: string)
    ensures FlatUnder(Flatten(value, prefix), prefix)
    decreases value, 1
  {
    match value
    case JObj(members) => FlattenMembersIsFlat(value, members, prefix);
    case JArr(items) => FlattenItemsIsFlat(value, items, prefix);
    case _ => assert prefix[..|prefix|] == prefix;
  }

  lemma {:induction false} FlattenMembersIsFlat(owner: Json, members: seq<(string, Json)>, prefix: string)
    requires forall i | 0 <= i < |members| :: members[i].1 < owner
    ensures FlatUnder(FlattenMembers(owner, members, prefix), prefix)
    decreases owner, 0, |members|
  {
    if members != [] {
      var last := members[|members| - 1];
      var key := MemberKey(prefix, last.0);
      FlattenMembersIsFlat(owner, members[..|members| - 1], prefix);
      FlattenIsFlat(last.1, key);
      MemberKeyExtends(prefix, last.0);
      FlatUnderNarrow(Flatten(last.1, key), key, prefix);
      FlatUnderMerge(FlattenMembers(owner, members[..|members| - 1], prefix), Flatten(last.1, key), prefix);
    }
  }

  lemma {:induction false} FlattenItemsIsFlat(owner: Json, items: seq<Json>, prefix: string)
    requires forall i | 0 <= i < |items| :: items[i] < owner
    ensures FlatUnder(FlattenItems(owner, items, prefix), prefix)
    decreases owner, 0, |items|
  {
    if items != [] {
      var n := |items| - 1;
      var key := ItemKey(prefix, n);
      FlattenItemsIsFlat(owner, items[..n], prefix);
      FlattenIsFlat(items[n], key);
      ItemKeyExtends(prefix, n);
      FlatUnderNarrow(Flatten(items[n], key), key, prefix);
      FlatUnderMerge(FlattenItems(owner, items[..n], prefix), Flatten(items[n], key), prefix);
    }
  }

  /** Whether a value holds any primitive at all, at any depth. */
  predicate HasLeaf(value: Json) {
    match value
    case JObj(members) => exists i | 0 <= i < |members| :: HasLeaf(members[i].1)
    case JArr(items) => exists i | 0 <= i < |items| :: HasLeaf(items[i])
    case _ => true
  }

  /**
   * A value flattens to no keys exactly when it holds no primitive: empty
   * objects and arrays, however nested, contribute nothing.
   */
  lemma {:induction false} FlattenEmpty(value: Json, prefix: string)
    ensures Flatten(value, prefix) == map[] <==> !HasLeaf(value)
    decreases value, 1
  {
    match value
    case JObj(members) => FlattenMembersEmpty(value, members, prefix);
    case JArr(items) => FlattenItemsEmpty(value, items, prefix);
    case _ => assert prefix in Flatten(value, prefix);
  }

  lemma {:induction false} FlattenMembersEmpty(owner: Json, members: seq<(string, Json)>, prefix: string)
    requires forall i | 0 <= i < |members| :: members[i].1 < owner
    ensures FlattenMembers(owner, members, prefix) == map[]
            <==> forall i | 0 <= i < |members| :: !HasLeaf(members[i].1)
    decreases owner, 0, |members|
  {
    if members != [] {
      var n := |members| - 1;
      var init := members[..n];
      FlattenMembersEmpty(owner, init, prefix);
      FlattenEmpty(members[n].1, MemberKey(prefix, members[n].0));
      assert forall i | 0 <= i < n :: init[i] == members[i];
    }
  }

  lemma {:induction false} FlattenItemsEmpty(owner: Json, items: seq<Json>, prefix: string)
    requires forall i | 0 <= i < |items| :: items[i] < owner
    ensures FlattenItems(owner, items, prefix) == map[]
            <==> forall i | 0 <= i < |items| :: !HasLeaf(items[i])
    decreases owner, 0, |items|
  {
    if items != [] {
      var n := |items| - 1;
      var init := items[..n];
      FlattenItemsEmpty(owner, init, prefix);
      FlattenEmpty(items[n], ItemKey(prefix, n));
      assert forall i | 0 <= i < n :: init[i] == items[i];
    }
  }

  /** The keys of a flattened object are the keys its members flatten to. */
  lemma FlattenObjectKeys(members: seq<(string, Json)>, prefix: string, k: string)
    ensures k in Flatten(JObj(members), prefix)
            <==> exists j | 0 <= j < |members| :: k in Flatten(members[j].1, MemberKey(prefix, members[j].0))
  {
    MembersKeys(JObj(members), members, prefix, k);
  }

  /** On a key collision between members the last member that produces the key wins. */
  lemma FlattenObjectLaterWins(members: seq<(string, Json)>, prefix: string, k: string, j: nat)
    requires j < |members| && k in Flatten(members[j].1, MemberKey(prefix, members[j].0))
    requires forall j' | j < j' < |members| :: k !in Flatten(members[j'].1, MemberKey(prefix, members[j'].0))
    ensures k in Flatten(JObj(members), prefix)
    ensures Flatten(JObj(members), prefix)[k] == Flatten(members[j].1, MemberKey(prefix, members[j].0))[k]
  {
    MembersKeys(JObj(members), members, prefix, k);
    MembersLast(JObj(members), members, prefix, k, j);
  }

  lemma {:induction false} MembersKeys(owner: Json, members: seq<(string, Json)>, prefix: string, k: string)
    requires forall i | 0 <= i < |members| :: members[i].1 < owner
    ensures k in FlattenMembers(owner, members, prefix)
            <==> exists j | 0 <= j < |members| :: k in Flatten(members[j].1, MemberKey(prefix, members[j].0))
    decreases |members|
  {
    if members != [] {
      var n := |members| - 1;
      var init := members[..n];
      assert FlattenMembers(owner, members, prefix) == FlattenMembers(owner, init, prefix) + Flatten(members[n].1, MemberKey(prefix, members[n].0));
      MembersKeys(owner, init, prefix, k);
      assert forall i | 0 <= i < n :: init[i] == members[i];
    }
  }

  lemma {:induction false} MembersLast(owner: Json, members: seq<(string, Json)>, prefix: string, k: string, j: nat)
    requires forall i | 0 <= i < |members| :: members[i].1 < owner
    requires j < |members| && k in Flatten(members[j].1, MemberKey(prefix, members[j].0))
    requires forall j' | j < j' < |members| :: k !in Flatten(members[j'].1, MemberKey(prefix, members[j'].0))
    requires k in FlattenMembers(owner, members, prefix)
    ensures FlattenMembers(owner, members, prefix)[k] == Flatten(members[j].1, MemberKey(prefix, members[j].0))[k]
    decreases |members|
  {
    var n := |members| - 1;
    var init := members[..n];
    var earlier := FlattenMembers(owner, init, prefix);
    var last := Flatten(members[n].1, MemberKey(prefix, members[n].0));
    assert FlattenMembers(owner, members, prefix) == earlier + last;
    if j < n {
      assert init[j] == members[j];
      assert k !in last;
      MembersKeys(owner, init, prefix, k);
      MembersLast(owner, init, prefix, k, j);
    }
  }

  /** The keys of a flattened array are the keys its elements flatten to under `prefix_<index>`. */
  lemma FlattenArrayKeys(items: seq<Json>, prefix: string, k: string)
    ensures k in Flatten(JArr(items), prefix)
            <==> exists j | 0 <= j < |items| :: k in Flatten(items[j], ItemKey(prefix, j))
  {
    ItemsKeys(JArr(items), items, prefix, k);
  }

  /** On a key collision between elements the last element that produces the key wins. */
  lemma FlattenArrayLaterWins(items: seq<Json>, prefix: string, k: string, j: nat)
    requires j < |items| && k in Flatten(items[j], ItemKey(prefix, j))
    requires forall j' | j < j' < |items| :: k !in Flatten(items[j'], ItemKey(prefix, j'))
    ensures k in Flatten(JArr(items), prefix)
    ensures Flatten(JArr(items), prefix)[k] == Flatten(items[j], ItemKey(prefix, j))[k]
  {
    ItemsKeys(JArr(items), items, prefix, k);
    ItemsLast(JArr(items), items, prefix, k, j);
  }

  lemma {:induction false} ItemsKeys(owner: Json, items: seq<Json>, prefix: string, k: string)
    requires forall i | 0 <= i < |items| :: items[i] < owner
    ensures k in FlattenItems(owner, items, prefix)
            <==> exists j | 0 <= j < |items| :: k in Flatten(items[j], ItemKey(prefix, j))
    decreases |items|
  {
    if items != [] {
      var n := |items| - 1;
      var init := items[..n];
      assert FlattenItems(owner, items, prefix) == FlattenItems(owner, init, prefix) + Flatten(items[n], ItemKey(prefix, n));
      ItemsKeys(owner, init, prefix, k);
      assert forall i | 0 <= i < n :: init[i] == items[i];
    }
  }

  lemma {:induction false} ItemsLast(owner: Json, items: seq<Json>, prefix: string, k: string, j: nat)
    requires forall i | 0 <= i < |items| :: items[i] < owner
    requires j < |items| && k in Flatten(items[j], ItemKey(prefix, j))
    requires forall j' | j < j' < |items| :: k !in Flatten(items[j'], ItemKey(prefix, j'))
    requires k in FlattenItems(owner, items, prefix)
    ensures FlattenItems(owner, items, prefix)[k] == Flatten(items[j], ItemKey(prefix, j))[k]
    decreases |items|
  {
    var n := |items| - 1;
    var init := items[..n];
    var earlier, last := FlattenItems(owner, init, prefix), Flatten(items[n], ItemKey(prefix, n));
    assert FlattenItems(owner, items, prefix) == earlier + last;
    if j < n {
      assert init[j] == items[j];
      assert k !in last;
      ItemsKeys(owner, init, prefix, k);
      ItemsLast(owner, init, prefix, k, j);
    }
  }

  /**
   * An array of primitives flattens to one cell per element, keyed
   * `prefix_0`, `prefix_1`, …: no element is lost to a key collision.
   */
  lemma FlattenPrimitiveArray(items: seq<Json>, prefix: string)
    requires forall i | 0 <= i < |items| :: items[i].IsPrimitive()
    ensures forall i | 0 <= i < |items| :: ItemKey(prefix, i) in Flatten(JArr(items), prefix)
                                           && Flatten(JArr(items), prefix)[ItemKey(prefix, i)] == items[i]
    ensures forall k | k in Flatten(JArr(items), prefix) :: exists i | 0 <= i < |items| :: k == ItemKey(prefix, i)
  {
    forall i | 0 <= i < |items|
      ensures ItemKey(prefix, i) in Flatten(JArr(items), prefix)
      ensures Flatten(JArr(items), prefix)[ItemKey(prefix, i)] == items[i]
    {
      var k := ItemKey(prefix, i);
      forall j' | i < j' < |items| ensures k !in Flatten(items[j'], ItemKey(prefix, j')) {
        ItemKeyDistinct(prefix, i, j');
      }
      FlattenArrayKeys(items, prefix, k);
      FlattenArrayLaterWins(items, prefix, k, i);
    }
    forall k | k in Flatten(JArr(items), prefix) ensures exists i | 0 <= i < |items| :: k == ItemKey(prefix, i) {
      FlattenArrayKeys(items, prefix, k);
    }
  }

  lemma ItemKeyDistinct(prefix: string, i: nat, j: nat)
    requires i != j
    ensures ItemKey(prefix, i) != ItemKey(prefix, j)
  {
    var n := |prefix + ListIndexDelimiter|;
    if ItemKey(prefix, i) == ItemKey(prefix, j) {
      assert NatToString(i) == ItemKey(prefix, i)[n..];
      assert NatToString(j) == ItemKey(prefix, j)[n..];
      NatToStringInjective(i, j);
    }
  }

  // ------------------------------------------------------------- JSONL scanning

  /** `json.loads` on one line: a value, or the decoder's error text. */
  type Parser = string -> Result<Json, string>

  /** The errors the JSONL path raises, with their texts. */
  datatype FileError =
    | InvalidJson(lineNumber: nat, detail: string)
    | NotUtf8
    | NoJsonObjects
    | NoRecords
  {
    function Message(): string {
      match this
      case InvalidJson(n, detail) => "Invalid JSON on line " + NatToString(n) + ": " + detail
      case NotUtf8 => "File is not valid UTF-8 encoded text"
      case NoJsonObjects => "No valid JSON objects found in JSONL file"
      case NoRecords => "No valid records found in JSONL file"
    }
  }

  /** The lines both passes scan: the stripped content split at line feeds. */
  function JsonlLines(content: string): seq<string> {
    Split(Strip(content), '\n')
  }

  /** What one line gives a pass: nothing (blank), its flattened cells, or the decoder's error. */
  datatype LineOutcome = Skipped | Parsed(cells: map<string, Json>) | Rejected(detail: string)

  /** Strip the line; a blank line is skipped, any other is parsed and flattened at top level. */
  function ScanLine(line: string, parse: Parser): LineOutcome {
    var text := Strip(line);
    if text == "" then Skipped
    else match parse(text)
      case Failure(detail) => Rejected(detail)
      case Success(value) => Parsed(Flatten(value, ""))
  }

  /** The outcome of every line, in order. */
  function Scan(lines: seq<string>, parse: Parser): (outcomes: seq<LineOutcome>)
    ensures |outcomes| == |lines|
  {
    if lines == [] then []
    else Scan(lines[..|lines| - 1], parse) + [ScanLine(lines[|lines| - 1], parse)]
  }

  lemma {:induction false} ScanAt(lines: seq<string>, parse: Parser, i: nat)
    requires i < |lines|
    ensures Scan(lines, parse)[i] == ScanLine(lines[i], parse)
  {
    var n := |lines| - 1;
    if i < n {
      ScanAt(lines[..n], parse, i);
      assert lines[..n][i] == lines[i];
    }
  }

  /** The keys a line contributes: none when blank or unparsable. */
  function OutcomeFields(outcome: LineOutcome): set<string> {
    if outcome.Parsed? then outcome.cells.Keys else {}
  }

  /** Fields of the first `n` lines, or the error of the first unparsable one among them. */
  function FieldsUpTo(outcomes: seq<LineOutcome>, n: nat): Result<set<string>, FileError>
    requires n <= |outcomes|
  {
    if n == 0 then Success({})
    else match FieldsUpTo(outcomes, n - 1)
      case Failure(e) => Failure(e)
      case Success(fields) =>
        match outcomes[n - 1]
        case Skipped => Success(fields)
        case Rejected(detail) => Failure(InvalidJson(n, detail))
        case Parsed(cells) => Success(fields + cells.Keys)
  }

  /** What `discover_jsonl_fields` returns or raises; `None` is content that is not UTF-8. */
  function DiscoveredFields(content: Option<string>, parse: Parser): Result<set<string>, FileError> {
    match content
    case None => Failure(NotUtf8)
    case Some(text) =>
      var outcomes := Scan(JsonlLines(text), parse);
      FieldsUpTo(outcomes, |outcomes|)
  }

  /** `outcomes` holds the outcome of every line of `lines`, in order. */
  predicate ScannedFrom(outcomes: seq<LineOutcome>, lines: seq<string>, parse: Parser) {
    |outcomes| == |lines| && forall i {:trigger ScanLine(lines[i], parse)} | 0 <= i < |lines| :: outcomes[i] == ScanLine(lines[i], parse)
  }

  lemma ScanAll(lines: seq<string>, parse: Parser)
    ensures ScannedFrom(Scan(lines, parse), lines, parse)
  {
    forall i | 0 <= i < |lines|
      ensures Scan(lines, parse)[i] == ScanLine(lines[i], parse)
    {
      ScanAt(lines, parse, i);
    }
  }

  /** `discover_jsonl_fields`: one pass over the lines, growing the field set. */
  method DiscoverJsonlFields(content: Option<string>, parse: Parser) returns (r: Result<set<string>, FileError>)
    ensures r == DiscoveredFields(content, parse)
  {
    if content.None? {
      return Failure(NotUtf8);
    }
    var lines := JsonlLines(content.value);
    ScanAll(lines, parse);
    r := FieldsPass(lines, parse, Scan(lines, parse));
  }

  /** The discovery loop over the lines of the stripped content. */
  method FieldsPass(lines: seq<string>, parse: Parser, ghost outcomes: seq<LineOutcome>)
    returns (r: Result<set<string>, FileError>)
    requires ScannedFrom(outcomes, lines, parse)
    ensures r == FieldsUpTo(outcomes, |outcomes|)
  {
    var fields: set<string> := {};
    for i := 0 to |lines|
      invariant FieldsUpTo(outcomes, i) == Success(fields)
    {
      match ScanLine(lines[i], parse)
      case Skipped =>
        SkipOver(outcomes, i, fields);
      case Rejected(detail) =>
        StopAt(outcomes, i, fields, detail);
        return Failure(InvalidJson(i + 1, detail));
      case Parsed(cells) =>
        StepOver(outcomes, i, fields, cells);
        fields := fields + cells.Keys;
    }
    return Success(fields);
  }

  /** A blank line leaves a successful scan as it is. */
  lemma SkipOver(outcomes: seq<LineOutcome>, i: nat, fields: set<string>)
    requires i < |outcomes| && FieldsUpTo(outcomes, i) == Success(fields)
    requires outcomes[i] == Skipped
    ensures FieldsUpTo(outcomes, i + 1) == Success(fields)
  {
    assert fields + {} == fields;
  }

  /** A parsed line adds its keys to a successful scan. */
  lemma StepOver(outcomes: seq<LineOutcome>, i: nat, fields: set<string>, cells: map<string, Json>)
    requires i < |outcomes| && FieldsUpTo(outcomes, i) == Success(fields)
    requires outcomes[i] == Parsed(cells)
    ensures FieldsUpTo(outcomes, i + 1) == Success(fields + cells.Keys)
  {
  }

  /** A rejected line ends the scan with its number. */
  lemma StopAt(outcomes: seq<LineOutcome>, i: nat, fields: set<string>, detail: string)
    requires i < |outcomes| && FieldsUpTo(outcomes, i) == Success(fields)
    requires outcomes[i] == Rejected(detail)
    ensures FieldsUpTo(outcomes, |outcomes|) == Failure(InvalidJson(i + 1, detail))
  {
    FailureSticks(outcomes, i + 1, |outcomes|);
  }

  /** Once a prefix of the lines fails, every longer prefix fails the same way. */
  lemma {:induction false} FailureSticks(outcomes: seq<LineOutcome>, n: nat, m: nat)
    requires n <= m <= |outcomes| && FieldsUpTo(outcomes, n).Failure?
    ensures FieldsUpTo(outcomes, m) == FieldsUpTo(outcomes, n)
    decreases m
  {
    if m > n {
      FailureSticks(outcomes, n, m - 1);
    }
  }

  lemma SuccessShrinks(outcomes: seq<LineOutcome>, n: nat)
    requires 0 < n <= |outcomes|
    ensures FieldsUpTo(outcomes, n).Success? ==> FieldsUpTo(outcomes, n - 1).Success?
  {
  }

  /** Scanning `n` lines succeeds exactly when none of them is rejected by the parser. */
  lemma {:induction false} FieldsSucceed(outcomes: seq<LineOutcome>, n: nat)
    requires n <= |outcomes|
    ensures FieldsUpTo(outcomes, n).Success? <==> forall i | 0 <= i < n :: !outcomes[i].Rejected?
  {
    if n > 0 {
      FieldsSucceed(outcomes, n - 1);
      if FieldsUpTo(outcomes, n - 1).Failure? {
        FailureSticks(outcomes, n - 1, n);
      }
    }
  }

  /** A successful scan of `n` lines finds exactly the keys those lines flatten to. */
  lemma {:induction false} FieldsUnion(outcomes: seq<LineOutcome>, n: nat, k: string)
    requires n <= |outcomes| && FieldsUpTo(outcomes, n).Success?
    ensures k in FieldsUpTo(outcomes, n).value <==> exists i | 0 <= i < n :: k in OutcomeFields(outcomes[i])
  {
    if n > 0 {
      SuccessShrinks(outcomes, n);
      FieldsUnion(outcomes, n - 1, k);
    }
  }

  /**
   * Scanning `n` lines fails exactly at the first rejected one: the error is
   * "Invalid JSON" with that line's 1-based number and the decoder's text,
   * and every line before it parses or is blank.
   */
  lemma {:induction false} FieldsFirstError(outcomes: seq<LineOutcome>, n: nat)
    requires n <= |outcomes|
    ensures var r := FieldsUpTo(outcomes, n);
            r.Failure? ==>
              && r.error.InvalidJson?
              && 1 <= r.error.lineNumber <= n
              && outcomes[r.error.lineNumber - 1] == Rejected(r.error.detail)
              && forall i | 0 <= i < r.error.lineNumber - 1 :: !outcomes[i].Rejected?
  {
    if n > 0 {
      FieldsFirstError(outcomes, n - 1);
      if FieldsUpTo(outcomes, n - 1).Success? {
        FieldsSucceed(outcomes, n - 1);
      }
    }
  }

  /**
   * The fields found do not depend on the order of the lines: any reordering
   * succeeds or fails alike and, on success, finds the same fields.
   */
  lemma FieldsOrderIndependent(lines: seq<string>, reordered: seq<string>, parse: Parser)
    requires multiset(lines) == multiset(reordered)
    ensures var a, b := Scan(lines, parse), Scan(reordered, parse);
            && (FieldsUpTo(a, |a|).Success? <==> FieldsUpTo(b, |b|).Success?)
            && (FieldsUpTo(a, |a|).Success? ==> FieldsUpTo(a, |a|).value == FieldsUpTo(b, |b|).value)
  {
    var a, b := Scan(lines, parse), Scan(reordered, parse);
    SameOutcomes(lines, reordered, parse);
    SameOutcomes(reordered, lines, parse);
    FieldsSucceed(a, |a|);
    FieldsSucceed(b, |b|);
    if FieldsUpTo(a, |a|).Success? {
      forall k ensures k in FieldsUpTo(a, |a|).value <==> k in FieldsUpTo(b, |b|).value {
        FieldsUnion(a, |a|, k);
        FieldsUnion(b, |b|, k);
      }
    }
  }

  lemma SameOutcomes(lines: seq<string>, reordered: seq<string>, parse: Parser)
    requires multiset(lines) == multiset(reordered)
    ensures forall i | 0 <= i < |lines| :: Scan(lines, parse)[i] in Scan(reordered, parse)
  {
    forall i | 0 <= i < |lines| ensures Scan(lines, parse)[i] in Scan(reordered, parse) {
      var j := SameLine(lines, reordered, i);
      ScanAt(lines, parse, i);
      ScanAt(reordered, parse, j);
      assert Scan(reordered, parse)[j] == Scan(lines, parse)[i];
    }
  }

  lemma SameLine(lines: seq<string>, reordered: seq<string>, i: nat) returns (j: nat)
    requires multiset(lines) == multiset(reordered) && i < |lines|
    ensures j < |reordered| && reordered[j] == lines[i]
  {
    assert lines[i] in multiset(lines);
    assert lines[i] in reordered;
    j :| 0 <= j < |reordered| && reordered[j] == lines[i];
  }

  /**
   * Line numbers count the lines of the stripped content: whitespace before
   * the first line, blank lines included, shifts no number.
   */
  lemma DiscoverIgnoresLeadingSpace(c: char, text: string, parse: Parser)
    requires IsSpace(c)
    ensures DiscoveredFields(Some([c] + text), parse) == DiscoveredFields(Some(text), parse)
  {
    StripLeadingSpace(c, text);
  }

  // ------------------------------------------------------------ record building

  /** The record of one line over `fields`: its own cell for each field, null where it has none. */
  function RecordOf(cells: map<string, Json>, fields: set<string>): map<string, Json> {
    map f | f in fields :: if f in cells then cells[f] else JNull
  }

  /** The flattened cells of the parsed lines among the first `n`, in file order. */
  function ParsedUpTo(outcomes: seq<LineOutcome>, n: nat): seq<map<string, Json>>
    requires n <= |outcomes|
  {
    if n == 0 then []
    else ParsedUpTo(outcomes, n - 1) + (if outcomes[n - 1].Parsed? then [outcomes[n - 1].cells] else [])
  }

  /** The second pass over the first `n` lines: one record per parsed line, or the first decoder error. */
  function RecordsUpTo(outcomes: seq<LineOutcome>, fields: set<string>, n: nat): Result<seq<map<string, Json>>, FileError>
    requires n <= |outcomes|
  {
    if n == 0 then Success([])
    else match RecordsUpTo(outcomes, fields, n - 1)
      case Failure(e) => Failure(e)
      case Success(records) =>
        match outcomes[n - 1]
        case Skipped => Success(records)
        case Rejected(detail) => Failure(InvalidJson(n, detail))
        case Parsed(cells) => Success(records + [RecordOf(cells, fields)])
  }

  /**
   * The records `convert_jsonl_to_sqlite` hands to the table writer, or the
   * error it raises before writing: discovery's error, no fields, a decoder
   * error in the second pass, or no records.
   */
  function JsonlRecords(content: Option<string>, parse: Parser): Result<seq<map<string, Json>>, FileError> {
    match content
    case None => Failure(NotUtf8)
    case Some(text) => RecordsOfLines(Scan(JsonlLines(text), parse))
  }

  /** Both passes over the line outcomes of a decoded upload. */
  function RecordsOfLines(outcomes: seq<LineOutcome>): Result<seq<map<string, Json>>, FileError> {
    match FieldsUpTo(outcomes, |outcomes|)
    case Failure(e) => Failure(e)
    case Success(fields) =>
      if fields == {} then Failure(NoJsonObjects)
      else match RecordsUpTo(outcomes, fields, |outcomes|)
        case Failure(e) => Failure(e)
        case Success(records) => if records == [] then Failure(NoRecords) else Success(records)
  }

  /**
   * The JSONL path of `convert_jsonl_to_sqlite` up to the table write:
   * discover the fields, then build one record per non-blank line with
   * every discovered field, filling missing ones with null.
   */
  method BuildJsonlRecords(content: Option<string>, parse: Parser) returns (r: Result<seq<map<string, Json>>, FileError>)
    ensures r == JsonlRecords(content, parse)
  {
    var discovered := DiscoverJsonlFields(content, parse);
    if discovered.Failure? {
      return Failure(discovered.error);
    }
    var allFields := discovered.value;
    if allFields == {} {
      return Failure(NoJsonObjects);
    }
    var lines := JsonlLines(content.value);
    ScanAll(lines, parse);
    var passed := RecordsPass(lines, parse, allFields, Scan(lines, parse));
    if passed.Failure? {
      return Failure(passed.error);
    }
    if passed.value == [] {
      return Failure(NoRecords);
    }
    return passed;
  }

  /** The second pass over the lines: one record per parsed line, stopping at a line that does not parse. */
  method RecordsPass(lines: seq<string>, parse: Parser, allFields: set<string>, ghost outcomes: seq<LineOutcome>)
    returns (r: Result<seq<map<string, Json>>, FileError>)
    requires ScannedFrom(outcomes, lines, parse)
    ensures r == RecordsUpTo(outcomes, allFields, |outcomes|)
  {
    var records: seq<map<string, Json>> := [];
    for i := 0 to |lines|
      invariant RecordsUpTo(outcomes, allFields, i) == Success(records)
    {
      match ScanLine(lines[i], parse)
      case Skipped =>
        RecordsStep(outcomes, allFields, i, records, []);
      case Rejected(detail) =>
        RecordsStopAt(outcomes, allFields, i, records, detail);
        return Failure(InvalidJson(i + 1, detail));
      case Parsed(flattened) =>
        var record := FillRecord(flattened, allFields);
        RecordsStep(outcomes, allFields, i, records, [record]);
        records := records + [record];
    }
    return Success(records);
  }

  /** The inner loop: set every discovered field, in the set's own order, to the line's cell or null. */
  method FillRecord(flattened: map<string, Json>, allFields: set<string>) returns (record: map<string, Json>)
    ensures record.Keys == allFields
    ensures record == RecordOf(flattened, allFields)
  {
    record := map[];
    var remaining := allFields;
    while remaining != {}
      invariant remaining <= allFields
      invariant record == RecordOf(flattened, allFields - remaining)
      decreases |remaining|
    {
      var field :| field in remaining;
      record := record[field := if field in flattened then flattened[field] else JNull];
      remaining := remaining - {field};
    }
  }

  /** A blank or parsed line extends the records by nothing or by its own record. */
  lemma RecordsStep(outcomes: seq<LineOutcome>, fields: set<string>, i: nat,
                    records: seq<map<string, Json>>, added: seq<map<string, Json>>)
    requires i < |outcomes| && RecordsUpTo(outcomes, fields, i) == Success(records)
    requires !outcomes[i].Rejected?
    requires added == (if outcomes[i].Parsed? then [RecordOf(outcomes[i].cells, fields)] else [])
    ensures RecordsUpTo(outcomes, fields, i + 1) == Success(records + added)
  {
    if outcomes[i].Skipped? {
      assert records + added == records;
    }
  }

  /** A rejected line ends the second pass with its number. */
  lemma RecordsStopAt(outcomes: seq<LineOutcome>, fields: set<string>, i: nat,
                      records: seq<map<string, Json>>, detail: string)
    requires i < |outcomes| && RecordsUpTo(outcomes, fields, i) == Success(records)
    requires outcomes[i] == Rejected(detail)
    ensures RecordsUpTo(outcomes, fields, |outcomes|) == Failure(InvalidJson(i + 1, detail))
  {
    RecordsFailureSticks(outcomes, fields, i + 1, |outcomes|);
  }

  lemma {:induction false} RecordsFailureSticks(outcomes: seq<LineOutcome>, fields: set<string>, n: nat, m: nat)
    requires n <= m <= |outcomes| && RecordsUpTo(outcomes, fields, n).Failure?
    ensures RecordsUpTo(outcomes, fields, m) == RecordsUpTo(outcomes, fields, n)
    decreases m
  {
    if m > n {
      RecordsFailureSticks(outcomes, fields, n, m - 1);
    }
  }

  /**
   * When no line is rejected the second pass succeeds with exactly one
   * record per parsed line, in file order, each over the given fields.
   */
  lemma {:induction false} RecordsFollowLines(outcomes: seq<LineOutcome>, fields: set<string>, n: nat)
    requires n <= |outcomes| && forall i | 0 <= i < n :: !outcomes[i].Rejected?
    ensures RecordsUpTo(outcomes, fields, n).Success?
    ensures var records, cells := RecordsUpTo(outcomes, fields, n).value, ParsedUpTo(outcomes, n);
            |records| == |cells| && forall j | 0 <= j < |records| :: records[j] == RecordOf(cells[j], fields)
  {
    if n > 0 {
      RecordsFollowLines(outcomes, fields, n - 1);
      var records := RecordsUpTo(outcomes, fields, n - 1).value;
      var added := if outcomes[n - 1].Parsed? then [RecordOf(outcomes[n - 1].cells, fields)] else [];
      RecordsStep(outcomes, fields, n - 1, records, added);
    }
  }

  /** A line that flattens to at least one key leaves a parsed cell map behind. */
  lemma {:induction false} ParsedNonEmpty(outcomes: seq<LineOutcome>, n: nat, i: nat)
    requires i < n <= |outcomes| && outcomes[i].Parsed?
    ensures |ParsedUpTo(outcomes, n)| > 0
  {
    if n - 1 > i {
      ParsedNonEmpty(outcomes, n - 1, i);
    }
  }

  /**
   * The records of a JSONL upload: on success there is one record per parsed
   * line of the stripped content, in file order; every record has exactly the
   * discovered fields as keys, holding the line's own cell or null.
   */
  lemma JsonlRecordsShape(text: string, parse: Parser)
    requires JsonlRecords(Some(text), parse).Success?
    ensures var records := JsonlRecords(Some(text), parse).value;
            var outcomes := Scan(JsonlLines(text), parse);
            var cells := ParsedUpTo(outcomes, |outcomes|);
            var fields := DiscoveredFields(Some(text), parse).value;
            && DiscoveredFields(Some(text), parse).Success?
            && |records| == |cells|
            && forall j | 0 <= j < |records| ::
                 && records[j].Keys == fields
                 && forall f | f in fields :: records[j][f] == (if f in cells[j] then cells[j][f] else JNull)
  {
    var outcomes := Scan(JsonlLines(text), parse);
    assert JsonlRecords(Some(text), parse) == RecordsOfLines(outcomes);
    assert DiscoveredFields(Some(text), parse) == FieldsUpTo(outcomes, |outcomes|);
    LineRecordsShape(outcomes);
  }

  lemma LineRecordsShape(outcomes: seq<LineOutcome>)
    requires RecordsOfLines(outcomes).Success?
    ensures FieldsUpTo(outcomes, |outcomes|).Success?
    ensures var records, cells := RecordsOfLines(outcomes).value, ParsedUpTo(outcomes, |outcomes|);
            var fields := FieldsUpTo(outcomes, |outcomes|).value;
            && |records| == |cells|
            && forall j | 0 <= j < |records| ::
                 && records[j].Keys == fields
                 && forall f | f in fields :: records[j][f] == (if f in cells[j] then cells[j][f] else JNull)
  {
    var fields := FieldsUpTo(outcomes, |outcomes|).value;
    FieldsSucceed(outcomes, |outcomes|);
    RecordsFollowLines(outcomes, fields, |outcomes|);
  }

  /** With at least one discovered field the second pass succeeds and yields at least one record. */
  lemma RecordsNonEmpty(outcomes: seq<LineOutcome>, fields: set<string>)
    requires FieldsUpTo(outcomes, |outcomes|) == Success(fields) && fields != {}
    ensures RecordsUpTo(outcomes, fields, |outcomes|).Success?
    ensures RecordsUpTo(outcomes, fields, |outcomes|).value != []
  {
    FieldsSucceed(outcomes, |outcomes|);
    RecordsFollowLines(outcomes, fields, |outcomes|);
    var k :| k in fields;
    FieldsUnion(outcomes, |outcomes|, k);
    var i :| 0 <= i < |outcomes| && k in OutcomeFields(outcomes[i]);
    ParsedNonEmpty(outcomes, |outcomes|, i);
  }

  /**
   * The errors of a JSONL upload: discovery's own error, or "No valid JSON
   * objects" exactly when discovery finds no field; the second pass never
   * fails and the "No valid records" error cannot be raised.
   */
  lemma JsonlRecordsErrors(content: Option<string>, parse: Parser)
    ensures JsonlRecords(content, parse) == Failure(NoJsonObjects) <==> DiscoveredFields(content, parse) == Success({})
    ensures DiscoveredFields(content, parse).Failure? ==>
              JsonlRecords(content, parse) == Failure(DiscoveredFields(content, parse).error)
    ensures JsonlRecords(content, parse).Success? <==>
              DiscoveredFields(content, parse).Success? && DiscoveredFields(content, parse).value != {}
  {
    if content.Some? {
      var outcomes := Scan(JsonlLines(content.value), parse);
      assert JsonlRecords(content, parse) == RecordsOfLines(outcomes);
      assert DiscoveredFields(content, parse) == FieldsUpTo(outcomes, |outcomes|);
      LineRecordsErrors(outcomes);
    }
  }

  lemma LineRecordsErrors(outcomes: seq<LineOutcome>)
    ensures var found := FieldsUpTo(outcomes, |outcomes|);
            && (RecordsOfLines(outcomes) == Failure(NoJsonObjects) <==> found == Success({}))
            && (found.Failure? ==> RecordsOfLines(outcomes) == Failure(found.error))
            && (RecordsOfLines(outcomes).Success? <==> found.Success? && found.value != {})
  {
    var found := FieldsUpTo(outcomes, |outcomes|);
    FieldsFirstError(outcomes, |outcomes|);
    if found.Success? && found.value != {} {
      RecordsNonEmpty(outcomes, found.value);
    }
  }

  // ---------------------------------------------------------------- table names

  predicate IsAsciiLetter(c: char) {
    'a' <= c <= 'z' || 'A' <= c <= 'Z'
  }

  /** The characters the pattern `[a-zA-Z0-9_]` accepts. */
  predicate IsIdentChar(c: char) {
    IsAsciiLetter(c) || '0' <= c <= '9' || c == '_'
  }

  /** The position of the last `c` in `s`, if there is one. */
  function LastIndexOf(s: string, c: char): (r: Option<nat>)
    ensures r.Some? ==> r.value < |s| && s[r.value] == c && forall j | r.value < j < |s| :: s[j] != c
    ensures r.None? <==> c !in s
  {
    if s == [] then None
    else if s[|s| - 1] == c then Some(|s| - 1)
    else
      var r := LastIndexOf(s[..|s| - 1], c);
      assert s == s[..|s| - 1] + [s[|s| - 1]];
      r
  }

  /** `name.rsplit('.', 1)[0]` when the name holds a dot: everything before the last dot. */
  function DropExtension(name: string): (stem: string)
    ensures StartsWith(name, stem)
    ensures '.' !in name ==> stem == name
    ensures '.' in name ==> |stem| < |name| && name[|stem|] == '.' && '.' !in name[|stem| + 1..]
  {
    match LastIndexOf(name, '.')
    case None => name
    case Some(i) => name[..i]
  }

  /** `re.sub(r'[^a-zA-Z0-9_]', '_', s)`: every other character becomes `_`. */
  function ReplaceBad(s: string): (r: string)
    ensures |r| == |s|
    ensures forall i | 0 <= i < |s| :: r[i] == (if IsIdentChar(s[i]) then s[i] else '_')
  {
    if s == [] then [] else ReplaceBad(s[..|s| - 1]) + [if IsIdentChar(s[|s| - 1]) then s[|s| - 1] else '_']
  }

  /** The candidate table name, before it is handed to the identifier validator. */
  function PreValidationName(tableName: string): string {
    var sanitized := ReplaceBad(DropExtension(tableName));
    if sanitized != [] && !IsAsciiLetter(sanitized[0]) && sanitized[0] != '_' then "_" + sanitized
    else if sanitized == [] then "table"
    else sanitized
  }

  predicate IsTableName(name: string) {
    name != [] && (IsAsciiLetter(name[0]) || name[0] == '_') && forall i | 0 <= i < |name| :: IsIdentChar(name[i])
  }

  /**
   * The candidate is a well-formed identifier and ends with the cleaned stem of
   * the file name: the stem itself when it already is an identifier, the stem
   * behind `_` when it opens with a character that may not start one, and
   * `table` when nothing is left.
   */
  lemma PreValidationNameShape(tableName: string)
    ensures IsTableName(PreValidationName(tableName))
    ensures var cleaned := ReplaceBad(DropExtension(tableName));
      IsTableName(cleaned) ==> PreValidationName(tableName) == cleaned
    ensures var cleaned := ReplaceBad(DropExtension(tableName));
      cleaned != [] && !IsAsciiLetter(cleaned[0]) && cleaned[0] != '_' ==> PreValidationName(tableName) == "_" + cleaned
    ensures var cleaned := ReplaceBad(DropExtension(tableName));
      cleaned != [] ==> EndsWith(PreValidationName(tableName), cleaned) && |PreValidationName(tableName)| <= |cleaned| + 1
    ensures ReplaceBad(DropExtension(tableName)) == [] ==> PreValidationName(tableName) == "table"
  {
    var cleaned := ReplaceBad(DropExtension(tableName));
    var r := PreValidationName(tableName);
    if cleaned != [] && !IsAsciiLetter(cleaned[0]) && cleaned[0] != '_' {
      assert r == "_" + cleaned;
      assert r[1..] == cleaned;
      forall i | 0 <= i < |r|
        ensures IsIdentChar(r[i])
      {
        if i > 0 { assert r[i] == cleaned[i - 1]; }
      }
    } else if cleaned == [] {
      assert r == "table";
      assert r[0] == 't' && r[1] == 'a' && r[2] == 'b' && r[3] == 'l' && r[4] == 'e';
    }
  }

  /** Sanitizing a name that is already sanitized changes nothing. */
  lemma PreValidationNameIdempotent(tableName: string)
    ensures PreValidationName(PreValidationName(tableName)) == PreValidationName(tableName)
  {
    var r := PreValidationName(tableName);
    PreValidationNameShape(tableName);
    assert forall i | 0 <= i < |r| :: r[i] != '.';
    assert DropExtension(r) == r;
    assert ReplaceBad(r) == r;
  }

  /**
   * `sanitize_table_name`: the identifier validator and Python's string hash are
   * parameters; a candidate the validator refuses is replaced by `table_<hash % 100000>`,
   * the hash being taken of the name without its extension.
   */
  function SanitizeTableName(tableName: string, valid: string -> bool, hash: string -> int): string {
    var candidate := PreValidationName(tableName);
    if valid(candidate) then candidate
    else FallbackPrefix + NatToString(hash(DropExtension(tableName)) % 100000)
  }

  const FallbackPrefix := "table_"

  /**
   * Whatever the validator and the hash do, the table name is a well-formed
   * identifier: the candidate when the validator accepts it, otherwise
   * `table_` followed by at most five decimal digits.
   */
  lemma SanitizeTableNameShape(tableName: string, valid: string -> bool, hash: string -> int)
    ensures IsTableName(SanitizeTableName(tableName, valid, hash))
    ensures valid(PreValidationName(tableName)) ==> SanitizeTableName(tableName, valid, hash) == PreValidationName(tableName)
    ensures !valid(PreValidationName(tableName)) ==>
              var r := SanitizeTableName(tableName, valid, hash);
              StartsWith(r, FallbackPrefix) && |FallbackPrefix| < |r| <= |FallbackPrefix| + 5
              && forall i | |FallbackPrefix| <= i < |r| :: '0' <= r[i] <= '9'
  {
    PreValidationNameShape(tableName);
    if !valid(PreValidationName(tableName)) {
      FallbackName(hash(DropExtension(tableName)) % 100000);
    }
  }

  /** The fallback name for a hash value below 100000. */
  lemma FallbackName(n: nat)
    requires n < 100000
    ensures var r := FallbackPrefix + NatToString(n);
            && IsTableName(r)
            && StartsWith(r, FallbackPrefix) && |FallbackPrefix| < |r| <= |FallbackPrefix| + 5
            && forall i | |FallbackPrefix| <= i < |r| :: '0' <= r[i] <= '9'
  {
    var digits := NatToString(n);
    var r := FallbackPrefix + digits;
    FiveDigits();
    NatToStringLength(n, 5);
    FallbackPrefixShape();
    forall i | 0 <= i < |r|
      ensures IsIdentChar(r[i]) && (|FallbackPrefix| <= i ==> '0' <= r[i] <= '9')
    {
      if i >= |FallbackPrefix| { assert r[i] == digits[i - |FallbackPrefix|]; }
      else { assert r[i] == FallbackPrefix[i]; }
    }
  }

  lemma FiveDigits()
    ensures Pow10(5) == 100000
  {
    assert Pow10(0) == 1;
    assert Pow10(1) == 10;
    assert Pow10(2) == 100;
    assert Pow10(3) == 1000;
    assert Pow10(4) == 10000;
  }

  lemma FallbackPrefixShape()
    ensures IsTableName(FallbackPrefix) && |FallbackPrefix| == 6
  {
    assert FallbackPrefix == ['t', 'a', 'b', 'l', 'e', '_'];
  }

  // ---------------------------------------------------------------- column names

  predicate IsAsciiUpper(c: char) {
    'A' <= c <= 'Z'
  }

  /** `str.lower()` on one character, for ASCII text. */
  function AsciiLower(c: char): char {
    if IsAsciiUpper(c) then (c as int + 32) as char else c
  }

  /** `str.lower()` over a whole name, for ASCII text. */
  function Lower(s: string): (r: string)
    ensures |r| == |s|
    ensures forall i | 0 <= i < |s| :: r[i] == AsciiLower(s[i])
  {
    if s == [] then [] else Lower(s[..|s| - 1]) + [AsciiLower(s[|s| - 1])]
  }

  /** `s.replace(from, to)` for single characters. */
  function ReplaceChar(s: string, from: char, to: char): (r: string)
    ensures |r| == |s|
    ensures forall i | 0 <= i < |s| :: r[i] == (if s[i] == from then to else s[i])
  {
    if s == [] then [] else ReplaceChar(s[..|s| - 1], from, to) + [if s[|s| - 1] == from then to else s[|s| - 1]]
  }

  /** The column cleaning of every converter: lower-case, then spaces and hyphens become `_`. */
  function CleanColumnName(column: string): string {
    ReplaceChar(ReplaceChar(Lower(column), ' ', '_'), '-', '_')
  }

  /**
   * Cleaning keeps the length, maps each character on its own, and leaves
   * no space, hyphen or upper-case ASCII letter behind.
   */
  lemma CleanColumnNameShape(column: string)
    ensures var r := CleanColumnName(column);
      && |r| == |column|
      && (forall i | 0 <= i < |column| ::
            r[i] == (if column[i] == ' ' || column[i] == '-' then '_' else AsciiLower(column[i])))
      && ' ' !in r && '-' !in r
      && forall i | 0 <= i < |r| :: !IsAsciiUpper(r[i])
  {
    var r := CleanColumnName(column);
    forall i | 0 <= i < |column|
      ensures r[i] == (if column[i] == ' ' || column[i] == '-' then '_' else AsciiLower(column[i]))
      ensures r[i] != ' ' && r[i] != '-' && !IsAsciiUpper(r[i])
    {
      assert Lower(column)[i] == AsciiLower(column[i]);
    }
  }

  /** Cleaning a cleaned name changes nothing. */
  lemma CleanColumnNameIdempotent(column: string)
    ensures CleanColumnName(CleanColumnName(column)) == CleanColumnName(column)
  {
    var r := CleanColumnName(column);
    CleanColumnNameShape(column);
    CleanColumnNameShape(r);
    assert forall i | 0 <= i < |r| :: CleanColumnName(r)[i] == r[i];
  }

  // ---------------------------------------------------------------- JSON arrays

  const NotAnArrayMessage := "JSON must be an array of objects"
  const EmptyArrayMessage := "JSON array is empty"

  /** The two checks `convert_json_to_sqlite` makes on the parsed document. */
  function CheckJsonArray(data: Json): (r: Result<seq<Json>, string>)
    ensures r.Success? <==> data.JArr? && data.items != []
    ensures r.Success? ==> r.value == data.items
    ensures r.Failure? ==> r.error == (if data.JArr? then EmptyArrayMessage else NotAnArrayMessage)
  {
    if !data.JArr? then Failure(NotAnArrayMessage)
    else if data.items == [] then Failure(EmptyArrayMessage)
    else Success(data.items)
  }
}
