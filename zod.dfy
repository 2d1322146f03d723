/** The part of zod the request schemas use, over a small model of JSON values. A schema
    collects every issue it finds (each with the dotted path of its field and, for an array
    element, its index); it succeeds exactly when it found none. The checks and transforms
    of a string schema run in the order they are declared. */
module Zod {
  import opened Wrappers
  import Text

  datatype Value = Str(s: string) | Bool(b: bool) | Arr(items: seq<Value>) | Absent | Other

  datatype Issue = Issue(path: string, index: Option<nat>, message: string)

  const Required := "Required"
  const ExpectedString := "Expected string"
  const ExpectedBoolean := "Expected boolean"
  const ExpectedArray := "Expected array"
  const InvalidObjectId := "Invalid ObjectId format"

  /** The message of a type failure: the schema's own message when it gives one, otherwise
      `Required` for a missing value and the expected type for a wrong one. */
  function TypeMessage(custom: Option<string>, v: Value, expected: string): (m: string)
    ensures custom.Some? ==> m == custom.value
    ensures custom.None? && v.Absent? ==> m == Required
  {
    if custom.Some? then custom.value else if v.Absent? then Required else expected
  }

  datatype Step = MinLength(n: nat, message: string) | MaxLength(n: nat, message: string) | Trimmed | Lowered

  datatype Checked = Checked(issues: set<Issue>, value: string)

  /** The checks and transforms of a string schema, in order: a length check sees the value
      as the steps before it left it. */
  function RunSteps(s: string, steps: seq<Step>, path: string): (r: Checked)
    decreases |steps|
  {
    if steps == [] then Checked({}, s)
    else
      match steps[0]
      case MinLength(n, m) =>
        var rest := RunSteps(s, steps[1..], path);
        Checked((if |s| < n then {Issue(path, None, m)} else {}) + rest.issues, rest.value)
      case MaxLength(n, m) =>
        var rest := RunSteps(s, steps[1..], path);
        Checked((if |s| > n then {Issue(path, None, m)} else {}) + rest.issues, rest.value)
      case Trimmed => RunSteps(Text.Trim(s), steps[1..], path)
      case Lowered => RunSteps(Text.ToLower(s), steps[1..], path)
  }

  /** The issue a length check adds. */
  function TooShort(s: string, n: nat, path: string, m: string): set<Issue> {
    if |s| < n then {Issue(path, None, m)} else {}
  }

  function TooLong(s: string, n: nat, path: string, m: string): set<Issue> {
    if |s| > n then {Issue(path, None, m)} else {}
  }

  /** `.min(lo).max(hi).trim()`: the lengths are those of the untrimmed string. */
  lemma RunMinMaxTrim(s: string, lo: nat, m1: string, hi: nat, m2: string, path: string)
    ensures RunSteps(s, [MinLength(lo, m1), MaxLength(hi, m2), Trimmed], path)
      == Checked(TooShort(s, lo, path, m1) + TooLong(s, hi, path, m2), Text.Trim(s))
  {
    var steps := [MinLength(lo, m1), MaxLength(hi, m2), Trimmed];
    assert steps[1..] == [MaxLength(hi, m2), Trimmed];
    assert [MaxLength(hi, m2), Trimmed][1..] == [Trimmed];
    assert [Trimmed][1..] == [];
    var t := Text.Trim(s);
    assert RunSteps(s, [Trimmed], path) == Checked({}, t) by {
      assert RunSteps(s, [Trimmed], path) == RunSteps(t, [], path);
    }
    assert RunSteps(s, [MaxLength(hi, m2), Trimmed], path) == Checked(TooLong(s, hi, path, m2), t);
  }

  /** `.trim().min(lo).max(hi)`: the lengths are those of the trimmed string. */
  lemma RunTrimMinMax(s: string, lo: nat, m1: string, hi: nat, m2: string, path: string)
    ensures RunSteps(s, [Trimmed, MinLength(lo, m1), MaxLength(hi, m2)], path)
      == Checked(TooShort(Text.Trim(s), lo, path, m1) + TooLong(Text.Trim(s), hi, path, m2), Text.Trim(s))
  {
    var steps := [Trimmed, MinLength(lo, m1), MaxLength(hi, m2)];
    assert steps[1..] == [MinLength(lo, m1), MaxLength(hi, m2)];
    RunMinMax(Text.Trim(s), lo, m1, hi, m2, path);
  }

  /** `.min(lo).max(hi)`. */
  lemma RunMinMax(s: string, lo: nat, m1: string, hi: nat, m2: string, path: string)
    ensures RunSteps(s, [MinLength(lo, m1), MaxLength(hi, m2)], path)
      == Checked(TooShort(s, lo, path, m1) + TooLong(s, hi, path, m2), s)
  {
    var steps := [MinLength(lo, m1), MaxLength(hi, m2)];
    assert steps[1..] == [MaxLength(hi, m2)];
    assert [MaxLength(hi, m2)][1..] == [];
    assert RunSteps(s, [MaxLength(hi, m2)], path) == Checked(TooLong(s, hi, path, m2), s);
  }

  /** `.min(lo)`. */
  lemma RunMin(s: string, lo: nat, m: string, path: string)
    ensures RunSteps(s, [MinLength(lo, m)], path) == Checked(TooShort(s, lo, path, m), s)
  {
    assert [MinLength(lo, m)][1..] == [];
  }

  /** `.toLowerCase().trim()`. */
  lemma RunLowerTrim(s: string, path: string)
    ensures RunSteps(s, [Lowered, Trimmed], path) == Checked({}, Text.Trim(Text.ToLower(s)))
  {
    var steps := [Lowered, Trimmed];
    assert steps[1..] == [Trimmed];
    assert [Trimmed][1..] == [];
  }

  /** `z.string(params).<steps>`. */
  function StringField(v: Value, path: string, custom: Option<string>, steps: seq<Step>): (r: Checked)
    ensures !v.Str? ==> r.issues == {Issue(path, None, TypeMessage(custom, v, ExpectedString))}
    ensures v.Str? ==> r == RunSteps(v.s, steps, path)
  {
    if v.Str? then RunSteps(v.s, steps, path)
    else Checked({Issue(path, None, TypeMessage(custom, v, ExpectedString))}, "")
  }

  /** A string the ObjectId predicate accepts. */
  predicate IsObjectId(v: Value, isObjectId: string -> bool) {
    v.Str? && isObjectId(v.s)
  }

  /** `z.string().refine(isValid, 'Invalid ObjectId format')`; the refinement runs only on a
      string. */
  function ObjectIdField(v: Value, path: string, index: Option<nat>, isObjectId: string -> bool): (r: set<Issue>)
    ensures r == {} <==> IsObjectId(v, isObjectId)
    ensures v.Str? && !isObjectId(v.s) ==> r == {Issue(path, index, InvalidObjectId)}
    ensures !v.Str? ==> r == {Issue(path, index, TypeMessage(None, v, ExpectedString))}
  {
    if !v.Str? then {Issue(path, index, TypeMessage(None, v, ExpectedString))}
    else if isObjectId(v.s) then {}
    else {Issue(path, index, InvalidObjectId)}
  }

  /** An object schema whose one field is an ObjectId: the string itself, or that field's
      issues. */
  function ObjectIdParam(v: Value, path: string, isObjectId: string -> bool): (r: Result<string, set<Issue>>)
    ensures r.Ok? <==> IsObjectId(v, isObjectId)
    ensures r.Ok? ==> r.value == v.s
    ensures r.Err? ==> r.error == ObjectIdField(v, path, None, isObjectId)
  {
    var issues := ObjectIdField(v, path, None, isObjectId);
    if issues == {} then Ok(v.s) else Err(issues)
  }

  /** The element issues of an array of ObjectIds, the first element having index `from`. */
  function ObjectIdElements(items: seq<Value>, path: string, from: nat, isObjectId: string -> bool): (r: set<Issue>)
    ensures r == {} <==> forall i :: 0 <= i < |items| ==> IsObjectId(items[i], isObjectId)
    ensures forall e :: e in r ==> e.path == path && e.index.Some? && from <= e.index.value < from + |items|
  {
    if items == [] then {}
    else
      var rest := ObjectIdElements(items[1..], path, from + 1, isObjectId);
      assert forall i :: 1 <= i < |items| ==> items[i] == items[1..][i - 1];
      ObjectIdField(items[0], path, Some(from), isObjectId) + rest
  }

  /** `z.array(objectId, params).min(lo, loMessage).max(hi, hiMessage)`. */
  function ObjectIdArray(v: Value, path: string, custom: Option<string>,
                         lo: nat, loMessage: string, hi: nat, hiMessage: string,
                         isObjectId: string -> bool): (r: set<Issue>)
    ensures r == {} <==>
      v.Arr? && lo <= |v.items| <= hi && forall i :: 0 <= i < |v.items| ==> IsObjectId(v.items[i], isObjectId)
    ensures !v.Arr? ==> r == {Issue(path, None, TypeMessage(custom, v, ExpectedArray))}
    ensures v.Arr? && |v.items| < lo ==> Issue(path, None, loMessage) in r
    ensures v.Arr? && |v.items| > hi ==> Issue(path, None, hiMessage) in r
  {
    if !v.Arr? then {Issue(path, None, TypeMessage(custom, v, ExpectedArray))}
    else
      (if |v.items| < lo then {Issue(path, None, loMessage)} else {})
      + (if |v.items| > hi then {Issue(path, None, hiMessage)} else {})
      + ObjectIdElements(v.items, path, 0, isObjectId)
  }

  /** The strings of an array of strings. */
  function Strings(items: seq<Value>): (r: seq<string>)
    requires forall i :: 0 <= i < |items| ==> items[i].Str?
    ensures |r| == |items|
    ensures forall i :: 0 <= i < |items| ==> r[i] == items[i].s
  {
    if items == [] then [] else [items[0].s] + Strings(items[1..])
  }

  /** Issues of the elements of a `z.array(z.string())`. */
  function StringElements(items: seq<Value>, path: string, from: nat): (r: set<Issue>)
    ensures r == {} <==> forall i :: 0 <= i < |items| ==> items[i].Str?
  {
    if items == [] then {}
    else
      var rest := StringElements(items[1..], path, from + 1);
      assert forall i :: 1 <= i < |items| ==> items[i] == items[1..][i - 1];
      (if items[0].Str? then {} else {Issue(path, Some(from), TypeMessage(None, items[0], ExpectedString))}) + rest
  }
}
