/**
 * The shape shared by `TaskPriorityUtils.parse` and `TaskStatusUtils.parse`:
 * `null` gives the empty list, anything else is split on "," and every
 * segment is converted by the enum's `fromString`, which throws on the first
 * segment it does not accept (`Array.prototype.map` stops at the first throw).
 */
module EnumLists {
  import opened Wrappers
  import opened Strings

  /** `segments.map(fromString)`, failing with the first segment's error. */
  function ParseEach<T>(segments: seq<string>, fromString: string -> Result<T, string>): Result<seq<T>, string>
  {
    if |segments| == 0 then Ok([])
    else match fromString(segments[0])
      case Err(e) => Err(e)
      case Ok(x) =>
        match ParseEach(segments[1..], fromString)
        case Err(e) => Err(e)
        case Ok(xs) => Ok([x] + xs)
  }

  /** `value === null ? [] : value.split(",").map(fromString)`. */
  function ParseList<T>(value: Option<string>, fromString: string -> Result<T, string>): Result<seq<T>, string>
  {
    match value
    case None => Ok([])
    case Some(s) => ParseEach(Split(s, ','), fromString)
  }

  /** The enum names of `xs`, in order. */
  function Names<T>(xs: seq<T>, name: T -> string): (r: seq<string>)
    ensures |r| == |xs|
    ensures forall i :: 0 <= i < |xs| ==> r[i] == name(xs[i])
  {
    if |xs| == 0 then [] else [name(xs[0])] + Names(xs[1..], name)
  }

  /**
   * Mapping succeeds iff every segment converts, and then yields one element
   * per segment, each the conversion of the segment at the same position.
   */
  lemma {:induction false} ParseEachOk<T>(segments: seq<string>, fromString: string -> Result<T, string>)
    ensures ParseEach(segments, fromString).Ok? <==>
            forall i :: 0 <= i < |segments| ==> fromString(segments[i]).Ok?
    ensures ParseEach(segments, fromString).Ok? ==>
            |ParseEach(segments, fromString).value| == |segments| &&
            forall i :: 0 <= i < |segments| ==>
              ParseEach(segments, fromString).value[i] == fromString(segments[i]).value
    decreases |segments|
  {
    if |segments| > 0 {
      ParseEachOk(segments[1..], fromString);
      var rest := segments[1..];
      assert forall i :: 1 <= i < |segments| ==> segments[i] == rest[i - 1];
    }
  }

  /** On failure, the error is that of the first segment that does not convert. */
  lemma {:induction false} ParseEachErr<T>(segments: seq<string>, fromString: string -> Result<T, string>)
    requires ParseEach(segments, fromString).Err?
    ensures exists k :: 0 <= k < |segments| &&
              (forall i :: 0 <= i < k ==> fromString(segments[i]).Ok?) &&
              fromString(segments[k]) == Err(ParseEach(segments, fromString).error)
    decreases |segments|
  {
    if fromString(segments[0]).Err? {
      assert fromString(segments[0]) == Err(ParseEach(segments, fromString).error);
    } else {
      var rest := segments[1..];
      ParseEachErr(rest, fromString);
      var k :| 0 <= k < |rest| &&
                (forall i :: 0 <= i < k ==> fromString(rest[i]).Ok?) &&
                fromString(rest[k]) == Err(ParseEach(rest, fromString).error);
      assert forall i :: 1 <= i < k + 1 ==> segments[i] == rest[i - 1];
      assert segments[k + 1] == rest[k];
    }
  }

  /**
   * Round trip: joining the names of a non-empty list with "," and parsing
   * the result gives the list back, provided `fromString` inverts `name` and
   * no name contains a comma.
   */
  lemma ParseListJoin<T>(xs: seq<T>, name: T -> string, fromString: string -> Result<T, string>)
    requires |xs| >= 1
    requires forall x :: fromString(name(x)) == Ok(x)
    requires forall x :: ',' !in name(x)
    ensures ParseList(Some(Join(Names(xs, name), ",")), fromString) == Ok(xs)
  {
    var names := Names(xs, name);
    SplitJoin(names, ',');
    ParseEachOk(names, fromString);
    var r := ParseEach(names, fromString);
    assert r.Ok?;
    assert r.value == xs;
  }
}
