/** `TaskStatus` and `TaskStatusUtils` (src/features/tasks/enums/task-status.enum.ts). */
module TaskStatusEnum {
  import opened Wrappers
  import opened Strings
  import opened EnumLists

  /** A string enum: each member's value is its own name. */
  datatype TaskStatus = NOT_STARTED | IN_PROGRESS | COMPLETED

  function Name(p: TaskStatus): string
  {
    match p
    case NOT_STARTED => "NOT_STARTED"
    case IN_PROGRESS => "IN_PROGRESS"
    case COMPLETED => "COMPLETED"
  }

  /** The members in declaration order, as `Object.values(TaskStatus)` lists them. */
  const AllStatuses: seq<TaskStatus> := [NOT_STARTED, IN_PROGRESS, COMPLETED]

  /** `fromString`: the exact, case-sensitive member name, or `Error("Invalid value <value>")`. */
  function FromString(value: string): (r: Result<TaskStatus, string>)
    ensures r.Ok? <==> value in {"NOT_STARTED", "IN_PROGRESS", "COMPLETED"}
    ensures r.Ok? ==> Name(r.value) == value
    ensures r.Err? ==> r.error == "Invalid value " + value
  {
    if value == "NOT_STARTED" then Ok(NOT_STARTED)
    else if value == "IN_PROGRESS" then Ok(IN_PROGRESS)
    else if value == "COMPLETED" then Ok(COMPLETED)
    else Err("Invalid value " + value)
  }

  /** `parse`: `null` is the empty list, otherwise `fromString` over the comma-separated segments. */
  function Parse(value: Option<string>): (r: Result<seq<TaskStatus>, string>)
    ensures value.None? ==> r == Ok([])
    ensures r.Ok? && value.Some? ==>
            |r.value| == |Split(value.value, ',')| &&
            forall i :: 0 <= i < |r.value| ==> Name(r.value[i]) == Split(value.value, ',')[i]
  {
    if value.None? then ParseList(value, FromString)
    else
      ParseEachOk(Split(value.value, ','), FromString);
      ParseList(value, FromString)
  }

  /** `fromString` inverts `Name`, and no name contains a comma. */
  lemma NamesInvertible()
    ensures forall p :: FromString(Name(p)) == Ok(p)
    ensures forall p :: ',' !in Name(p)
  {
  }

  lemma ParseNull()
    ensures Parse(None) == Ok([])
  {
  }

  /**
   * A successful parse has one element per comma-separated segment, so one
   * more than the number of commas, each the member named by the segment at
   * the same position; it succeeds iff every segment is a member name.
   */
  lemma ParseSegments(s: string)
    ensures Parse(Some(s)).Ok? <==>
            forall i :: 0 <= i < |Split(s, ',')| ==> FromString(Split(s, ',')[i]).Ok?
    ensures Parse(Some(s)).Ok? ==>
            |Parse(Some(s)).value| == |Split(s, ',')| == Occurrences(s, ',') + 1 &&
            forall i :: 0 <= i < |Split(s, ',')| ==> Name(Parse(Some(s)).value[i]) == Split(s, ',')[i]
  {
    ParseEachOk(Split(s, ','), FromString);
    SplitLength(s, ',');
  }

  /** A failed parse reports the first invalid segment. */
  lemma ParseError(s: string)
    requires Parse(Some(s)).Err?
    ensures exists k :: 0 <= k < |Split(s, ',')| &&
              (forall i :: 0 <= i < k ==> FromString(Split(s, ',')[i]).Ok?) &&
              FromString(Split(s, ',')[k]).Err? &&
              Parse(Some(s)).error == "Invalid value " + Split(s, ',')[k]
  {
    ParseEachErr(Split(s, ','), FromString);
  }

  /** The empty string is one empty segment, which is not a member name. */
  lemma ParseEmptyFails()
    ensures Parse(Some("")) == Err("Invalid value ")
  {
    assert Split("", ',') == [""];
    assert "Invalid value " + "" == "Invalid value ";
    assert FromString("") == Err("Invalid value ");
  }

  /** A trailing comma leaves an empty last segment, so the parse fails. */
  lemma ParseTrailingCommaFails(s: string)
    ensures Parse(Some(s + ",")).Err?
  {
    var t := s + ",";
    ParseSegments(t);
    SplitLength(t, ',');
    var parts := Split(t, ',');
    var last := parts[|parts| - 1];
    JoinSplit(t, ',');
    TrailingSegmentEmpty(t, ',');
    assert FromString(last).Err?;
  }

  /** Round trip: parsing the comma-joined names of a non-empty list gives it back. */
  lemma ParseJoinedNames(ss: seq<TaskStatus>)
    requires |ss| >= 1
    ensures Parse(Some(Join(Names(ss, Name), ","))) == Ok(ss)
  {
    NamesInvertible();
    ParseListJoin(ss, Name, FromString);
  }
}
