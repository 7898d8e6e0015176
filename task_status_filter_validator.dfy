/**
 * `IsTaskStatusFilterConstraint` (src/features/tasks/validators/task-status-filter.validator.ts).
 * The constraint object only reads its `validValues` field, which is set once
 * and never changed, so it is modelled as a constant and two functions.
 */
module TaskStatusFilterValidator {
  import opened Wrappers
  import opened Strings
  import opened EnumLists
  import opened TaskStatusEnum

  /** `Object.values(TaskStatus)` of the database client, whose members are the same three names as the `TaskStatus` enum of task-status.enum.ts. */
  const ValidValues: seq<string> := Names(AllStatuses, Name)

  /** `validValues.includes(value)`: exact membership, no splitting and no case folding. */
  function Validate(value: string): (ok: bool)
    ensures ok <==> FromString(value).Ok?
    ensures ok <==> exists p :: Name(p) == value
  {
    ValidValuesSpelled();
    assert forall p :: Name(p) in ValidValues;
    value in ValidValues
  }

  /** The fixed prefix followed by the valid values joined with ", ". */
  function DefaultMessage(): (m: string)
    ensures m == "Status must be one of the following values: NOT_STARTED, IN_PROGRESS, COMPLETED"
  {
    JoinedValidValues();
    "Status must be one of the following values: " + Join(ValidValues, ", ")
  }

  /** `ValidValues`, spelled out. */
  lemma ValidValuesSpelled()
    ensures ValidValues == ["NOT_STARTED", "IN_PROGRESS", "COMPLETED"]
  {
    assert |ValidValues| == 3;
    assert ValidValues[0] == "NOT_STARTED";
    assert ValidValues[1] == "IN_PROGRESS";
    assert ValidValues[2] == "COMPLETED";
  }

  /** The valid values joined with ", ", spelled out. */
  lemma JoinedValidValues()
    ensures Join(ValidValues, ", ") == "NOT_STARTED, IN_PROGRESS, COMPLETED"
  {
    ValidValuesSpelled();
    assert Join(["COMPLETED"], ", ") == "COMPLETED";
    assert ["IN_PROGRESS", "COMPLETED"][1..] == ["COMPLETED"];
    assert Join(["IN_PROGRESS", "COMPLETED"], ", ") == "IN_PROGRESS, COMPLETED";
    assert ["NOT_STARTED", "IN_PROGRESS", "COMPLETED"][1..] == ["IN_PROGRESS", "COMPLETED"];
    assert Join(["NOT_STARTED", "IN_PROGRESS", "COMPLETED"], ", ") == "NOT_STARTED, IN_PROGRESS, COMPLETED";
  }

  /**
   * A comma-separated list, which `TaskStatusUtils.parse` would accept, is
   * rejected by the filter validator: "NOT_STARTED,COMPLETED" is not a member name.
   */
  lemma CommaListRejected(value: string)
    requires ',' in value
    ensures !Validate(value)
  {
  }

  /** Every string the validator admits parses to exactly one status. */
  lemma ValidatedParsesToOne(value: string)
    requires Validate(value)
    ensures Parse(Some(value)) == Ok([FromString(value).value])
  {
    var p :| Name(p) == value;
    NamesInvertible();
    assert ',' !in value;
    SplitWithoutSeparator(value, ',');
    assert FromString(value) == Ok(p);
    assert [value][1..] == [];
    assert ParseEach([value], FromString) == Ok([p] + []);
    assert Parse(Some(value)) == ParseEach([value], FromString);
    assert [p] + [] == [FromString(value).value];
  }
}
