/**
 * `IsTaskPriorityFilterContraint` (src/features/tasks/validators/task-priority-filter.validator.ts).
 * The constraint object only reads its `validValues` field, which is set once
 * and never changed, so it is modelled as a constant and two functions.
 */
module TaskPriorityFilterValidator {
  import opened Wrappers
  import opened Strings
  import opened EnumLists
  import opened TaskPriorityEnum

  /** `Object.values(TaskPriority)`: the member names in declaration order. */
  const ValidValues: seq<string> := Names(AllPriorities, Name)

  /** `validValues.includes(value)`: exact membership, no splitting and no case folding. */
  function Validate(value: string): (ok: bool)
    ensures ok <==> FromString(value).Ok?
    ensures ok <==> exists p :: Name(p) == value
  {
    ValidValuesSpelled();
    assert forall p :: Name(p) in ValidValues;
    value in ValidValues
  }

  /** The fixed prefix followed by the valid values joined with ", ". */
  function DefaultMessage(): (m: string)
    ensures m == "Priority must be one of the following values: NONE, LOW, MEDIUM, HIGH"
  {
    JoinedValidValues();
    "Priority must be one of the following values: " + Join(ValidValues, ", ")
  }

  /** `ValidValues`, spelled out. */
  lemma ValidValuesSpelled()
    ensures ValidValues == ["NONE", "LOW", "MEDIUM", "HIGH"]
  {
    assert |ValidValues| == 4;
    assert ValidValues[0] == "NONE";
    assert ValidValues[1] == "LOW";
    assert ValidValues[2] == "MEDIUM";
    assert ValidValues[3] == "HIGH";
  }

  /** The valid values joined with ", ", spelled out. */
  lemma JoinedValidValues()
    ensures Join(ValidValues, ", ") == "NONE, LOW, MEDIUM, HIGH"
  {
    ValidValuesSpelled();
    assert Join(["HIGH"], ", ") == "HIGH";
    assert ["MEDIUM", "HIGH"][1..] == ["HIGH"];
    assert Join(["MEDIUM", "HIGH"], ", ") == "MEDIUM, HIGH";
    assert ["LOW", "MEDIUM", "HIGH"][1..] == ["MEDIUM", "HIGH"];
    assert Join(["LOW", "MEDIUM", "HIGH"], ", ") == "LOW, MEDIUM, HIGH";
    assert ["NONE", "LOW", "MEDIUM", "HIGH"][1..] == ["LOW", "MEDIUM", "HIGH"];
    assert Join(["NONE", "LOW", "MEDIUM", "HIGH"], ", ") == "NONE, LOW, MEDIUM, HIGH";
  }

  /**
   * A comma-separated list, which `TaskPriorityUtils.parse` would accept, is
   * rejected by the filter validator: "NONE,HIGH" is not a member name.
   */
  lemma CommaListRejected(value: string)
    requires ',' in value
    ensures !Validate(value)
  {
  }

  /** Every string the validator admits parses to exactly one priority. */
  lemma ValidatedParsesToOne(value: string)
    requires Validate(value)
    ensures Parse(Some(value)) == Ok([FromString(value).value])
  {
    var p :| Name(p) == value;
    NamesInvertible();
    assert ',' !in value;
    SplitWithoutSeparator(value, ',');
    assert FromString(value) == Ok(p);
    assert [value][1..] == [];
    assert ParseEach([value], FromString) == Ok([p] + []);
    assert Parse(Some(value)) == ParseEach([value], FromString);
    assert [p] + [] == [FromString(value).value];
  }

  /**
   * The list "NONE,HIGH" parses to two priorities, yet the filter validator
   * rejects it, so a `priority=NONE,HIGH` query fails validation.
   */
  lemma TwoPriorityListRejected()
    ensures Parse(Some("NONE,HIGH")) == Ok([NONE, HIGH])
    ensures !Validate("NONE,HIGH")
  {
    ParseJoinedNames([NONE, HIGH]);
    assert Names([NONE, HIGH], Name) == ["NONE", "HIGH"];
    assert Join(["NONE", "HIGH"], ",") == "NONE,HIGH" by {
      assert Join(["HIGH"], ",") == "HIGH";
    }
    assert "NONE,HIGH"[4] == ',';
    CommaListRejected("NONE,HIGH");
  }
}
