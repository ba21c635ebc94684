/** The closed set of lifecycle labels an achievement can carry (Java's StatusEnum). */
module StatusEnum {
  import opened Wrappers

  datatype Status = TODO | IN_PROGRESS | COMPLETED

  /** `Enum.name()`: the constant's declared identifier. */
  function Name(s: Status): (n: string)
    ensures |n| > 0
  {
    match s
    case TODO => "TODO"
    case IN_PROGRESS => "IN_PROGRESS"
    case COMPLETED => "COMPLETED"
  }

  /** `StatusEnum.valueOf(text)`: an exact, case-sensitive match against the names;
      None stands for the IllegalArgumentException thrown for any other text. */
  function Parse(text: string): (r: Option<Status>)
    ensures r.Some? ==> Name(r.value) == text
  {
    if text == "TODO" then Some(TODO)
    else if text == "IN_PROGRESS" then Some(IN_PROGRESS)
    else if text == "COMPLETED" then Some(COMPLETED)
    else None
  }

  /** Parsing and naming are inverse: a text parses to a status exactly when it is that status's name. */
  lemma ParseIffName(text: string, s: Status)
    ensures Parse(text) == Some(s) <==> Name(s) == text
  {
  }

  /** Distinct statuses have distinct names. */
  lemma NameInjective(s: Status, t: Status)
    ensures Name(s) == Name(t) ==> s == t
  {
  }
}
