/** The promise of services/checkName.ts, as the way it settles. */
module NameCheck {

  /** How a promise settles: resolved with a value or rejected with a reason. */
  datatype Settlement = Resolved(value: string) | Rejected(reason: string)

  const EXPECTED_NAME := "Pedro"
  const CORRECT_PREFIX := "\U{2705} Correct! Name is "
  const WRONG_PREFIX := "\U{274C} Name was not Pedro. It was "

  /** `checkName(name)`: resolves exactly for "Pedro", and either message ends with the name given. */
  function CheckName(name: string): (r: Settlement)
    ensures r.Resolved? <==> name == EXPECTED_NAME
    ensures r.Resolved? ==> r.value == CORRECT_PREFIX + name
    ensures r.Rejected? ==> r.reason == WRONG_PREFIX + name
  {
    if name == EXPECTED_NAME then Resolved(CORRECT_PREFIX + name) else Rejected(WRONG_PREFIX + name)
  }
}
