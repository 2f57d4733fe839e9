/** Package `validation`: field-level error details for request validation. */
module Validation {

  datatype ErrorDetail = ErrorDetail(field: string, message: string)

  type ErrorList = seq<ErrorDetail>

  /** The detail reported for a required field left empty; its message is
      `fmt.Sprintf("'%s' is required", field)`. */
  function RequiredError(field: string): (d: ErrorDetail)
    ensures d.field == field
    ensures d.message == "'" + field + "' is required"
  {
    ErrorDetail(field, "'" + field + "' is required")
  }

  /** Details for different fields are told apart by their `field`, and
      equally by their message. */
  lemma RequiredErrorInjective(f: string, g: string)
    requires f != g
    ensures RequiredError(f).field != RequiredError(g).field
    ensures RequiredError(f).message != RequiredError(g).message
  {
    var m, n := RequiredError(f).message, RequiredError(g).message;
    assert m[1..|m| - 13] == f;
    assert n[1..|n| - 13] == g;
  }
}
