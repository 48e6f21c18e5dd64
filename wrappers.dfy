/** Small value wrappers shared by every module of the model. */
module Wrappers {

  /** An optional value: a JSON field or a nullable column that may be absent. */
  datatype Option<+T> = None | Some(value: T)

  /**
   * Python truthiness of an optional string: `None` and `""` are both false.
   * Every `if not x` / `a or b` test on a request field or a nullable column
   * in the backend goes through this predicate.
   */
  predicate Truthy(o: Option<string>)
  {
    o.Some? && o.value != ""
  }
}
