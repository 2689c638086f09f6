/** The Python values that appear as keyword arguments and hyperparameter candidates. */
module Values {

  datatype Value =
    | NoneValue
    | Bool(b: bool)
    | Int(i: int)
    | Real(r: real)
    | Str(s: string)

  /** The `**kwargs` of a call: keyword names to values. */
  type Kwargs = map<string, Value>
}
