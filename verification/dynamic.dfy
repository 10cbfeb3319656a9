/** Go's `interface{}` values as they occur in session data bags and error
    fields: the dynamic type is kept as a tag, because `GetString` only
    accepts values whose dynamic type is exactly `string`. */
module Dynamic {
  import opened Wrappers

  datatype Value =
    | Str(s: string)                  // a `string`
    | StrPtr(p: Option<string>)       // a `*string` (None is a nil pointer)
    | Int(i: int)                     // an `int`
    | Other                           // any other dynamic type
}
