/** Row payloads are opaque JSON objects to the reporter: it never inspects them. */
module Json {

  /** A scalar JSON value. Numbers are integers here; floating point is not modelled. */
  datatype Scalar = Null | Bool(b: bool) | Number(n: int) | Str(s: string)

  /** One measurement row: column name to value. */
  type Row = map<string, Scalar>
}
