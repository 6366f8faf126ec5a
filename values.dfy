/** The loosely typed values the ingester passes around: decoded JSON or YAML
    documents, the attribute values of a granule's variables, and the granule's
    variable table itself. */
module Values {
  import opened Wrappers

  /** A decoded JSON document or YAML configuration node. */
  datatype Value =
    | VNull
    | VBool(b: bool)
    | VInt(i: int)
    | VReal(r: real)
    | VStr(s: string)
    | VList(items: seq<Value>)
    | VDict(entries: map<string, Value>)

  /** Whether Python can hash the value: lists and mappings cannot, so looking one up
      in a mapping or putting it in a set raises TypeError. */
  predicate Hashable(v: Value)
  {
    !v.VList? && !v.VDict?
  }

  /** The `json` module, left uninterpreted: `loads` yields None where Python raises. */
  datatype Codec = Codec(dumps: Value -> string, loads: string -> Option<Value>)

  /** An attribute value of a netCDF variable: text, a number, or an array of them. */
  datatype Attr = AStr(s: string) | ANum(x: real) | AList(items: seq<Attr>)

  /** Python truthiness of an attribute value. */
  predicate Truthy(a: Attr)
  {
    match a
    case AStr(s) => s != []
    case ANum(x) => x != 0.0
    case AList(items) => items != []
  }

  /** One variable of an opened granule: its dimension names and its attributes. */
  datatype Variable = Variable(dims: seq<string>, attrs: map<string, Attr>)

  /** `dataset.variables`: the granule's variables by name. */
  type Dataset = map<string, Variable>
}
