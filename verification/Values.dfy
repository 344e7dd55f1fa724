/** Values that several components share. */
module Values {

  datatype Option<+T> = None | Some(value: T)

  /** The contents of a file; a character stands for a byte. */
  type Bytes = string

  datatype Json =
    | Null
    | Boolean(b: bool)
    | Number(n: real)
    | Str(s: string)
    | Arr(items: seq<Json>)
    | Obj(fields: map<string, Json>)

  /** One step into a JSON value. */
  datatype Step = Key(name: string) | At(index: nat)

  /** The value that a list of keys and indices names. */
  function Resolve(v: Json, path: seq<Step>): Option<Json> {
    if path == [] then Some(v)
    else
      match path[0]
      case Key(k) => if v.Obj? && k in v.fields then Resolve(v.fields[k], path[1..]) else None
      case At(i) => if v.Arr? && i < |v.items| then Resolve(v.items[i], path[1..]) else None
  }
}
