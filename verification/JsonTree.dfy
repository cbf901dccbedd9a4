/** Decoded JSON values, as the client keeps them. */
module JsonTree {

  /** A string is its code points, which in decoded JSON may include lone surrogates. */
  type Text = seq<int>

  datatype Json =
    | Null
    | Bool(flag: bool)
    | Number(value: real)
    | Str(text: Text)
    | Array(items: seq<Json>)
    | Object(members: seq<(Text, Json)>)
}
