/**
 The decoded configuration payload: `ServerConfig { settings: BTreeMap<String, Value> }`
 with `serde_json::Value` as its value type. The model keeps only the shape;
 decoding is a parameter of the listener.
 */
module Models {

  /** A JSON value. Numbers are exact reals here, not IEEE doubles. */
  datatype Value =
    | Null
    | Bool(b: bool)
    | Number(n: real)
    | Str(s: string)
    | Array(items: seq<Value>)
    | Object(fields: map<string, Value>)

  /** Setting name to value; a key-sorted map in the source, a plain map here. */
  datatype ServerConfig = ServerConfig(settings: map<string, Value>)
}
