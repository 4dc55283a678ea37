/** The JSON documents the harness reads: fixture trees and response bodies. */
module Json {
  import opened Wrappers

  /** A parsed JSON document. Numbers are integers only. */
  datatype Json =
    | JNull
    | JBool(b: bool)
    | JInt(n: int)
    | JStr(s: string)
    | JArr(items: seq<Json>)
    | JObj(fields: map<string, Json>)

  /**
   * The JSON library the harness calls into, whose code is not part of this model.
   * `parse` reads a text: `None` means it throws (malformed JSON).
   * `format` renders an object or an array as text (`JToken.ToString()`).
   */
  datatype JsonLibrary = JsonLibrary(parse: string -> Option<Json>, format: Json -> string)
}
