/** JSON values: Python's None, bool, number, str, list and dict. */
module Documents {
  /** A number is its literal text. */
  datatype Json =
    | Null
    | Bool(truth: bool)
    | Number(literal: string)
    | Text(text: string)
    | List(items: seq<Json>)
    | Object(fields: map<string, Json>)

  /** dict.get */
  function Field(fields: map<string, Json>, key: string): Json { if key in fields then fields[key] else Null }
}
