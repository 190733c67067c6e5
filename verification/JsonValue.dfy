/** JSON values, and `JSON.stringify` and `JSON.parse` as far as the stream relies on them. */
module JsonValue {
  import opened Options

  datatype Json =
    | Null
    | Bool(b: bool)
    | Num(n: int)
    | Str(s: string)
    | Arr(items: seq<Json>)
    | Obj(fields: map<string, Json>)

  datatype Parsed = Parsed(value: Json) | Malformed(message: string)

  type Stringify = Json -> string
  type Parse = string -> Parsed

  /** One line that begins with a brace. */
  predicate Braced(s: string) {
    s != "" && s[0] == '{' && '\n' !in s && '\r' !in s
  }

  /** What is assumed of the codec: objects survive it, on one line. */
  ghost predicate IsCodec(stringify: Stringify, parse: Parse) {
    forall j: Json :: j.Obj? ==> parse(stringify(j)) == Parsed(j) && Braced(stringify(j))
  }

  /** `value?.name`. */
  function Field(value: Option<Json>, name: string): Option<Json> {
    if value.Some? && value.value.Obj? && name in value.value.fields then Some(value.value.fields[name]) else None
  }

  predicate IsString(value: Option<Json>) {
    value.Some? && value.value.Str?
  }

  predicate IsArray(value: Option<Json>) {
    value.Some? && value.value.Arr?
  }

  /** `String(value || '')`. */
  function StringOr(value: Option<Json>, default: string): string {
    if IsString(value) && value.value.s != "" then value.value.s else default
  }

  /** `Number(value || 0)`. */
  function NumberOf(value: Option<Json>): int {
    if value.Some? && value.value.Num? then value.value.n else 0
  }
}
