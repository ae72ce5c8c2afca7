/**
 * JSON values, and the two built-ins `JSON.parse` and `JSON.stringify` treated as
 * uninterpreted functions: the model never looks at the text of a document, it only
 * relies on the round-trip law `Lawful`.
 */
module Json {
  import opened Wrappers

  /** A JSON document. Numbers are integers; object members keep their insertion order. */
  datatype Json =
    | JNull
    | JBool(b: bool)
    | JNum(n: int)
    | JStr(s: string)
    | JArr(items: seq<Json>)
    | JObj(members: seq<(string, Json)>)

  /**
   * The JSON built-ins: `parse` is partial (`None` is a thrown SyntaxError, whose message
   * is `syntaxError(text)`), `stringify` is total on documents.
   */
  datatype Codec = Codec(
    parse: string -> Option<Json>,
    stringify: Json -> string,
    syntaxError: string -> string)

  /** What the model assumes of the built-ins: parsing a serialised document gives it back, and the empty text does not parse. */
  ghost predicate Lawful(c: Codec) {
    && (forall v :: c.parse(c.stringify(v)) == Some(v))
    && c.parse("") == None
  }

  /** JavaScript truthiness of a job's return value; `None` is `undefined`. */
  predicate Falsy(v: Option<Json>) {
    match v
    case None => true
    case Some(j) => j == JNull || j == JBool(false) || j == JNum(0) || j == JStr("")
  }

  /** `typeof v === 'object' && v !== null`: true of arrays and objects only. */
  predicate IsObject(j: Json) {
    j.JArr? || j.JObj?
  }

  /** `v || {}`: the value a job returned, with every falsy value replaced by the empty object. */
  function OrEmpty(v: Option<Json>): (r: Json)
    ensures Falsy(v) ==> r == JObj([])
    ensures !Falsy(v) ==> v == Some(r)
    ensures !Falsy(Some(r))
  {
    if Falsy(v) then JObj([]) else v.value
  }
}
