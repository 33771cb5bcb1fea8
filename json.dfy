/**
 * JSON values as the event stream carries them, and `JSON.stringify` /
 * `JSON.parse` as an abstract pair of functions: the model never looks
 * inside the serialisation, it only relies on the laws stated by `Lawful`.
 */
module Json {
  import opened Wrappers
  import Text

  /** A JSON value. Numbers are integers here: every number the core sends
      (percentages, counts, run ids) is one. */
  datatype Value =
    | JNull
    | JBool(b: bool)
    | JNum(n: int)
    | JStr(s: string)
    | JArr(elems: seq<Value>)
    | JObj(fields: seq<(string, Value)>)

  /** `JSON.stringify` and `JSON.parse` (`None` when parse throws). */
  datatype Codec = Codec(stringify: Value -> string, parse: string -> Option<Value>)

  /**
   * The laws the model assumes of the real pair: parse undoes stringify,
   * parse throws on the empty text, and the compact text stringify produces
   * is non-empty, has no surrounding white space and no line break.
   */
  ghost predicate Lawful(c: Codec) {
    && (forall v :: c.parse(c.stringify(v)) == Some(v))
    && c.parse("") == None
    && (forall v :: c.stringify(v) != "" && Text.Trimmed(c.stringify(v)) && '\n' !in c.stringify(v))
  }

  /** `obj[key]` on a parsed object: the last field with that name wins, as in
      `JSON.parse`; anything that is not an object has no fields. */
  function Get(v: Value, key: string): (r: Option<Value>)
    ensures r.Some? ==> v.JObj? && exists k :: 0 <= k < |v.fields| && v.fields[k] == (key, r.value)
    ensures r.None? ==> !v.JObj? || forall k :: 0 <= k < |v.fields| ==> v.fields[k].0 != key
  {
    match v
    case JObj(fields) => Lookup(fields, key)
    case _ => None
  }

  function Lookup(fields: seq<(string, Value)>, key: string): (r: Option<Value>)
    ensures r.Some? ==> exists k :: 0 <= k < |fields| && fields[k] == (key, r.value)
                                    && forall m :: k < m < |fields| ==> fields[m].0 != key
    ensures r.None? ==> forall k :: 0 <= k < |fields| ==> fields[k].0 != key
  {
    if |fields| == 0 then None
    else if fields[|fields| - 1].0 == key then Some(fields[|fields| - 1].1)
    else Lookup(fields[..|fields| - 1], key)
  }
}
