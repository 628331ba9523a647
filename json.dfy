/** JavaScript values as JSON.parse produces them, with the truthiness and
    optional-chaining rules the client code uses on them. */
module Json {
  import opened Wrappers

  datatype Json =
    | JNull
    | JBool(b: bool)
    | JNum(n: real)
    | JStr(s: string)
    | JArr(items: seq<Json>)
    | JObj(members: map<string, Json>)

  /** JavaScript's `Boolean(v)` on a parsed JSON value. */
  predicate Truthy(j: Json) {
    match j
    case JNull => false
    case JBool(b) => b
    case JNum(n) => n != 0.0
    case JStr(s) => s != ""
    case _ => true
  }

  /** `v?.key`: None stands for `undefined`. */
  function Member(v: Option<Json>, key: string): (r: Option<Json>)
    ensures r.Some? <==> v.Some? && v.value.JObj? && key in v.value.members
  {
    if v.Some? && v.value.JObj? && key in v.value.members then Some(v.value.members[key]) else None
  }

  /** The text of a value used as an operand of `||` when it is a non-empty
      string; None when JavaScript would move on to the next operand. */
  function TruthyText(v: Option<Json>): (r: Option<string>)
    ensures r.Some? ==> r.value != ""
  {
    if v.Some? && v.value.JStr? && v.value.s != "" then Some(v.value.s) else None
  }

  /** `a || b` on texts. */
  function OrText(a: Option<string>, b: string): string {
    if a.Some? then a.value else b
  }

  /** A string-valued member read as a token: a non-string is treated as absent. */
  function StringMember(v: Json, key: string): Option<string> {
    var m := Member(Some(v), key);
    if m.Some? && m.value.JStr? then Some(m.value.s) else None
  }
}
