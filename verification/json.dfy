/**
  Parsed JSON values as the Python client sees them after `response.json()`,
  with the few Python operations the client applies to them: truthiness,
  `dict.get(key, default)` and the `in` operator on strings and lists.
 */
module JsonValues {

  /** A parsed JSON document. Numbers are kept as reals, which covers both the
      `int` and the `float` values Python's decoder produces. */
  datatype Json =
    | JNull
    | JBool(b: bool)
    | JNum(n: real)
    | JStr(s: string)
    | JArr(items: seq<Json>)
    | JObj(fields: map<string, Json>)

  /** Python truthiness: `None`, `False`, `0`, `""`, `[]` and `{}` are false,
      everything else is true. */
  predicate Truthy(v: Json)
    ensures Truthy(v) <==> v !in {JNull, JBool(false), JNum(0.0), JStr(""), JArr([]), JObj(map[])}
  {
    match v
    case JNull => false
    case JBool(b) => b
    case JNum(n) => n != 0.0
    case JStr(s) => s != ""
    case JArr(items) => items != []
    case JObj(fields) => fields != map[]
  }

  /** `d.get(key, default)` on a Python dict. */
  function Get(fields: map<string, Json>, key: string, default: Json): Json {
    if key in fields then fields[key] else default
  }

  /** `part in s` for two Python strings: `part` occurs in `s` as a substring. */
  predicate HasSubstring(s: string, part: string)
    ensures HasSubstring(s, part) ==> |part| <= |s|
    ensures part == [] ==> HasSubstring(s, part)
  {
    |part| <= |s| && (s[..|part|] == part || HasSubstring(s[1..], part))
  }

  /** An occurrence of `part` at any position makes `part in s` true. */
  lemma {:induction false} SubstringAt(s: string, part: string, i: nat)
    requires i + |part| <= |s| && s[i..i + |part|] == part
    ensures HasSubstring(s, part)
    decreases i
  {
    if i > 0 {
      assert s[1..][i - 1..i - 1 + |part|] == s[i..i + |part|];
      SubstringAt(s[1..], part, i - 1);
    } else {
      assert s[..|part|] == s[0..0 + |part|];
    }
  }

  /** When `part in s` holds, `part` occurs at some position of `s`. */
  lemma {:induction false} SubstringWitness(s: string, part: string) returns (i: nat)
    requires HasSubstring(s, part)
    ensures i + |part| <= |s| && s[i..i + |part|] == part
    decreases |s|
  {
    if s[..|part|] == part {
      i := 0;
    } else {
      var j := SubstringWitness(s[1..], part);
      assert s[1..][j..j + |part|] == s[j + 1..j + 1 + |part|];
      i := j + 1;
    }
  }

  /** A value is a non-empty JSON array: the test
      `x and isinstance(x, list) and len(x) > 0`. */
  predicate NonEmptyList(v: Json) {
    v.JArr? && v.items != []
  }
}
