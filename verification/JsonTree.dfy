/** A parsed JSON document, with the accessors the message parser uses on it. */
module JsonTree {
  import opened Wrappers

  datatype Json =
    | Null
    | Bool(flag: bool)
    | Number(number: real)
    | String(text: string)
    | Array(items: seq<Json>)
    | Object(members: seq<(string, Json)>)

  /** Renders a tree as compact text; supplied by the JSON library. */
  type Printer = Json -> string

  function Find(members: seq<(string, Json)>, key: string): Option<Json> {
    if members == [] then None
    else if members[0].0 == key then Some(members[0].1)
    else Find(members[1..], key)
  }

  /** The first member with this key; nothing when the item is not an object. */
  function Member(item: Json, key: string): Option<Json> {
    if item.Object? then Find(item.members, key) else None
  }

  function Truncate(x: real): int {
    if x >= 0.0 then x.Floor else -((-x).Floor)
  }

  /** A number as an `int`: truncated, and saturated at the 32-bit limits. */
  function ValueInt(x: real): int {
    if x >= 2147483647.0 then 2147483647
    else if x <= -2147483648.0 then -2147483648
    else Truncate(x)
  }

  /** Truncation takes the nearest integer that is not farther from zero, with the sign of the number. */
  lemma TruncatesTowardZero(x: real)
    ensures x >= 0.0 ==> 0.0 <= Truncate(x) as real <= x < Truncate(x) as real + 1.0
    ensures x <= 0.0 ==> Truncate(x) as real - 1.0 < x <= Truncate(x) as real <= 0.0
  {
  }

  /** In the range of a 32-bit `int` a number is truncated, and outside it the nearest limit is taken. */
  lemma ValueIntSaturates(x: real)
    ensures -2_147_483_648 <= ValueInt(x) <= 2_147_483_647
    ensures -2_147_483_648.0 <= x <= 2_147_483_647.0 ==> ValueInt(x) == Truncate(x)
    ensures x > 2_147_483_647.0 ==> ValueInt(x) == 2_147_483_647
    ensures x < -2_147_483_648.0 ==> ValueInt(x) == -2_147_483_648
  {
    TruncatesTowardZero(x);
  }

  function Compact(item: Option<Json>, printer: Printer): string {
    if item.None? then "" else printer(item.value)
  }

  function RequiredString(item: Json, key: string): Result<string> {
    match Member(item, key)
    case Some(String(text)) => Ok(text)
    case _ => Err("Missing or invalid string field: " + key)
  }

  function RequiredNumber(item: Json, key: string): Result<real> {
    match Member(item, key)
    case Some(Number(x)) => Ok(x)
    case _ => Err("Missing or invalid number field: " + key)
  }

  function RequiredInt(item: Json, key: string): Result<int> {
    var x :- RequiredNumber(item, key);
    Ok(ValueInt(x))
  }

  function OptionalNumber(item: Json, key: string): Option<real> {
    match Member(item, key)
    case Some(Number(x)) => Some(x)
    case _ => None
  }

  function RequiredArray(item: Json, key: string): Result<seq<Json>> {
    match Member(item, key)
    case Some(Array(items)) => Ok(items)
    case _ => Err("Missing or invalid array field: " + key)
  }
}
