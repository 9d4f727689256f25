/** JSON values and the text codec the service relies on.  Parsing and printing are
    library code, so they are function values with a stated law. */
module Json {
  import opened Optional

  datatype Json =
    | Null
    | Bool(b: bool)
    | Int(n: int)
    | Float(r: real)
    | Str(s: string)
    | Arr(items: seq<Json>)
    | Obj(fields: map<string, Json>)

  /** `parse` fails on malformed text; `dump` fails on strings that are not valid UTF-8. */
  datatype Codec = Codec(parse: string -> Option<Json>, dump: Json -> Option<string>)

  /** What is assumed of the library: printing then parsing is the identity, and a parsed
      object (whose strings are valid UTF-8) can be printed again after setting one member
      to a number. */
  ghost predicate Lawful(codec: Codec) {
    && (forall j :: codec.dump(j).Some? ==> codec.parse(codec.dump(j).value) == Some(j))
    && (forall text, n :: codec.parse(text).Some? && codec.parse(text).value.Obj? ==>
          codec.dump(WithNumber(codec.parse(text).value, "_attempt", n)).Some?)
  }

  /** `job[key] = n` on an object. */
  function WithNumber(job: Json, key: string, n: int): (r: Json)
    requires job.Obj?
    ensures r.Obj? && r.fields.Keys == job.fields.Keys + {key}
  {
    Obj(job.fields[key := Int(n)])
  }

  const TWO_31: int := 0x8000_0000
  const TWO_32: int := 0x1_0000_0000
  const TWO_63: int := 0x8000_0000_0000_0000
  const TWO_64: int := 0x1_0000_0000_0000_0000

  /** Conversion to a 32-bit signed integer, wrapping as on the supported platforms. */
  function ToInt32(n: int): (r: int)
    ensures -TWO_31 <= r < TWO_31
    ensures -TWO_31 <= n < TWO_31 ==> r == n
    ensures (r - n) % TWO_32 == 0
  {
    var m := n % TWO_32;
    if m >= TWO_31 then m - TWO_32 else m
  }

  function ToInt64(n: int): (r: int)
    ensures -TWO_63 <= r < TWO_63
    ensures -TWO_63 <= n < TWO_63 ==> r == n
    ensures (r - n) % TWO_64 == 0
  {
    var m := n % TWO_64;
    if m >= TWO_63 then m - TWO_64 else m
  }

  /** Truncation toward zero. */
  function Truncate(r: real): int {
    if r >= 0.0 then r.Floor else -((-r).Floor)
  }

  /** `value.get<int>()`: numbers and booleans convert, everything else throws. */
  function GetInt32(j: Json): Option<int> {
    match j
    case Int(n) => Some(ToInt32(n))
    case Float(r) => Some(ToInt32(Truncate(r)))
    case Bool(b) => Some(if b then 1 else 0)
    case _ => None
  }
}
