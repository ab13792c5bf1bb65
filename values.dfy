/**
 * JavaScript values as the session engine sees them on the wire, and the
 * foreign functions it calls on them (JSON, pako, atob, unary `+`), which are
 * passed in as a `Runtime` whose laws are stated by `JsonLaws`, `ZipLaws`
 * and `NumberLaws`.
 */
module Values {
  import opened Wrappers
  import opened Strings

  /** A value that JSON text can carry, plus `undefined`; an object is its own-property list. */
  datatype Value =
    | Undefined
    | Null
    | Bool(b: bool)
    | Num(n: real)
    | Str(s: string)
    | Arr(items: seq<Value>)
    | Obj(fields: seq<(string, Value)>)

  /** JavaScript truthiness (`if (v)`). */
  predicate Truthy(v: Value) {
    match v
    case Undefined => false
    case Null => false
    case Bool(b) => b
    case Num(n) => n != 0.0
    case Str(s) => s != ""
    case Arr(_) => true
    case Obj(_) => true
  }

  /**
   * The property `key` of an object given by its property list, or
   * `undefined`. The objects the engine reads come from `JSON.parse` and so
   * have unique keys (`JsonClean`), where the property is the one entry
   * carrying the key.
   */
  function Lookup(fields: seq<(string, Value)>, key: string): (r: Value)
    ensures r != Undefined ==> exists i :: 0 <= i < |fields| && fields[i] == (key, r)
    ensures (forall i :: 0 <= i < |fields| ==> fields[i].0 != key) ==> r == Undefined
    ensures forall i :: 0 <= i < |fields| && fields[i].0 == key && (forall j :: 0 <= j < i ==> fields[j].0 != key) ==>
      r == fields[i].1
  {
    if |fields| == 0 then Undefined
    else if fields[0].0 == key then fields[0].1
    else Lookup(fields[1..], key)
  }

  /** `v[key]` for the property names the engine reads: only objects carry them. */
  function Field(v: Value, key: string): Value {
    if v.Obj? then Lookup(v.fields, key) else Undefined
  }

  /** `items[i]`: `undefined` past the end of an array. */
  function Element(items: seq<Value>, i: nat): (r: Value)
    ensures i < |items| ==> r == items[i]
    ensures i >= |items| ==> r == Undefined
  {
    if i < |items| then items[i] else Undefined
  }

  function Pow10(e: nat): (r: nat)
    ensures r >= 1
  {
    if e == 0 then 1 else 10 * Pow10(e - 1)
  }

  /** A number with finitely many decimal digits, as every double is. */
  ghost predicate FiniteDecimal(n: real) {
    exists e: nat :: (n * Pow10(e) as real).Floor as real == n * Pow10(e) as real
  }

  /**
   * A value that `JSON.parse(JSON.stringify(v))` gives back unchanged: no
   * `undefined` anywhere, no repeated keys, and only numbers a double can
   * hold exactly.
   */
  ghost predicate JsonClean(v: Value) {
    match v
    case Undefined => false
    case Num(n) => FiniteDecimal(n)
    case Arr(items) => forall i :: 0 <= i < |items| ==> JsonClean(items[i])
    case Obj(fields) =>
      && (forall i, j :: 0 <= i < j < |fields| ==> fields[i].0 != fields[j].0)
      && (forall i :: 0 <= i < |fields| ==> JsonClean(fields[i].1))
    case _ => true
  }

  /** The foreign functions the engine calls; None stands for `undefined`, NaN or a thrown exception. */
  datatype Runtime = Runtime(
    stringify: Value -> Option<string>,   // JSON.stringify
    parse: string -> Option<Value>,       // JSON.parse, None where it throws
    deflate: string -> string,            // pako.deflate(_, {to: 'string'})
    inflate: string -> Option<string>,    // pako.inflate(_, {to: 'string'}), None where it throws
    atob: string -> Option<string>,       // atob, None where it throws
    toNumber: string -> Option<real>)     // unary +, None for NaN

  /**
   * JSON.stringify gives non-empty text for every value but `undefined` (so
   * `json ?` tests only for `undefined`), and JSON.parse
   * reads back every value JSON can carry. The values it must tell apart are
   * countable (finite decimals, finite strings and lists), so an encoding
   * into strings that meets this exists.
   */
  ghost predicate JsonLaws(rt: Runtime) {
    && (forall v :: rt.stringify(v).None? <==> v == Undefined)
    && (forall v :: rt.stringify(v) != Some(""))
    && (forall v :: JsonClean(v) ==> rt.parse(rt.stringify(v).value) == Some(v))
  }

  /** pako's inflate undoes its deflate. */
  ghost predicate ZipLaws(rt: Runtime) {
    forall s :: rt.inflate(rt.deflate(s)) == Some(s)
  }

  /** `+""` is 0 and `+"12"` is 12. */
  ghost predicate NumberLaws(rt: Runtime) {
    && rt.toNumber("") == Some(0.0)
    && (forall s :: |s| > 0 && AllDigits(s) ==> rt.toNumber(s) == Some(DecimalValue(s) as real))
  }

  /** Reading decimal digits, and deflating as the identity, meet the number and zip laws. */
  lemma NumberAndZipLawsMet()
    ensures var rt := Runtime(v => None, s => None, s => s, s => Some(s), s => Some(s),
                              s => if AllDigits(s) then Some(DecimalValue(s) as real) else None);
      NumberLaws(rt) && ZipLaws(rt)
  {
  }
}
