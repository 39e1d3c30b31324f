/** The dictionary service's JSON response, typed field by field as the two
    markdown builders read it.

    A key read with `.get(key, default)` and then used as a string (`.strip()`,
    subscripting) is a `Field`: absent gives the default, and a value of another
    JSON type (null included) makes the Python code raise. A key that is only
    tested for truthiness (`if words:`) is a sequence or an `Option`: an absent
    key and a falsy value (null, empty list, empty object) both read as empty. */
module Payload {
  import opened PyText

  datatype Option<T> = None | Some(value: T)

  datatype Field<T> = Missing | Present(value: T) | Mistyped

  /** A JSON scalar, printed as Python's `str()` prints it. */
  datatype Atom = Null | Bool(b: bool) | Int(n: int) | Text(s: string)

  function PyStr(a: Atom): string
  {
    match a
    case Null => "None"
    case Bool(b) => if b then "True" else "False"
    case Int(n) => IntToString(n)
    case Text(s) => s
  }

  /** The top-level value handed to the builder: only whether it is an object,
      and what its "result" entry holds, are inspected. */
  datatype Response<R> = NotAnObject | Object(result: Field<R>)

  /** `isinstance(results, dict) and "result" in results` */
  predicate WellShaped<R>(resp: Response<R>)
  {
    resp.Object? && !resp.result.Missing?
  }

  /** One `examples` entry of a meaning group: `exmaple[0]['native']` and
      `exmaple[0]['translated']` are subscripts, so a missing key raises; a
      null `native` raises inside the annotator. */
  datatype Example = Example(native: Option<string>, translated: Option<Atom>)

  /** One element of `tls2`. */
  datatype MeaningGroup = MeaningGroup(translation: seq<string>, examples: seq<Example>)

  /** One element of `sentences`: `ru` and `tl` are read with `.get(k, "")`
      and stripped. */
  datatype Sentence = Sentence(ru: Field<string>, tl: Field<string>)

  /** `f.get(k, "").strip()`; a `Mistyped` field, on which the Python call
      raises, reads as "" here and is reported by the callers' raise checks. */
  function StrippedText(f: Field<string>): string
  {
    if f.Present? then Strip(f.value) else ""
  }
}
