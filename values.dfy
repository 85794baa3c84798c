/**
 * The dynamically typed slot of a decoded record, made explicit: a number when
 * Python's `float(...)` accepted the text, the text itself when it raised
 * ValueError, and `None` when the element had no text at all.
 */
module Values {
  import opened Wrappers

  datatype Value = Num(r: real) | Str(s: string) | Null

  /**
   * `try: value = float(text) except: value = text`, with `parse` standing for
   * `float` on strings (`None` where it raises) and a missing text for `None`.
   */
  function Coerce(parse: string -> Option<real>, text: Option<string>): (v: Value)
    ensures text.None? ==> v == Null
    ensures text.Some? && parse(text.value).Some? ==> v == Num(parse(text.value).value)
    ensures text.Some? && parse(text.value).None? ==> v == Str(text.value)
  {
    match text
    case None => Null
    case Some(t) =>
      match parse(t)
      case Some(r) => Num(r)
      case None => Str(t)
  }
}
