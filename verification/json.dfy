/** The JSON values the handlers read out of a decoded request body, and
    Python's `float()` applied to them. */
module Json {

  datatype Option<+T> = None | Some(value: T)

  /** Stand-in for a Python float. Values are exact: rounding, NaN and the
      infinities are not modelled. */
  type Time = real

  /** A JSON scalar as Flask's `get_json` decodes it. */
  datatype Value = Null | Bool(b: bool) | Num(n: Time) | Str(s: string)

  /** A decoded JSON object: a Python dict with string keys. */
  type Object = map<string, Value>

  /** `d.get(key)`: the value under `key`, or None when the key is absent. */
  function Get(d: Object, key: string): Option<Value>
  {
    if key in d then Some(d[key]) else None
  }

  /** Python's `float(x)`, None standing for the exception it raises.
      `None` is an absent field (`data['time']` raises KeyError), `Null` is
      JSON null (`float(None)` raises TypeError); a string is handed to
      `parse`, the part of `float()` that reads decimal text. */
  function ToFloat(v: Option<Value>, parse: string -> Option<Time>): (r: Option<Time>)
    // The conversion raises exactly for a missing field, for null, and for
    // text `float()` cannot read.
    ensures r.None? <==> (v.None? || v == Some(Null) || (v.value.Str? && parse(v.value.s).None?))
    // A JSON number keeps its value; a boolean is the integer 1 or 0.
    ensures v.Some? && v.value.Num? ==> r == Some(v.value.n)
    ensures v.Some? && v.value.Bool? ==> r == Some(if v.value.b then 1.0 else 0.0)
    // Text that reads as a number gives that number.
    ensures v.Some? && v.value.Str? && r.Some? ==> parse(v.value.s) == r
  {
    match v
    case None => None
    case Some(Null) => None
    case Some(Bool(b)) => if b then Some(1.0) else Some(0.0)
    case Some(Num(n)) => Some(n)
    case Some(Str(s)) => parse(s)
  }
}
