/**
 * Parsed JSON values, as far as the scripts look inside them. `json.loads` and
 * `json.dump(..., indent=4)` are not modelled; a `Codec` carries them as opaque
 * functions. Numbers keep their literal text: no script computes with them.
 */
module Json {
  import opened Wrappers

  datatype Json =
    | Null
    | Bool(b: bool)
    | Number(literal: string)
    | Str(s: string)
    | Array(items: seq<Json>)
    | Object(fields: map<string, Json>)

  /** `json.loads` (None when it raises) and the text `json.dump` writes. */
  datatype Codec = Codec(loads: string -> Option<Json>, dumps: Json -> string)

  /** `result[name]` used as the argument of `f.write`: it succeeds only on a dict whose
      entry under `name` is a string; a list, a missing key or a non-string entry raises. */
  function TextField(result: Json, name: string): Option<string>
  {
    if result.Object? && name in result.fields && result.fields[name].Str?
    then Some(result.fields[name].s)
    else None
  }

  /** Every `result[name]` for the given names can be evaluated (no KeyError, no TypeError). */
  predicate HasFields(result: Json, names: seq<string>)
  {
    result.Object? && forall k :: 0 <= k < |names| ==> names[k] in result.fields
  }
}
