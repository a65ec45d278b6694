/** Parsed JSON values. Numbers are opaque tokens, an object is its list of
    own entries in enumeration order. */
module Json {
  import opened Utf16
  import opened Ordering

  datatype Json =
    | Null
    | Bool(b: bool)
    | Number(token: Text)
    | Str(s: Text)
    | Arr(items: seq<Json>)
    | Obj(entries: seq<Keyed<Json>>)
    | Hole  // what deleting an array element leaves; parsing never yields it
  {
    predicate Container() { Arr? || Obj? }
  }

  /** The values one level below `j`, in enumeration order. */
  function Children(j: Json): (cs: seq<Json>)
    ensures forall i :: 0 <= i < |cs| ==> cs[i] < j
    ensures !j.Container() ==> cs == []
    ensures j.Obj? ==> |cs| == |j.entries| && forall i :: 0 <= i < |cs| ==> cs[i] == j.entries[i].value
  {
    match j
    case Arr(items) => items
    case Obj(entries) => seq(|entries|, i requires 0 <= i < |entries| => entries[i].value)
    case _ => []
  }
}
