/** Section content is untyped data (`content: any`) in the editor: nested objects, arrays,
    strings, numbers and flags, copied by value. This module gives it a shape, and the object
    spread `{ ...o, ...patch }` with which the editor changes one field of a record. */
module Json {

  datatype Json =
    | Str(s: string)
    | Num(n: real)
    | Bool(b: bool)
    | Arr(elems: seq<Json>)
    | Obj(fields: map<string, Json>)

  /** `{ ...o, ...patch }`: every key of either side, the patch winning where both have one. */
  function Spread(o: map<string, Json>, patch: map<string, Json>): (r: map<string, Json>)
    ensures r.Keys == o.Keys + patch.Keys
    ensures forall k :: k in patch ==> r[k] == patch[k]
    ensures forall k :: k in o && k !in patch ==> r[k] == o[k]
  {
    o + patch
  }

  /** `item.id === id`: the item is an object whose `id` field is the string `id`. A value that
      is not an object, or has no `id`, never matches. */
  predicate HasId(item: Json, id: string)
  {
    item.Obj? && "id" in item.fields && item.fields["id"] == Str(id)
  }

  /** An item with the given id and other fields. */
  function Item(id: string, fields: map<string, Json>): (r: Json)
    ensures HasId(r, id)
    ensures forall other :: HasId(r, other) ==> other == id
  {
    Obj(fields["id" := Str(id)])
  }
}
