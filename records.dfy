/**
 * Ticket records as the store and the screens see them: plain JavaScript
 * objects, i.e. finite maps from a field name to a value.
 */
module Records {
  import opened Wrappers

  /** The field values a ticket carries: text, numbers (the `id`), and the comment list. */
  datatype Value = Str(s: string) | Num(n: int) | List(items: seq<string>)

  type Record = map<string, Value>

  /** The key path of the object store. */
  const IdField := "id"
  const StatusField := "status"
  const PriorityField := "priority"
  const CreationDateField := "creationDate"
  const CommentsField := "comments"

  /** Property access `r[field]`; None stands for `undefined`. */
  function Get(r: Record, field: string): (v: Option<Value>)
    ensures v.Some? <==> field in r
    ensures v.Some? ==> v.value == r[field]
  {
    if field in r then Some(r[field]) else None
  }

  /**
   * The object spread `{ ...base, ...patch }`: every field of either side,
   * the patch's value winning where both have one.
   */
  function Merge(base: Record, patch: Record): (r: Record)
    ensures r.Keys == base.Keys + patch.Keys
    ensures forall f :: f in patch ==> r[f] == patch[f]
    ensures forall f :: f in base && f !in patch ==> r[f] == base[f]
  {
    base + patch
  }

  /** `{ ...r, [field]: v }`: the record with one field replaced (or added). */
  function With(r: Record, field: string, v: Value): (r': Record)
    ensures r'.Keys == r.Keys + {field}
    ensures r'[field] == v
    ensures forall f :: f in r && f != field ==> r'[f] == r[f]
  {
    Merge(r, map[field := v])
  }

  /** A patch that names every field of the base leaves nothing of the base behind. */
  lemma MergeOverwritingAll(base: Record, patch: Record)
    requires base.Keys <= patch.Keys
    ensures Merge(base, patch) == patch
  {
    assert Merge(base, patch).Keys == patch.Keys;
  }
}
