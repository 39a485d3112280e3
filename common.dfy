/** Value types shared by the backend model: optional values, the three
    states of a field in a JSON request body, the keys of an
    `exclude_unset` dump, and the outcomes an endpoint can end in. */
module Common {

  datatype Option<+T> = None | Some(value: T)

  /** A field of a JSON request body as the schema layer sees it:
      missing from the body, present with `null`, or present with a value. */
  datatype Json<+T> = Absent | Null | Given(value: T)

  /** A key of `model_dump(exclude_unset=True)`: either not in the dump,
      or in it with the value the client sent (which may be `None`). */
  datatype Patch<+T> = Unset | Set(value: T)

  /** How an endpoint handler ends: it returns a value, or it raises an
      HTTPException with status 404, 400 or 401. */
  datatype Outcome<+T> = Ok(value: T) | NotFound | BadRequest | Unauthorized

  /** Timestamps are opaque values handed in by the caller of the model. */
  type Timestamp = int

  /** Python truthiness of an optional string: neither `None` nor `""`. */
  predicate Truthy(s: Option<string>) {
    s.Some? && s.value != ""
  }

  /** The value a patched field ends with: the patch when the key was set,
      the current value otherwise. */
  function PatchOr<T>(p: Patch<T>, current: T): T {
    if p.Set? then p.value else current
  }

  /** The optional value a schema field with default `None` ends with. */
  function OrNone<T>(j: Json<T>): Option<T> {
    if j.Given? then Some(j.value) else None
  }

  /** What an `exclude_unset` field holds for a body field: unset for a
      missing key, set to `None` for `null`, set to the value for a given
      one. */
  predicate Carries<T(==)>(p: Patch<Option<T>>, j: Json<T>) {
    && (j.Absent? ==> p.Unset?)
    && (j.Null? ==> p == Set(None))
    && (j.Given? ==> p == Set(Some(j.value)))
  }

  /** The `exclude_unset` view of an optional schema field: a missing key
      stays unset, `null` is set to `None`, a value is set to that value. */
  function AsPatch<T(==)>(j: Json<T>): (p: Patch<Option<T>>)
    ensures Carries(p, j)
  {
    match j
    case Absent => Unset
    case Null => Set(None)
    case Given(v) => Set(Some(v))
  }
}
