/** The lost_items table seen through the hosted client's calls, abstracted to
    what a call does to a row when it succeeds. Whether a call succeeds is an
    input of the operations that make it. */
module ItemStore {
  import opened Types

  /** The object passed to `.update(...)`: a key that is absent (None) leaves
      its column as it was; a key that is present overwrites it. */
  datatype Patch = Patch(
    description: Option<string>,
    location_found: Option<string>,
    collection_location: Option<string>,
    status: Option<RowStatus>,
    image_url: Option<string>,
    collected_at: Option<Time>,
    updated_at: Option<Time>)

  function Pick<T>(key: Option<T>, current: T): T
  {
    if key.Some? then key.value else current
  }

  /** The row after `.update(p).eq('id', row.id)` succeeds. */
  function ApplyPatch(row: LostItem, p: Patch): (r: LostItem)
    ensures r.id == row.id && r.created_at == row.created_at && r.teacher_id == row.teacher_id
  {
    row.(description := Pick(p.description, row.description),
         location_found := Pick(p.location_found, row.location_found),
         collection_location := Pick(p.collection_location, row.collection_location),
         status := Pick(p.status, row.status),
         image_url := if p.image_url.Some? then Some(p.image_url.value) else row.image_url,
         collected_at := if p.collected_at.Some? then Some(p.collected_at.value) else row.collected_at,
         updated_at := Pick(p.updated_at, row.updated_at))
  }

  /** Sending the same update twice leaves the row as sending it once. */
  lemma ApplyPatchIdempotent(row: LostItem, p: Patch)
    ensures ApplyPatch(ApplyPatch(row, p), p) == ApplyPatch(row, p)
  {
  }

  /** The object passed to `.insert(...)` when an item is reported. */
  datatype NewItem = NewItem(
    description: string,
    location_found: string,
    collection_location: string,
    image_url: Option<string>,
    teacher_id: Option<string>,
    status: RowStatus)

  /** The row `.insert(rec).select().single()` returns: the store assigns the
      id and the creation time; collected_at starts out null. */
  function Inserted(rec: NewItem, id: string, now: Time): LostItem
  {
    LostItem(id, rec.description, rec.location_found, rec.collection_location,
             rec.image_url, rec.status, rec.teacher_id, None, now, now)
  }
}
