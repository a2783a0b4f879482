/** The records of the lost_items and teachers tables as the client sees them
    (src/types/index.ts). Timestamps, stored as ISO strings, are abstracted to
    integers; a field that may be null or absent becomes an Option. */
module Types {

  datatype Option<T> = None | Some(value: T)

  /** A point in time; the ISO-8601 text the store keeps is abstracted away. */
  type Time = int

  /** `status` is a free string in the row type; the three values the
      application writes get their own case, anything else is kept as Other. */
  datatype Status = Available | Collected | Archived | Other(name: string)

  /** An Other status that does not spell one of the three known values. */
  predicate Canonical(s: Status)
  {
    s.Other? ==> s.name !in {"available", "collected", "archived"}
  }

  /** A status as a row holds it: the one status value per stored string. */
  type RowStatus = s: Status | Canonical(s) witness Available

  /** The string the store holds for a status. */
  function Name(s: Status): string
  {
    match s
    case Available => "available"
    case Collected => "collected"
    case Archived => "archived"
    case Other(n) => n
  }

  /** Reading a status string back from the store. */
  function Parse(s: string): (r: RowStatus)
    ensures Name(r) == s
  {
    if s == "available" then Available
    else if s == "collected" then Collected
    else if s == "archived" then Archived
    else Other(s)
  }

  /** Every row status survives a trip through its stored string. */
  lemma ParseName(s: RowStatus)
    ensures Parse(Name(s)) == s
  {
  }

  /** Comparing row statuses is the same as comparing the strings the source compares. */
  lemma NameInjective(a: RowStatus, b: RowStatus)
    ensures Name(a) == Name(b) <==> a == b
  {
    ParseName(a);
    ParseName(b);
  }

  /** A row of lost_items (src/types/index.ts:1-12). */
  datatype LostItem = LostItem(
    id: string,
    description: string,
    location_found: string,
    collection_location: string,
    image_url: Option<string>,
    status: RowStatus,
    teacher_id: Option<string>,
    collected_at: Option<Time>,
    created_at: Time,
    updated_at: Time)

  datatype AccessLevel = SuperAdmin | Admin | User

  /** A teacher as the client sees it: the table row without password_hash
      (src/types/index.ts:14-22). */
  datatype Teacher = Teacher(
    id: string,
    username: string,
    full_name: string,
    email: Option<string>,
    access_level: AccessLevel,
    created_at: Time,
    updated_at: Time)
}
