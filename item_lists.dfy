/** The two helpers that the admin dashboard and the student view both define:
    the status tab filter, which the dashboard applies to all its items and the
    student view to its filtered list, and the status badge colour, which is
    the same on both pages. */
module ItemLists {
  import opened Types
  import opened Seqs

  /** `getItemsByStatus(status)`: the items with that status, in list order. */
  function WithStatus(items: seq<LostItem>, s: RowStatus): (r: seq<LostItem>)
    ensures forall x :: x in r ==> x in items && x.status == s
    ensures forall i :: 0 <= i < |items| && items[i].status == s ==> items[i] in r
  {
    Filter(items, (x: LostItem) => x.status == s)
  }

  /** A status tab lists its items in the order of the full list. */
  lemma WithStatusKeepsOrder(items: seq<LostItem>, s: RowStatus)
    ensures IsSubsequence(WithStatus(items, s), items)
  {
    FilterIsSubsequence(items, (x: LostItem) => x.status == s);
  }

  /** Items whose status is none of the three the application writes. */
  function WithUnknownStatus(items: seq<LostItem>): seq<LostItem>
  {
    Filter(items, (x: LostItem) => !(x.status == Available || x.status == Collected || x.status == Archived))
  }

  /** The available, collected and archived tabs never hold more than the list. */
  lemma StatusCountsAtMostTotal(items: seq<LostItem>)
    ensures |WithStatus(items, Available)| + |WithStatus(items, Collected)| + |WithStatus(items, Archived)| <= |items|
  {
    ExclusiveCounts(items, (x: LostItem) => x.status == Available, (x: LostItem) => x.status == Collected,
                    (x: LostItem) => x.status == Archived);
  }

  /** With the items of unknown status, the three tabs account for every item exactly once. */
  lemma StatusCountsPartition(items: seq<LostItem>)
    ensures |WithStatus(items, Available)| + |WithStatus(items, Collected)| + |WithStatus(items, Archived)|
            + |WithUnknownStatus(items)| == |items|
  {
    CoveringCounts(items, (x: LostItem) => x.status == Available, (x: LostItem) => x.status == Collected,
                   (x: LostItem) => x.status == Archived,
                   (x: LostItem) => !(x.status == Available || x.status == Collected || x.status == Archived));
  }

  const AvailableClass := "bg-green-100 text-green-800 border-green-200"
  const CollectedClass := "bg-blue-100 text-blue-800 border-blue-200"
  const ArchivedClass := "bg-gray-100 text-gray-800 border-gray-200"

  /** `getStatusColor`: defined for every status; anything that is neither
      available nor collected is drawn like an archived item. */
  function StatusColor(s: RowStatus): (c: string)
    ensures c == AvailableClass <==> s == Available
    ensures c == CollectedClass <==> s == Collected
    ensures c == ArchivedClass <==> !(s == Available || s == Collected)
  {
    match s
    case Available => AvailableClass
    case Collected => CollectedClass
    case Archived => ArchivedClass
    case Other(_) => ArchivedClass
  }
}
