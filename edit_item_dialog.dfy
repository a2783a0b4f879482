/** The edit dialog for one lost item (src/components/EditItemDialog.tsx):
    the form starts from the item's fields, and submitting sends an update
    whose keys depend on the form and on the item as the dialog was opened. */
module EditItemDialog {
  import opened Types
  import opened ItemStore

  /** The form's fields; an image_url of "" is the field left blank. */
  datatype FormData = FormData(
    description: string,
    location_found: string,
    collection_location: string,
    status: RowStatus,
    image_url: string)

  /** The form's default values: the item's own fields, with a missing (or
      empty) image_url shown as the blank field. */
  function DefaultValues(item: LostItem): (f: FormData)
    ensures f.image_url == "" <==> item.image_url.None? || item.image_url.value == ""
    ensures f.image_url != "" ==> item.image_url == Some(f.image_url)
  {
    FormData(item.description, item.location_found, item.collection_location, item.status,
             if item.image_url.Some? then item.image_url.value else "")
  }

  /** The update the dialog sends for `data`, given the item it was opened
      with. The clock is read twice: once for updated_at, once for collected_at. */
  function UpdatePatch(item: LostItem, data: FormData, updatedAt: Time, collectedAt: Time): Patch
  {
    Patch(Some(data.description), Some(data.location_found), Some(data.collection_location),
          Some(data.status),
          if data.image_url != "" then Some(data.image_url) else None,
          if data.status == Collected && item.status != Collected then Some(collectedAt) else None,
          Some(updatedAt))
  }

  /** The update always carries the four form fields and a fresh updated_at. */
  lemma PatchCarriesForm(item: LostItem, data: FormData, updatedAt: Time, collectedAt: Time, stored: LostItem)
    ensures var r := ApplyPatch(stored, UpdatePatch(item, data, updatedAt, collectedAt));
      r.description == data.description && r.location_found == data.location_found &&
      r.collection_location == data.collection_location && r.status == data.status &&
      r.updated_at == updatedAt
  {
  }

  /** A blank image field leaves the stored image URL as it was; a filled one replaces it. */
  lemma ImageUrlOnlyWhenFilled(item: LostItem, data: FormData, updatedAt: Time, collectedAt: Time, stored: LostItem)
    ensures var r := ApplyPatch(stored, UpdatePatch(item, data, updatedAt, collectedAt));
      r.image_url == if data.image_url == "" then stored.image_url else Some(data.image_url)
  {
  }

  /** collected_at is in the update exactly on a transition into collected,
      judged against the status the item had when the dialog opened. */
  lemma CollectedAtOnlyOnTransition(item: LostItem, data: FormData, updatedAt: Time, collectedAt: Time)
    ensures var p := UpdatePatch(item, data, updatedAt, collectedAt);
      p.collected_at.Some? <==> data.status == Collected && item.status != Collected
    ensures var p := UpdatePatch(item, data, updatedAt, collectedAt);
      p.collected_at.Some? ==> p.collected_at.value == collectedAt
  {
  }

  /** Saving an already-collected item as collected again keeps its collected_at. */
  lemma ResaveCollectedKeepsCollectedAt(item: LostItem, data: FormData, updatedAt: Time, collectedAt: Time, stored: LostItem)
    requires item.status == Collected && data.status == Collected
    ensures ApplyPatch(stored, UpdatePatch(item, data, updatedAt, collectedAt)).collected_at == stored.collected_at
  {
  }

  /** Moving an item to any status but collected neither sets nor clears collected_at. */
  lemma NonCollectedStatusKeepsCollectedAt(item: LostItem, data: FormData, updatedAt: Time, collectedAt: Time, stored: LostItem)
    requires data.status != Collected
    ensures ApplyPatch(stored, UpdatePatch(item, data, updatedAt, collectedAt)).collected_at == stored.collected_at
  {
  }

  /** Submitting the untouched defaults changes nothing but updated_at. */
  lemma DefaultsResaveOnlyStamps(item: LostItem, updatedAt: Time, collectedAt: Time)
    ensures ApplyPatch(item, UpdatePatch(item, DefaultValues(item), updatedAt, collectedAt))
         == item.(updated_at := updatedAt)
  {
  }

  /** The transition check reads the dialog's copy of the item, not the stored
      row: if the row was collected meanwhile, its collected_at is overwritten. */
  lemma StaleCopyOverwritesCollectedAt(item: LostItem, data: FormData, updatedAt: Time, collectedAt: Time, stored: LostItem)
    requires item.status == Available && data.status == Collected
    requires stored.status == Collected && stored.collected_at.Some? && stored.collected_at.value != collectedAt
    ensures ApplyPatch(stored, UpdatePatch(item, data, updatedAt, collectedAt)).collected_at != stored.collected_at
  {
  }

  class Dialog {
    /** The item the dialog was opened with. */
    const item: LostItem
    var open: bool
    var isSubmitting: bool

    constructor (item: LostItem, open: bool)
      ensures this.item == item && this.open == open && !isSubmitting
    {
      this.item := item;
      this.open := open;
      isSubmitting := false;
    }

    /** `onSubmit`: builds the update, sends it for the row `stored` (the
        store's current row with this id), and on success hands the updated
        row to onItemUpdated (the `notified` result) and closes the dialog.
        On a store error nothing is handed on and the dialog stays as it was. */
    method OnSubmit(data: FormData, updatedAt: Time, collectedAt: Time, stored: LostItem, storeFails: bool)
      returns (sent: Patch, notified: Option<LostItem>)
      requires stored.id == item.id
      modifies this
      ensures sent == UpdatePatch(item, data, updatedAt, collectedAt)
      ensures notified == if storeFails then None else Some(ApplyPatch(stored, sent))
      ensures open == (old(open) && storeFails)
      ensures !isSubmitting
    {
      isSubmitting := true;
      var updateData := Patch(Some(data.description), Some(data.location_found),
                              Some(data.collection_location), Some(data.status),
                              None, None, Some(updatedAt));
      if data.image_url != "" {
        updateData := updateData.(image_url := Some(data.image_url));
      }
      if data.status == Collected && item.status != Collected {
        updateData := updateData.(collected_at := Some(collectedAt));
      }
      sent := updateData;
      if storeFails {
        notified := None;
      } else {
        notified := Some(ApplyPatch(stored, updateData));
        open := false;
      }
      isSubmitting := false;
    }
  }
}
