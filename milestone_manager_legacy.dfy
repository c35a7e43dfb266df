/** The earlier, local-only milestone editor: a new milestone is appended
    to the list directly, and deleting filters it out without asking. */
module MilestoneManagerLegacy {
  import opened Text
  import opened Js
  import opened Calendar
  import opened Types
  import opened MilestoneManager

  /** The form fields; a date input holds either nothing or a date. */
  class LegacyMilestoneForm {
    var newTitle: string
    var newDate: Option<CivilDate>
    var newKind: MilestoneKind

    constructor ()
      ensures newTitle == "" && newDate == None && newKind == Anniversary
    {
      newTitle := "";
      newDate := None;
      newKind := Anniversary;
    }

    /** `handleAdd`: nothing without a title and a date; otherwise the new
        milestone, with id `Date.now().toString()`, is appended after the
        unchanged old list, and title and date are cleared while the chosen
        kind is kept. */
    method HandleAdd(milestones: seq<Milestone>, now: nat) returns (update: Option<seq<Milestone>>)
      modifies this
      ensures (old(newTitle) == "" || old(newDate) == None) ==>
        update == None && newTitle == old(newTitle) && newDate == old(newDate)
      ensures (old(newTitle) != "" && old(newDate) != None) ==>
        && update == Some(milestones + [Milestone(NatToString(now), old(newTitle), old(newDate).value, old(newKind))])
        && newTitle == "" && newDate == None
      ensures newKind == old(newKind)
    {
      if newTitle == "" || newDate == None {
        return None;
      }
      var item := Milestone(NatToString(now), newTitle, newDate.value, newKind);
      update := Some(milestones + [item]);
      newTitle := "";
      newDate := None;
    }
  }

  /** `handleDelete(id)` */
  function HandleDelete(milestones: seq<Milestone>, id: string): seq<Milestone> {
    WithoutId(milestones, id)
  }

  /** Appending leaves the old milestones unchanged and in order, and
      deleting the id of a milestone just appended with a fresh id gives the
      old list back. */
  lemma AddThenDelete(milestones: seq<Milestone>, item: Milestone)
    requires forall i :: 0 <= i < |milestones| ==> milestones[i].id != item.id
    ensures (milestones + [item])[..|milestones|] == milestones
    ensures HandleDelete(milestones + [item], item.id) == milestones
  {
    WithoutIdAppend(milestones, [item], item.id);
    WithoutAbsentId(milestones, item.id);
    assert WithoutId([item], item.id) == [];
  }
}
