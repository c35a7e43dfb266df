/** The milestone editor of the profile page. Adding goes through the
    server: the form is sent, the `saving` flag is raised while the request
    is outstanding, and the form is cleared only when the server accepted
    it. Deleting asks for confirmation first and removes the milestone from
    the list only once the server has deleted it. */
module MilestoneManager {
  import opened Js
  import opened Types

  const DefaultKind := "Anniversary"
  const SaveFailedPrefix := "保存失败: "
  const DeleteFailedPrefix := "删除失败: "

  /** The body of `createMilestone({title, date, type})`. */
  datatype MilestoneRequest = MilestoneRequest(title: string, date: string, kind: string)

  /** `milestones.filter(m => m.id !== id)` */
  function WithoutId(milestones: seq<Milestone>, id: string): (r: seq<Milestone>)
    ensures |r| <= |milestones|
  {
    if milestones == [] then []
    else (if milestones[0].id != id then [milestones[0]] else []) + WithoutId(milestones[1..], id)
  }

  /** Every milestone with that id goes, every other one stays. */
  lemma {:induction false} WithoutIdMembers(milestones: seq<Milestone>, id: string, m: Milestone)
    ensures m in WithoutId(milestones, id) <==> m in milestones && m.id != id
  {
    if milestones != [] {
      WithoutIdMembers(milestones[1..], id, m);
      assert milestones == [milestones[0]] + milestones[1..];
    }
  }

  /** Removal works piecewise, so the remaining milestones keep their order. */
  lemma {:induction false} WithoutIdAppend(a: seq<Milestone>, b: seq<Milestone>, id: string)
    ensures WithoutId(a + b, id) == WithoutId(a, id) + WithoutId(b, id)
  {
    if a == [] {
      assert a + b == b;
    } else {
      var head := if a[0].id != id then [a[0]] else [];
      assert (a + b)[0] == a[0] && (a + b)[1..] == a[1..] + b;
      calc {
        WithoutId(a + b, id);
        head + WithoutId(a[1..] + b, id);
        { WithoutIdAppend(a[1..], b, id); }
        head + (WithoutId(a[1..], id) + WithoutId(b, id));
        (head + WithoutId(a[1..], id)) + WithoutId(b, id);
      }
    }
  }

  /** A list without that id is left as it is. */
  lemma {:induction false} WithoutAbsentId(milestones: seq<Milestone>, id: string)
    requires forall i :: 0 <= i < |milestones| ==> milestones[i].id != id
    ensures WithoutId(milestones, id) == milestones
  {
    if milestones != [] {
      WithoutAbsentId(milestones[1..], id);
      assert milestones == [milestones[0]] + milestones[1..];
    }
  }

  datatype DeleteOutcome =
    | NotConfirmed
    | DeleteFailed(alert: string)
    | Deleted(updated: seq<Milestone>)

  /** `handleDelete(id)`: nothing without confirmation; after it, the
      outcome of `deleteMilestone(id)` decides. */
  function Delete(milestones: seq<Milestone>, id: string, confirmed: bool, succeeded: bool, error: string): DeleteOutcome {
    if !confirmed then NotConfirmed
    else if succeeded then Deleted(WithoutId(milestones, id))
    else DeleteFailed(DeleteFailedPrefix + error)
  }

  /** The list is updated only after confirmation and a successful delete,
      and then loses exactly the milestones with that id. */
  lemma DeleteOutcomes(milestones: seq<Milestone>, id: string, confirmed: bool, succeeded: bool, error: string)
    ensures var d := Delete(milestones, id, confirmed, succeeded, error);
      && (d.Deleted? <==> confirmed && succeeded)
      && (d.Deleted? ==> forall m :: m in d.updated <==> m in milestones && m.id != id)
  {
    var d := Delete(milestones, id, confirmed, succeeded, error);
    if d.Deleted? {
      forall m ensures m in d.updated <==> m in milestones && m.id != id {
        WithoutIdMembers(milestones, id, m);
      }
    }
  }

  /** The component's form state. */
  class MilestoneForm {
    var isAdding: bool
    var title: string
    var date: string
    var kind: string
    var saving: bool

    constructor ()
      ensures !isAdding && title == "" && date == "" && kind == DefaultKind && !saving
    {
      isAdding := false;
      title := "";
      date := "";
      kind := DefaultKind;
      saving := false;
    }

    /** The add button: opens or closes the form. */
    method ToggleAdding()
      modifies this
      ensures isAdding == !old(isAdding)
      ensures title == old(title) && date == old(date) && kind == old(kind) && saving == old(saving)
    {
      isAdding := !isAdding;
    }

    /** `handleAdd` up to the request: nothing without a title and a date;
        otherwise `saving` is raised and the form is sent. */
    method BeginAdd() returns (request: Option<MilestoneRequest>)
      modifies this
      ensures (old(title) == "" || old(date) == "") ==> request == None && saving == old(saving)
      ensures (old(title) != "" && old(date) != "") ==>
        request == Some(MilestoneRequest(old(title), old(date), old(kind))) && saving
      ensures title == old(title) && date == old(date) && kind == old(kind) && isAdding == old(isAdding)
    {
      if title == "" || date == "" {
        return None;
      }
      saving := true;
      request := Some(MilestoneRequest(title, date, kind));
    }

    /** `handleAdd` after the request: on success the parent gets a copy of
        its list and the form is reset and closed; on failure the parent
        gets nothing, the user an alert, and the form keeps its fields.
        `saving` is lowered either way. */
    method FinishAdd(milestones: seq<Milestone>, succeeded: bool, error: string)
      returns (update: Option<seq<Milestone>>, alert: Option<string>)
      requires saving
      modifies this
      ensures !saving
      ensures succeeded ==>
        update == Some(milestones) && alert == None && title == "" && date == "" && kind == DefaultKind && !isAdding
      ensures !succeeded ==>
        && update == None && alert == Some(SaveFailedPrefix + error)
        && title == old(title) && date == old(date) && kind == old(kind) && isAdding == old(isAdding)
    {
      update, alert := None, None;
      if succeeded {
        update := Some(milestones);
        title := "";
        date := "";
        kind := DefaultKind;
        isAdding := false;
      } else {
        alert := Some(SaveFailedPrefix + error);
      }
      saving := false;
    }
  }
}
