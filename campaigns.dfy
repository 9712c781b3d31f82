/**
 * The campaign form of the dashboard: an ordered list of campaigns kept in
 * one browser-storage slot, a five-field draft bound to the form inputs, and
 * an optional editing target that switches the form between create and edit.
 */
module Campaigns {
  import opened Optional
  import opened Records

  datatype Campaign = Campaign(
    id: int,
    name: string,
    startDate: string,
    endDate: string,
    budget: string,
    targetAudience: string)

  /** The five form fields, in the order the form shows them. */
  datatype Draft = Draft(
    name: string,
    startDate: string,
    endDate: string,
    budget: string,
    targetAudience: string)

  const EmptyDraft := Draft("", "", "", "", "")

  function CampaignId(c: Campaign): int { c.id }

  /** The form fields of a campaign. */
  function DraftOf(c: Campaign): Draft {
    Draft(c.name, c.startDate, c.endDate, c.budget, c.targetAudience)
  }

  /** `c` spread with the draft's fields: everything but the id comes from `d`. */
  function Overwritten(c: Campaign, d: Draft): Campaign {
    c.(name := d.name, startDate := d.startDate, endDate := d.endDate,
       budget := d.budget, targetAudience := d.targetAudience)
  }

  /** A new campaign made of the draft and a fresh id. */
  function Created(freshId: int, d: Draft): Campaign {
    Campaign(freshId, d.name, d.startDate, d.endDate, d.budget, d.targetAudience)
  }

  /**
   * The list a submit leaves: in edit mode every campaign carrying the
   * target's id takes the draft and keeps its own id; in create mode one
   * campaign made of the draft and `freshId` is appended.
   */
  function Submitted(campaigns: seq<Campaign>, editing: Option<Campaign>, d: Draft, freshId: int): (r: seq<Campaign>)
    ensures editing.None? ==>
      |r| == |campaigns| + 1 && r[..|campaigns|] == campaigns &&
      r[|campaigns|].id == freshId && DraftOf(r[|campaigns|]) == d
    ensures editing.Some? ==> |r| == |campaigns|
    ensures editing.Some? ==>
      forall i :: 0 <= i < |r| ==>
        r[i].id == campaigns[i].id &&
        if campaigns[i].id == editing.value.id then DraftOf(r[i]) == d else r[i] == campaigns[i]
  {
    match editing
    case Some(target) => ReplaceWhere(campaigns, CampaignId, target.id, c => Overwritten(c, d))
    case None => campaigns + [Created(freshId, d)]
  }

  /** Submitting an edit whose target no longer is in the list changes nothing and appends nothing. */
  lemma StaleEditIsNoop(campaigns: seq<Campaign>, target: Campaign, d: Draft, freshId: int)
    requires !HasId(campaigns, CampaignId, target.id)
    ensures Submitted(campaigns, Some(target), d, freshId) == campaigns
  {
    ReplaceAbsent(campaigns, CampaignId, target.id, c => Overwritten(c, d));
  }

  /** Deleting the campaign being edited turns the later edit submit into a no-op. */
  lemma EditAfterDeleteIsNoop(campaigns: seq<Campaign>, target: Campaign, d: Draft, freshId: int)
    ensures Submitted(Without(campaigns, CampaignId, target.id), Some(target), d, freshId)
         == Without(campaigns, CampaignId, target.id)
  {
    StaleEditIsNoop(Without(campaigns, CampaignId, target.id), target, d, freshId);
  }

  /**
   * Edit submits keep the ids pairwise distinct; create submits do when the
   * fresh id is not already taken.
   */
  lemma SubmitKeepsDistinct(campaigns: seq<Campaign>, editing: Option<Campaign>, d: Draft, freshId: int)
    requires DistinctIds(campaigns, CampaignId)
    requires editing.None? ==> !HasId(campaigns, CampaignId, freshId)
    ensures DistinctIds(Submitted(campaigns, editing, d, freshId), CampaignId)
  {
    match editing
    case Some(target) =>
      ReplaceKeepsIds(campaigns, CampaignId, target.id, c => Overwritten(c, d));
    case None =>
      DistinctAppend(campaigns, Created(freshId, d), CampaignId);
  }

  /**
   * A submit is an upsert of the campaign it builds (the draft under the
   * target's id, or under the fresh id) exactly when the mode agrees with the
   * list. It differs when the target has been removed (the upsert would
   * append it again) and when a create's fresh id is already taken (the
   * upsert would overwrite the campaign holding it).
   */
  lemma {:induction false} SubmitIsUpsertIff(campaigns: seq<Campaign>, editing: Option<Campaign>, d: Draft, freshId: int)
    ensures Submitted(campaigns, editing, d, freshId)
            == Upsert(campaigns, CampaignId, Created(if editing.Some? then editing.value.id else freshId, d))
        <==> (editing.Some? ==> HasId(campaigns, CampaignId, editing.value.id))
             && (editing.None? ==> !HasId(campaigns, CampaignId, freshId))
  {
    var r := Submitted(campaigns, editing, d, freshId);
    var x := Created(if editing.Some? then editing.value.id else freshId, d);
    var u := Upsert(campaigns, CampaignId, x);
    match editing
    case Some(t) =>
      if HasId(campaigns, CampaignId, t.id) {
        assert u == ReplaceWhere(campaigns, CampaignId, t.id, _ => x);
        forall i | 0 <= i < |campaigns| ensures r[i] == u[i] {
          if campaigns[i].id == t.id {
            assert Overwritten(campaigns[i], d) == x;
          }
        }
      } else {
        StaleEditIsNoop(campaigns, t, d, freshId);
        assert |r| != |u|;
      }
    case None =>
      if HasId(campaigns, CampaignId, freshId) {
        assert |r| != |u|;
      }
  }

  /** The campaign form's state, one field per piece of component state. */
  class CampaignCreator {
    var campaigns: seq<Campaign>
    var editingCampaign: Option<Campaign>
    var campaignName: string
    var startDate: string
    var endDate: string
    var budget: string
    var targetAudience: string
    /** The storage slot `campaigns`; `None` when it holds no value (absent or empty). */
    var storage: Option<seq<Campaign>>

    /** The save effect has run since the list last changed: the slot holds the list. */
    predicate Valid()
      reads this
    {
      storage == Some(campaigns)
    }

    function CurrentDraft(): Draft
      reads this
    {
      Draft(campaignName, startDate, endDate, budget, targetAudience)
    }

    /**
     * Mounting: start from `[]`, replace it by the stored list when the slot
     * holds a value, then save the list back to the slot.
     */
    constructor Mount(stored: Option<seq<Campaign>>)
      ensures Valid()
      ensures campaigns == if stored.Some? then stored.value else []
      ensures editingCampaign == None && CurrentDraft() == EmptyDraft
    {
      campaigns := [];
      editingCampaign := None;
      campaignName, startDate, endDate, budget, targetAudience := "", "", "", "", "";
      if stored.Some? {
        campaigns := stored.value;
      }
      storage := Some(campaigns);
    }

    /** Clears the five draft fields and nothing else. */
    method ResetForm()
      modifies this
      ensures CurrentDraft() == EmptyDraft
      ensures campaigns == old(campaigns) && editingCampaign == old(editingCampaign)
      ensures storage == old(storage)
    {
      campaignName, startDate, endDate, budget, targetAudience := "", "", "", "", "";
    }

    /**
     * Submitting the form: update or append according to the mode, leave
     * create mode with an empty draft, and save the list.
     */
    method HandleSubmit(freshId: int)
      requires Valid()
      modifies this
      ensures Valid()
      ensures campaigns == Submitted(old(campaigns), old(editingCampaign), old(CurrentDraft()), freshId)
      ensures editingCampaign == None && CurrentDraft() == EmptyDraft
    {
      var d := CurrentDraft();
      if editingCampaign.Some? {
        campaigns := ReplaceWhere(campaigns, CampaignId, editingCampaign.value.id, c => Overwritten(c, d));
        editingCampaign := None;
      } else {
        campaigns := campaigns + [Created(freshId, d)];
      }
      ResetForm();
      storage := Some(campaigns);
    }

    /** Picking a campaign for editing: copy its fields into the draft and make it the target. */
    method EditCampaign(c: Campaign)
      modifies this
      ensures editingCampaign == Some(c) && CurrentDraft() == DraftOf(c)
      ensures campaigns == old(campaigns) && storage == old(storage)
    {
      editingCampaign := Some(c);
      campaignName, startDate, endDate, budget, targetAudience :=
        c.name, c.startDate, c.endDate, c.budget, c.targetAudience;
    }

    /** Deleting by id: drop every campaign with that id and save the list. */
    method DeleteCampaign(id: int)
      requires Valid()
      modifies this
      ensures Valid()
      ensures campaigns == Without(old(campaigns), CampaignId, id)
      ensures editingCampaign == old(editingCampaign) && CurrentDraft() == old(CurrentDraft())
    {
      campaigns := Without(campaigns, CampaignId, id);
      storage := Some(campaigns);
    }

    /** The "Cancel Edit" button: back to create mode with an empty draft, list untouched. */
    method CancelEdit()
      modifies this
      ensures editingCampaign == None && CurrentDraft() == EmptyDraft
      ensures campaigns == old(campaigns) && storage == old(storage)
    {
      editingCampaign := None;
      ResetForm();
    }
  }

  /** A session mounted over the slot another session left behind starts with that session's list. */
  method Remount(session: CampaignCreator) returns (restored: seq<Campaign>)
    requires session.Valid()
    ensures restored == session.campaigns
  {
    var next := new CampaignCreator.Mount(session.storage);
    restored := next.campaigns;
  }
}
