/**
 * The ad manager of the dashboard: an in-memory ordered list of ads seeded
 * with three entries, and a modal form that creates an ad or edits the
 * current one. Nothing here is persisted.
 */
module Ads {
  import opened Optional
  import opened Records

  /** An ad. The ad format, `type` in the component, is `kind` here: `type` is a Dafny keyword. */
  datatype Ad = Ad(id: int, name: string, kind: string, status: string)

  function AdId(a: Ad): int { a.id }

  /** The three ads the component starts with. */
  function SeedAds(): seq<Ad> {
    [ Ad(1, "Summer Sale Banner", "Image", "Active"),
      Ad(2, "Product Showcase Video", "Video", "Paused"),
      Ad(3, "Holiday Promotion", "Rich Media", "Draft") ]
  }

  /** The seeded ads carry the ids 1, 2, 3 in that order, so they are pairwise distinct. */
  lemma SeedAdsDistinct()
    ensures |SeedAds()| == 3
    ensures forall i :: 0 <= i < 3 ==> SeedAds()[i].id == i + 1
    ensures DistinctIds(SeedAds(), AdId)
  {
  }

  /** The colour of the status badge in the ad table. */
  datatype Badge = Green | Yellow | Gray

  /** "Active" is green, "Paused" yellow, any other status (such as "Draft") gray. */
  function StatusBadge(status: string): (b: Badge)
    ensures b == Green <==> status == "Active"
    ensures b == Yellow <==> status == "Paused"
    ensures b == Gray <==> status != "Active" && status != "Paused"
  {
    if status == "Active" then Green
    else if status == "Paused" then Yellow
    else Gray
  }

  /** The ad a submit builds from the form: the current ad's id when editing, else the fresh id. */
  function SubmittedAd(current: Option<Ad>, freshId: int, name: string, kind: string, status: string): Ad {
    Ad(if current.Some? then current.value.id else freshId, name, kind, status)
  }

  /**
   * The list a submit leaves: in edit mode every ad carrying the current
   * ad's id is replaced by the submitted ad; in create mode the submitted ad
   * is appended.
   */
  function Submitted(ads: seq<Ad>, current: Option<Ad>, freshId: int, name: string, kind: string, status: string): (r: seq<Ad>)
    ensures current.None? ==>
      |r| == |ads| + 1 && r[..|ads|] == ads && r[|ads|] == Ad(freshId, name, kind, status)
    ensures current.Some? ==> |r| == |ads|
    ensures current.Some? ==>
      forall i :: 0 <= i < |r| ==>
        r[i] == if ads[i].id == current.value.id then Ad(ads[i].id, name, kind, status) else ads[i]
  {
    var newAd := SubmittedAd(current, freshId, name, kind, status);
    match current
    case Some(c) => ReplaceWhere(ads, AdId, c.id, _ => newAd)
    case None => ads + [newAd]
  }

  /** Submitting an edit of an ad that is no longer in the list changes nothing and appends nothing. */
  lemma StaleEditIsNoop(ads: seq<Ad>, current: Ad, freshId: int, name: string, kind: string, status: string)
    requires !HasId(ads, AdId, current.id)
    ensures Submitted(ads, Some(current), freshId, name, kind, status) == ads
  {
    var newAd := SubmittedAd(Some(current), freshId, name, kind, status);
    ReplaceAbsent(ads, AdId, current.id, _ => newAd);
  }

  /**
   * Edit submits keep the ids pairwise distinct; create submits do when the
   * fresh id is not already taken.
   */
  lemma SubmitKeepsDistinct(ads: seq<Ad>, current: Option<Ad>, freshId: int, name: string, kind: string, status: string)
    requires DistinctIds(ads, AdId)
    requires current.None? ==> !HasId(ads, AdId, freshId)
    ensures DistinctIds(Submitted(ads, current, freshId, name, kind, status), AdId)
  {
    var newAd := SubmittedAd(current, freshId, name, kind, status);
    match current
    case Some(c) =>
      ReplaceKeepsIds(ads, AdId, c.id, _ => newAd);
    case None =>
      DistinctAppend(ads, newAd, AdId);
  }

  /**
   * A submit is an id-keyed upsert of the submitted ad whenever the mode
   * agrees with the list: the edited ad is still present, or the fresh id is
   * not taken.
   */
  lemma SubmitIsUpsert(ads: seq<Ad>, current: Option<Ad>, freshId: int, name: string, kind: string, status: string)
    requires current.Some? ==> HasId(ads, AdId, current.value.id)
    requires current.None? ==> !HasId(ads, AdId, freshId)
    ensures Submitted(ads, current, freshId, name, kind, status)
         == Upsert(ads, AdId, SubmittedAd(current, freshId, name, kind, status))
  {
    var newAd := SubmittedAd(current, freshId, name, kind, status);
    var r := Submitted(ads, current, freshId, name, kind, status);
    var u := Upsert(ads, AdId, newAd);
    if current.Some? {
      assert u == ReplaceWhere(ads, AdId, current.value.id, _ => newAd);
      forall i | 0 <= i < |ads| ensures r[i] == u[i] {
      }
    }
  }

  /**
   * A submit is an upsert of the ad it builds exactly when the mode agrees
   * with the list. It differs when the edited ad has been removed (the upsert
   * would append it again) and when a create's fresh id is already taken (the
   * upsert would replace the ad holding it).
   */
  lemma {:induction false} SubmitIsUpsertIff(ads: seq<Ad>, current: Option<Ad>, freshId: int, name: string, kind: string, status: string)
    ensures Submitted(ads, current, freshId, name, kind, status)
            == Upsert(ads, AdId, SubmittedAd(current, freshId, name, kind, status))
        <==> (current.Some? ==> HasId(ads, AdId, current.value.id))
             && (current.None? ==> !HasId(ads, AdId, freshId))
  {
    var r := Submitted(ads, current, freshId, name, kind, status);
    var u := Upsert(ads, AdId, SubmittedAd(current, freshId, name, kind, status));
    match current
    case Some(c) =>
      if HasId(ads, AdId, c.id) {
        SubmitIsUpsert(ads, current, freshId, name, kind, status);
      } else {
        StaleEditIsNoop(ads, c, freshId, name, kind, status);
        assert |r| != |u|;
      }
    case None =>
      if !HasId(ads, AdId, freshId) {
        SubmitIsUpsert(ads, current, freshId, name, kind, status);
      } else {
        assert |r| != |u|;
      }
  }

  /** The ad manager's state, one field per piece of component state. */
  class AdManager {
    var ads: seq<Ad>
    var isModalOpen: bool
    var currentAd: Option<Ad>

    constructor ()
      ensures ads == SeedAds() && !isModalOpen && currentAd == None
    {
      ads := SeedAds();
      isModalOpen := false;
      currentAd := None;
    }

    /** Opening the form, on an ad to edit or on `None` to create one. */
    method OpenModal(ad: Option<Ad>)
      modifies this
      ensures currentAd == ad && isModalOpen
      ensures ads == old(ads)
    {
      currentAd := ad;
      isModalOpen := true;
    }

    /** Closing the form without submitting it. */
    method CloseModal()
      modifies this
      ensures currentAd == None && !isModalOpen
      ensures ads == old(ads)
    {
      currentAd := None;
      isModalOpen := false;
    }

    /**
     * Submitting the form, which is only on screen while the modal is open:
     * update or append the ad built from the form, then close the modal.
     */
    method HandleSubmit(freshId: int, name: string, kind: string, status: string)
      requires isModalOpen
      modifies this
      ensures ads == Submitted(old(ads), old(currentAd), freshId, name, kind, status)
      ensures currentAd == None && !isModalOpen
    {
      var newAd := SubmittedAd(currentAd, freshId, name, kind, status);
      if currentAd.Some? {
        ads := ReplaceWhere(ads, AdId, currentAd.value.id, _ => newAd);
      } else {
        ads := ads + [newAd];
      }
      CloseModal();
    }

    /** Deleting by id once the user has `confirmed` it; declining changes nothing. */
    method DeleteAd(id: int, confirmed: bool)
      modifies this
      ensures ads == if confirmed then Without(old(ads), AdId, id) else old(ads)
      ensures isModalOpen == old(isModalOpen) && currentAd == old(currentAd)
    {
      if confirmed {
        ads := Without(ads, AdId, id);
      }
    }
  }
}
