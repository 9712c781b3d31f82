# Ad dashboard record stores, modelled in Dafny

The ad dashboard is a single-page React app. Its only behaviour beyond
rendering lives in two components:

- **CampaignCreator** keeps an ordered list of campaigns. It has a form of
  five draft fields and an optional editing target. The list is mirrored
  into one browser-storage slot (`campaigns`) and read back when the
  component mounts.
- **AdManager** keeps an ordered list of ads, seeded with three entries. A
  modal form creates a new ad or edits the current one. Deleting an ad asks
  the user to confirm first.

The model has four modules:

- `Records` (records.dfy) holds the list transforms both components use,
  written once over any record type with an integer id. `Without` is the
  `filter` by id. `ReplaceWhere` is the `map` that replaces the records
  carrying an id. The lemmas about them cover order, idempotence, absent ids
  and distinct ids. `Upsert` is a reference definition of "replace in place
  if present, else append". It is used to show where the components' submit
  agrees with an upsert and where it does not.
- `Campaigns` (campaigns.dfy) has the `Campaign` record and the pure
  `Submitted` list transform. Its class `CampaignCreator` has one field per
  piece of component state, plus `storage` for the slot.
- `Ads` (ads.dfy) has the `Ad` record, the seeded list, the status badge and
  the pure `Submitted` list transform. Its class `AdManager` has the fields
  `ads`, `isModalOpen` and `currentAd`.
- `Optional` (optional.dfy) has the `Option` type, used for the nullable
  state fields.

Each event handler is a method that updates the state as one atomic step.
Inputs from outside the component become parameters:

- the `Date.now()` id becomes `freshId`;
- the `window.confirm` answer becomes `confirmed`;
- the three `FormData` values become `name`, `kind` and `status`;
- the slot's contents at mount become `stored`.

The ad field `type` is called `kind`, because `type` is a Dafny keyword.

Both submits decide by the form's mode, not by whether the id is in the
list. The store is sometimes described as an upsert, but the code differs
from one in two cases:

- If the edited record was deleted while the form was open, an edit submit
  changes nothing. Its `map` never appends.
- A create submit always appends, even if its fresh id is already taken.

The model follows the code. `Ads.SubmitIsUpsertIff` and
`Campaigns.SubmitIsUpsertIff` prove, for all inputs, that a submit equals an
upsert of the record it builds if and only if the mode matches the list: the
edited record is still present, or the fresh id is not taken.

## Model

| member | source | states |
|---|---|---|
| `Records.Without` | src/components/CampaignCreator.tsx:77-79 | Every kept record is from the input and has a different id, and every input record with a different id is kept. No kept record carries the deleted id, and the list never grows. Occurrence counts and order follow from `WithoutMultiset` and `WithoutConcat`. |
| `Records.WithoutMultiset` | src/components/CampaignCreator.tsx:78 | Every record whose id differs keeps its number of occurrences, and records with the deleted id occur zero times. |
| `Records.WithoutConcat` | src/components/AdManager.tsx:51 | Filtering distributes over concatenation, so the kept records stay in their relative order. |
| `Records.WithoutAbsent` | src/components/CampaignCreator.tsx:78 | Deleting an id that no record carries leaves the list exactly unchanged. |
| `Records.WithoutIdempotent` | src/components/CampaignCreator.tsx:78 | Deleting the same id twice gives the same list as deleting it once. |
| `Records.WithoutKeepsDistinct` | src/components/CampaignCreator.tsx:77-78 | A delete keeps pairwise-distinct ids distinct. |
| `Records.WithoutDistinctLength` | src/components/AdManager.tsx:49-53 | With distinct ids, a delete removes exactly one record if the id is present and none otherwise. |
| `Records.ReplaceWhere` | src/components/CampaignCreator.tsx:38-42 | The length is kept. Every position whose record carries the id holds the replacement. Every other position is unchanged. |
| `Records.ReplaceAbsent` | src/components/AdManager.tsx:42 | Replacing an id that no record carries leaves the list exactly unchanged. The map never appends. |
| `Records.ReplaceKeepsIds` | src/components/CampaignCreator.tsx:38-42 | A replacement that keeps the id keeps every position's id. So the ids present and their distinctness are both unchanged. |
| `Records.DistinctAppend` | src/components/CampaignCreator.tsx:55 | An append keeps ids distinct if and only if they were distinct before and the new id was not taken. |
| `Records.Upsert` | src/components/AdManager.tsx:41-45 | Reference upsert. It keeps the length when the id is present and grows by one otherwise, and the upserted record is always in the result. |
| `Records.UpsertKeepsDistinct` | src/components/AdManager.tsx:41-45 | Reference upsert keeps distinct ids distinct. The ids present gain exactly the upserted record's id. |
| `Campaigns.Submitted` | src/components/CampaignCreator.tsx:36-56 | Create mode appends exactly one campaign with the fresh id and the draft's fields, and leaves earlier campaigns unchanged and in order. Edit mode keeps the length. Each campaign with the target's id gets the draft's five fields but keeps its own id. Every other campaign is unchanged. |
| `Campaigns.StaleEditIsNoop` | src/components/CampaignCreator.tsx:38-42 | An edit submit whose target id is no longer in the list returns the list unchanged. Nothing is appended. |
| `Campaigns.EditAfterDeleteIsNoop` | src/components/CampaignCreator.tsx:77-79 | Deleting the campaign being edited turns the later edit submit into a no-op on the list. |
| `Campaigns.SubmitKeepsDistinct` | src/components/CampaignCreator.tsx:38-55 | An edit submit keeps ids distinct. A create submit does too, if the fresh id is not already present. |
| `Campaigns.SubmitIsUpsertIff` | src/components/CampaignCreator.tsx:36-55 | For all inputs, a submit equals the reference upsert of the campaign it builds (the draft under the target's id or the fresh id) if and only if the target is still present (edit mode) or the fresh id is not taken (create mode). |
| `Campaigns.CampaignCreator.Mount` | src/components/CampaignCreator.tsx:13-32 | At mount the list is the stored list if the slot holds a value, and `[]` otherwise. The draft is empty, there is no target, and the slot holds the list. |
| `Campaigns.CampaignCreator.ResetForm` | src/components/CampaignCreator.tsx:60-66 | All five draft fields become empty. The list, the target and the slot are unchanged. |
| `Campaigns.CampaignCreator.HandleSubmit` | src/components/CampaignCreator.tsx:34-58 | The new list is `Submitted` of the old list, target and draft. Afterwards the draft is empty, the target is cleared, and the slot holds the new list. |
| `Campaigns.CampaignCreator.EditCampaign` | src/components/CampaignCreator.tsx:68-75 | The campaign becomes the target and its five fields are copied into the draft. The list and the slot are unchanged. |
| `Campaigns.CampaignCreator.DeleteCampaign` | src/components/CampaignCreator.tsx:77-79 | The new list is the old list filtered by id, and the slot holds it. The target and the draft are unchanged. |
| `Campaigns.CampaignCreator.CancelEdit` | src/components/CampaignCreator.tsx:166-169 | The target is cleared and the draft is emptied. The list and the slot are unchanged. |
| `Campaigns.Remount` | src/components/CampaignCreator.tsx:21-32 | A new session mounted over the slot an earlier session left behind starts with that session's list (save-then-load round trip). |
| `Ads.SeedAdsDistinct` | src/components/AdManager.tsx:12-16 | The seed list has three ads with ids 1, 2 and 3 in that order, so the ids are pairwise distinct. |
| `Ads.StatusBadge` | src/components/AdManager.tsx:82-86 | The badge is green exactly when the status is "Active" and yellow exactly when it is "Paused". Any other status, "Draft" included, is gray. |
| `Ads.Submitted` | src/components/AdManager.tsx:30-47 | Create mode appends exactly one ad with the fresh id and the submitted fields, and leaves earlier ads unchanged. Edit mode keeps the length. Each ad with the current ad's id becomes an ad with that id and the submitted name, type and status. Every other ad is unchanged. |
| `Ads.StaleEditIsNoop` | src/components/AdManager.tsx:41-42 | An edit submit for an ad that is no longer in the list returns the list unchanged. Nothing is appended. |
| `Ads.SubmitKeepsDistinct` | src/components/AdManager.tsx:35-45 | An edit submit keeps ids distinct. A create submit does too, if the fresh id is absent. |
| `Ads.SubmitIsUpsert` | src/components/AdManager.tsx:35-45 | When the edited ad is still present, or the fresh id is not taken, a submit equals the reference upsert of the submitted ad. |
| `Ads.SubmitIsUpsertIff` | src/components/AdManager.tsx:35-45 | For all inputs, a submit equals the reference upsert of the ad it builds if and only if the edited ad is still present (edit mode) or the fresh id is not taken (create mode). |
| `Ads.AdManager.constructor` | src/components/AdManager.tsx:12-18 | The initial state is the three seeded ads, a closed modal and no current ad. |
| `Ads.AdManager.OpenModal` | src/components/AdManager.tsx:20-23 | Sets the current ad (`None` to create) and opens the modal. The list is unchanged. |
| `Ads.AdManager.CloseModal` | src/components/AdManager.tsx:25-28 | Clears the current ad and closes the modal. The list is unchanged. |
| `Ads.AdManager.HandleSubmit` | src/components/AdManager.tsx:30-47 | Only callable while the modal is open, because the form is only rendered then. The new list is `Submitted` of the old list and current ad. Afterwards the modal is closed and there is no current ad. |
| `Ads.AdManager.DeleteAd` | src/components/AdManager.tsx:49-53 | A confirmed delete filters the list by id. An unconfirmed one leaves it unchanged. The modal state is untouched either way. |

## Left out

- Rendering: the JSX markup and styling of both components, `CampaignList`
  (src/components/CampaignCreator.tsx:182-229), the dashboard, the layout
  and the routes carry no behaviour. Of the status badge only its colour
  is modelled, not its style classes.
- Analytics: the charts are built from hard-coded arrays and drawn by a
  charting library. The active-slice shape is floating-point trigonometry.
- React hook semantics are not modelled. That covers batching of state
  updates, the order in which effects are scheduled, and the double
  invocation of effects in development mode. Each handler is one atomic
  update, and the save effect is folded into every method that changes the
  campaign list.
- Browser storage and JSON: the slot holds the campaign list itself, so
  encoding and decoding are the identity. A slot that holds no value or an
  empty string is `None`. A slot whose text does not parse to an array of
  campaigns (invalid JSON, or valid JSON such as `null`, `{}` or `5`) makes
  the source fail at mount or at the first render of the list. The model
  does not represent that case.
- Ads are not persisted, as in the source.
- Browser validation of the `required` form fields is not modelled. The
  submit methods accept any strings.
- Ids come from the clock, so they are assumed fresh but not guaranteed
  fresh. The distinct-ids lemmas therefore take "the fresh id is not
  present" as a hypothesis.
