# portfolio-cms: the three form procedures, modelled and proved in Dafny

portfolio-cms is a web admin for a portfolio site. Users edit their portfolio
content in browser forms. Each form writes to a document database. This
project models the three parts of the admin that contain sequential logic:

- **The Experience form** (`experience_store.dfy`, `experience_form.dfy`).
  - It opens with one row per loaded Experience document.
  - On submit, it reconciles the edited rows with the remote collection. First
    it looks up the account. Then it deletes every loaded id that no row
    carries. Then it issues one update or create per row, in row order.
  - It stops at the first call that fails and raises one error notification.
    Writes made before the failure stay in place.
  - After each create, it writes the new id back into the live rows.
  - The remote collection is a map from id to stored record. Every call is
    appended to a log. A call fails when the environment makes it fail at its
    log position, or when the store refuses it:
    - a delete or an update of a missing id;
    - a create under an id already taken.
  - The submit is a class method proved equal to `Reconcile`. `Reconcile` is a
    three-phase function:
    - `Plan`: the calls the submit intends to make;
    - `Exec`: runs those calls until one fails;
    - `Settle`: the log, the notifications and the patched rows that result.
  - The lemmas state what the source promises about each phase.
- **The Information form** (`information.dfy`):
  - the length validator;
  - reading the six social usernames out of the stored social list;
  - writing them back as six JSON-like strings;
  - choosing between a fresh upload and the kept icon reference;
  - choosing between an update and a create, and the submit that performs them.
- **The breadcrumb trail** (`breadcrumb.dfy`). It splits the pathname on `/`,
  drops the first field and maps each remaining field to a crumb. The path of
  each crumb is the prefix join of the fields up to it. A `Home` crumb goes in
  front. The imperative steps are in the method `Derive`: the shift, the map
  and the unshift. `Derive` is proved equal to the function `Trail`, and the
  length and prefix properties are proved about `Trail`.

`optional.dfy` holds the `Option` type shared by the modules.

Three behaviours of the code differ from what a reader would expect of it.
The model follows the code in all three:

- **A resubmit is not a no-op.** One would expect submitting the same rows
  twice to change nothing the second time. The delete set is recomputed from the `data`
  prop every time. A second submit without reloading therefore issues the
  earlier deletes again. Those documents are gone. Assuming the backend refuses
  a delete of a missing document, that submit fails on its first delete,
  before any update. `ExperienceForm.ResubmitAfterSuccessFails`
  proves this. What the id patch-back does guarantee is that the second submit
  issues no create (`ExperienceForm.ResubmitCreatesNothing`).
- **The social list does not round-trip.** One would expect a saved username
  to load back into the form. The form writes each social entry
  as a string. When it reads the list back, it reads only entries that are not
  strings. So if the stored strings reach the form as they were written,
  unparsed, a saved username comes back as "". `Information.WrittenListReadsEmpty`
  proves this. The code that loads the `data` prop is not part of this model,
  so whether it parses the strings first is not settled here.
- **The length messages say "less than".** The validator's own messages
  (components/form/information.tsx:40-62) say a title or username must be less
  than 128 characters. The schema accepts
  exactly 128 as well. `Information.ValidateAccepts` states the bound the
  schema applies: at most 128.

## Model

| member | source | states |
|---|---|---|
| ExperienceForm.RowsOf | components/form/experience.tsx:38-48 | one row per loaded document, same order, id = `$id`, the five editable fields copied |
| ExperienceForm.InitialRows | components/form/experience.tsx:37-49 | the initial rows: none when `data` is null, otherwise exactly one row per document with its `$id` and fields |
| ExperienceForm.Form.constructor | components/form/experience.tsx:35-49 | the form's live rows start as the initial rows of its `data` |
| ExperienceForm.Difference | components/form/experience.tsx:57-59 | the filtered list is no longer than the loaded ids; `DifferenceKeeps` and `DifferenceCount` state what it keeps |
| ExperienceForm.DifferenceKeeps | components/form/experience.tsx:57-59 | every id the filter keeps was among the loaded ids and is carried by no row |
| ExperienceForm.DeleteSet | components/form/experience.tsx:57-59 | the ids a submit deletes: none for null data, otherwise the difference of the loaded ids; `DeleteSetMembers` characterises its members |
| ExperienceForm.DifferenceCount | components/form/experience.tsx:57-59 | the difference keeps each loaded id that no row carries, as often as it was loaded, and drops every carried id |
| ExperienceForm.DeleteSetMembers | components/form/experience.tsx:57-59 | an id is in the delete set iff it was loaded and no row carries it (strict equality); with null data the set is empty |
| ExperienceForm.UpsertFor | components/form/experience.tsx:76-110 | a row gives an update iff its id is truthy, carrying that id and the five fields; otherwise a create under the fresh id with the five fields, the account as creator and the portfolio |
| ExperienceForm.PlanFor | components/form/experience.tsx:62-110 | the calls for a given delete set: one lookup, one per id to delete, one per row; `PlanLayout` gives each call |
| ExperienceForm.Plan | components/form/experience.tsx:61-110 | the calls a submit intends: one lookup, one per id of its delete set, one per row; `PlanAt` gives each call |
| ExperienceForm.PlanAt | components/form/experience.tsx:62-110 | call 0 is the account lookup, then one delete per id of the delete set in order, then per row in row order an update of its truthy id with only the five fields, or a create with the five fields, the account as creator and the current portfolio |
| ExperienceForm.LookupThenDeletesThenUpserts | components/form/experience.tsx:62-76 | the account lookup comes first and only once; no delete comes after an update or create |
| ExperienceStore.Exec | components/form/experience.tsx:61-137 | running the calls one at a time: the run is clean iff every call succeeded, and no more calls succeed than were issued |
| ExperienceStore.FailureIsRefusal | components/form/experience.tsx:61-137 | after a failure, the calls before the failing one all ran and left the final store, and the failing call was refused in that store |
| ExperienceStore.ExecHalt | components/form/experience.tsx:129-137 | once a call fails, no later call is issued and the store stays as the earlier calls left it |
| ExperienceStore.ExecOkStep | components/form/experience.tsx:61-128 | in a run that succeeds throughout, each call succeeds in the store the calls before it left |
| ExperienceStore.ExecDeleteOfMissing | components/form/experience.tsx:62-66 | a run whose first delete targets a missing document fails on the lookup or on that delete |
| ExperienceStore.StaysAbsent | components/form/experience.tsx:64-128 | calls that do not create `x` keep `x` out of the store |
| ExperienceStore.ExecDeletedStaysAbsent | components/form/experience.tsx:64-128 | after a fully successful run, the first deleted id is absent from the store, unless some call created it again |
| ExperienceStore.Backend.constructor | components/form/experience.tsx:61-62 | the remote side starts with the given documents, an empty call log and the given failure points and id source |
| ExperienceStore.Backend.Issue | components/form/experience.tsx:62-110 | every call is logged; it succeeds iff no fault is injected at its position and the store accepts it; only a success changes the store |
| ExperienceForm.Notices | components/form/experience.tsx:68-126 | the notifications of successful calls, at most one each; `NoticesPerCall` states which |
| ExperienceForm.NoticesPerCall | components/form/experience.tsx:68-126 | after the account lookup, which raises nothing, each successful call raises exactly one notification in call order: "deleted" for a delete, "updated" or "created" with the written title for an update or a create |
| ExperienceForm.NoErrorNoticeFromSuccesses | components/form/experience.tsx:68-126 | successful calls raise only deleted, updated or created notifications, never the error |
| ExperienceForm.ErrorNoticeIffFailure | components/form/experience.tsx:129-137 | a submit raises the error notification iff a call failed, and then exactly once, as its last notification |
| ExperienceForm.SettleNotices | components/form/experience.tsx:68-137 | for a plan laid out as lookup, deletes, upserts, the notifications are one "deleted" per successful delete and one "updated" or "created" with the row's title per successful upsert, in order, then the error notification on a failure |
| ExperienceForm.ReconcileNotices | components/form/experience.tsx:61-137 | a submit raises one notification per successful call after the lookup, in plan order ("deleted" for each delete, "updated" or "created" with the row's title for each row), then the error notification on a failure; a clean submit raises exactly one per delete and one per row |
| ExperienceForm.Patch | components/form/experience.tsx:114-121 | one create's patch-back keeps the row count; `PatchRows` states what it does to each row |
| ExperienceForm.PatchRows | components/form/experience.tsx:114-121 | one create's patch-back keeps every row's fields; rows whose id strictly equals the created row's id take the new id, and every other row is unchanged |
| ExperienceForm.PatchBack | components/form/experience.tsx:112-121 | the patch-back keeps the number of rows |
| ExperienceForm.PatchBackIds | components/form/experience.tsx:112-121 | after the patch-back every row keeps its fields, and its id is the id of the first create whose row carried the same falsy id, or is unchanged when there is none |
| ExperienceForm.NoFalsyIdAfterSuccess | components/form/experience.tsx:112-121 | after every upsert of a submit has succeeded, no row has a falsy id |
| ExperienceForm.NewRowsShareFirstCreatedId | components/form/experience.tsx:114-119 | the patch-back matches by value: two new rows with the same falsy id both end with the id of the document created for the first of them |
| ExperienceForm.DeleteSetSurvivesPatchBack | components/form/experience.tsx:57-59 | the patch-back never makes a row carry a loaded id, so the next submit computes the same delete set |
| ExperienceForm.FirstDeleteDone | components/form/experience.tsx:64-73 | after a fully successful submit, the first id of its delete set is absent from the store |
| ExperienceForm.FirstDeleteOfMissingFails | components/form/experience.tsx:62-66 | a submit whose first delete targets a missing document fails on the lookup or on that delete |
| ExperienceForm.PlanCreatesNoLoadedId | components/form/experience.tsx:94-110 | no create of a submit uses a loaded id, because the generated ids are fresh |
| ExperienceForm.SecondSubmitFails | components/form/experience.tsx:57-66 | against a store without the first id of the delete set, a second submit of the patched rows has the same delete set and fails on the lookup or on that delete |
| ExperienceForm.ResubmitAfterSuccessFails | components/form/experience.tsx:57-66 | a second submit after a fully successful one with deletes has the same delete set, and fails on the lookup or on its first delete |
| ExperienceForm.ResubmitCreatesNothing | components/form/experience.tsx:76-121 | a second submit after a fully successful one issues no create |
| ExperienceForm.Settle | components/form/experience.tsx:112-137 | the state a submit leaves once its calls have run; `SettleLog`, `RanHalt` and `RanAll` state it |
| ExperienceForm.SettleLog | components/form/experience.tsx:61-137 | the log grows by exactly the calls issued, in plan order, after the earlier log; the row count is kept |
| ExperienceForm.Reconcile | components/form/experience.tsx:52-138 | a whole submit: plan, run, settle; `ReconcileLog`, `ReconcileNotices`, `ErrorNoticeIffFailure` and the resubmit lemmas state what it does |
| ExperienceForm.ReconcileLog | components/form/experience.tsx:52-138 | a submit keeps the earlier log as a prefix, always logs the account lookup first, logs at most the planned calls, and keeps the row count |
| ExperienceForm.RanHalt | components/form/experience.tsx:129-137 | the call at index t fails: the submit ends with that call logged, the store unchanged, one error notification, and the rows patched only by the creates before it |
| ExperienceForm.RanAll | components/form/experience.tsx:61-128 | all calls succeeded: the submit ends with the store, log and notifications of the clean run, and all creates patched back |
| ExperienceForm.Form.Submit | components/form/experience.tsx:52-138 | store, call log, notifications and live rows after a submit are exactly `Reconcile` of the state before it |
| ExperienceForm.Form.DeleteStale | components/form/experience.tsx:64-74 | the deletes run in delete-set order; on success every delete has run, each with its notification; on failure the submit ends as `Settle` says |
| ExperienceForm.Form.DeleteOne | components/form/experience.tsx:65-72 | one delete of the next id of the delete set: on success the run advances by that call with a deleted notification; on failure the submit ends as `Settle` says |
| ExperienceForm.Form.UpsertRows | components/form/experience.tsx:76-128 | the upserts run in row order, and the submit ends as `Settle` says |
| ExperienceForm.Form.UpsertRow | components/form/experience.tsx:77-127 | the upsert of row j is an update if its id is truthy, otherwise a create; the state follows it |
| ExperienceForm.Form.UpdateRow | components/form/experience.tsx:77-92 | a truthy id gives exactly one update of that id, carrying only the five fields; the rows are unchanged |
| ExperienceForm.Form.CreateRow | components/form/experience.tsx:93-126 | a falsy id gives exactly one create with a fresh id, the five fields, the creator and the portfolio; on success every row whose id equals the row's id takes the new id |
| Information.Utf16Length | components/form/information.tsx:37-63 | the string length that `.max` compares: UTF-16 code units, two for a character outside the Basic Multilingual Plane; `Utf16LengthBounds` bounds it |
| Information.Validate | components/form/information.tsx:37-63 | the schema's issues, field by field; `ValidateIssues` and `ValidateAccepts` characterise them |
| Information.Utf16LengthBounds | components/form/information.tsx:37-63 | a string's length in UTF-16 code units is between its number of characters and twice that, and equal to it without astral characters |
| Information.ValidateIssues | components/form/information.tsx:37-63 | the validator reports exactly the fields longer than their limit, each with its own message |
| Information.ValidateAccepts | components/form/information.tsx:37-63 | a submission is accepted iff title ≤ 128, description ≤ 512 and each of the six usernames ≤ 128 UTF-16 code units |
| Information.ValidateIgnoresImage | components/form/information.tsx:44 | the image value never affects validation |
| Information.Defaults | components/form/information.tsx:72-111 | the form's default values; `DefaultsFields` states each of them |
| Information.Lookup | components/form/information.tsx:76-111 | one username's default: the first object entry whose url contains the platform name, else ""; `LookupNoMatch`, `LookupFirstMatch` and `LookupIgnoresText` pin it down |
| Information.DefaultsFields | components/form/information.tsx:72-111 | with no data every field starts as ""; otherwise title, description and icon are copied, and each username is looked up by its platform's name |
| Information.LookupNoMatch | components/form/information.tsx:76-111 | with no object entry whose url contains the platform name, the username is "" |
| Information.LookupFirstMatch | components/form/information.tsx:76-111 | the username is the value of the first object entry whose url contains the platform name |
| Information.LookupIgnoresText | components/form/information.tsx:79 | string entries are never read: removing them changes no username |
| Information.EntryText | components/form/information.tsx:129-134 | the template text of one social entry; `ValueInEntryText` reads the username back from it |
| Information.Marshal | components/form/information.tsx:128-135 | the social list the form writes; `MarshalLayout` and `WrittenListReadsEmpty` state its layout and what a read of it yields |
| Information.MarshalLayout | components/form/information.tsx:128-135 | the written list has exactly six entries in the order bitbucket, codepen, github, gitlab, linkedin, twitter, empty usernames included |
| Information.ValueInEntryText | components/form/information.tsx:129-134 | the username is spliced verbatim into each entry text and can be read back from it when the url is known |
| Information.WrittenListReadsEmpty | components/form/information.tsx:79-134 | reading a written social list back yields "" for every platform |
| Information.NeedsUploadIffFiles | components/form/information.tsx:117 | an upload is needed iff the image value is truthy and not a string, that is iff it is a file list |
| Information.IconOf | components/form/information.tsx:116-127 | the icon is the uploaded id after an upload; otherwise it is the image reference unchanged, or nothing |
| Information.WriteFor | components/form/information.tsx:138-149 | an update of `data.$id` iff data has a truthy id, otherwise a create; it carries the document |
| Information.Write | components/form/information.tsx:124-149 | the write step of a submit; `WriteIsOneWrite` states the single call and the store it leaves |
| Information.Submit | components/form/information.tsx:37-150 | a whole submit: validation, then the upload and the write; `SubmitRejected` and `SubmitWritesOnce` state its calls |
| Information.OnSubmit | components/form/information.tsx:115-150 | the submit after validation; `SubmitUploadFailure` and `SubmitWritesOnce` state its calls |
| Information.WriteIsOneWrite | components/form/information.tsx:124-149 | the write is a single update or create carrying title and description as entered, the icon and the six entries; the store changes only if it succeeds, and then holds the document |
| Information.SubmitRejected | components/form/information.tsx:37-63 | a submission the validator rejects issues no call |
| Information.SubmitUploadFailure | components/form/information.tsx:116-122 | when the needed upload fails, nothing is written and the store is unchanged |
| Information.SubmitWritesOnce | components/form/information.tsx:115-150 | a valid submit uploads first iff the image is a file list, then issues exactly one write, whose icon is the uploaded id or the kept reference |
| Information.InfoBackend.constructor | components/form/information.tsx:115-150 | the remote side starts with the given documents, an empty log and the given failure points and ids |
| Information.InfoBackend.Issue | components/form/information.tsx:118-148 | every call is logged; only a call that succeeds changes the store |
| Information.HandleSubmit | components/form/information.tsx:115-150 | the calls issued and the store afterwards are exactly those of `Submit` |
| Information.RunOnSubmit | components/form/information.tsx:115-150 | once validation has passed, the calls and store are those of `OnSubmit` |
| Information.WriteInformation | components/form/information.tsx:124-149 | the one update or create and the store it leaves are those of `Write` |
| Breadcrumb.Split | components/ui/breadcrumb.tsx:18 | splitting never yields an empty list |
| Breadcrumb.SplitFields | components/ui/breadcrumb.tsx:18 | a split has one more field than the string has slashes, and no field holds a slash |
| Breadcrumb.Join | components/ui/breadcrumb.tsx:24 | `join("/")`; `JoinSplit` and `SplitJoin` make it the inverse of `Split` on slash-free fields, and `JoinAppend` states how it distributes |
| Breadcrumb.JoinSplit | components/ui/breadcrumb.tsx:18-24 | joining the fields of a split gives the string back |
| Breadcrumb.SplitJoin | components/ui/breadcrumb.tsx:18-24 | splitting the join of slash-free fields gives the fields back |
| Breadcrumb.JoinAppend | components/ui/breadcrumb.tsx:24 | joining two non-empty lists puts one slash between their joins |
| Breadcrumb.CrumbsOf | components/ui/breadcrumb.tsx:21-31 | one crumb per field |
| Breadcrumb.Trail | components/ui/breadcrumb.tsx:18-31 | the crumbs for a pathname; `TrailNames`, `TrailPathsGrow`, `TrailPathsInPathname` and `RootTrail` state its names and paths |
| Breadcrumb.TrailNames | components/ui/breadcrumb.tsx:18-31 | the number of crumbs is the number of slashes plus one; the first is Home with path "/"; crumb k's name is field k, which holds no slash |
| Breadcrumb.TrailPathsGrow | components/ui/breadcrumb.tsx:24 | crumb k+1's path is crumb k's path, a slash and crumb k+1's name |
| Breadcrumb.CrumbPathsInJoin | components/ui/breadcrumb.tsx:21-26 | field 0, a slash and any crumb's path form a prefix of the joined fields, and the whole of them for the last crumb |
| Breadcrumb.TrailPathsInPathname | components/ui/breadcrumb.tsx:18-26 | field 0, a slash and any crumb's path form a prefix of the pathname, and the whole pathname for the last crumb |
| Breadcrumb.RootTrail | components/ui/breadcrumb.tsx:18-31 | the pathname "/" yields Home and one crumb with empty name and path |
| Breadcrumb.Derive | components/ui/breadcrumb.tsx:17-32 | crumbs that are given are returned unchanged; otherwise the result is the trail of the pathname |

## Left out

- The backend SDK is modelled only as stores with a call log. This covers `database_service`, `storage_service` and `auth_service`. Failure is a set of log positions where calls fail, plus the store's own refusals. `ID.unique()` and generated ids are a function of the log position. The access-control list passed on create (components/form/experience.tsx:106-109) is not modelled, because the backend's permission model is not part of this model.
- Toast texts are not modelled. A notification is kept only as its kind and the row title it mentions. The error message text is not kept.
- `async`/`await` is modelled as sequential steps. The disabled submit button is UI and is left out.
- The Experience form's schema accepts any value (components/form/experience.tsx:24-26), so there is no validation to model. `ExperienceArrayInput`, which adds and removes rows, is not part of this model. New rows are assumed to carry a falsy id.
- The stored Experience record keeps only the fields the form reads or writes. `website` and `languages` (interfaces/experience.ts) are not modelled. An update overwrites the five edited fields and keeps the others.
- ExperienceForm.ResubmitAfterSuccessFails, ExperienceForm.PlanCreatesNoLoadedId, ExperienceForm.FirstDeleteDone and ExperienceForm.DeleteSetSurvivesPatchBack assume that generated ids never equal a loaded id and that loaded ids are non-empty (`FreshFor`). Uniqueness is the backend's promise, not the form's.
- The two backends model `database_service.update` differently, and this is deliberate. `ExperienceStore.Apply` keeps the stored fields the form does not send (creator, portfolio). `Information.Apply` replaces the whole document, because the Information form always sends every field it stores. The two differ only when the image value is absent (`Absent`, so the icon is None). An update that omits the icon would then keep the stored icon, while `Information.Apply` stores None. The form's default image value is a string, so this needs the image field to have been cleared to undefined.
- ExperienceStore.ExecDeleteOfMissing and ExperienceForm.ResubmitAfterSuccessFails rest on the store refusing a delete of a missing document (`ExperienceStore.Accepts`). `database_service` is not part of this model.
- Information.WrittenListReadsEmpty is about the list as written. The code that builds the `data` prop is not part of this model, so whether stored strings are parsed into objects before they reach the form is left open.
- interfaces/information.ts is not part of this model. Title, description and stored social values are taken to be strings. The icon is taken to be an optional string. A stored document without a social list would make the form throw; this is not modelled.
- The social URL constants (`BITBUCKET` … `TWITTER`) come from a file that is not part of this model. They are a parameter `urls`.
- Information.Utf16Length counts UTF-16 code units, as JavaScript string lengths do. Dafny strings are sequences of Unicode scalar values.
- Information.IconOf: when there was no upload and the image is a file list, the source would write the file list itself. The model writes no icon in that case. The case cannot arise, because a file list always triggers the upload.
- An upload of an empty file list (`values.image[0]` undefined) is modelled as an upload call that fails. Storage errors are not modelled in any more detail.
- The rendered markup is left out: the crumb links, their styling and the chevrons. `usePathname()` is a parameter of `Breadcrumb.Derive`.
- These files are not modelled: components/form/portfolio.tsx, components/ui/portfolios.tsx, components/ui/form/image.tsx, functions/portfolio/src/pages/project.ts, app/layout.tsx and components/form/loading/information.tsx. They hold routing, layout, a preview built from unseen constants, and thin wrappers around single queries, not sequential logic. The slug function they use lives in a file that is not part of this model.
