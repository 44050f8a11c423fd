# Scheduler dashboard: scheduled view and workflow handlers

A Dafny model of the logic in herocast's `SchedulerDashboard` component. The
component shows a user's scheduled casts and lets the user create, edit or
delete them. It has two parts that do something other than render markup:

- **The scheduled view** (`scheduledCasts`). It keeps the drafts whose status is
  `scheduled`. Then it sorts them with the comparator `dateA - dateB`. A date is the
  parsed `scheduledFor` timestamp, or 0 when `scheduledFor` is falsy.
  `Array.prototype.sort` is stable, so drafts with equal keys keep their list
  order. The model is `ScheduledView.ScheduledCasts`: `Seqs.Filter`, then
  `ScheduledView.SortByKey`, a stable insertion sort by `Drafts.Compare`. The
  lemmas prove these facts about it:
  - it holds exactly the scheduled drafts, each as often as in the list;
  - it is sorted;
  - ties keep their order;
  - being sorted and keeping tie order pin the result down uniquely;
  - pending drafts come before drafts timestamped after the epoch;
  - removing drafts from the list removes them from the view and changes nothing else.
- **The handlers** (`handleEdit`, `handleDelete`, `handleCreateNew`). These are the
  methods of the class `Workflow.Dashboard`. The class holds the cast-modal fields
  of the navigation store (view, draft id, open). It also keeps a log of every
  call the component makes into the navigation store, the draft store and the
  toaster. What the draft store does is an input of each handler: whether the
  removal resolves or rejects, and whether `onSuccess` is called and with which
  id. Each handler is one atomic step. Its contract gives the whole new state.
  The class invariant `Valid` holds two facts:
  - the navigation fields are what the logged navigation calls made of the
    initial state;
  - every toast directly answers a removal request, one toast per request.
    This holds of the model because each handler is one atomic step. In the
    running program `handleDelete` awaits the removal, so two overlapping
    deletes can interleave their requests and toasts; each delete still shows
    exactly one toast, which is what `HandleDelete`'s contract states.

Drafts are values (`Drafts.Draft`): an id, a status, and an optional
`scheduledFor`. That optional value holds the stored text and the milliseconds
that parsing the text gives. Truthiness is modelled as "present and not the
empty string", so an empty `scheduledFor` sorts as the epoch, like a missing one.

Points where the code decides something a reader might expect otherwise:
- `handleCreateNew` passes only `onSuccess` to `addNewPostDraft`, and no failure
  callback. So a failed create shows no toast from this component, and the
  model shows none.
- Drafts with equal keys keep their list order, because JavaScript's
  `Array.prototype.sort` is stable. The model proves this (`KeepsTieOrder`).
- Equal timestamps are a tie, not an order. The view puts A before B when A's
  date is strictly earlier; when the dates are equal, A comes first exactly when
  it comes first in the list. The model proves that the view is sorted and that
  ties keep list order.
- `drafts` is an array, and `filter` and `sort` work on it as a sequence, so the
  model uses a sequence.

## Model

| member | source | states |
|---|---|---|
| `Drafts.IsScheduled` | src/common/components/SchedulerDashboard.tsx:20 | the filter test: the draft's status is `scheduled` |
| `Drafts.HasTime` | src/common/components/SchedulerDashboard.tsx:22-23 | JavaScript truthiness of `scheduledFor`: present and not the empty string |
| `Drafts.SortKey` | src/common/components/SchedulerDashboard.tsx:22-23 | the comparator's date for a draft: 0 when `scheduledFor` is absent or the empty string, the parsed milliseconds otherwise |
| `Drafts.Compare` | src/common/components/SchedulerDashboard.tsx:24 | `dateA - dateB`: negative exactly when the first draft's date is earlier, zero exactly on a tie, positive exactly when it is later |
| `Seqs.Filter` | src/common/components/SchedulerDashboard.tsx:19-20 | `Array.prototype.filter`: the elements that pass the test, in list order |
| `Seqs.FilterContents` | src/common/components/SchedulerDashboard.tsx:19-20 | a draft is in the result iff it is in the list and passes the test; every draft that passes occurs as often as in the list, and every other draft does not occur |
| `ScheduledView.Insert` | src/common/components/SchedulerDashboard.tsx:21-25 | one step of the stable sort adds exactly the inserted draft: the multiset grows by that draft |
| `ScheduledView.InsertSorted` | src/common/components/SchedulerDashboard.tsx:21-25 | inserting into a sequence sorted by the comparator keeps it sorted |
| `ScheduledView.InsertTies` | src/common/components/SchedulerDashboard.tsx:21-25 | an inserted draft goes in front of every draft with its key, and the drafts of each key keep their order |
| `ScheduledView.SortByKey` | src/common/components/SchedulerDashboard.tsx:21-25 | `sort` with the `dateA - dateB` comparator returns a permutation of its input, sorted by the comparator, with the drafts of each key in input order |
| `ScheduledView.SwapsOutOfOrderPair` | src/common/components/SchedulerDashboard.tsx:21-24 | two drafts the comparator puts out of order come out swapped |
| `ScheduledView.ScheduledCasts` | src/common/components/SchedulerDashboard.tsx:18-26 | the view holds exactly the drafts with status `scheduled`, each as often as in the list; it is sorted by timestamp, with 0 for a falsy `scheduledFor`; drafts with equal keys keep their list order |
| `ScheduledView.PendingBeforeTimed` | src/common/components/SchedulerDashboard.tsx:22-24 | in the view, a draft with a falsy `scheduledFor` comes before every draft timestamped after the epoch |
| `ScheduledView.SortedUnique` | src/common/components/SchedulerDashboard.tsx:21-25 | two sorted sequences that list the drafts of each key in the same order are equal |
| `ScheduledView.ScheduledCastsCharacterized` | src/common/components/SchedulerDashboard.tsx:18-26 | a sequence is the view iff it is sorted and lists the scheduled drafts of each key in list order; so the view is determined by the list alone |
| `ScheduledView.ViewCommutesWithFilter` | src/common/components/SchedulerDashboard.tsx:18-26 | the view of a list with some drafts dropped is the old view with the same drafts dropped, in the same order |
| `ScheduledView.ViewAfterRemoval` | src/common/components/SchedulerDashboard.tsx:19-25 | once the drafts with a given id are gone from the list, the recomputed view has no draft with that id and is otherwise the previous view |
| `ScheduledView.LaterListedEarlierShown` | src/common/components/SchedulerDashboard.tsx:19-25 | with two scheduled drafts, the first due later, and one unscheduled draft, the view is the second then the first |
| `ScheduledView.EarlierFirstExample` | src/common/components/SchedulerDashboard.tsx:18-26 | drafts due 2024-01-02T10:00Z and 2024-01-01T09:00Z plus an unscheduled one give the view earlier-first, without the unscheduled one |
| `ScheduledView.ScheduledCastsOf` | src/common/components/SchedulerDashboard.tsx:19-21 | the view is a freshly allocated array holding `ScheduledCasts` of the list, and the draft list is left unchanged |
| `Workflow.OpenEditorLands` | src/common/components/SchedulerDashboard.tsx:29-31 | the three navigation calls leave the modal open in the `New` view on the given draft, whatever the earlier state |
| `Workflow.EditIdempotent` | src/common/components/SchedulerDashboard.tsx:28-32 | editing the same draft twice leaves the same navigation state as editing it once |
| `Workflow.RemovalAnsweredKeepsPairing` | src/common/components/SchedulerDashboard.tsx:34-41 | a removal request followed by one toast keeps every toast paired with exactly one removal request |
| `Workflow.QuietCallsKeepPairing` | src/common/components/SchedulerDashboard.tsx:28-51 | navigation calls and the create request add no toast and no unanswered removal |
| `Workflow.Dashboard.OpenEditorOn` | src/common/components/SchedulerDashboard.tsx:46-48 | `setCastModalView(New)`, `setCastModalDraftId(id)`, `openNewCastModal()` in that order; the modal ends open in `New` on `id` |
| `Workflow.Dashboard.HandleEdit` | src/common/components/SchedulerDashboard.tsx:28-32 | the modal ends open in the `New` view on the draft's id; only those three navigation calls are made: no store request and no toast |
| `Workflow.Dashboard.HandleDelete` | src/common/components/SchedulerDashboard.tsx:34-41 | the store is asked to remove the id, then exactly one toast follows: success "Scheduled cast removed" if the removal resolves, error "Failed to remove cast" if it rejects; navigation is untouched and the method always returns normally |
| `Workflow.Dashboard.HandleCreateNew` | src/common/components/SchedulerDashboard.tsx:43-51 | the store is asked for a new draft; only if it calls `onSuccess(id)` does the modal open in `New` on `id`, after the request; otherwise navigation is untouched; no toast in either case |

## Left out

- Rendering: the JSX, the empty-state card, and the `date-fns` formatting with its 'Pending' and '--:--' placeholders (SchedulerDashboard.tsx:53-128). These are presentation only. A draft's `text` and `embeds` are read only there, so `Drafts.Draft` does not carry them.
- Date parsing. `new Date(text).getTime()` is a library call. Its result is an input: the `millis` field of `Drafts.ScheduledTime`. An unparseable string gives NaN in JavaScript, and the comparator is then inconsistent. That case is not modelled.
- Number width. JavaScript numbers are doubles, and the model uses unbounded integers. Every valid timestamp is an integer below 2^53 in magnitude and is exact as a double. The difference of two timestamps can exceed 2^53 and then be rounded, but IEEE subtraction still gives it the right sign, and `sort` reads only the sign; so the order is the one the model computes.
- The members of `DraftStatus` and `CastModalView`. `src/common/constants/farcaster` and `src/stores/useNavigationStore` are not part of this model. Only `scheduled` and `New` matter, so every other member is `OtherStatus` or `OtherView`, which carry no name and so never stand for `scheduled` or `New`.
- The draft store and the navigation store. `src/stores/useDraftStore` is not part of this model. Its outcomes are handler inputs, and its calls are logged effects. The navigation setters are modelled as plain field updates, and `openNewCastModal` as setting the open flag only.
- Whether the store leaves its drafts untouched after a failed removal. That is the store's promise, so the model does not state it. `ViewAfterRemoval` states what the view does once the store has dropped a draft.
- Asynchrony. `await`, the timing of `onSuccess`, and overlapping handlers are not modelled. Each handler is one atomic step over its outcome. React's `useMemo` caching is not modelled either: the view is a pure function of the list, so recomputing it gives the same result.
- A throwing or rejecting create. `handleCreateNew` has no `try` and drops what `addNewPostDraft` returns, so an error raised by the store is not absorbed there, unlike in `handleDelete`. `Creation` only says whether `onSuccess` was called; the model does not express an error escaping the handler.
