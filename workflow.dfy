/** The dashboard's three handlers: edit, delete and create. Each is one
    atomic step over what the draft store did (an input), writing the
    navigation store's cast-modal fields and recording, in order, every call
    it makes into the navigation store, the draft store and the toaster. */
module Workflow {
  import opened Drafts

  /** `CastModalView`; the handlers only ever select `New`. Every other member
      of the enumeration is `OtherView`, which carries no name, so it never
      stands for `New`. */
  datatype CastModalView = New | OtherView

  /** The cast-modal part of the navigation store. */
  datatype Nav = Nav(view: CastModalView, draftId: Option<string>, open: bool)

  datatype NavCall = SetCastModalView(view: CastModalView) | SetCastModalDraftId(id: string) | OpenNewCastModal
  datatype StoreCall = RemovePostDraftById(id: string) | AddNewPostDraft
  datatype Toast = ToastSuccess(message: string) | ToastError(message: string)

  /** One call the dashboard makes into a collaborator. */
  datatype Effect = Navigate(nav: NavCall) | Request(store: StoreCall) | Notify(toast: Toast)

  /** How `await removePostDraftById(id)` settles. */
  datatype Removal = Resolved | Rejected

  /** What the draft store does with the `onSuccess` callback handed to
      `addNewPostDraft`: calls it with the new draft's id, or never calls it. */
  datatype Creation = CalledBack(draftId: string) | NotCalled

  const RemovedMessage := "Scheduled cast removed"
  const RemoveFailedMessage := "Failed to remove cast"

  function Apply(n: Nav, c: NavCall): Nav {
    match c
    case SetCastModalView(v) => n.(view := v)
    case SetCastModalDraftId(id) => n.(draftId := Some(id))
    case OpenNewCastModal => n.(open := true)
  }

  /** The navigation state reached from `n` by the navigation calls of `log`,
      in order; calls into the draft store and the toaster do not touch it. */
  function Replay(n: Nav, log: seq<Effect>): Nav
    decreases |log|
  {
    if log == [] then n
    else
      var before := Replay(n, log[..|log| - 1]);
      match log[|log| - 1]
      case Navigate(c) => Apply(before, c)
      case _ => before
  }

  /** The calls with which both edit and a successful create open the editor. */
  function OpenEditor(id: string): seq<Effect> {
    [Navigate(SetCastModalView(New)), Navigate(SetCastModalDraftId(id)), Navigate(OpenNewCastModal)]
  }

  /** The editor open in the `New` view on draft `id`. */
  function Editing(id: string): Nav {
    Nav(New, Some(id), true)
  }

  lemma {:induction false} ReplayAppend(n: Nav, a: seq<Effect>, b: seq<Effect>)
    ensures Replay(n, a + b) == Replay(Replay(n, a), b)
    decreases |b|
  {
    if b == [] {
      assert a + b == a;
    } else {
      var b' := b[..|b| - 1];
      assert (a + b)[..|a + b| - 1] == a + b';
      assert (a + b)[|a + b| - 1] == b[|b| - 1];
      ReplayAppend(n, a, b');
    }
  }

  /** Opening the editor on `id` lands on `Editing(id)` whatever came before. */
  lemma OpenEditorLands(n: Nav, log: seq<Effect>, id: string)
    ensures Replay(n, log + OpenEditor(id)) == Editing(id)
  {
    ReplayAppend(n, log, OpenEditor(id));
    var m, e := Replay(n, log), OpenEditor(id);
    assert e[..2][..1][..0] == [];
    assert Replay(m, e[..2][..1]) == m.(view := New);
    assert Replay(m, e[..2]) == m.(view := New, draftId := Some(id));
    assert e[..3] == e;
  }

  /** Editing the same draft twice leaves the same navigation state as editing it once. */
  lemma EditIdempotent(n: Nav, log: seq<Effect>, id: string)
    ensures Replay(n, log + OpenEditor(id) + OpenEditor(id)) == Replay(n, log + OpenEditor(id))
  {
    OpenEditorLands(n, log, id);
    OpenEditorLands(n, log + OpenEditor(id), id);
  }

  /** Calls into the draft store and the toaster leave navigation alone. */
  lemma {:induction false} ReplaySkipsOthers(n: Nav, log: seq<Effect>, rest: seq<Effect>)
    requires forall i :: 0 <= i < |rest| ==> !rest[i].Navigate?
    ensures Replay(n, log + rest) == Replay(n, log)
    decreases |rest|
  {
    if rest == [] {
      assert log + rest == log;
    } else {
      var r' := rest[..|rest| - 1];
      assert (log + rest)[..|log + rest| - 1] == log + r';
      ReplaySkipsOthers(n, log, r');
    }
  }

  function IsRemoval(e: Effect): bool {
    e.Request? && e.store.RemovePostDraftById?
  }

  /** Every toast in `log` directly follows a removal request, every removal
      request is directly followed by a toast, and none is still waiting for
      one: each delete yields exactly one notification. The toast comes right
      after its request only because each handler is modelled as one atomic
      step; `handleDelete` awaits the removal, so overlapping deletes in the
      running program can interleave their requests and toasts. */
  ghost predicate ToastsAnswerRemovals(log: seq<Effect>) {
    (forall i :: 0 < i < |log| ==> (log[i].Notify? <==> IsRemoval(log[i - 1])))
    && (log != [] ==> !log[0].Notify? && !IsRemoval(log[|log| - 1]))
  }

  /** A removal request answered by one toast keeps every toast paired. */
  lemma RemovalAnsweredKeepsPairing(log: seq<Effect>, id: string, t: Toast)
    requires ToastsAnswerRemovals(log)
    ensures ToastsAnswerRemovals(log + [Request(RemovePostDraftById(id)), Notify(t)])
  {
    var log' := log + [Request(RemovePostDraftById(id)), Notify(t)];
    forall i | 0 < i < |log'| ensures log'[i].Notify? <==> IsRemoval(log'[i - 1]) {
      if i < |log| {
        assert log'[i] == log[i] && log'[i - 1] == log[i - 1];
      }
    }
  }

  /** Calls that are neither toasts nor removal requests keep every toast paired. */
  lemma QuietCallsKeepPairing(log: seq<Effect>, rest: seq<Effect>)
    requires ToastsAnswerRemovals(log)
    requires forall i :: 0 <= i < |rest| ==> !rest[i].Notify? && !IsRemoval(rest[i])
    ensures ToastsAnswerRemovals(log + rest)
  {
    var log' := log + rest;
    forall i | 0 < i < |log'| ensures log'[i].Notify? <==> IsRemoval(log'[i - 1]) {
      if i < |log| {
        assert log'[i] == log[i] && log'[i - 1] == log[i - 1];
      } else {
        assert log'[i] == rest[i - |log|];
        if i - 1 >= |log| {
          assert log'[i - 1] == rest[i - 1 - |log|];
        }
      }
    }
    if log' != [] && rest != [] {
      assert log'[|log'| - 1] == rest[|rest| - 1];
    }
  }

  /** The dashboard's view of the navigation store, with every call it has made. */
  class Dashboard {
    var castModalView: CastModalView
    var castModalDraftId: Option<string>
    var isNewCastModalOpen: bool
    var effects: seq<Effect>
    ghost const initial: Nav

    function Navigation(): Nav
      reads this
    {
      Nav(castModalView, castModalDraftId, isNewCastModalOpen)
    }

    /** The navigation state is what the recorded navigation calls made of the
        initial one, and each delete has produced exactly one toast. */
    ghost predicate Valid()
      reads this
    {
      Navigation() == Replay(initial, effects) && ToastsAnswerRemovals(effects)
    }

    constructor (start: Nav)
      ensures Valid()
      ensures Navigation() == start && initial == start && effects == []
    {
      castModalView := start.view;
      castModalDraftId := start.draftId;
      isNewCastModalOpen := start.open;
      effects := [];
      initial := start;
    }

    /** `setCastModalView`, `setCastModalDraftId` and `openNewCastModal` in
        that order, as both `handleEdit` and the create callback call them. */
    method OpenEditorOn(id: string)
      requires Valid()
      modifies this
      ensures Valid()
      ensures Navigation() == Editing(id)
      ensures effects == old(effects) + OpenEditor(id)
    {
      castModalView := New;
      effects := effects + [Navigate(SetCastModalView(New))];
      castModalDraftId := Some(id);
      effects := effects + [Navigate(SetCastModalDraftId(id))];
      isNewCastModalOpen := true;
      effects := effects + [Navigate(OpenNewCastModal)];
      assert effects == old(effects) + OpenEditor(id);
      OpenEditorLands(initial, old(effects), id);
      QuietCallsKeepPairing(old(effects), OpenEditor(id));
    }

    /** `handleEdit`: bind the editor to the draft and open it; the draft
        store is not asked for anything and no toast is shown. */
    method HandleEdit(draft: Draft)
      requires Valid()
      modifies this
      ensures Valid()
      ensures Navigation() == Editing(draft.id)
      ensures effects == old(effects) + OpenEditor(draft.id)
    {
      OpenEditorOn(draft.id);
    }

    /** `handleDelete`: ask the store to remove the draft, then show exactly
        one toast, success when the removal resolves and error when it
        rejects. The rejection is caught here and goes no further. */
    method HandleDelete(draftId: string, removal: Removal)
      requires Valid()
      modifies this
      ensures Valid()
      ensures Navigation() == old(Navigation())
      ensures removal.Resolved? ==>
        effects == old(effects) + [Request(RemovePostDraftById(draftId)), Notify(ToastSuccess(RemovedMessage))]
      ensures removal.Rejected? ==>
        effects == old(effects) + [Request(RemovePostDraftById(draftId)), Notify(ToastError(RemoveFailedMessage))]
    {
      effects := effects + [Request(RemovePostDraftById(draftId))];
      var toast := match removal
        case Resolved => ToastSuccess(RemovedMessage)
        case Rejected => ToastError(RemoveFailedMessage);
      effects := effects + [Notify(toast)];
      var added := [Request(RemovePostDraftById(draftId)), Notify(toast)];
      assert effects == old(effects) + added;
      ReplaySkipsOthers(initial, old(effects), added);
      RemovalAnsweredKeepsPairing(old(effects), draftId, toast);
    }

    /** `handleCreateNew`: ask the store for a new draft; only if the store
        calls back with its id is the editor opened on it. No failure
        callback is passed, so the dashboard itself never shows a toast here. */
    method HandleCreateNew(creation: Creation)
      requires Valid()
      modifies this
      ensures Valid()
      ensures creation.CalledBack? ==>
        Navigation() == Editing(creation.draftId)
        && effects == old(effects) + [Request(AddNewPostDraft)] + OpenEditor(creation.draftId)
      ensures creation.NotCalled? ==>
        Navigation() == old(Navigation()) && effects == old(effects) + [Request(AddNewPostDraft)]
    {
      effects := effects + [Request(AddNewPostDraft)];
      ReplaySkipsOthers(initial, old(effects), [Request(AddNewPostDraft)]);
      QuietCallsKeepPairing(old(effects), [Request(AddNewPostDraft)]);
      match creation
      case CalledBack(id) =>
        OpenEditorOn(id);
      case NotCalled =>
    }
  }
}
