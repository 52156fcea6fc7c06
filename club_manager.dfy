/** The club manager: a form with one field, the club name, the list of
    clubs from the wired `getAllClubs` query, a create pipeline and a
    delete row action. */
module ClubManagerComponent {
  import opened JsRuntime
  import opened Lightning
  import opened Records

  const ValidationWarning: Effect := ShowToast("Validation Error", "Please enter a club name", Warning)
  const CreatedToast: Effect := ShowToast("Success", "Club added successfully!", Success)
  const DeletedToast: Effect := ShowToast("Deleted", "Club deleted successfully", Success)
  const CreateFallback := "Error creating club"

  /** `handleAddClub` for the name in the form, given how `createClub` and
      the awaited refresh settle. */
  function AddClub(name: string, create: Reply, refresh: Reply): Step<string> {
    if !Truthy(name) then Step(name, [ValidationWarning])
    else
      var call := Remote(CreateClub(name), create);
      match create
      case Rejected(e) => Step(name, [call, CatchToast(e, CreateFallback)])
      case Resolved(_) => Step("", [call, CreatedToast] + RefreshOutcome(refresh, CreateFallback))
  }

  /** The `catch` of `deleteClubRecord` reads `error.body.message` without
      `?.` and has no fallback: the message is shown as it is, and an error
      without a body makes the `catch` block itself throw, so no toast
      appears and the rejection escapes. */
  function DeleteCatch(e: JsError): seq<Effect> {
    match e.body
    case Defined(b) => [Toast(Notification("Error", b.message, Error))]
    case _ => [UnhandledRejection]
  }

  /** `deleteClubRecord(clubId)`, given how `deleteClub` and the awaited
      refresh settle. */
  function DeleteClubEffects(clubId: string, del: Reply, refresh: Reply): seq<Effect> {
    var call := Remote(DeleteClub(clubId), del);
    match del
    case Rejected(e) => [call] + DeleteCatch(e)
    case Resolved(_) =>
      [call, DeletedToast, Remote(Refresh, refresh)] + (if refresh.Rejected? then DeleteCatch(refresh.error) else [])
  }

  /** An empty name is refused locally: one warning, no remote call, the
      name is kept. */
  lemma AddClubBlankName(name: string, create: Reply, refresh: Reply)
    requires !Truthy(name)
    ensures AddClub(name, create, refresh).form == name
    ensures Calls(AddClub(name, create, refresh).log) == []
    ensures Toasts(AddClub(name, create, refresh).log) ==
      [Notification("Validation Error", Defined("Please enter a club name"), Warning)]
  {
    Single(ValidationWarning);
  }

  /** A failed `createClub` keeps the name for a retry and shows one error
      toast with the server message or the fallback; nothing is refreshed. */
  lemma AddClubCreateFails(name: string, create: Reply, refresh: Reply)
    requires Truthy(name) && create.Rejected?
    ensures AddClub(name, create, refresh).form == name
    ensures Calls(AddClub(name, create, refresh).log) == [CreateClub(name)]
    ensures Toasts(AddClub(name, create, refresh).log) ==
      [Notification("Error", Defined(ServerMessageOr(create.error, CreateFallback)), Error)]
  {
    var call := Remote(CreateClub(name), create);
    var toast := CatchToast(create.error, CreateFallback);
    Pair(call, toast);
    Single(call);
    Single(toast);
  }

  /** A successful `createClub` gets the current name; the success toast
      comes before the refresh of the club list, and the name is cleared. */
  lemma AddClubCreateSucceeds(name: string, create: Reply, refresh: Reply)
    requires Truthy(name) && create.Resolved?
    ensures AddClub(name, create, refresh).form == ""
    ensures Calls(AddClub(name, create, refresh).log) == [CreateClub(name), Refresh]
    ensures AddClub(name, create, refresh).log[1] == CreatedToast
    ensures AddClub(name, create, refresh).log[2] == Remote(Refresh, refresh)
  {
    var call := Remote(CreateClub(name), create);
    var log := AddClub(name, create, refresh).log;
    assert log == [call, CreatedToast] + RefreshOutcome(refresh, CreateFallback);
    CallsAppend([call, CreatedToast], RefreshOutcome(refresh, CreateFallback));
    Pair(call, CreatedToast);
    Single(call);
    Single(CreatedToast);
    RefreshOutcomeViews(refresh, CreateFallback);
  }

  /** The form is cleared only after its write succeeded. */
  lemma AddClubClearsOnlyAfterWrite(name: string, create: Reply, refresh: Reply)
    ensures AddClub(name, create, refresh).form in {name, ""}
    ensures AddClub(name, create, refresh).form != name ==> Truthy(name) && create.Resolved?
  {
  }

  /** A failed delete shows the server's message verbatim, with no
      fallback, and does not refresh. */
  lemma DeleteClubFailsWithBody(clubId: string, del: Reply, refresh: Reply)
    requires del.Rejected? && del.error.body.Defined?
    ensures Calls(DeleteClubEffects(clubId, del, refresh)) == [DeleteClub(clubId)]
    ensures Toasts(DeleteClubEffects(clubId, del, refresh)) ==
      [Notification("Error", del.error.body.value.message, Error)]
  {
    var call := Remote(DeleteClub(clubId), del);
    var toast := DeleteCatch(del.error)[0];
    assert DeleteClubEffects(clubId, del, refresh) == [call, toast];
    Pair(call, toast);
    Single(call);
    Single(toast);
  }

  /** A failed delete whose error has no body shows no toast at all: the
      handler's own promise rejects instead. */
  lemma DeleteClubFailsWithoutBody(clubId: string, del: Reply, refresh: Reply)
    requires del.Rejected? && !del.error.body.Defined?
    ensures Calls(DeleteClubEffects(clubId, del, refresh)) == [DeleteClub(clubId)]
    ensures Toasts(DeleteClubEffects(clubId, del, refresh)) == []
    ensures DeleteClubEffects(clubId, del, refresh)[1] == UnhandledRejection
  {
    var call := Remote(DeleteClub(clubId), del);
    assert DeleteClubEffects(clubId, del, refresh) == [call, UnhandledRejection];
    Pair(call, UnhandledRejection);
    Single(call);
    Single(UnhandledRejection);
  }

  /** A successful delete of the row's id shows its toast, then refreshes. */
  lemma DeleteClubSucceeds(clubId: string, del: Reply, refresh: Reply)
    requires del.Resolved? && refresh.Resolved?
    ensures Calls(DeleteClubEffects(clubId, del, refresh)) == [DeleteClub(clubId), Refresh]
    ensures Toasts(DeleteClubEffects(clubId, del, refresh)) ==
      [Notification("Deleted", Defined("Club deleted successfully"), Success)]
    ensures DeleteClubEffects(clubId, del, refresh)[1] == DeletedToast
    ensures DeleteClubEffects(clubId, del, refresh)[2] == Remote(Refresh, refresh)
  {
    var call := Remote(DeleteClub(clubId), del);
    var log := DeleteClubEffects(clubId, del, refresh);
    assert log == [call, DeletedToast] + [Remote(Refresh, refresh)];
    CallsAppend([call, DeletedToast], [Remote(Refresh, refresh)]);
    ToastsAppend([call, DeletedToast], [Remote(Refresh, refresh)]);
    Pair(call, DeletedToast);
    Single(call);
    Single(DeletedToast);
    Single(Remote(Refresh, refresh));
  }

  /** A successful delete whose refresh then rejects reaches the same
      `catch`, which has no fallback: after the success toast comes the
      refresh error's message verbatim, or, when that error has no body, no
      toast at all and a rejection nothing catches. */
  lemma DeleteClubRefreshFails(clubId: string, del: Reply, refresh: Reply)
    requires del.Resolved? && refresh.Rejected?
    ensures Calls(DeleteClubEffects(clubId, del, refresh)) == [DeleteClub(clubId), Refresh]
    ensures refresh.error.body.Defined? ==>
      Toasts(DeleteClubEffects(clubId, del, refresh)) ==
        [Notification("Deleted", Defined("Club deleted successfully"), Success),
         Notification("Error", refresh.error.body.value.message, Error)]
    ensures !refresh.error.body.Defined? ==>
      Toasts(DeleteClubEffects(clubId, del, refresh)) ==
        [Notification("Deleted", Defined("Club deleted successfully"), Success)] &&
      DeleteClubEffects(clubId, del, refresh)[3] == UnhandledRejection
  {
    var call := Remote(DeleteClub(clubId), del);
    var last := DeleteCatch(refresh.error)[0];
    assert DeleteClubEffects(clubId, del, refresh) == [call, DeletedToast] + [Remote(Refresh, refresh), last];
    CallsAppend([call, DeletedToast], [Remote(Refresh, refresh), last]);
    ToastsAppend([call, DeletedToast], [Remote(Refresh, refresh), last]);
    Pair(call, DeletedToast);
    Pair(Remote(Refresh, refresh), last);
    Single(call);
    Single(DeletedToast);
    Single(Remote(Refresh, refresh));
    Single(last);
  }

  class ClubManager {
    var clubName: string
    var clubs: seq<ClubRecord>
    /** The last delivery of the wired query, the handle `refreshApex` gets. */
    var wiredClubs: JsValue<Wire<ClubRecord>>
    var effects: seq<Effect>

    constructor ()
      ensures clubName == "" && clubs == [] && wiredClubs == Undefined && effects == []
    {
      clubName := "";
      clubs := [];
      wiredClubs := Undefined;
      effects := [];
    }

    /** `wiredGetClubs`: fetched records replace the list as they are; an
        error keeps the list and shows one error toast. */
    method WiredGetClubs(result: Wire<ClubRecord>)
      modifies this`wiredClubs, this`clubs, this`effects
      ensures wiredClubs == Defined(result)
      ensures clubs == if result.Data? then result.rows else old(clubs)
      ensures effects == old(effects) +
        if result.Failed? then [ShowToast("Error", "Error loading clubs", Error)] else []
    {
      wiredClubs := Defined(result);
      if result.Data? {
        clubs := result.rows;
      } else if result.Failed? {
        effects := effects + [ShowToast("Error", "Error loading clubs", Error)];
      }
    }

    method HandleNameChange(value: string)
      modifies this`clubName
      ensures clubName == value
    {
      clubName := value;
    }

    method HandleAddClub(create: Reply, refresh: Reply)
      modifies this`clubName, this`effects
      ensures clubName == AddClub(old(clubName), create, refresh).form
      ensures effects == old(effects) + AddClub(old(clubName), create, refresh).log
    {
      if !Truthy(clubName) {
        effects := effects + [ValidationWarning];
        return;
      }
      effects := effects + [Remote(CreateClub(clubName), create)];
      match create {
        case Rejected(e) =>
          effects := effects + [CatchToast(e, CreateFallback)];
        case Resolved(_) =>
          effects := effects + [CreatedToast];
          clubName := "";
          effects := effects + [Remote(Refresh, refresh)];
          if refresh.Rejected? {
            effects := effects + [CatchToast(refresh.error, CreateFallback)];
          }
      }
    }

    /** Only the `delete` action does anything: it deletes the row's club. */
    method HandleRowAction(actionName: string, row: ClubRecord, del: Reply, refresh: Reply)
      modifies this`effects
      ensures effects == old(effects) +
        if actionName == "delete" then DeleteClubEffects(row.id, del, refresh) else []
    {
      if actionName == "delete" {
        DeleteClubRecord(row.id, del, refresh);
      }
    }

    /** `deleteClubRecord`. */
    method DeleteClubRecord(clubId: string, del: Reply, refresh: Reply)
      modifies this`effects
      ensures effects == old(effects) + DeleteClubEffects(clubId, del, refresh)
    {
      effects := effects + [Remote(DeleteClub(clubId), del)];
      match del {
        case Rejected(e) =>
          effects := effects + DeleteCatch(e);
        case Resolved(_) =>
          effects := effects + [DeletedToast];
          effects := effects + [Remote(Refresh, refresh)];
          if refresh.Rejected? {
            effects := effects + DeleteCatch(refresh.error);
          }
      }
    }
  }
}
