/** The event manager: a form of three text fields (event name, maximum
    participants, selected club), the event table projected from the wired
    `getAllEvents` query, the club combobox options from `getAllClubs`, a
    create pipeline and a delete row action. */
module EventManagerComponent {
  import opened JsRuntime
  import opened JsNumbers
  import opened Lightning
  import opened Records

  /** A row of the event table. */
  datatype EventRow = EventRow(
    id: string,
    name: string,
    clubName: string,
    registeredParticipants: JsValue<int>,
    maxParticipants: JsValue<int>)

  /** The form fields, all held as the text the inputs gave. */
  datatype EventForm = EventForm(eventName: string, maxParticipants: string, selectedClub: string)

  const EmptyForm := EventForm("", "", "")
  const NotAssigned := "Not Assigned"
  const ValidationWarning: Effect := ShowToast("Validation Error", "Please fill all fields", Warning)
  const CreatedToast: Effect := ShowToast("Success", "Event added successfully!", Success)
  const DeletedToast: Effect := ShowToast("Deleted", "Event deleted successfully", Success)
  const CreateFallback := "Error creating event"
  const DeleteFallback := "Error deleting event"

  /** True when the event's related club is there and has a truthy name. */
  predicate HasClubName(e: EventRecord) {
    e.club.Defined? && TruthyValue(e.club.value.name)
  }

  /** `v !== undefined ? v : 0`: only a missing value becomes 0; `null`
      stays `null`. */
  function UndefinedToZero(v: JsValue<int>): JsValue<int> {
    if v.Undefined? then Defined(0) else v
  }

  /** One `.map` step of `wiredGetEvents`. */
  function ToEventRow(e: EventRecord): EventRow {
    EventRow(
      e.id,
      e.name,
      StringOr(OptionalChain(e.club, (c: ClubRef) => c.name), NotAssigned),
      UndefinedToZero(e.registeredParticipants),
      UndefinedToZero(e.maxParticipants))
  }

  /** The event table: one row per record, in order, with the club's name
      or "Not Assigned", and counts that default to 0 only when missing. */
  function EventRows(data: seq<EventRecord>): (rows: seq<EventRow>)
    ensures |rows| == |data|
    ensures forall i :: 0 <= i < |data| ==>
      rows[i].id == data[i].id && rows[i].name == data[i].name
    ensures forall i :: 0 <= i < |data| ==>
      rows[i].clubName == if HasClubName(data[i]) then data[i].club.value.name.value else NotAssigned
    ensures forall i :: 0 <= i < |data| ==>
      !rows[i].registeredParticipants.Undefined? && !rows[i].maxParticipants.Undefined?
    ensures forall i :: 0 <= i < |data| ==>
      (data[i].registeredParticipants.Undefined? ==> rows[i].registeredParticipants == Defined(0)) &&
      (!data[i].registeredParticipants.Undefined? ==> rows[i].registeredParticipants == data[i].registeredParticipants) &&
      (data[i].maxParticipants.Undefined? ==> rows[i].maxParticipants == Defined(0)) &&
      (!data[i].maxParticipants.Undefined? ==> rows[i].maxParticipants == data[i].maxParticipants)
  {
    Map(ToEventRow, data)
  }

  /** The club combobox: `{label: Name, value: Id}` per club, in order. */
  function ClubOptions(data: seq<ClubRecord>): (options: seq<PicklistOption>)
    ensures |options| == |data|
    ensures forall i :: 0 <= i < |data| ==>
      options[i].labelText == data[i].name && options[i].value == data[i].id
  {
    Map((c: ClubRecord) => PicklistOption(c.name, c.id), data)
  }

  /** True when the form passes the check of `handleAddEvent`. */
  predicate Complete(form: EventForm) {
    Truthy(form.eventName) && Truthy(form.selectedClub) && Truthy(form.maxParticipants)
  }

  /** The `createEvent` call the form leads to. */
  function CreateCall(form: EventForm): RemoteCall {
    CreateEvent(form.eventName, form.selectedClub, ParseInt(form.maxParticipants, Decimal))
  }

  /** `handleAddEvent`, given how `createEvent` and the awaited refresh settle. */
  function AddEvent(form: EventForm, create: Reply, refresh: Reply): Step<EventForm> {
    if !Complete(form) then Step(form, [ValidationWarning])
    else
      var call := Remote(CreateCall(form), create);
      match create
      case Rejected(e) => Step(form, [call, CatchToast(e, CreateFallback)])
      case Resolved(_) => Step(EmptyForm, [call, CreatedToast] + RefreshOutcome(refresh, CreateFallback))
  }

  /** `deleteEventRecord(eventId)`, given how `deleteEvent` and the awaited
      refresh settle. */
  function DeleteEventEffects(eventId: string, del: Reply, refresh: Reply): seq<Effect> {
    var call := Remote(DeleteEvent(eventId), del);
    match del
    case Rejected(e) => [call, CatchToast(e, DeleteFallback)]
    case Resolved(_) => [call, DeletedToast] + RefreshOutcome(refresh, DeleteFallback)
  }

  /** Any empty field is refused locally: one warning, no `createEvent`,
      the form is kept. */
  lemma AddEventIncompleteForm(form: EventForm, create: Reply, refresh: Reply)
    requires !Truthy(form.eventName) || !Truthy(form.selectedClub) || !Truthy(form.maxParticipants)
    ensures AddEvent(form, create, refresh).form == form
    ensures Calls(AddEvent(form, create, refresh).log) == []
    ensures Toasts(AddEvent(form, create, refresh).log) ==
      [Notification("Validation Error", Defined("Please fill all fields"), Warning)]
  {
    Single(ValidationWarning);
  }

  /** `createEvent` gets the name, the selected club's id and the decimal
      reading of the maximum; a number typed as digits arrives as itself. */
  lemma AddEventArguments(form: EventForm, create: Reply, refresh: Reply, max: int)
    requires Complete(form) && form.maxParticipants == DecimalString(max)
    ensures Calls(AddEvent(form, create, refresh).log)[0] == CreateEvent(form.eventName, form.selectedClub, Int(max))
  {
    ParseIntRoundTrip(max, Decimal);
    var call := Remote(CreateCall(form), create);
    var log := AddEvent(form, create, refresh).log;
    assert log == [call] + log[1..];
    CallsAppend([call], log[1..]);
    Single(call);
  }

  /** A failed `createEvent` keeps every field and shows one error toast
      with the server message or the fallback; nothing is refreshed. */
  lemma AddEventCreateFails(form: EventForm, create: Reply, refresh: Reply)
    requires Complete(form) && create.Rejected?
    ensures AddEvent(form, create, refresh).form == form
    ensures Calls(AddEvent(form, create, refresh).log) == [CreateCall(form)]
    ensures Toasts(AddEvent(form, create, refresh).log) ==
      [Notification("Error", Defined(ServerMessageOr(create.error, CreateFallback)), Error)]
  {
    var call := Remote(CreateCall(form), create);
    var toast := CatchToast(create.error, CreateFallback);
    Pair(call, toast);
    Single(call);
    Single(toast);
  }

  /** A successful `createEvent`: the success toast, then all three fields
      empty, then the event list refreshed. */
  lemma AddEventCreateSucceeds(form: EventForm, create: Reply, refresh: Reply)
    requires Complete(form) && create.Resolved?
    ensures AddEvent(form, create, refresh).form == EventForm("", "", "")
    ensures Calls(AddEvent(form, create, refresh).log) == [CreateCall(form), Refresh]
    ensures AddEvent(form, create, refresh).log[1] == CreatedToast
    ensures AddEvent(form, create, refresh).log[2] == Remote(Refresh, refresh)
  {
    var call := Remote(CreateCall(form), create);
    CallsAppend([call, CreatedToast], RefreshOutcome(refresh, CreateFallback));
    Pair(call, CreatedToast);
    Single(call);
    Single(CreatedToast);
    RefreshOutcomeViews(refresh, CreateFallback);
  }

  /** The form is cleared only after its write succeeded. */
  lemma AddEventClearsOnlyAfterWrite(form: EventForm, create: Reply, refresh: Reply)
    ensures AddEvent(form, create, refresh).form in {form, EmptyForm}
    ensures AddEvent(form, create, refresh).form != form ==> Complete(form) && create.Resolved?
  {
  }

  /** A failed delete shows one error toast with the server message or
      "Error deleting event", and no refresh follows. */
  lemma DeleteEventFails(eventId: string, del: Reply, refresh: Reply)
    requires del.Rejected?
    ensures Calls(DeleteEventEffects(eventId, del, refresh)) == [DeleteEvent(eventId)]
    ensures Toasts(DeleteEventEffects(eventId, del, refresh)) ==
      [Notification("Error", Defined(ServerMessageOr(del.error, DeleteFallback)), Error)]
  {
    var call := Remote(DeleteEvent(eventId), del);
    var toast := CatchToast(del.error, DeleteFallback);
    Pair(call, toast);
    Single(call);
    Single(toast);
  }

  /** A successful delete shows its toast, then refreshes. */
  lemma DeleteEventSucceeds(eventId: string, del: Reply, refresh: Reply)
    requires del.Resolved?
    ensures Calls(DeleteEventEffects(eventId, del, refresh)) == [DeleteEvent(eventId), Refresh]
    ensures DeleteEventEffects(eventId, del, refresh)[1] == DeletedToast
    ensures DeleteEventEffects(eventId, del, refresh)[2] == Remote(Refresh, refresh)
  {
    var call := Remote(DeleteEvent(eventId), del);
    CallsAppend([call, DeletedToast], RefreshOutcome(refresh, DeleteFallback));
    Pair(call, DeletedToast);
    Single(call);
    Single(DeletedToast);
    RefreshOutcomeViews(refresh, DeleteFallback);
  }

  class EventManager {
    var eventName: string
    var maxParticipants: string
    var selectedClub: string
    var clubOptions: seq<PicklistOption>
    var events: seq<EventRow>
    /** The last delivery of the wired event query, the handle `refreshApex` gets. */
    var wiredEvents: JsValue<Wire<EventRecord>>
    var effects: seq<Effect>

    constructor ()
      ensures Form() == EmptyForm
      ensures clubOptions == [] && events == [] && wiredEvents == Undefined && effects == []
    {
      eventName, maxParticipants, selectedClub := "", "", "";
      clubOptions, events := [], [];
      wiredEvents := Undefined;
      effects := [];
    }

    function Form(): EventForm
      reads this
    {
      EventForm(eventName, maxParticipants, selectedClub)
    }

    /** `wiredGetEvents`: fetched records become the table rows; an error
        keeps the table and shows one error toast. */
    method WiredGetEvents(result: Wire<EventRecord>)
      modifies this`wiredEvents, this`events, this`effects
      ensures wiredEvents == Defined(result)
      ensures events == if result.Data? then EventRows(result.rows) else old(events)
      ensures effects == old(effects) +
        if result.Failed? then [ShowToast("Error", "Error loading events", Error)] else []
    {
      wiredEvents := Defined(result);
      if result.Data? {
        events := EventRows(result.rows);
      } else if result.Failed? {
        effects := effects + [ShowToast("Error", "Error loading events", Error)];
      }
    }

    /** `wiredGetClubs`: fetched clubs become the combobox options; an error
        keeps them and shows one error toast. */
    method WiredGetClubs(result: Wire<ClubRecord>)
      modifies this`clubOptions, this`effects
      ensures clubOptions == if result.Data? then ClubOptions(result.rows) else old(clubOptions)
      ensures effects == old(effects) +
        if result.Failed? then [ShowToast("Error", "Error loading clubs", Error)] else []
    {
      if result.Data? {
        clubOptions := ClubOptions(result.rows);
      } else if result.Failed? {
        effects := effects + [ShowToast("Error", "Error loading clubs", Error)];
      }
    }

    method HandleNameChange(value: string)
      modifies this`eventName
      ensures eventName == value
    {
      eventName := value;
    }

    method HandleMaxChange(value: string)
      modifies this`maxParticipants
      ensures maxParticipants == value
    {
      maxParticipants := value;
    }

    method HandleClubChange(value: string)
      modifies this`selectedClub
      ensures selectedClub == value
    {
      selectedClub := value;
    }

    method HandleAddEvent(create: Reply, refresh: Reply)
      modifies this`eventName, this`maxParticipants, this`selectedClub, this`effects
      ensures Form() == AddEvent(old(Form()), create, refresh).form
      ensures effects == old(effects) + AddEvent(old(Form()), create, refresh).log
    {
      ghost var form := Form();
      if !Truthy(eventName) || !Truthy(selectedClub) || !Truthy(maxParticipants) {
        effects := effects + [ValidationWarning];
        assert AddEvent(form, create, refresh) == Step(form, [ValidationWarning]);
        return;
      }
      var call := Remote(CreateCall(Form()), create);
      effects := effects + [call];
      match create {
        case Rejected(e) =>
          effects := effects + [CatchToast(e, CreateFallback)];
          assert AddEvent(form, create, refresh) == Step(form, [call, CatchToast(e, CreateFallback)]);
        case Resolved(_) =>
          effects := effects + [CreatedToast];
          eventName := "";
          maxParticipants := "";
          selectedClub := "";
          effects := effects + [Remote(Refresh, refresh)];
          if refresh.Rejected? {
            effects := effects + [CatchToast(refresh.error, CreateFallback)];
          }
          assert effects == old(effects) + ([call, CreatedToast] + RefreshOutcome(refresh, CreateFallback));
          assert AddEvent(form, create, refresh) ==
            Step(EmptyForm, [call, CreatedToast] + RefreshOutcome(refresh, CreateFallback));
      }
    }

    /** Only the `delete` action does anything: it deletes the row's event. */
    method HandleRowAction(actionName: string, row: EventRow, del: Reply, refresh: Reply)
      modifies this`effects
      ensures effects == old(effects) +
        if actionName == "delete" then DeleteEventEffects(row.id, del, refresh) else []
    {
      if actionName == "delete" {
        DeleteEventRecord(row.id, del, refresh);
      }
    }

    method DeleteEventRecord(eventId: string, del: Reply, refresh: Reply)
      modifies this`effects
      ensures effects == old(effects) + DeleteEventEffects(eventId, del, refresh)
    {
      effects := effects + [Remote(DeleteEvent(eventId), del)];
      match del {
        case Rejected(e) =>
          effects := effects + [CatchToast(e, DeleteFallback)];
        case Resolved(_) =>
          effects := effects + [DeletedToast];
          effects := effects + [Remote(Refresh, refresh)];
          if refresh.Rejected? {
            effects := effects + [CatchToast(refresh.error, DeleteFallback)];
          }
      }
    }
  }
}
