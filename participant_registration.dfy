/** The participant registration form: participant name, email, team
    member count and selected event; the registration table projected from
    the wired `getAllRegistrations` query; the event combobox from
    `getAllEvents`; the two-step create (participant, then registration)
    and a delete row action. */
module ParticipantRegistrationComponent {
  import opened JsRuntime
  import opened JsNumbers
  import opened Lightning
  import opened Records

  /** A row of the registration table. */
  datatype RegistrationRow = RegistrationRow(
    id: string,
    name: string,
    participantName: JsValue<string>,
    participantEmail: JsValue<string>,
    eventName: JsValue<string>,
    teamMembersCount: JsValue<int>)

  /** The form fields. The team member count starts as the number 1 and
      holds the input's text once the user edits it. */
  datatype RegistrationForm = RegistrationForm(
    participantName: string,
    participantEmail: string,
    selectedEvent: string,
    teamMembersCount: InputValue)

  const InitialForm := RegistrationForm("", "", "", Num(1))
  const PendingTeamName := "Pending Team Name..."
  const RefreshDelayMs: nat := 2000
  const ValidationWarning: Effect :=
    ShowToast("Validation Error", "Please enter participant name and select an event", Warning)
  const RegisteredToast: Effect := ShowToast("Success", "Registered successfully!", Success)
  const DeletedToast: Effect := ShowToast("Deleted", "Registration deleted successfully!", Success)
  const RegisterFallback := "Error during registration"
  const DeleteFallback := "Error deleting registration"

  /** One `.map` step of `wiredGetRegistrations`: every related field is
      read through `?.`. */
  function ToRegistrationRow(r: RegistrationRecord): RegistrationRow {
    RegistrationRow(
      r.id,
      r.name,
      OptionalChain(r.participant, (p: ParticipantRef) => p.name),
      OptionalChain(r.participant, (p: ParticipantRef) => p.email),
      OptionalChain(r.event, (e: EventRef) => e.name),
      OptionalChain(r.participant, (p: ParticipantRef) => p.teamMembersCount))
  }

  /** The registration table: one row per record, in order, with `Id` and
      `Name` copied; a missing related participant or event leaves its
      fields `undefined` and is never an error. */
  function RegistrationRows(data: seq<RegistrationRecord>): (rows: seq<RegistrationRow>)
    ensures |rows| == |data|
    ensures forall i :: 0 <= i < |data| ==>
      rows[i].id == data[i].id && rows[i].name == data[i].name
    ensures forall i :: 0 <= i < |data| ==>
      if data[i].participant.Defined? then
        rows[i].participantName == data[i].participant.value.name &&
        rows[i].participantEmail == data[i].participant.value.email &&
        rows[i].teamMembersCount == data[i].participant.value.teamMembersCount
      else
        rows[i].participantName == Undefined && rows[i].participantEmail == Undefined &&
        rows[i].teamMembersCount == Undefined
    ensures forall i :: 0 <= i < |data| ==>
      rows[i].eventName == if data[i].event.Defined? then data[i].event.value.name else Undefined
  {
    Map(ToRegistrationRow, data)
  }

  /** The event combobox: `{label: Name, value: Id}` per event, in order. */
  function EventOptions(data: seq<EventRecord>): (options: seq<PicklistOption>)
    ensures |options| == |data|
    ensures forall i :: 0 <= i < |data| ==>
      options[i].labelText == data[i].name && options[i].value == data[i].id
  {
    Map((e: EventRecord) => PicklistOption(e.name, e.id), data)
  }

  /** True when the form passes the check of `handleRegister`; the email
      and the team member count are not checked. */
  predicate Submittable(form: RegistrationForm) {
    Truthy(form.participantName) && Truthy(form.selectedEvent)
  }

  /** The `createParticipant` call the form leads to; the count goes through
      `parseInt` without a radix. */
  function ParticipantCall(form: RegistrationForm): RemoteCall {
    CreateParticipant(
      form.participantName,
      form.participantEmail,
      ParseInt(ToJsString(form.teamMembersCount), Unspecified))
  }

  /** The `createRegistration` call: the placeholder name, the identifier the
      first call resolved with, the selected event. */
  function RegistrationCall(participantId: JsValue<string>, form: RegistrationForm): RemoteCall {
    CreateRegistration(PendingTeamName, participantId, form.selectedEvent)
  }

  /** `handleRegister`, given how `createParticipant` and
      `createRegistration` settle. */
  function Register(form: RegistrationForm, participant: Reply, registration: Reply): Step<RegistrationForm> {
    if !Submittable(form) then Step(form, [ValidationWarning])
    else
      var first := Remote(ParticipantCall(form), participant);
      match participant
      case Rejected(e) => Step(form, [first, CatchToast(e, RegisterFallback)])
      case Resolved(participantId) =>
        var second := Remote(RegistrationCall(participantId, form), registration);
        match registration
        case Rejected(e) => Step(form, [first, second, CatchToast(e, RegisterFallback)])
        case Resolved(_) => Step(InitialForm, [first, second, RegisteredToast, DelayedRefresh(RefreshDelayMs)])
  }

  /** The `delete` branch of `handleRowAction`, given how
      `deleteRegistration` and the awaited refresh settle. */
  function DeleteRegistrationEffects(registrationId: string, del: Reply, refresh: Reply): seq<Effect> {
    var call := Remote(DeleteRegistration(registrationId), del);
    match del
    case Rejected(e) => [call, CatchToast(e, DeleteFallback)]
    case Resolved(_) => [call, DeletedToast] + RefreshOutcome(refresh, DeleteFallback)
  }

  predicate IsRegistrationCall(e: Effect) {
    e.Remote? && e.call.CreateRegistration?
  }

  /** Every `createRegistration` in the log comes right after a
      `createParticipant` that resolved with the identifier it passes: a
      registration is never created without an already-created participant. */
  predicate RegistrationsBacked(log: seq<Effect>) {
    forall i :: 0 <= i < |log| && IsRegistrationCall(log[i]) ==>
      0 < i && log[i - 1].Remote? && log[i - 1].call.CreateParticipant? &&
      log[i - 1].reply == Resolved(log[i].call.participantId)
  }

  /** Two backed logs joined stay backed when the second does not start
      with a registration. */
  lemma BackedAppend(a: seq<Effect>, b: seq<Effect>)
    requires RegistrationsBacked(a) && RegistrationsBacked(b)
    requires b == [] || !IsRegistrationCall(b[0])
    ensures RegistrationsBacked(a + b)
  {
    var ab := a + b;
    forall i | 0 <= i < |ab| && IsRegistrationCall(ab[i])
      ensures 0 < i && ab[i - 1].Remote? && ab[i - 1].call.CreateParticipant? &&
        ab[i - 1].reply == Resolved(ab[i].call.participantId)
    {
      if i < |a| {
        assert ab[i] == a[i] && ab[i - 1] == a[i - 1];
      } else {
        var j := i - |a|;
        assert ab[i] == b[j];
        assert 0 < j;
        assert ab[i - 1] == b[j - 1];
      }
    }
  }

  /** `handleRegister` keeps the log backed: its second call always follows
      the first, with the identifier the first returned. */
  lemma RegisterKeepsBacked(log: seq<Effect>, form: RegistrationForm, participant: Reply, registration: Reply)
    requires RegistrationsBacked(log)
    ensures RegistrationsBacked(log + Register(form, participant, registration).log)
  {
    BackedAppend(log, Register(form, participant, registration).log);
  }

  /** A row delete keeps the log backed. */
  lemma DeleteKeepsBacked(log: seq<Effect>, registrationId: string, del: Reply, refresh: Reply)
    requires RegistrationsBacked(log)
    ensures RegistrationsBacked(log + DeleteRegistrationEffects(registrationId, del, refresh))
  {
    BackedAppend(log, DeleteRegistrationEffects(registrationId, del, refresh));
  }

  /** A missing name or event is refused locally: one warning, no remote
      call, no refresh scheduled, every field kept. */
  lemma RegisterIncompleteForm(form: RegistrationForm, participant: Reply, registration: Reply)
    requires !Truthy(form.participantName) || !Truthy(form.selectedEvent)
    ensures Register(form, participant, registration).form == form
    ensures Calls(Register(form, participant, registration).log) == []
    ensures Toasts(Register(form, participant, registration).log) ==
      [Notification("Validation Error", Defined("Please enter participant name and select an event"), Warning)]
    ensures forall e :: e in Register(form, participant, registration).log ==> !e.DelayedRefresh?
  {
    Single(ValidationWarning);
  }

  /** A failed `createParticipant` stops the pipeline: no
      `createRegistration`, the form kept, one error toast with the server
      message or "Error during registration", no refresh scheduled. */
  lemma RegisterParticipantFails(form: RegistrationForm, participant: Reply, registration: Reply)
    requires Submittable(form) && participant.Rejected?
    ensures Register(form, participant, registration).form == form
    ensures Calls(Register(form, participant, registration).log) == [ParticipantCall(form)]
    ensures Toasts(Register(form, participant, registration).log) ==
      [Notification("Error", Defined(ServerMessageOr(participant.error, RegisterFallback)), Error)]
    ensures forall e :: e in Register(form, participant, registration).log ==> !e.DelayedRefresh?
  {
    var first := Remote(ParticipantCall(form), participant);
    var toast := CatchToast(participant.error, RegisterFallback);
    Pair(first, toast);
    Single(first);
    Single(toast);
  }

  /** The second call is made only after the first resolved, and it passes
      the identifier the first resolved with, the placeholder name and the
      selected event. */
  lemma RegisterPassesParticipantId(form: RegistrationForm, participant: Reply, registration: Reply)
    requires Submittable(form) && participant.Resolved?
    ensures |Calls(Register(form, participant, registration).log)| >= 2
    ensures Calls(Register(form, participant, registration).log)[..2] ==
      [ParticipantCall(form), CreateRegistration("Pending Team Name...", participant.value, form.selectedEvent)]
  {
    var first := Remote(ParticipantCall(form), participant);
    var second := Remote(RegistrationCall(participant.value, form), registration);
    var log := Register(form, participant, registration).log;
    assert log == [first, second] + log[2..];
    CallsAppend([first, second], log[2..]);
    Pair(first, second);
    Single(first);
    Single(second);
  }

  /** A failed `createRegistration` after a created participant leaves that
      participant behind: no further call (no compensating delete), the
      form kept, one error toast, no refresh scheduled. */
  lemma RegisterLeavesOrphanParticipant(form: RegistrationForm, participant: Reply, registration: Reply)
    requires Submittable(form) && participant.Resolved? && registration.Rejected?
    ensures Register(form, participant, registration).form == form
    ensures Calls(Register(form, participant, registration).log) ==
      [ParticipantCall(form), RegistrationCall(participant.value, form)]
    ensures Toasts(Register(form, participant, registration).log) ==
      [Notification("Error", Defined(ServerMessageOr(registration.error, RegisterFallback)), Error)]
    ensures forall e :: e in Register(form, participant, registration).log ==> !e.DelayedRefresh?
  {
    var first := Remote(ParticipantCall(form), participant);
    var second := Remote(RegistrationCall(participant.value, form), registration);
    var toast := CatchToast(registration.error, RegisterFallback);
    assert [first, second, toast] == [first, second] + [toast];
    CallsAppend([first, second], [toast]);
    ToastsAppend([first, second], [toast]);
    Pair(first, second);
    Single(first);
    Single(second);
    Single(toast);
  }

  /** Full success: one success toast, then the form back to its initial
      values, then a refresh scheduled after the fixed delay rather than
      made inline. */
  lemma RegisterSucceeds(form: RegistrationForm, participant: Reply, registration: Reply)
    requires Submittable(form) && participant.Resolved? && registration.Resolved?
    ensures Register(form, participant, registration).form == RegistrationForm("", "", "", Num(1))
    ensures Calls(Register(form, participant, registration).log) ==
      [ParticipantCall(form), RegistrationCall(participant.value, form)]
    ensures Toasts(Register(form, participant, registration).log) ==
      [Notification("Success", Defined("Registered successfully!"), Success)]
    ensures Register(form, participant, registration).log[2] == RegisteredToast
    ensures Register(form, participant, registration).log[3] == DelayedRefresh(2000)
  {
    var first := Remote(ParticipantCall(form), participant);
    var second := Remote(RegistrationCall(participant.value, form), registration);
    var tail := [RegisteredToast, DelayedRefresh(RefreshDelayMs)];
    assert Register(form, participant, registration) ==
      Step(InitialForm, [first, second, RegisteredToast, DelayedRefresh(RefreshDelayMs)]);
    assert [first, second, RegisteredToast, DelayedRefresh(RefreshDelayMs)] == [first, second] + tail;
    CallsAppend([first, second], tail);
    ToastsAppend([first, second], tail);
    Pair(first, second);
    Pair(RegisteredToast, DelayedRefresh(RefreshDelayMs));
    Single(first);
    Single(second);
    Single(RegisteredToast);
    Single(DelayedRefresh(RefreshDelayMs));
  }

  /** The form is cleared only after both writes succeeded. */
  lemma RegisterClearsOnlyAfterWrites(form: RegistrationForm, participant: Reply, registration: Reply)
    ensures Register(form, participant, registration).form in {form, InitialForm}
    ensures Register(form, participant, registration).form != form ==>
      Submittable(form) && participant.Resolved? && registration.Resolved?
  {
  }

  /** After a reset the team member count `parseInt` sends is 1 again, as
      it was before any edit. */
  lemma ResetTeamCountParsesToOne()
    ensures ParseInt(ToJsString(InitialForm.teamMembersCount), Unspecified) == Int(1)
  {
    ParseNumberField(1, Unspecified);
  }

  /** A failed delete shows one error toast with the server message or
      "Error deleting registration", and no refresh follows. */
  lemma DeleteRegistrationFails(registrationId: string, del: Reply, refresh: Reply)
    requires del.Rejected?
    ensures Calls(DeleteRegistrationEffects(registrationId, del, refresh)) == [DeleteRegistration(registrationId)]
    ensures Toasts(DeleteRegistrationEffects(registrationId, del, refresh)) ==
      [Notification("Error", Defined(ServerMessageOr(del.error, DeleteFallback)), Error)]
  {
    var call := Remote(DeleteRegistration(registrationId), del);
    var toast := CatchToast(del.error, DeleteFallback);
    Pair(call, toast);
    Single(call);
    Single(toast);
  }

  /** A successful delete shows its toast, then refreshes. */
  lemma DeleteRegistrationSucceeds(registrationId: string, del: Reply, refresh: Reply)
    requires del.Resolved?
    ensures Calls(DeleteRegistrationEffects(registrationId, del, refresh)) == [DeleteRegistration(registrationId), Refresh]
    ensures DeleteRegistrationEffects(registrationId, del, refresh)[1] == DeletedToast
    ensures DeleteRegistrationEffects(registrationId, del, refresh)[2] == Remote(Refresh, refresh)
  {
    var call := Remote(DeleteRegistration(registrationId), del);
    CallsAppend([call, DeletedToast], RefreshOutcome(refresh, DeleteFallback));
    Pair(call, DeletedToast);
    Single(call);
    Single(DeletedToast);
    RefreshOutcomeViews(refresh, DeleteFallback);
  }

  class ParticipantRegistration {
    var participantName: string
    var participantEmail: string
    var selectedEvent: string
    var teamMembersCount: InputValue
    var eventOptions: seq<PicklistOption>
    var registrations: seq<RegistrationRow>
    /** The last delivery of the wired registration query, the handle
        `refreshApex` gets. */
    var wiredRegistrations: JsValue<Wire<RegistrationRecord>>
    var effects: seq<Effect>

    ghost predicate Valid()
      reads this`effects
    {
      RegistrationsBacked(effects)
    }

    constructor ()
      ensures Valid()
      ensures Form() == InitialForm
      ensures eventOptions == [] && registrations == [] && wiredRegistrations == Undefined && effects == []
    {
      participantName, participantEmail, selectedEvent := "", "", "";
      teamMembersCount := Num(1);
      eventOptions, registrations := [], [];
      wiredRegistrations := Undefined;
      effects := [];
    }

    function Form(): RegistrationForm
      reads this
    {
      RegistrationForm(participantName, participantEmail, selectedEvent, teamMembersCount)
    }

    /** `wiredGetEvents`: fetched events become the combobox options; an
        error keeps them and shows one error toast. */
    method WiredGetEvents(result: Wire<EventRecord>)
      requires Valid()
      modifies this`eventOptions, this`effects
      ensures Valid()
      ensures eventOptions == if result.Data? then EventOptions(result.rows) else old(eventOptions)
      ensures effects == old(effects) +
        if result.Failed? then [ShowToast("Error", "Error loading events", Error)] else []
    {
      if result.Data? {
        eventOptions := EventOptions(result.rows);
      } else if result.Failed? {
        BackedAppend(effects, [ShowToast("Error", "Error loading events", Error)]);
        effects := effects + [ShowToast("Error", "Error loading events", Error)];
      }
    }

    /** `wiredGetRegistrations`: fetched records become the table rows; an
        error keeps the table and shows one error toast. */
    method WiredGetRegistrations(result: Wire<RegistrationRecord>)
      requires Valid()
      modifies this`wiredRegistrations, this`registrations, this`effects
      ensures Valid()
      ensures wiredRegistrations == Defined(result)
      ensures registrations == if result.Data? then RegistrationRows(result.rows) else old(registrations)
      ensures effects == old(effects) +
        if result.Failed? then [ShowToast("Error", "Error loading registrations", Error)] else []
    {
      wiredRegistrations := Defined(result);
      if result.Data? {
        registrations := RegistrationRows(result.rows);
      } else if result.Failed? {
        BackedAppend(effects, [ShowToast("Error", "Error loading registrations", Error)]);
        effects := effects + [ShowToast("Error", "Error loading registrations", Error)];
      }
    }

    method HandleParticipantChange(value: string)
      modifies this`participantName
      ensures participantName == value
    {
      participantName := value;
    }

    method HandleEmailChange(value: string)
      modifies this`participantEmail
      ensures participantEmail == value
    {
      participantEmail := value;
    }

    method HandleEventChange(value: string)
      modifies this`selectedEvent
      ensures selectedEvent == value
    {
      selectedEvent := value;
    }

    /** The input gives text, which replaces the initial number. */
    method HandleTeamCountChange(value: string)
      modifies this`teamMembersCount
      ensures teamMembersCount == Str(value)
    {
      teamMembersCount := Str(value);
    }

    method HandleRegister(participant: Reply, registration: Reply)
      requires Valid()
      modifies this`participantName, this`participantEmail, this`selectedEvent, this`teamMembersCount, this`effects
      ensures Valid()
      ensures var step := Register(old(Form()), participant, registration);
        Form() == step.form && effects == old(effects) + step.log
    {
      ghost var form := Form();
      ghost var step := Register(form, participant, registration);
      RegisterKeepsBacked(effects, form, participant, registration);
      if !Truthy(participantName) || !Truthy(selectedEvent) {
        effects := effects + [ValidationWarning];
        assert step == Step(form, [ValidationWarning]);
        return;
      }
      var first := Remote(ParticipantCall(Form()), participant);
      effects := effects + [first];
      match participant {
        case Rejected(e) =>
          effects := effects + [CatchToast(e, RegisterFallback)];
          assert step == Step(form, [first, CatchToast(e, RegisterFallback)]);
          assert effects == old(effects) + step.log;
        case Resolved(participantId) =>
          var second := Remote(CreateRegistration(PendingTeamName, participantId, selectedEvent), registration);
          effects := effects + [second];
          match registration {
            case Rejected(e) =>
              effects := effects + [CatchToast(e, RegisterFallback)];
              assert step == Step(form, [first, second, CatchToast(e, RegisterFallback)]);
              assert effects == old(effects) + step.log;
            case Resolved(_) =>
              effects := effects + [RegisteredToast];
              participantName := "";
              participantEmail := "";
              selectedEvent := "";
              teamMembersCount := Num(1);
              effects := effects + [DelayedRefresh(RefreshDelayMs)];
              assert step == Step(InitialForm, [first, second, RegisteredToast, DelayedRefresh(RefreshDelayMs)]);
              assert effects == old(effects) + step.log;
          }
      }
    }

    /** Only the `delete` action does anything: it deletes the row's
        registration. */
    method HandleRowAction(actionName: string, row: RegistrationRow, del: Reply, refresh: Reply)
      requires Valid()
      modifies this`effects
      ensures Valid()
      ensures effects == old(effects) +
        if actionName == "delete" then DeleteRegistrationEffects(row.id, del, refresh) else []
    {
      if actionName == "delete" {
        DeleteKeepsBacked(effects, row.id, del, refresh);
        DeleteRegistrationRow(row.id, del, refresh);
      }
    }

    /** The `delete` branch of `handleRowAction`: delete, then refresh. */
    method DeleteRegistrationRow(registrationId: string, del: Reply, refresh: Reply)
      modifies this`effects
      ensures effects == old(effects) + DeleteRegistrationEffects(registrationId, del, refresh)
    {
      effects := effects + [Remote(DeleteRegistration(registrationId), del)];
      match del {
        case Rejected(e) =>
          effects := effects + [CatchToast(e, DeleteFallback)];
        case Resolved(_) =>
          effects := effects + [DeletedToast];
          effects := effects + [Remote(Refresh, refresh)];
          if refresh.Rejected? {
            effects := effects + [CatchToast(refresh.error, DeleteFallback)];
          }
      }
    }
  }
}
