/** What a component does that can be observed from outside: the toasts
    it shows, the remote (Apex) calls it makes together with how each one
    settled, the delayed refresh it schedules, and a rejection nothing
    catches. A component instance keeps the log of these effects, in order. */
module Lightning {
  import opened JsRuntime
  import opened JsNumbers

  /** The toast variants the components use. */
  datatype Variant = Success | Warning | Error

  /** The arguments of one `ShowToastEvent`. */
  datatype Notification = Notification(title: string, message: JsValue<string>, variant: Variant)

  /** `error.body` of a failed Apex call, with its `message`. */
  datatype ErrorBody = ErrorBody(message: JsValue<string>)

  /** The value a rejected promise carries. */
  datatype JsError = JsError(body: JsValue<ErrorBody>)

  /** How an awaited remote call settled: the value it resolved with (an
      identifier for the create calls) or the error it rejected with. */
  datatype Reply = Resolved(value: JsValue<string>) | Rejected(error: JsError)

  /** One delivery of a wired list query: not yet provisioned (neither
      `data` nor `error`), the fetched records, or an error. */
  datatype Wire<T> = Provisioning | Data(rows: seq<T>) | Failed(error: JsError)

  /** The remote calls, with the arguments the components pass. */
  datatype RemoteCall =
    | CreateClub(name: string)
    | DeleteClub(clubId: string)
    | CreateEvent(eventName: string, clubId: string, maxParticipants: Numeric)
    | DeleteEvent(eventId: string)
    | CreateParticipant(participantName: string, email: string, teamMemberCount: Numeric)
    | CreateRegistration(registrationName: string, participantId: JsValue<string>, eventId: string)
    | DeleteRegistration(registrationId: string)
    | Refresh   // `refreshApex` on the component's wired list

  datatype Effect =
    | Toast(notification: Notification)
    | Remote(call: RemoteCall, reply: Reply)
    | DelayedRefresh(delayMs: nat)   // a `refreshApex` put off with `setTimeout`
    | UnhandledRejection             // the handler's promise rejected and nothing catches it

  /** What a handler leaves behind: the form fields it ends with and the
      effects it appended, in order. */
  datatype Step<F> = Step(form: F, log: seq<Effect>)

  /** `{ label, value }` of a combobox option (`label` is a keyword here). */
  datatype PicklistOption = PicklistOption(labelText: string, value: string)

  /** The `showToast(title, message, variant)` helper every component has. */
  function ShowToast(title: string, message: string, variant: Variant): Effect {
    Toast(Notification(title, Defined(message), variant))
  }

  /** True when the error carries a non-empty server message. */
  predicate HasServerMessage(e: JsError) {
    e.body.Defined? && TruthyValue(e.body.value.message)
  }

  /** `error.body?.message || fallback`: the server's message when the error
      has one, the fallback otherwise (a missing body, a missing or empty
      message). */
  function ServerMessageOr(e: JsError, fallback: string): (m: string)
    ensures HasServerMessage(e) ==> m == e.body.value.message.value && m != ""
    ensures !HasServerMessage(e) ==> m == fallback
  {
    StringOr(OptionalChain(e.body, (b: ErrorBody) => b.message), fallback)
  }

  /** The one error toast a `catch` block shows. */
  function CatchToast(e: JsError, fallback: string): Effect {
    ShowToast("Error", ServerMessageOr(e, fallback), Error)
  }

  /** An awaited `refreshApex` at the end of a `try` block: when it rejects,
      the same `catch` runs and shows its error toast. */
  function RefreshOutcome(refresh: Reply, fallback: string): seq<Effect> {
    [Remote(Refresh, refresh)] + (if refresh.Rejected? then [CatchToast(refresh.error, fallback)] else [])
  }

  /** The remote calls in a log, in order. */
  function Calls(log: seq<Effect>): (calls: seq<RemoteCall>)
    ensures |calls| <= |log|
  {
    if log == [] then []
    else (if log[0].Remote? then [log[0].call] else []) + Calls(log[1..])
  }

  /** The toasts in a log, in order. */
  function Toasts(log: seq<Effect>): (toasts: seq<Notification>)
    ensures |toasts| <= |log|
  {
    if log == [] then []
    else (if log[0].Toast? then [log[0].notification] else []) + Toasts(log[1..])
  }

  /** The calls of a longer log are those of its two parts. */
  lemma {:induction false} CallsAppend(a: seq<Effect>, b: seq<Effect>)
    ensures Calls(a + b) == Calls(a) + Calls(b)
  {
    if a == [] {
      assert a + b == b;
    } else {
      assert (a + b)[0] == a[0] && (a + b)[1..] == a[1..] + b;
      CallsAppend(a[1..], b);
      var head := if a[0].Remote? then [a[0].call] else [];
      assert Calls(a + b) == head + (Calls(a[1..]) + Calls(b));
    }
  }

  /** The toasts of a longer log are those of its two parts. */
  lemma {:induction false} ToastsAppend(a: seq<Effect>, b: seq<Effect>)
    ensures Toasts(a + b) == Toasts(a) + Toasts(b)
  {
    if a == [] {
      assert a + b == b;
    } else {
      assert (a + b)[0] == a[0] && (a + b)[1..] == a[1..] + b;
      ToastsAppend(a[1..], b);
      var head := if a[0].Toast? then [a[0].notification] else [];
      assert Toasts(a + b) == head + (Toasts(a[1..]) + Toasts(b));
    }
  }

  /** A toast is no call, a call no toast. */
  lemma Single(e: Effect)
    ensures Calls([e]) == (if e.Remote? then [e.call] else [])
    ensures Toasts([e]) == (if e.Toast? then [e.notification] else [])
  {
    assert [e][1..] == [];
  }

  lemma Pair(e: Effect, f: Effect)
    ensures Calls([e, f]) == Calls([e]) + Calls([f])
    ensures Toasts([e, f]) == Toasts([e]) + Toasts([f])
  {
    assert [e, f] == [e] + [f];
    CallsAppend([e], [f]);
    ToastsAppend([e], [f]);
  }

  /** What a refresh at the end of a `try` block contributes: one call,
      and one error toast exactly when it rejects. */
  lemma RefreshOutcomeViews(refresh: Reply, fallback: string)
    ensures Calls(RefreshOutcome(refresh, fallback)) == [Refresh]
    ensures Toasts(RefreshOutcome(refresh, fallback)) ==
      if refresh.Rejected? then [Notification("Error", Defined(ServerMessageOr(refresh.error, fallback)), Error)] else []
  {
    var e := Remote(Refresh, refresh);
    Single(e);
    if refresh.Rejected? {
      Pair(e, CatchToast(refresh.error, fallback));
      Single(CatchToast(refresh.error, fallback));
    } else {
      assert RefreshOutcome(refresh, fallback) == [e];
    }
  }
}
