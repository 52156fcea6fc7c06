# Club, event and registration managers

This project models three Lightning Web Components of a Salesforce app
that manages clubs, their events and team registrations for those events.
Each component keeps some form fields and a displayed list, and runs a small
pipeline:

1. validate the form;
2. make the remote (Apex) write;
3. show a toast;
4. reset the form;
5. refresh the cached list.

Each component also has a row action that only knows `delete`.

Each component is a Dafny `class` whose fields are the component's fields,
plus `effects`, a log of what the component did that can be seen from
outside, in order:

- the toasts it showed;
- every remote call, with its arguments and how it settled;
- the delayed refresh it scheduled;
- a rejection that nothing catches.

Remote outcomes are parameters of the handlers (`Reply`: resolved with a
value, or rejected with an error that may carry `body.message`). Every
success and failure path is therefore a call of the same method.

Each handler is specified by a pure function of the form it starts with and
of the remote outcomes. That function returns the form it ends with and the
effects it appends (`Step`). The method's `ensures` ties the new fields and
the new log to that function. The lemmas then state what the components
promise through two views of the log: `Calls` (the remote calls, in order)
and `Toasts` (the notifications, in order).

Modules:

- `JsRuntime` covers the JavaScript semantics the code relies on:
  - `undefined`/`null`/a value;
  - string truthiness;
  - `v || fallback`;
  - `a?.b`;
  - `Array.prototype.map`.
- `JsNumbers` covers:
  - the global `parseInt` (section 19.2.5 of ECMA-262) for the two radix arguments used: leading white space, one sign, a `0x` prefix when the radix is omitted, the longest digit prefix, `NaN`;
  - `Number::toString` for integers.
- `Lightning` holds the toast, remote call, reply and effect types, the `error.body?.message || fallback` rule, and the `Calls`/`Toasts` views.
- `Records` holds the shapes of the queried records, with related records and numeric fields that may be missing.
- `ClubManagerComponent`, `EventManagerComponent` and `ParticipantRegistrationComponent` hold one component each.

The registration pipeline has an invariant of its own.
`ParticipantRegistration.Valid()` says that every `createRegistration` in the
log comes right after a `createParticipant` that resolved with the
identifier it passes. Every handler keeps this invariant.

Behaviours of the code worth knowing, all modelled as written:

- **Club delete without an error body.** Every other failed call shows exactly one error toast. The `catch` of `deleteClubRecord` instead reads `error.body.message` without `?.` and has no fallback. An error without a body makes the `catch` itself throw, so no toast appears and the handler's promise rejects (`UnhandledRejection`).
- **Refresh failure after a success.** An awaited `refreshApex` that rejects inside a `try` reaches the same `catch`, after the success toast has already been shown.
  - For club, event and registration creates, and for event and registration deletes, an error toast follows with the server message or that `catch`'s fallback.
  - For a club delete, the refresh error's message follows verbatim, with no fallback. When that error has no body, no toast follows and the rejection escapes.
- **No numeric check.** There is no check before `createEvent`: it receives `parseInt(max, 10)` even when that is `NaN`.
- **Null counts.** The event counts default to 0 only when `undefined`, so a `null` count stays `null`.
- **Hex team count.** The registration count is parsed with `parseInt` without a radix, so text that starts with `0x` is read in base 16 (`0x1A` is 26). `parseInt(…, 10)` reads the same text as 0.

## Model

| member | source | states |
|---|---|---|
| JsRuntime.StringOr | force-app/main/default/lwc/eventManager/eventManager.js:37 | `v \|\| fallback` is either the fallback or the value itself; it is empty only when both are, so a non-empty fallback never yields an empty string |
| JsRuntime.Map | force-app/main/default/lwc/participantRegistration/participantRegistration.js:48-55 | `xs.map(f)` keeps the length and order: element `i` is `f(xs[i])` |
| JsNumbers.DigitRun | force-app/main/default/lwc/eventManager/eventManager.js:81 | the digit run `parseInt` reads is all digits of the radix and stops at the first non-digit |
| JsNumbers.NaturalString | force-app/main/default/lwc/participantRegistration/participantRegistration.js:87 | the decimal numeral of a number has at least one character, all of them `0`-`9` |
| JsNumbers.NaturalStringValue | force-app/main/default/lwc/participantRegistration/participantRegistration.js:87 | reading back a decimal numeral's digits gives the number |
| JsNumbers.DigitRunOfDigits | force-app/main/default/lwc/eventManager/eventManager.js:81 | a run of digits followed by a non-digit is read exactly up to that non-digit |
| JsNumbers.UnsignedOfNumeral | force-app/main/default/lwc/participantRegistration/participantRegistration.js:87 | a numeral has no leading white space; its `-` sign is recognised exactly for negative numbers and the digits remain |
| JsNumbers.ParseDigitsOfNumeral | force-app/main/default/lwc/eventManager/eventManager.js:81 | the digits of a numeral followed by a non-digit are read as the number |
| JsNumbers.ParseIntStopsAtNonDigit | force-app/main/default/lwc/eventManager/eventManager.js:81 | `parseInt(String(n) + rest, 10)` is `n` when `rest` does not start with a digit (lenient prefix reading) |
| JsNumbers.ParseIntRadixAgree | force-app/main/default/lwc/participantRegistration/participantRegistration.js:87 | without a radix `parseInt` reads the same value as with radix 10 unless the unsigned text starts with `0x`/`0X` |
| JsNumbers.ParseIntRoundTrip | force-app/main/default/lwc/eventManager/eventManager.js:81 | `parseInt(String(n))` is `n` for both radix arguments |
| JsNumbers.ParseNumberField | force-app/main/default/lwc/participantRegistration/participantRegistration.js:87 | a field holding a number reaches the remote call as that number |
| JsNumbers.HexPrefixNeedsUnspecifiedRadix | force-app/main/default/lwc/participantRegistration/participantRegistration.js:87 | the two call sites differ: `parseInt("0x1A")` is 26, `parseInt("0x1A", 10)` is 0 |
| JsNumbers.HexPrefixReadsBase16 | force-app/main/default/lwc/participantRegistration/participantRegistration.js:87 | for any text whose unsigned part starts with `0x`/`0X`: `parseInt(…, 10)` is 0; without a radix it is the signed base-16 value of the hex digits after the prefix, and `NaN` exactly when no hex digit follows |
| JsNumbers.ParseIntNaN | force-app/main/default/lwc/eventManager/eventManager.js:81 | `parseInt(s, 10)` is `NaN` exactly when no digit follows the white space and the sign |
| Lightning.ServerMessageOr | force-app/main/default/lwc/eventManager/eventManager.js:92 | `error.body?.message \|\| fallback` is the server's message when the error has a non-empty one, the fallback otherwise |
| Lightning.CallsAppend | force-app/main/default/lwc/eventManager/eventManager.js:77-93 | the remote calls of a log made of two parts are those of the first part followed by those of the second |
| Lightning.ToastsAppend | force-app/main/default/lwc/eventManager/eventManager.js:77-93 | the toasts of a log made of two parts are those of the first part followed by those of the second |
| Lightning.RefreshOutcomeViews | force-app/main/default/lwc/eventManager/eventManager.js:89-93 | an awaited refresh at the end of a `try` is one call, plus one error toast exactly when it rejects |
| ClubManagerComponent.AddClubBlankName | force-app/main/default/lwc/clubManager/clubManager.js:40-43 | an empty name gives exactly one warning toast and no remote call, and keeps the name |
| ClubManagerComponent.AddClubCreateSucceeds | force-app/main/default/lwc/clubManager/clubManager.js:45-51 | `createClub` gets the current name; the success toast comes next, then the refresh; the name is cleared |
| ClubManagerComponent.AddClubCreateFails | force-app/main/default/lwc/clubManager/clubManager.js:45-55 | a failed create keeps the name, makes no refresh and shows one error toast with the server message or "Error creating club" |
| ClubManagerComponent.AddClubClearsOnlyAfterWrite | force-app/main/default/lwc/clubManager/clubManager.js:39-56 | the name either stays or becomes empty, and it becomes empty only after a successful create of a non-empty name |
| ClubManagerComponent.DeleteClubFailsWithBody | force-app/main/default/lwc/clubManager/clubManager.js:69-77 | a failed delete shows the server's message verbatim (no fallback) and makes no refresh |
| ClubManagerComponent.DeleteClubFailsWithoutBody | force-app/main/default/lwc/clubManager/clubManager.js:74-76 | a failed delete whose error has no body shows no toast; the rejection escapes the handler |
| ClubManagerComponent.DeleteClubSucceeds | force-app/main/default/lwc/clubManager/clubManager.js:71-73 | a successful delete of the row's id shows one success toast, then refreshes |
| ClubManagerComponent.DeleteClubRefreshFails | force-app/main/default/lwc/clubManager/clubManager.js:69-77 | when the delete succeeds but the refresh rejects, the success toast is followed by the refresh error's message verbatim, or, for an error without a body, by no toast and an escaping rejection |
| ClubManagerComponent.ClubManager.constructor | force-app/main/default/lwc/clubManager/clubManager.js:9-12 | the name starts empty, the list empty, no wire result yet |
| ClubManagerComponent.ClubManager.WiredGetClubs | force-app/main/default/lwc/clubManager/clubManager.js:23-31 | the wire result is kept; fetched data replaces the list verbatim; an error keeps the list and shows one error toast |
| ClubManagerComponent.ClubManager.HandleNameChange | force-app/main/default/lwc/clubManager/clubManager.js:34-36 | the name becomes the input's value |
| ClubManagerComponent.ClubManager.HandleAddClub | force-app/main/default/lwc/clubManager/clubManager.js:39-56 | the new name and the appended effects are those of the add pipeline for the name it started with |
| ClubManagerComponent.ClubManager.HandleRowAction | force-app/main/default/lwc/clubManager/clubManager.js:60-66 | only `delete` does anything, and it deletes the row's club; any other action appends nothing |
| ClubManagerComponent.ClubManager.DeleteClubRecord | force-app/main/default/lwc/clubManager/clubManager.js:69-77 | the appended effects are those of the delete pipeline for the id |
| EventManagerComponent.EventRows | force-app/main/default/lwc/eventManager/eventManager.js:34-40 | one row per record in order with `Id` and `Name` copied; the club's name or "Not Assigned" when the club is missing or its name falsy; each count 0 only when it is `undefined`, otherwise copied |
| EventManagerComponent.ClubOptions | force-app/main/default/lwc/eventManager/eventManager.js:50-53 | one option per club in order, labelled by `Name`, valued by `Id` |
| EventManagerComponent.AddEventIncompleteForm | force-app/main/default/lwc/eventManager/eventManager.js:72-75 | any empty field gives exactly one warning toast and no `createEvent`, and keeps the form |
| EventManagerComponent.AddEventArguments | force-app/main/default/lwc/eventManager/eventManager.js:78-82 | `createEvent` gets the name, the selected club's id and the decimal value of the maximum |
| EventManagerComponent.AddEventCreateSucceeds | force-app/main/default/lwc/eventManager/eventManager.js:84-89 | after a successful create the success toast comes next, then the refresh, and all three fields are empty |
| EventManagerComponent.AddEventCreateFails | force-app/main/default/lwc/eventManager/eventManager.js:90-93 | a failed create keeps every field, makes no refresh and shows one error toast with the server message or "Error creating event" |
| EventManagerComponent.AddEventClearsOnlyAfterWrite | force-app/main/default/lwc/eventManager/eventManager.js:71-94 | the form either stays or becomes empty, and it becomes empty only after a successful create of a complete form |
| EventManagerComponent.DeleteEventFails | force-app/main/default/lwc/eventManager/eventManager.js:104-112 | a failed delete makes no refresh and shows one error toast with the server message or "Error deleting event" |
| EventManagerComponent.DeleteEventSucceeds | force-app/main/default/lwc/eventManager/eventManager.js:105-108 | a successful delete of the id shows its toast next, then refreshes |
| EventManagerComponent.EventManager.constructor | force-app/main/default/lwc/eventManager/eventManager.js:10-15 | all three fields start empty, both lists empty, no wire result yet |
| EventManagerComponent.EventManager.WiredGetEvents | force-app/main/default/lwc/eventManager/eventManager.js:29-44 | the wire result is kept; fetched data becomes the projected rows; an error keeps the table and shows one error toast |
| EventManagerComponent.EventManager.WiredGetClubs | force-app/main/default/lwc/eventManager/eventManager.js:47-57 | fetched clubs become the options; an error keeps them and shows one error toast |
| EventManagerComponent.EventManager.HandleNameChange | force-app/main/default/lwc/eventManager/eventManager.js:59-61 | the event name becomes the input's value |
| EventManagerComponent.EventManager.HandleMaxChange | force-app/main/default/lwc/eventManager/eventManager.js:63-65 | the maximum becomes the input's text |
| EventManagerComponent.EventManager.HandleClubChange | force-app/main/default/lwc/eventManager/eventManager.js:67-69 | the selected club becomes the combobox value |
| EventManagerComponent.EventManager.HandleAddEvent | force-app/main/default/lwc/eventManager/eventManager.js:71-94 | the new fields and the appended effects are those of the add pipeline for the form it started with |
| EventManagerComponent.EventManager.HandleRowAction | force-app/main/default/lwc/eventManager/eventManager.js:96-102 | only `delete` does anything, and it deletes the row's event; any other action appends nothing |
| EventManagerComponent.EventManager.DeleteEventRecord | force-app/main/default/lwc/eventManager/eventManager.js:104-112 | the appended effects are those of the delete pipeline for the id |
| ParticipantRegistrationComponent.RegistrationRows | force-app/main/default/lwc/participantRegistration/participantRegistration.js:48-55 | one row per record in order with `Id` and `Name` copied; participant and event fields come from the related records, and are `undefined` (never an error) when the related record is missing |
| ParticipantRegistrationComponent.EventOptions | force-app/main/default/lwc/participantRegistration/participantRegistration.js:35-38 | one option per event in order, labelled by `Name`, valued by `Id` |
| ParticipantRegistrationComponent.BackedAppend | force-app/main/default/lwc/participantRegistration/participantRegistration.js:84-94 | joining two logs in which every registration follows its participant keeps that property, when the second log does not start with a registration |
| ParticipantRegistrationComponent.RegisterKeepsBacked | force-app/main/default/lwc/participantRegistration/participantRegistration.js:84-94 | a register run keeps every `createRegistration` right after the resolved `createParticipant` whose id it passes |
| ParticipantRegistrationComponent.DeleteKeepsBacked | force-app/main/default/lwc/participantRegistration/participantRegistration.js:121-130 | a row delete keeps that property of the log |
| ParticipantRegistrationComponent.RegisterIncompleteForm | force-app/main/default/lwc/participantRegistration/participantRegistration.js:78-81 | a missing name or event gives exactly one warning toast, no remote call and no delayed refresh of any delay, and keeps every field |
| ParticipantRegistrationComponent.RegisterPassesParticipantId | force-app/main/default/lwc/participantRegistration/participantRegistration.js:84-94 | after `createParticipant` resolves, the next call is `createRegistration` with "Pending Team Name...", the returned id and the selected event |
| ParticipantRegistrationComponent.RegisterParticipantFails | force-app/main/default/lwc/participantRegistration/participantRegistration.js:84-112 | a failed `createParticipant` makes no `createRegistration` and schedules no delayed refresh at all; the form is kept and one error toast shows the server message or "Error during registration" |
| ParticipantRegistrationComponent.RegisterLeavesOrphanParticipant | force-app/main/default/lwc/participantRegistration/participantRegistration.js:90-112 | a failed `createRegistration` is followed by no further call (no delete of the created participant) and no delayed refresh at all; the form is kept and one error toast shows |
| ParticipantRegistrationComponent.RegisterSucceeds | force-app/main/default/lwc/participantRegistration/participantRegistration.js:99-108 | after both calls, one success toast, then the form back to its initial values (empty texts, count 1), then a refresh scheduled after 2000 ms rather than made inline |
| ParticipantRegistrationComponent.RegisterClearsOnlyAfterWrites | force-app/main/default/lwc/participantRegistration/participantRegistration.js:77-114 | the form either stays or returns to its initial values, and it is reset only after both writes succeeded |
| ParticipantRegistrationComponent.ResetTeamCountParsesToOne | force-app/main/default/lwc/participantRegistration/participantRegistration.js:103 | after a reset, the team count `parseInt` sends is 1, as at the start |
| ParticipantRegistrationComponent.DeleteRegistrationFails | force-app/main/default/lwc/participantRegistration/participantRegistration.js:126-129 | a failed delete makes no refresh and shows one error toast with the server message or "Error deleting registration" |
| ParticipantRegistrationComponent.DeleteRegistrationSucceeds | force-app/main/default/lwc/participantRegistration/participantRegistration.js:123-125 | a successful delete of the row's id shows its toast next, then refreshes |
| ParticipantRegistrationComponent.ParticipantRegistration.constructor | force-app/main/default/lwc/participantRegistration/participantRegistration.js:11-17 | empty texts, team count the number 1, empty lists, no wire result, empty (and so valid) log |
| ParticipantRegistrationComponent.ParticipantRegistration.WiredGetEvents | force-app/main/default/lwc/participantRegistration/participantRegistration.js:32-42 | fetched events become the options; an error keeps them and shows one error toast |
| ParticipantRegistrationComponent.ParticipantRegistration.WiredGetRegistrations | force-app/main/default/lwc/participantRegistration/participantRegistration.js:44-61 | the wire result is kept; fetched data becomes the projected rows; an error keeps the table and shows one error toast |
| ParticipantRegistrationComponent.ParticipantRegistration.HandleParticipantChange | force-app/main/default/lwc/participantRegistration/participantRegistration.js:63-65 | the participant name becomes the input's value |
| ParticipantRegistrationComponent.ParticipantRegistration.HandleEmailChange | force-app/main/default/lwc/participantRegistration/participantRegistration.js:66-68 | the email becomes the input's value |
| ParticipantRegistrationComponent.ParticipantRegistration.HandleEventChange | force-app/main/default/lwc/participantRegistration/participantRegistration.js:70-72 | the selected event becomes the combobox value |
| ParticipantRegistrationComponent.ParticipantRegistration.HandleTeamCountChange | force-app/main/default/lwc/participantRegistration/participantRegistration.js:73-75 | the team count becomes the input's text, replacing the initial number |
| ParticipantRegistrationComponent.ParticipantRegistration.HandleRegister | force-app/main/default/lwc/participantRegistration/participantRegistration.js:77-114 | the new fields and the appended effects are those of the register pipeline for the form it started with, and the log stays valid |
| ParticipantRegistrationComponent.ParticipantRegistration.HandleRowAction | force-app/main/default/lwc/participantRegistration/participantRegistration.js:117-131 | only `delete` does anything, and it deletes the row's registration; any other action appends nothing; the log stays valid |
| ParticipantRegistrationComponent.ParticipantRegistration.DeleteRegistrationRow | force-app/main/default/lwc/participantRegistration/participantRegistration.js:122-129 | the appended effects are those of the delete-then-refresh pipeline for the id |

## Left out

- The Lightning framework (`@wire`, `LightningElement`, `dispatchEvent`, `ShowToastEvent`, `refreshApex`): toasts are appended to the log, and a refresh is a logged remote call whose outcome is a parameter.
- The Apex controllers and server-side storage, including the roll-up behind `Registered_Participants__c`: their replies are parameters.
- `setTimeout`: only the scheduling of the delayed refresh and its 2000 ms delay are logged. The comment beside it says five seconds. Real time, the refresh that eventually runs and what happens if it rejects are not modelled.
- Async interleaving: each handler runs to completion before the next one. Overlapping submissions and racing refreshes are a concurrency concern. The fire-and-forget call of `deleteEventRecord`/`deleteClubRecord` from `handleRowAction` is modelled as if awaited.
- `console.log`/`console.error` and the static `columns` arrays: logging and UI metadata only.
- JavaScript numbers are unbounded integers. There are no floating-point values, no exponent notation in `Number::toString`, no `-0`, and no loss of precision for long digit strings. A team count field holds either the initial number or the input's text.
- An error object that is itself `null` or `undefined`: Apex rejections always carry an object, so `error.body` is read without that case.
- The record field the event projection reads is spelled `Max_Partcipants__c` in the code. The model reads it as `maxParticipants` and inherits whatever the query returns under that name.
- `showToast`: it is the `ShowToast` effect constructor, not a separate operation.
