/** The shapes of the records the Apex list queries return, as far as the
    components read them. Related records (`Club__r`, `Participant__r`,
    `Event__r`) and numeric fields may be missing. */
module Records {
  import opened JsRuntime

  /** A `Club__c` record: `Id`, `Name`. */
  datatype ClubRecord = ClubRecord(id: string, name: string)

  /** The related club of an event, `Club__r`. */
  datatype ClubRef = ClubRef(name: JsValue<string>)

  /** An `Event__c` record: `Id`, `Name`, `Club__r`,
      `Registered_Participants__c` and the field the code reads as
      `Max_Partcipants__c`. */
  datatype EventRecord = EventRecord(
    id: string,
    name: string,
    club: JsValue<ClubRef>,
    registeredParticipants: JsValue<int>,
    maxParticipants: JsValue<int>)

  /** The related participant of a registration, `Participant__r`. */
  datatype ParticipantRef = ParticipantRef(
    name: JsValue<string>,
    email: JsValue<string>,
    teamMembersCount: JsValue<int>)

  /** The related event of a registration, `Event__r`. */
  datatype EventRef = EventRef(name: JsValue<string>)

  /** A `Registration__c` record: `Id`, `Name`, `Participant__r`, `Event__r`. */
  datatype RegistrationRecord = RegistrationRecord(
    id: string,
    name: string,
    participant: JsValue<ParticipantRef>,
    event: JsValue<EventRef>)
}
