/**
 * `/api/vapi-webhook`: the event-type choice, the `checkCallAllowed`
 * function-call gate and the `end-of-call-report` bookkeeping (call log
 * row and usage counter).
 */
module Webhook {
  import opened Wrappers
  import opened Users
  import Lists

  // ---------------------------------------------------------------------------
  // The webhook event, with the fields the handler reads. Optional chaining
  // (`call?.customer?.number`) becomes `Option`; timestamps are milliseconds.
  // ---------------------------------------------------------------------------

  datatype Call = Call(
    id: Option<string>,
    assistantId: Option<string>,
    customerNumber: Option<string>,
    startedAt: StartTime,
    endedAt: Option<int>)

  /**
   * `call.startedAt`: `new Date(undefined)` is an invalid date (NaN), while
   * `new Date(null)` is the epoch, 0 milliseconds.
   */
  datatype StartTime = Undefined | Null | At(ms: int)

  datatype Message = Message(
    msgType: Option<string>,
    status: Option<string>,
    call: Option<Call>,
    phoneNumber: Option<string>,      // `message.phoneNumber?.number`: the number that received the call
    functionCallName: Option<string>,
    transcript: Option<string>,
    recordingUrl: Option<string>)

  datatype Event = Event(message: Option<Message>, eventType: Option<string>)

  const EndOfCallReport := "end-of-call-report"
  const FunctionCall := "function-call"
  const CheckCallAllowedName := "checkCallAllowed"

  /** JavaScript truthiness of an optional string: present and non-empty. */
  predicate Truthy(s: Option<string>) {
    s.Some? && s.value != ""
  }

  /** `s || null`. */
  function OrNull(s: Option<string>): (r: Option<string>)
    ensures r.Some? <==> Truthy(s)
    ensures r.Some? ==> r == s
  {
    if Truthy(s) then s else None
  }

  /** `event.message?.type || event.type`. */
  function EventType(e: Event): (t: Option<string>)
    ensures e.message.Some? && Truthy(e.message.value.msgType) ==> t == e.message.value.msgType
    ensures !(e.message.Some? && Truthy(e.message.value.msgType)) ==> t == e.eventType
  {
    if e.message.Some? && Truthy(e.message.value.msgType) then e.message.value.msgType else e.eventType
  }

  /** `message.call?.customer?.number`. */
  function CustomerNumber(m: Message): Option<string> {
    if m.call.Some? then m.call.value.customerNumber else None
  }

  // ---------------------------------------------------------------------------
  // checkCallAllowed
  // ---------------------------------------------------------------------------

  const NotRegistered := "Phone number not registered"
  const LimitReached := "Monthly call limit reached. Please upgrade your plan."

  /** The `result` object of the function-call reply. */
  datatype CallCheck = Denied(message: string) | Allowed(callsRemaining: int)

  /** Registration is checked first, then the monthly limit. */
  function CheckCallAllowed(user: Option<User>): (r: CallCheck)
    ensures user.None? ==> r == Denied(NotRegistered)
    ensures user.Some? && user.value.callsUsedThisMonth >= user.value.callsLimit ==> r == Denied(LimitReached)
    ensures r.Allowed? <==> user.Some? && user.value.callsUsedThisMonth < user.value.callsLimit
    ensures r.Allowed? ==> r.callsRemaining >= 1
    ensures r.Allowed? ==> r.callsRemaining == user.value.callsLimit - user.value.callsUsedThisMonth
  {
    match user
    case None => Denied(NotRegistered)
    case Some(u) =>
      if u.callsUsedThisMonth >= u.callsLimit then Denied(LimitReached)
      else Allowed(u.callsLimit - u.callsUsedThisMonth)
  }

  // ---------------------------------------------------------------------------
  // end-of-call-report
  // ---------------------------------------------------------------------------

  datatype Persona = Persona(id: string, name: string)

  /** The persona table hard-coded in the handler. */
  const Personas: seq<Persona> := [
    Persona("37c03d2d-c045-42f5-b8f5-53beca2b34d8", "Herbert"),
    Persona("23ed87ac-9f1e-4353-a3aa-c27d70d93342", "Jolene"),
    Persona("d99eeb74-6dad-4149-ac33-e2c7bb0dba57", "Derek"),
    Persona("b2243844-0748-442f-b7c8-395b6f342e0f", "Danny")
  ]

  lemma PersonaIdsDistinct()
    ensures forall i, j :: 0 <= i < j < |Personas| ==> Personas[i].id != Personas[j].id
  {
  }

  /** `personas.find(p => p.id === assistantId)?.name || 'Unknown'`. */
  function AgentName(assistantId: Option<string>): string {
    match Lists.Find(Personas, (p: Persona) => Some(p.id) == assistantId)
    case Some(p) => if p.name != "" then p.name else "Unknown"
    case None => "Unknown"
  }

  /** The agent name is that of the persona with the call's assistant id, else 'Unknown'. */
  lemma AgentNameLookup(assistantId: Option<string>)
    ensures forall i :: 0 <= i < |Personas| && assistantId == Some(Personas[i].id) ==>
      AgentName(assistantId) == Personas[i].name
    ensures (forall i :: 0 <= i < |Personas| ==> assistantId != Some(Personas[i].id)) ==>
      AgentName(assistantId) == "Unknown"
  {
    PersonaIdsDistinct();
  }

  /** Call length in whole seconds; NotANumber is the NaN of a missing start time. */
  datatype Seconds = Whole(n: int) | NotANumber

  /** The start time in milliseconds as `new Date(startedAt)` reads it; `None` is NaN. */
  function StartMillis(t: StartTime): Option<int> {
    match t
    case Undefined => None
    case Null => Some(0)
    case At(ms) => Some(ms)
  }

  /** `endedAt ? Math.floor((new Date(endedAt) - new Date(startedAt)) / 1000) : 0`. */
  function CallDuration(call: Option<Call>): (d: Seconds)
    ensures call.None? || call.value.endedAt.None? ==> d == Whole(0)
    ensures call.Some? && call.value.endedAt.Some? && call.value.startedAt.Undefined? ==> d == NotANumber
    ensures call.Some? && call.value.endedAt.Some? && !call.value.startedAt.Undefined? ==>
      && d.Whole?
      && var elapsed := call.value.endedAt.value - StartMillis(call.value.startedAt).value;
      d.n * 1000 <= elapsed < d.n * 1000 + 1000
    ensures call.Some? && call.value.endedAt.Some? && call.value.startedAt.Null? ==>
      d.Whole? && d.n * 1000 <= call.value.endedAt.value < d.n * 1000 + 1000
  {
    if call.None? || call.value.endedAt.None? then Whole(0)
    else match StartMillis(call.value.startedAt)
      case None => NotANumber
      case Some(start) => Whole((call.value.endedAt.value - start) / 1000)
  }

  /** A row of the `call_logs` table. */
  datatype CallLog = CallLog(
    userId: string,
    callerPhoneNumber: Option<string>,
    agentName: string,
    agentId: Option<string>,
    callDuration: Seconds,
    callStatus: string,
    vapiCallId: Option<string>,
    transcript: Option<string>,
    recordingUrl: Option<string>)

  /** The row inserted for user `u` from the `end-of-call-report` message `m`. */
  function CallLogFor(u: User, m: Message): CallLog {
    var assistantId := if m.call.Some? then m.call.value.assistantId else None;
    CallLog(
      u.id,
      CustomerNumber(m),
      AgentName(assistantId),
      assistantId,
      CallDuration(m.call),
      "completed",
      if m.call.Some? then m.call.value.id else None,
      OrNull(m.transcript),
      OrNull(m.recordingUrl))
  }

  /** The logged row belongs to the user, names the persona (or 'Unknown') and records the call's duration. */
  lemma CallLogRecord(u: User, m: Message)
    ensures var log := CallLogFor(u, m);
      && log.userId == u.id
      && log.callStatus == "completed"
      && log.callerPhoneNumber == CustomerNumber(m)
      && (m.call.None? ==> log.agentName == "Unknown" && log.callDuration == Whole(0))
      && (m.call.Some? ==> log.agentId == m.call.value.assistantId)
      && (forall i :: 0 <= i < |Personas| && m.call.Some? && m.call.value.assistantId == Some(Personas[i].id) ==>
            log.agentName == Personas[i].name)
      && (m.call.Some? && (forall i :: 0 <= i < |Personas| ==> m.call.value.assistantId != Some(Personas[i].id)) ==>
            log.agentName == "Unknown")
      && log.callDuration == CallDuration(m.call)
      && (m.call.Some? ==> log.vapiCallId == m.call.value.id)
      && log.transcript == OrNull(m.transcript)
      && log.recordingUrl == OrNull(m.recordingUrl)
  {
    AgentNameLookup(None);
    if m.call.Some? {
      AgentNameLookup(m.call.value.assistantId);
    }
  }

  /**
   * `update({calls_used_this_month: user.calls_used_this_month + 1, updated_at: now}).eq('id', user.id)`:
   * the row with the snapshot's id gets the snapshot's count plus one.
   */
  function Incremented(users: map<string, User>, u: User, now: int): (r: map<string, User>)
    ensures r.Keys == users.Keys
    ensures u.id in users ==> r[u.id] == users[u.id].(callsUsedThisMonth := u.callsUsedThisMonth + 1, updatedAt := now)
    ensures forall id :: id in users && id != u.id ==> r[id] == users[id]
  {
    if u.id in users then
      users[u.id := users[u.id].(callsUsedThisMonth := u.callsUsedThisMonth + 1, updatedAt := now)]
    else users
  }

  /**
   * Recording a call consumes exactly one unit of the allowance seen by
   * `checkCallAllowed`, and an exhausted allowance stays exhausted.
   */
  lemma RecordedCallConsumesOne(users: map<string, User>, u: User, now: int)
    requires u.id in users && users[u.id] == u
    ensures var after := Incremented(users, u, now)[u.id];
      && after.callsUsedThisMonth == u.callsUsedThisMonth + 1
      && (CheckCallAllowed(Some(u)).Allowed? && CheckCallAllowed(Some(u)).callsRemaining > 1 ==>
            CheckCallAllowed(Some(after)) == Allowed(CheckCallAllowed(Some(u)).callsRemaining - 1))
      && (CheckCallAllowed(Some(u)) == Allowed(1) ==> CheckCallAllowed(Some(after)) == Denied(LimitReached))
      && (CheckCallAllowed(Some(u)) == Denied(LimitReached) ==> CheckCallAllowed(Some(after)) == Denied(LimitReached))
  {
  }

  // ---------------------------------------------------------------------------
  // The handler
  // ---------------------------------------------------------------------------

  const UserNotFound := "User not found"

  /** The JSON the handler answers with. */
  datatype Response =
    | Received                              // { received: true }
    | ReceivedWithWarning(warning: string)  // { received: true, warning }
    | FunctionResult(result: CallCheck)     // { result: { allowed, ... } }
    | ServerError                           // status 500: an exception was thrown

  /** The two tables the handler writes. */
  class Database {
    var users: map<string, User>   // keyed by the primary key `id`
    var callLogs: seq<CallLog>     // in insertion order

    /** Each row is stored under its own id; `lookup` stays a separate parameter, so this ties nothing else. */
    ghost predicate Valid()
      reads this
    {
      forall id :: id in users ==> users[id].id == id
    }

    constructor (initial: map<string, User>)
      requires forall id :: id in initial ==> initial[id].id == id
      ensures Valid() && users == initial && callLogs == []
    {
      users := initial;
      callLogs := [];
    }

    /**
     * Handles one webhook event. `lookup` stands for the users-table query by
     * phone number followed by `.single()`; `now` is the clock; `logInsertOk`
     * says whether the call-log insert succeeded (a failure is only logged).
     */
    method HandleWebhook(event: Event, lookup: Option<string> -> Option<User>, now: int, logInsertOk: bool)
      returns (resp: Response)
      requires Valid()
      modifies this
      ensures Valid()
      // end-of-call-report with no message: `callData.call` throws
      ensures EventType(event) == Some(EndOfCallReport) && event.message.None? ==>
        resp == ServerError && users == old(users) && callLogs == old(callLogs)
      // end-of-call-report for an unknown receiving number: warning, nothing written
      ensures EventType(event) == Some(EndOfCallReport) && event.message.Some? &&
              lookup(event.message.value.phoneNumber).None? ==>
        resp == ReceivedWithWarning(UserNotFound) && users == old(users) && callLogs == old(callLogs)
      // end-of-call-report for a user: one log row (when the insert works) and the counter bumped
      ensures EventType(event) == Some(EndOfCallReport) && event.message.Some? &&
              lookup(event.message.value.phoneNumber).Some? ==>
        var u := lookup(event.message.value.phoneNumber).value;
        && resp == Received
        && callLogs == old(callLogs) + (if logInsertOk then [CallLogFor(u, event.message.value)] else [])
        && users == Incremented(old(users), u, now)
      // checkCallAllowed, looked up by the caller's number
      ensures EventType(event) == Some(FunctionCall) && event.message.Some? &&
              event.message.value.functionCallName == Some(CheckCallAllowedName) ==>
        resp == FunctionResult(CheckCallAllowed(lookup(CustomerNumber(event.message.value))))
        && users == old(users) && callLogs == old(callLogs)
      // every other event is only acknowledged
      ensures EventType(event) != Some(EndOfCallReport) &&
              !(EventType(event) == Some(FunctionCall) && event.message.Some? &&
                event.message.value.functionCallName == Some(CheckCallAllowedName)) ==>
        resp == Received && users == old(users) && callLogs == old(callLogs)
    {
      var eventType := EventType(event);
      if eventType == Some(EndOfCallReport) {
        if event.message.None? {
          return ServerError;
        }
        var callData := event.message.value;
        var user := lookup(callData.phoneNumber);
        if user.None? {
          return ReceivedWithWarning(UserNotFound);
        }
        var u := user.value;
        // the over-limit test at this point only logs
        if logInsertOk {
          callLogs := callLogs + [CallLogFor(u, callData)];
        }
        users := Incremented(users, u, now);
      }
      if eventType == Some(FunctionCall) {
        var functionName := if event.message.Some? then event.message.value.functionCallName else None;
        if functionName == Some(CheckCallAllowedName) {
          var user := lookup(CustomerNumber(event.message.value));
          return FunctionResult(CheckCallAllowed(user));
        }
      }
      resp := Received;
    }
  }

  /**
   * A user already over the limit is still counted: the end-of-call counter
   * becomes the snapshot's count plus one whatever the limit.
   */
  lemma OverLimitStillCounted(users: map<string, User>, u: User, now: int)
    requires u.id in users && u.callsUsedThisMonth >= u.callsLimit
    ensures Incremented(users, u, now)[u.id].callsUsedThisMonth == u.callsUsedThisMonth + 1
    ensures Incremented(users, u, now)[u.id].callsUsedThisMonth > u.callsLimit
  {
  }
}
