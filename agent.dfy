/**
 * `agentReply`: one turn of the booking dialogue. The engine reads one line
 * of user text and the current dialogue state, answers with one or more
 * assistant messages and moves to the next state; on a confirmed booking it
 * appends one record to the store.
 *
 * The dialogue walks idle -> ask_service -> ask_date -> ask_time ->
 * ask_name -> ask_email -> ask_phone -> confirm -> completed. Questions
 * about prices or services and a request for help are answered at any step
 * without moving; any text mentioning `book` (and any text at all while
 * idle) starts over at ask_service, keeping what was collected.
 *
 * Message wording is abstracted into the `Reply` kinds below, and the text
 * of `nextPromptFor` into `Prompt`. Booking ids and timestamps, random and
 * clock-based in the source, are parameters.
 */
module Agent {
  import opened Options
  import opened Text
  import opened Times
  import opened Dates
  import opened Config
  import opened Hours
  import opened Catalog
  import opened Store

  datatype Step = Idle | AskService | AskDate | AskTime | AskName | AskEmail | AskPhone | Confirm | Completed

  /** Position of a step along the dialogue. */
  function Rank(step: Step): nat {
    match step
    case Idle => 0
    case AskService => 1
    case AskDate => 2
    case AskTime => 3
    case AskName => 4
    case AskEmail => 5
    case AskPhone => 6
    case Confirm => 7
    case Completed => 8
  }

  /** The booking collected so far (`Partial<BookingRecord>`); a field not yet given is None. */
  datatype Pending = Pending(
    serviceId: Option<string>,
    serviceName: Option<string>,
    durationMinutes: Option<nat>,
    dateISO: Option<string>,
    startTime: Option<string>,
    endTime: Option<string>,
    name: Option<string>,
    email: Option<string>,
    phone: Option<string>)

  const EmptyPending: Pending := Pending(None, None, None, None, None, None, None, None, None)

  /** What `nextPromptFor` asks; the confirmation prompt summarises the pending booking. */
  datatype Prompt =
    | ServicePrompt
    | DatePrompt
    | TimePrompt
    | NamePrompt
    | EmailPrompt
    | PhonePrompt
    | ConfirmPrompt(summary: Pending)
    | DefaultPrompt

  /** `nextPromptFor(step, state)`. */
  function PromptFor(step: Step, p: Pending): Prompt {
    match step
    case AskService => ServicePrompt
    case AskDate => DatePrompt
    case AskTime => TimePrompt
    case AskName => NamePrompt
    case AskEmail => EmailPrompt
    case AskPhone => PhonePrompt
    case Confirm => ConfirmPrompt(p)
    case _ => DefaultPrompt
  }

  /** `AgentState`: the step, the pending booking and the last prompt shown, if any. */
  datatype AgentState = AgentState(step: Step, pending: Pending, lastPrompt: Option<Prompt>)

  /** `createInitialState()`. */
  function InitialState(): (s: AgentState)
    ensures s.step == Idle && s.pending == EmptyPending && s.lastPrompt == None
  {
    AgentState(Idle, EmptyPending, None)
  }

  /** The assistant messages the engine can send, by kind. */
  datatype Reply =
    | Rates
    | ServiceList
    | HelpText
    | Welcome
    | Ask(prompt: Prompt)
    | ServiceNotCaught
    | ServiceChosen(serviceName: string)
    | DateNotUnderstood
    | DateUnavailable
    | DateNoted(dateISO: string)
    | TimeNotUnderstood
    | OutsideHours
    | SlotTaken
    | SlotNoted(start: string, end: string)
    | NameMissing
    | NameThanks
    | EmailInvalid
    | EmailThanks
    | Booked(booking: BookingRecord)
    | StudioInfo
    | AskNewTime
    | ConfirmReminder
    | Fallback

  /** The result of one turn: the messages, the next state and the record saved, if any. */
  datatype Outcome = Outcome(messages: seq<Reply>, next: AgentState, saved: Option<BookingRecord>)

  function SavedRecords(o: Outcome): seq<BookingRecord> {
    if o.saved.Some? then [o.saved.value] else []
  }

  // ---------------------------------------------------------------------------
  // Names and e-mail addresses

  /** The characters `[a-zA-Z\s\-'.]` a name keeps. */
  predicate IsNameChar(c: char) {
    IsLetter(c) || IsSpace(c) || c == '-' || c == '\'' || c == '.'
  }

  /** `replace(/[^a-zA-Z\s\-'.]/g, "")`. */
  function KeepNameChars(s: string): (r: string)
    ensures |r| <= |s|
    ensures forall i :: 0 <= i < |r| ==> IsNameChar(r[i])
  {
    if s == [] then []
    else (if IsNameChar(s[0]) then [s[0]] else []) + KeepNameChars(s[1..])
  }

  /** Text made only of name characters loses nothing. */
  lemma {:induction false} KeepNameCharsOfName(s: string)
    requires forall i :: 0 <= i < |s| ==> IsNameChar(s[i])
    ensures KeepNameChars(s) == s
  {
    if s != [] {
      KeepNameCharsOfName(s[1..]);
      assert s == [s[0]] + s[1..];
    }
  }

  /** A single character is kept exactly when it is a name character. */
  lemma KeepNameCharsOfChar(c: char)
    ensures KeepNameChars([c]) == if IsNameChar(c) then [c] else []
  {
    assert [c][1..] == [];
  }

  /** The filter works character by character: it keeps every name character of the text, in order. */
  lemma {:induction false} KeepNameCharsOfConcat(a: string, b: string)
    ensures KeepNameChars(a + b) == KeepNameChars(a) + KeepNameChars(b)
  {
    if a == [] {
      assert a + b == b;
    } else {
      assert (a + b)[0] == a[0] && (a + b)[1..] == a[1..] + b;
      KeepNameCharsOfConcat(a[1..], b);
    }
  }

  /** The name the engine stores: the kept characters, trimmed. */
  function CleanName(text: string): string {
    Trim(KeepNameChars(text))
  }

  /** A name the engine accepts: at least two characters, all of them name characters, trimmed. */
  predicate IsName(n: string) {
    |n| >= 2 && IsTrimmed(n) && forall i :: 0 <= i < |n| ==> IsNameChar(n[i])
  }

  /** The cleaned name is accepted exactly when it has at least two characters. */
  lemma CleanNameIsName(text: string)
    ensures IsName(CleanName(text)) <==> |CleanName(text)| >= 2
  {
    TrimKeepsNameChars(KeepNameChars(text));
    TrimIsTrimmed(KeepNameChars(text));
  }

  /** Trimming text made of name characters leaves name characters. */
  lemma TrimKeepsNameChars(k: string)
    requires forall i :: 0 <= i < |k| ==> IsNameChar(k[i])
    ensures forall i :: 0 <= i < |Trim(k)| ==> IsNameChar(Trim(k)[i])
  {
    TrimChars(k);
  }

  predicate NoSpaceOrAt(s: string) {
    forall i :: 0 <= i < |s| ==> !IsSpace(s[i]) && s[i] != '@'
  }

  /** `[^\s@]+\.[^\s@]+` on a text already free of spaces and `@`: a dot with something on each side. */
  predicate HasInnerDot(d: string) {
    exists k :: 0 < k < |d| - 1 && d[k] == '.'
  }

  /** `/^[^\s@]+@[^\s@]+\.[^\s@]+$/`. */
  predicate IsEmail(e: string) {
    exists at :: 0 < at < |e| && e[at] == '@' && NoSpaceOrAt(e[..at]) && NoSpaceOrAt(e[at + 1..]) && HasInnerDot(e[at + 1..])
  }

  /** An accepted address has no white space and exactly one `@`. */
  lemma EmailHasOneAt(e: string)
    requires IsEmail(e)
    ensures forall i :: 0 <= i < |e| ==> !IsSpace(e[i])
    ensures exists at :: 0 < at < |e| - 1 && e[at] == '@' && forall i :: 0 <= i < |e| && e[i] == '@' ==> i == at
  {
    var at :| 0 < at < |e| && e[at] == '@' && NoSpaceOrAt(e[..at]) && NoSpaceOrAt(e[at + 1..]) && HasInnerDot(e[at + 1..]);
    forall i | 0 <= i < |e|
      ensures !IsSpace(e[i]) && (e[i] == '@' ==> i == at)
    {
      if i < at {
        assert e[i] == e[..at][i];
      } else if i > at {
        assert e[i] == e[at + 1..][i - at - 1];
      }
    }
  }

  /** Any `local@host.tld` whose three parts are non-empty and free of white space and `@` is accepted. */
  lemma EmailOfParts(local: string, host: string, tld: string)
    requires |local| > 0 && |host| > 0 && |tld| > 0
    requires NoSpaceOrAt(local) && NoSpaceOrAt(host) && NoSpaceOrAt(tld)
    ensures IsEmail(local + "@" + host + "." + tld)
  {
    var e := local + "@" + host + "." + tld;
    var d := host + "." + tld;
    assert e[..|local|] == local;
    assert e[|local| + 1..] == d;
    assert d[|host|] == '.';
    forall i | 0 <= i < |d| ensures !IsSpace(d[i]) && d[i] != '@' {
      if i < |host| {
        assert d[i] == host[i];
      } else if i > |host| {
        assert d[i] == tld[i - |host| - 1];
      }
    }
    assert e[|local|] == '@';
  }

  // ---------------------------------------------------------------------------
  // What a state has collected

  /** The service fields come together from one catalog entry. */
  predicate HasService(p: Pending) {
    exists svc :: svc in Services
      && p.serviceId == Some(svc.id) && p.serviceName == Some(svc.name) && p.durationMinutes == Some(svc.durationMinutes)
  }

  predicate HasDate(p: Pending) {
    p.dateISO.Some? && p.dateISO.value !in BlackoutDates
  }

  /** A start time, the end time the service's duration gives, and a slot inside working hours. */
  predicate HasSlot(p: Pending) {
    && p.dateISO.Some? && p.startTime.Some? && p.endTime.Some?
    && IsTime(p.startTime.value)
    && p.endTime.value == EndTime(p.startTime.value, p.durationMinutes.GetOr(60))
    && IsWithinWorkingHours(p.dateISO.value, p.startTime.value, p.endTime.value)
  }

  predicate HasName(p: Pending) {
    p.name.Some? && IsName(p.name.value)
  }

  predicate HasEmail(p: Pending) {
    p.email.Some? && IsEmail(p.email.value)
  }

  /**
   * The fields each step relies on, each validated as the step that asked
   * for it validates it. The source takes them with non-null assertions
   * (`p.serviceId!`, `state.pending.dateISO!`); this is the invariant that
   * makes those assertions hold.
   */
  predicate Consistent(s: AgentState) {
    var r := Rank(s.step);
    && (2 <= r <= 7 ==> HasService(s.pending))
    && (3 <= r <= 7 ==> HasDate(s.pending))
    && (4 <= r <= 7 ==> HasSlot(s.pending))
    && (5 <= r <= 7 ==> HasName(s.pending))
    && (6 <= r <= 7 ==> HasEmail(s.pending))
  }

  /** From ask_name to confirm, the chosen slot is free in the store. */
  predicate SlotFree(s: AgentState, bookings: seq<BookingRecord>) {
    var p := s.pending;
    4 <= Rank(s.step) <= 7 && HasSlot(p) ==> !Conflicts(bookings, p.dateISO.value, p.startTime.value, p.endTime.value)
  }

  /** Every field a booking record needs is present. */
  predicate Complete(p: Pending) {
    && p.serviceId.Some? && p.serviceName.Some? && p.durationMinutes.Some?
    && p.dateISO.Some? && p.startTime.Some? && p.endTime.Some?
    && p.name.Some? && p.email.Some?
  }

  /** The record saved on confirmation: the pending fields, status `confirmed`. */
  function BookingOf(p: Pending, id: string, now: int): (b: BookingRecord)
    requires Complete(p)
    ensures b.status == Confirmed && b.id == id && b.createdAt == now
    ensures Some(b.serviceId) == p.serviceId && Some(b.serviceName) == p.serviceName
    ensures Some(b.durationMinutes) == p.durationMinutes && Some(b.dateISO) == p.dateISO
    ensures Some(b.startTime) == p.startTime && Some(b.endTime) == p.endTime
    ensures Some(b.name) == p.name && Some(b.email) == p.email && b.phone == p.phone
  {
    BookingRecord(id, p.serviceId.value, p.serviceName.value, p.durationMinutes.value, p.dateISO.value,
                  p.startTime.value, p.endTime.value, p.name.value, p.email.value, p.phone, Confirmed, now)
  }

  /** A stored record as the dialogue produces it. */
  predicate WellFormed(b: BookingRecord) {
    && b.status == Confirmed
    && (exists svc :: svc in Services
          && b.serviceId == svc.id && b.serviceName == svc.name && b.durationMinutes == svc.durationMinutes)
    && b.dateISO !in BlackoutDates
    && IsTime(b.startTime) && b.endTime == EndTime(b.startTime, b.durationMinutes)
    && IsWithinWorkingHours(b.dateISO, b.startTime, b.endTime)
    && IsName(b.name) && IsEmail(b.email)
  }

  // ---------------------------------------------------------------------------
  // One turn

  predicate AsksPrice(lower: string) {
    Contains(lower, "price") || Contains(lower, "how much") || Contains(lower, "cost")
  }

  predicate AsksServices(lower: string) {
    Contains(lower, "service") || Contains(lower, "what do you offer") || Contains(lower, "menu")
  }

  /** The texts answered the same way at every step. */
  predicate IsGlobal(lower: string) {
    AsksPrice(lower) || AsksServices(lower) || lower == "help"
  }

  /** Text that (re)starts the booking at ask_service. */
  predicate Restarts(lower: string, step: Step) {
    step == Idle || Contains(lower, "book")
  }

  /** Only the service fields of `p` and `q` may differ. */
  predicate OnlyService(p: Pending, q: Pending) {
    q == p.(serviceId := q.serviceId, serviceName := q.serviceName, durationMinutes := q.durationMinutes)
  }

  /** ask_service: the reply must name a catalog entry. */
  function ServiceStep(lower: string, state: AgentState): (o: Outcome)
    requires state.step == AskService
    ensures |o.messages| >= 1
  {
    match FindService(lower)
    case None => Outcome([ServiceNotCaught, Ask(ServicePrompt)], state, None)
    case Some(svc) =>
      var pending := state.pending.(serviceId := Some(svc.id), serviceName := Some(svc.name),
                                    durationMinutes := Some(svc.durationMinutes));
      var next := AgentState(AskDate, pending, None);
      Outcome([ServiceChosen(svc.name), Ask(PromptFor(AskDate, pending))], next, None)
  }

  /** ask_date: the reply must be a date and not a blackout date. */
  function DateStep(text: string, state: AgentState, clock: Clock): (o: Outcome)
    requires state.step == AskDate
    ensures |o.messages| >= 1
  {
    match NormalizeDate(text, clock)
    case None => Outcome([DateNotUnderstood], state, None)
    case Some(dateISO) =>
      if dateISO in BlackoutDates then Outcome([DateUnavailable], state, None)
      else
        var pending := state.pending.(dateISO := Some(dateISO));
        Outcome([DateNoted(dateISO), Ask(PromptFor(AskTime, pending))], AgentState(AskTime, pending, None), None)
  }

  /** Why a time reply at ask_time is refused, given the time the pattern read from it, if any. */
  function SlotRejection(start: Option<string>, p: Pending, bookings: seq<BookingRecord>): Option<Reply>
    requires p.dateISO.Some? && (start.Some? ==> IsTime(start.value))
  {
    if start.None? then Some(TimeNotUnderstood)
    else
      var end := EndTime(start.value, p.durationMinutes.GetOr(60));
      if !IsWithinWorkingHours(p.dateISO.value, start.value, end) then Some(OutsideHours)
      else if Conflicts(bookings, p.dateISO.value, start.value, end) then Some(SlotTaken)
      else None
  }

  /** ask_time: the reply must be a time whose slot is inside working hours and free. */
  function TimeStep(text: string, state: AgentState, bookings: seq<BookingRecord>): (o: Outcome)
    requires state.step == AskTime && state.pending.dateISO.Some?
    ensures |o.messages| >= 1
  {
    SlotStep(ParseTime(text), state, bookings)
  }

  /** ask_time once the time pattern has been applied: `start` is what it read. */
  function SlotStep(start: Option<string>, state: AgentState, bookings: seq<BookingRecord>): (o: Outcome)
    requires state.step == AskTime && state.pending.dateISO.Some? && (start.Some? ==> IsTime(start.value))
    ensures |o.messages| >= 1
  {
    match SlotRejection(start, state.pending, bookings)
    case Some(reply) => Outcome([reply], state, None)
    case None =>
      var end := EndTime(start.value, state.pending.durationMinutes.GetOr(60));
      var pending := state.pending.(startTime := start, endTime := Some(end));
      Outcome([SlotNoted(start.value, end), Ask(PromptFor(AskName, pending))], AgentState(AskName, pending, None), None)
  }

  /** ask_name: at least two characters must survive the clean-up. */
  function NameStep(text: string, state: AgentState): (o: Outcome)
    requires state.step == AskName
    ensures |o.messages| >= 1
  {
    var name := CleanName(text);
    if |name| < 2 then Outcome([NameMissing], state, None)
    else
      var pending := state.pending.(name := Some(name));
      Outcome([NameThanks, Ask(PromptFor(AskEmail, pending))], AgentState(AskEmail, pending, None), None)
  }

  /** ask_email: the reply (already trimmed) must have the e-mail shape. */
  function EmailStep(text: string, state: AgentState): (o: Outcome)
    requires state.step == AskEmail
    ensures |o.messages| >= 1
  {
    if !IsEmail(text) then Outcome([EmailInvalid], state, None)
    else
      var pending := state.pending.(email := Some(text));
      Outcome([EmailThanks, Ask(PromptFor(AskPhone, pending))], AgentState(AskPhone, pending, None), None)
  }

  /** ask_phone: any reply is taken; `skip` leaves the phone out. */
  function PhoneStep(text: string, lower: string, state: AgentState): (o: Outcome)
    requires state.step == AskPhone
    ensures |o.messages| >= 1
  {
    var phone := if lower == "skip" then None else Some(text);
    var pending := state.pending.(phone := phone);
    Outcome([Ask(PromptFor(Confirm, pending))], AgentState(Confirm, pending, None), None)
  }

  /** confirm: `yes`/`y` saves the booking and ends; `no`/`n` goes back to the time; anything else asks again. */
  function ConfirmStep(lower: string, state: AgentState, bookingId: string, now: int): (o: Outcome)
    requires state.step == Confirm && Complete(state.pending)
    ensures |o.messages| >= 1
  {
    if lower == "yes" || lower == "y" then
      var booking := BookingOf(state.pending, bookingId, now);
      Outcome([Booked(booking), StudioInfo], AgentState(Completed, EmptyPending, None), Some(booking))
    else if lower == "no" || lower == "n" then
      Outcome([AskNewTime], AgentState(AskTime, state.pending, None), None)
    else
      Outcome([ConfirmReminder], state, None)
  }

  /** The step handlers of `agentReply`, reached when the text is neither a global intent nor a restart. */
  function StepReply(text: string, lower: string, state: AgentState, bookings: seq<BookingRecord>, clock: Clock,
                     bookingId: string, now: int): (o: Outcome)
    requires Consistent(state)
    ensures |o.messages| >= 1
  {
    match state.step
    case AskService => ServiceStep(lower, state)
    case AskDate => DateStep(text, state, clock)
    case AskTime => TimeStep(text, state, bookings)
    case AskName => NameStep(text, state)
    case AskEmail => EmailStep(text, state)
    case AskPhone => PhoneStep(text, lower, state)
    case Confirm => ConfirmStep(lower, state, bookingId, now)
    case _ => Outcome([Fallback], state, None)
  }

  /**
   * `agentReply(userText, state)` against the stored bookings, the clock,
   * and the id and timestamp a saved booking would get.
   */
  function Respond(userText: string, state: AgentState, bookings: seq<BookingRecord>, clock: Clock,
                   bookingId: string, now: int): (o: Outcome)
    requires Consistent(state)
    ensures |o.messages| >= 1
  {
    var text := Trim(userText);
    Dispatch(text, Lower(text), state, bookings, clock, bookingId, now)
  }

  /** `agentReply` once the text is trimmed (`text`) and lower-cased (`lower`). */
  function Dispatch(text: string, lower: string, state: AgentState, bookings: seq<BookingRecord>, clock: Clock,
                    bookingId: string, now: int): (o: Outcome)
    requires Consistent(state)
    ensures |o.messages| >= 1
  {
    if AsksPrice(lower) then
      Outcome([Rates], state.(lastPrompt := Some(PromptFor(state.step, state.pending))), None)
    else if AsksServices(lower) then
      Outcome([ServiceList], state.(lastPrompt := Some(PromptFor(state.step, state.pending))), None)
    else if lower == "help" then
      Outcome([HelpText], state, None)
    else if Restarts(lower, state.step) then
      var prompt := PromptFor(AskService, state.pending);
      Outcome([Welcome, Ask(prompt)], AgentState(AskService, state.pending, Some(prompt)), None)
    else StepReply(text, lower, state, bookings, clock, bookingId, now)
  }

  /** The ask_service block of `agentReply`. */
  method ServiceTurn(lower: string, state: AgentState) returns (messages: seq<Reply>, newState: AgentState)
    requires state.step == AskService
    ensures messages == ServiceStep(lower, state).messages && newState == ServiceStep(lower, state).next
  {
    messages := [];
    var svc := FindService(lower);
    if svc.None? {
      messages := messages + [ServiceNotCaught];
      messages := messages + [Ask(PromptFor(AskService, state.pending))];
      return messages, state;
    }
    var pending := state.pending.(serviceId := Some(svc.value.id), serviceName := Some(svc.value.name),
                                  durationMinutes := Some(svc.value.durationMinutes));
    newState := AgentState(AskDate, pending, None);
    messages := messages + [ServiceChosen(svc.value.name)];
    messages := messages + [Ask(PromptFor(AskDate, pending))];
  }

  /** The ask_date block of `agentReply`. */
  method DateTurn(text: string, state: AgentState, clock: Clock) returns (messages: seq<Reply>, newState: AgentState)
    requires state.step == AskDate
    ensures messages == DateStep(text, state, clock).messages && newState == DateStep(text, state, clock).next
  {
    messages := [];
    var dateISO := NormalizeDate(text, clock);
    if dateISO.None? {
      messages := messages + [DateNotUnderstood];
      return messages, state;
    }
    if dateISO.value in BlackoutDates {
      messages := messages + [DateUnavailable];
      return messages, state;
    }
    var pending := state.pending.(dateISO := dateISO);
    newState := AgentState(AskTime, pending, None);
    messages := messages + [DateNoted(dateISO.value)];
    messages := messages + [Ask(PromptFor(AskTime, pending))];
  }

  /** The ask_time block of `agentReply`: the time pattern, then the slot checks. */
  method TimeTurn(text: string, state: AgentState, store: BookingStore) returns (messages: seq<Reply>, newState: AgentState)
    requires state.step == AskTime && state.pending.dateISO.Some?
    ensures messages == TimeStep(text, state, store.bookings).messages
    ensures newState == TimeStep(text, state, store.bookings).next
  {
    var start := ParseTime(text);
    messages, newState := SlotTurn(start, state, store);
  }

  /** The slot checks of the ask_time block; the conflict check reads the store. */
  method SlotTurn(start: Option<string>, state: AgentState, store: BookingStore)
      returns (messages: seq<Reply>, newState: AgentState)
    requires state.step == AskTime && state.pending.dateISO.Some? && (start.Some? ==> IsTime(start.value))
    ensures messages == SlotStep(start, state, store.bookings).messages
    ensures newState == SlotStep(start, state, store.bookings).next
  {
    ghost var rejection := SlotRejection(start, state.pending, store.bookings);
    messages := [];
    var dur := state.pending.durationMinutes.GetOr(60);
    if start.None? {
      assert rejection == Some(TimeNotUnderstood);
      messages := messages + [TimeNotUnderstood];
      return messages, state;
    }
    var end := EndTime(start.value, dur);
    var dateISO := state.pending.dateISO.value;
    if !IsWithinWorkingHours(dateISO, start.value, end) {
      assert rejection == Some(OutsideHours);
      messages := messages + [OutsideHours];
      return messages, state;
    }
    var taken := store.HasConflict(dateISO, start.value, end);
    if taken {
      assert rejection == Some(SlotTaken);
      messages := messages + [SlotTaken];
      return messages, state;
    }
    assert rejection == None;
    var pending := state.pending.(startTime := start, endTime := Some(end));
    newState := AgentState(AskName, pending, None);
    messages := messages + [SlotNoted(start.value, end)];
    messages := messages + [Ask(PromptFor(AskName, pending))];
  }

  /** The ask_name block of `agentReply`. */
  method NameTurn(text: string, state: AgentState) returns (messages: seq<Reply>, newState: AgentState)
    requires state.step == AskName
    ensures messages == NameStep(text, state).messages && newState == NameStep(text, state).next
  {
    messages := [];
    var name := CleanName(text);
    if |name| < 2 {
      messages := messages + [NameMissing];
      return messages, state;
    }
    var pending := state.pending.(name := Some(name));
    newState := AgentState(AskEmail, pending, None);
    messages := messages + [NameThanks];
    messages := messages + [Ask(PromptFor(AskEmail, pending))];
  }

  /** The ask_email block of `agentReply`. */
  method EmailTurn(text: string, state: AgentState) returns (messages: seq<Reply>, newState: AgentState)
    requires state.step == AskEmail
    ensures messages == EmailStep(text, state).messages && newState == EmailStep(text, state).next
  {
    messages := [];
    var email := text;
    if !IsEmail(email) {
      messages := messages + [EmailInvalid];
      return messages, state;
    }
    var pending := state.pending.(email := Some(email));
    newState := AgentState(AskPhone, pending, None);
    messages := messages + [EmailThanks];
    messages := messages + [Ask(PromptFor(AskPhone, pending))];
  }

  /** The ask_phone block of `agentReply`. */
  method PhoneTurn(text: string, lower: string, state: AgentState) returns (messages: seq<Reply>, newState: AgentState)
    requires state.step == AskPhone
    ensures messages == PhoneStep(text, lower, state).messages && newState == PhoneStep(text, lower, state).next
  {
    messages := [];
    var phone := if lower == "skip" then None else Some(text);
    var pending := state.pending.(phone := phone);
    newState := AgentState(Confirm, pending, None);
    messages := messages + [Ask(PromptFor(Confirm, pending))];
  }

  /** The confirm block of `agentReply`: on `yes`/`y` the booking is saved into the store. */
  method ConfirmTurn(lower: string, state: AgentState, store: BookingStore, bookingId: string, now: int)
      returns (messages: seq<Reply>, newState: AgentState)
    requires state.step == Confirm && Complete(state.pending)
    modifies store
    ensures var o := ConfirmStep(lower, state, bookingId, now);
            messages == o.messages && newState == o.next && store.bookings == old(store.bookings) + SavedRecords(o)
  {
    messages := [];
    if lower == "yes" || lower == "y" {
      var booking := BookingOf(state.pending, bookingId, now);
      store.Save(booking);
      messages := messages + [Booked(booking)];
      messages := messages + [StudioInfo];
      return messages, AgentState(Completed, EmptyPending, None);
    }
    if lower == "no" || lower == "n" {
      newState := AgentState(AskTime, state.pending, None);
      messages := messages + [AskNewTime];
      return;
    }
    messages := messages + [ConfirmReminder];
    return messages, state;
  }

  /** A confirm-step state has every field the booking record needs. */
  lemma ConfirmIsComplete(state: AgentState)
    requires Consistent(state) && state.step == Confirm
    ensures Complete(state.pending)
  {
  }

  /** The step handlers of `agentReply`. */
  method StepTurn(text: string, lower: string, state: AgentState, store: BookingStore, clock: Clock,
                  bookingId: string, now: int)
      returns (messages: seq<Reply>, newState: AgentState)
    requires Consistent(state)
    modifies store
    ensures var o := StepReply(text, lower, state, old(store.bookings), clock, bookingId, now);
            messages == o.messages && newState == o.next && store.bookings == old(store.bookings) + SavedRecords(o)
  {
    match state.step {
      case AskService =>
        messages, newState := ServiceTurn(lower, state);
      case AskDate =>
        messages, newState := DateTurn(text, state, clock);
      case AskTime =>
        messages, newState := TimeTurn(text, state, store);
      case AskName =>
        messages, newState := NameTurn(text, state);
      case AskEmail =>
        messages, newState := EmailTurn(text, state);
      case AskPhone =>
        messages, newState := PhoneTurn(text, lower, state);
      case Confirm =>
        ConfirmIsComplete(state);
        messages, newState := ConfirmTurn(lower, state, store, bookingId, now);
      case _ =>
        messages, newState := [Fallback], state;
    }
  }

  /**
   * `agentReply` as the engine runs it: each `say` pushes one message, the
   * conflict check reads the store and a confirmed booking is saved into it.
   */
  method AgentReply(userText: string, state: AgentState, store: BookingStore, clock: Clock, bookingId: string, now: int)
      returns (messages: seq<Reply>, newState: AgentState)
    requires Consistent(state)
    modifies store
    ensures var o := Respond(userText, state, old(store.bookings), clock, bookingId, now);
            messages == o.messages && newState == o.next && store.bookings == old(store.bookings) + SavedRecords(o)
  {
    var text := Trim(userText);
    var lower := Lower(text);
    messages, newState := DispatchTurn(text, lower, state, store, clock, bookingId, now);
  }

  /** The body of `agentReply` after trimming and lower-casing: global intents, the restart, then the step handlers. */
  method DispatchTurn(text: string, lower: string, state: AgentState, store: BookingStore, clock: Clock,
                      bookingId: string, now: int)
      returns (messages: seq<Reply>, newState: AgentState)
    requires Consistent(state)
    modifies store
    ensures var o := Dispatch(text, lower, state, old(store.bookings), clock, bookingId, now);
            messages == o.messages && newState == o.next && store.bookings == old(store.bookings) + SavedRecords(o)
  {
    messages := [];
    if AsksPrice(lower) {
      messages := messages + [Rates];
      return messages, state.(lastPrompt := Some(PromptFor(state.step, state.pending)));
    }
    if AsksServices(lower) {
      messages := messages + [ServiceList];
      return messages, state.(lastPrompt := Some(PromptFor(state.step, state.pending)));
    }
    if lower == "help" {
      messages := messages + [HelpText];
      return messages, state;
    }

    if state.step == Idle || Contains(lower, "book") {
      newState := AgentState(AskService, state.pending, None);
      messages := messages + [Welcome];
      messages := messages + [Ask(PromptFor(AskService, newState.pending))];
      newState := newState.(lastPrompt := Some(PromptFor(AskService, newState.pending)));
      return;
    }

    messages, newState := StepTurn(text, lower, state, store, clock, bookingId, now);
  }

  // ---------------------------------------------------------------------------
  // Properties of one turn

  /** The initial state holds nothing and needs nothing. */
  lemma InitialStateIsConsistent(bookings: seq<BookingRecord>)
    ensures Consistent(InitialState()) && SlotFree(InitialState(), bookings)
  {
  }

  /**
   * Questions about prices or services and a request for help are answered
   * with one message at any step, in that order of precedence, without
   * moving the step, touching the pending booking or saving anything.
   */
  lemma GlobalIntentsKeepState(userText: string, state: AgentState, bookings: seq<BookingRecord>, clock: Clock,
                               bookingId: string, now: int)
    requires Consistent(state) && IsGlobal(Lower(Trim(userText)))
    ensures var o := Respond(userText, state, bookings, clock, bookingId, now);
            o.next.step == state.step && o.next.pending == state.pending && o.saved == None
    ensures var lower := Lower(Trim(userText));
            Respond(userText, state, bookings, clock, bookingId, now).messages
              == [if AsksPrice(lower) then Rates else if AsksServices(lower) then ServiceList else HelpText]
    ensures !AsksPrice(Lower(Trim(userText))) && !AsksServices(Lower(Trim(userText))) ==>
              Respond(userText, state, bookings, clock, bookingId, now).next == state
  {
  }

  /** Text mentioning `book` starts over at ask_service from any step, keeping what was collected. */
  lemma BookRestarts(userText: string, state: AgentState, bookings: seq<BookingRecord>, clock: Clock,
                     bookingId: string, now: int)
    requires Consistent(state)
    requires !IsGlobal(Lower(Trim(userText))) && Contains(Lower(Trim(userText)), "book")
    ensures var o := Respond(userText, state, bookings, clock, bookingId, now);
            o.next == AgentState(AskService, state.pending, Some(ServicePrompt))
            && o.messages == [Welcome, Ask(ServicePrompt)] && o.saved == None
  {
  }

  /** The step a successful reply moves to. */
  function NextStep(step: Step): Step {
    match step
    case Idle => AskService
    case AskService => AskDate
    case AskDate => AskTime
    case AskTime => AskName
    case AskName => AskEmail
    case AskEmail => AskPhone
    case AskPhone => Confirm
    case _ => Completed
  }

  /** `q` differs from `p` at most in the fields the given step asks for. */
  predicate FillsOnly(step: Step, p: Pending, q: Pending) {
    match step
    case AskService => OnlyService(p, q)
    case AskDate => q == p.(dateISO := q.dateISO)
    case AskTime => q == p.(startTime := q.startTime, endTime := q.endTime)
    case AskName => q == p.(name := q.name)
    case AskEmail => q == p.(email := q.email)
    case AskPhone => q == p.(phone := q.phone)
    case _ => q == p
  }

  /** The replies a question step refuses: the rejections of `agentReply`, on the trimmed text. */
  predicate Refused(text: string, state: AgentState, bookings: seq<BookingRecord>, clock: Clock)
    requires state.step == AskTime ==> state.pending.dateISO.Some?
  {
    match state.step
    case AskService => FindService(Lower(text)).None?
    case AskDate => NormalizeDate(text, clock).None? || NormalizeDate(text, clock).value in BlackoutDates
    case AskTime => SlotRejection(ParseTime(text), state.pending, bookings).Some?
    case AskName => |CleanName(text)| < 2
    case AskEmail => !IsEmail(text)
    case _ => false
  }

  /** ask_service: an unmatched reply is refused; a match records that catalog entry and moves to ask_date. */
  lemma ServiceStepSpec(lower: string, state: AgentState)
    requires state.step == AskService
    ensures var o := ServiceStep(lower, state);
            && o.saved == None
            && (o.next == state <==> FindService(lower).None?)
            && (o.next != state ==>
                  o.next.step == AskDate && o.next.lastPrompt == None
                  && OnlyService(state.pending, o.next.pending) && HasService(o.next.pending))
  {
    var r := FindService(lower);
    if r.Some? {
      var p := ServiceStep(lower, state).next.pending;
      assert r.value in Services && p.serviceId == Some(r.value.id) && p.serviceName == Some(r.value.name)
          && p.durationMinutes == Some(r.value.durationMinutes);
    }
  }

  /** ask_date: a reply that is not a date, or is a blackout date, is refused; otherwise the date is recorded. */
  lemma DateStepSpec(text: string, state: AgentState, clock: Clock)
    requires state.step == AskDate
    ensures var o := DateStep(text, state, clock);
            var d := NormalizeDate(text, clock);
            && o.saved == None
            && (o.next == state <==> d.None? || d.value in BlackoutDates)
            && (o.next != state ==>
                  o.next == AgentState(AskTime, state.pending.(dateISO := d), None) && HasDate(o.next.pending))
  {
  }

  /** ask_time: a refused time leaves the state; otherwise the slot recorded is inside working hours and free. */
  lemma TimeStepSpec(text: string, state: AgentState, bookings: seq<BookingRecord>)
    requires state.step == AskTime && state.pending.dateISO.Some?
    ensures var o := TimeStep(text, state, bookings);
            var p := o.next.pending;
            && o.saved == None
            && (o.next == state <==> SlotRejection(ParseTime(text), state.pending, bookings).Some?)
            && (o.next != state ==>
                  && o.next.step == AskName && o.next.lastPrompt == None
                  && p == state.pending.(startTime := ParseTime(text), endTime := p.endTime)
                  && HasSlot(p) && !Conflicts(bookings, p.dateISO.value, p.startTime.value, p.endTime.value))
  {
    SlotStepSpec(ParseTime(text), state, bookings);
  }

  lemma SlotStepSpec(start: Option<string>, state: AgentState, bookings: seq<BookingRecord>)
    requires state.step == AskTime && state.pending.dateISO.Some? && (start.Some? ==> IsTime(start.value))
    ensures var o := SlotStep(start, state, bookings);
            var p := o.next.pending;
            && o.saved == None
            && (o.next == state <==> SlotRejection(start, state.pending, bookings).Some?)
            && (o.next != state ==>
                  && o.next.step == AskName && o.next.lastPrompt == None
                  && p == state.pending.(startTime := start, endTime := p.endTime)
                  && HasSlot(p) && !Conflicts(bookings, p.dateISO.value, p.startTime.value, p.endTime.value))
  {
  }

  /** ask_name: the cleaned name is recorded when it has at least two characters, and is then a valid name. */
  lemma NameStepSpec(text: string, state: AgentState)
    requires state.step == AskName
    ensures var o := NameStep(text, state);
            && o.saved == None
            && (o.next == state <==> |CleanName(text)| < 2)
            && (o.next != state ==>
                  o.next == AgentState(AskEmail, state.pending.(name := Some(CleanName(text))), None)
                  && HasName(o.next.pending))
  {
    CleanNameIsName(text);
  }

  /** ask_email: the address is recorded exactly when it has the e-mail shape. */
  lemma EmailStepSpec(text: string, state: AgentState)
    requires state.step == AskEmail
    ensures var o := EmailStep(text, state);
            && o.saved == None
            && (o.next == state <==> !IsEmail(text))
            && (o.next != state ==>
                  o.next == AgentState(AskPhone, state.pending.(email := Some(text)), None) && HasEmail(o.next.pending))
  {
  }

  /** ask_phone: every reply moves to confirm; `skip` records no phone, anything else is recorded as given. */
  lemma PhoneStepSpec(text: string, lower: string, state: AgentState)
    requires state.step == AskPhone
    ensures var o := PhoneStep(text, lower, state);
            && o.saved == None && o.next != state
            && o.next == AgentState(Confirm, state.pending.(phone := if lower == "skip" then None else Some(text)), None)
  {
  }

  /** The step handlers at a question step, in the terms of `Refused`, `NextStep` and `FillsOnly`. */
  lemma StepReplyAtQuestion(text: string, lower: string, state: AgentState, bookings: seq<BookingRecord>, clock: Clock,
                            bookingId: string, now: int)
    requires Consistent(state) && 1 <= Rank(state.step) <= 6 && lower == Lower(text)
    ensures var o := StepReply(text, lower, state, bookings, clock, bookingId, now);
            && o.saved == None
            && (o.next == state <==> Refused(text, state, bookings, clock))
            && (o.next != state ==>
                  o.next.step == NextStep(state.step) && FillsOnly(state.step, state.pending, o.next.pending)
                  && o.next.lastPrompt == None)
  {
    match state.step {
      case AskService => ServiceStepSpec(lower, state);
      case AskDate => DateStepSpec(text, state, clock);
      case AskTime => TimeStepSpec(text, state, bookings);
      case AskName => NameStepSpec(text, state);
      case AskEmail => EmailStepSpec(text, state);
      case AskPhone => PhoneStepSpec(text, lower, state);
    }
  }

  /**
   * At a question step, a refused reply leaves the state exactly as it was;
   * any other reply moves exactly one step forward and changes only the
   * fields that step asks for.
   */
  lemma QuestionStep(userText: string, state: AgentState, bookings: seq<BookingRecord>, clock: Clock,
                     bookingId: string, now: int)
    requires Consistent(state) && 1 <= Rank(state.step) <= 6
    requires !IsGlobal(Lower(Trim(userText))) && !Contains(Lower(Trim(userText)), "book")
    ensures var o := Respond(userText, state, bookings, clock, bookingId, now);
            && o.saved == None
            && (o.next == state <==> Refused(Trim(userText), state, bookings, clock))
            && (o.next != state ==>
                  o.next.step == NextStep(state.step) && FillsOnly(state.step, state.pending, o.next.pending)
                  && o.next.lastPrompt == None)
  {
    var text := Trim(userText);
    NotIntercepted(userText, state, bookings, clock, bookingId, now);
    StepReplyAtQuestion(text, Lower(text), state, bookings, clock, bookingId, now);
  }

  /** confirm: `yes`/`y` saves the pending booking and completes; `no`/`n` goes back to ask_time; anything else keeps the state. */
  lemma ConfirmStepSpec(lower: string, state: AgentState, bookingId: string, now: int)
    requires state.step == Confirm && Complete(state.pending)
    ensures var o := ConfirmStep(lower, state, bookingId, now);
            && ((lower == "yes" || lower == "y") ==>
                  o.saved == Some(BookingOf(state.pending, bookingId, now))
                  && o.next == AgentState(Completed, EmptyPending, None))
            && ((lower == "no" || lower == "n") ==>
                  o.saved == None && o.next == AgentState(AskTime, state.pending, None))
            && (lower !in ["yes", "y", "no", "n"] ==> o.saved == None && o.next == state)
  {
  }

  /** At the confirm step, text that is neither a global intent nor a restart is answered by the confirm handler. */
  lemma ConfirmAnswers(userText: string, state: AgentState, bookings: seq<BookingRecord>, clock: Clock,
                       bookingId: string, now: int)
    requires Consistent(state) && state.step == Confirm && Complete(state.pending)
    requires !IsGlobal(Lower(Trim(userText))) && !Contains(Lower(Trim(userText)), "book")
    ensures Respond(userText, state, bookings, clock, bookingId, now)
         == ConfirmStep(Lower(Trim(userText)), state, bookingId, now)
  {
    NotIntercepted(userText, state, bookings, clock, bookingId, now);
  }

  /** `yes` and `y` are neither global intents nor restarts. */
  lemma AnswersAreNotIntents(lower: string)
    requires lower == "yes" || lower == "y"
    ensures !IsGlobal(lower) && !Contains(lower, "book")
  {
    ShorterNeverContains(lower, "price");
    ShorterNeverContains(lower, "how much");
    ShorterNeverContains(lower, "cost");
    ShorterNeverContains(lower, "service");
    ShorterNeverContains(lower, "what do you offer");
    ShorterNeverContains(lower, "menu");
    ShorterNeverContains(lower, "book");
  }

  /** Only the confirm step can save: every other step handler saves nothing. */
  lemma StepReplySaves(text: string, lower: string, state: AgentState, bookings: seq<BookingRecord>, clock: Clock,
                       bookingId: string, now: int)
    requires Consistent(state)
    ensures StepReply(text, lower, state, bookings, clock, bookingId, now).saved.Some?
        <==> state.step == Confirm && (lower == "yes" || lower == "y")
  {
    match state.step {
      case AskService => ServiceStepSpec(lower, state);
      case AskDate => DateStepSpec(text, state, clock);
      case AskTime => TimeStepSpec(text, state, bookings);
      case AskName => NameStepSpec(text, state);
      case AskEmail => EmailStepSpec(text, state);
      case AskPhone => PhoneStepSpec(text, lower, state);
      case Confirm => ConfirmStepSpec(lower, state, bookingId, now);
      case _ =>
    }
  }

  /** A record is saved exactly when the answer at confirm is `yes` or `y`. */
  lemma SavesOnlyOnYes(userText: string, state: AgentState, bookings: seq<BookingRecord>, clock: Clock,
                       bookingId: string, now: int)
    requires Consistent(state)
    ensures var lower := Lower(Trim(userText));
            (Respond(userText, state, bookings, clock, bookingId, now).saved.Some?)
              <==> (state.step == Confirm && (lower == "yes" || lower == "y"))
  {
    var text := Trim(userText);
    var lower := Lower(text);
    if IsGlobal(lower) || Restarts(lower, state.step) {
      Intercepted(userText, state, bookings, clock, bookingId, now);
      if state.step == Confirm && (lower == "yes" || lower == "y") {
        AnswersAreNotIntents(lower);
      }
    } else {
      NotIntercepted(userText, state, bookings, clock, bookingId, now);
      StepReplySaves(text, lower, state, bookings, clock, bookingId, now);
    }
  }

  // ---------------------------------------------------------------------------
  // What every turn keeps

  /** The service fields alone decide `HasService`. */
  lemma HasServiceOfFields(p: Pending, q: Pending)
    requires HasService(p)
    requires q.serviceId == p.serviceId && q.serviceName == p.serviceName && q.durationMinutes == p.durationMinutes
    ensures HasService(q)
  {
    var svc :| svc in Services
      && p.serviceId == Some(svc.id) && p.serviceName == Some(svc.name) && p.durationMinutes == Some(svc.durationMinutes);
    assert svc in Services
      && q.serviceId == Some(svc.id) && q.serviceName == Some(svc.name) && q.durationMinutes == Some(svc.durationMinutes);
  }

  /** The slot fields alone decide `HasSlot`. */
  lemma HasSlotOfFields(p: Pending, q: Pending)
    requires HasSlot(p)
    requires q.dateISO == p.dateISO && q.startTime == p.startTime && q.endTime == p.endTime
    requires q.durationMinutes == p.durationMinutes
    ensures HasSlot(q)
  {
  }

  /** A later step with the same slot fields keeps the slot free. */
  lemma SlotFreeOfFields(state: AgentState, next: AgentState, bookings: seq<BookingRecord>)
    requires SlotFree(state, bookings) && 4 <= Rank(state.step) <= 7 && HasSlot(state.pending)
    requires next.pending.dateISO == state.pending.dateISO
    requires next.pending.startTime == state.pending.startTime && next.pending.endTime == state.pending.endTime
    ensures SlotFree(next, bookings)
  {
    var p := state.pending;
    assert !Conflicts(bookings, p.dateISO.value, p.startTime.value, p.endTime.value);
  }

  /** The record a consistent confirm state saves is well formed, and free against the store when its slot is. */
  lemma BookingOfConfirm(state: AgentState, bookings: seq<BookingRecord>, bookingId: string, now: int)
    requires Consistent(state) && state.step == Confirm && SlotFree(state, bookings)
    ensures var b := BookingOf(state.pending, bookingId, now);
            WellFormed(b) && !Conflicts(bookings, b.dateISO, b.startTime, b.endTime)
  {
    var p := state.pending;
    var svc :| svc in Services
      && p.serviceId == Some(svc.id) && p.serviceName == Some(svc.name) && p.durationMinutes == Some(svc.durationMinutes);
    var b := BookingOf(p, bookingId, now);
    assert b.serviceId == svc.id && b.serviceName == svc.name && b.durationMinutes == svc.durationMinutes;
  }

  /**
   * What a turn must keep: the next state is consistent, from ask_name on its
   * slot is free in the store as the turn leaves it, and a record the turn
   * saves is well formed and takes no slot already taken.
   */
  predicate Keeps(bookings: seq<BookingRecord>, o: Outcome) {
    && Consistent(o.next) && SlotFree(o.next, bookings + SavedRecords(o))
    && (o.saved.Some? ==>
          WellFormed(o.saved.value)
          && !Conflicts(bookings, o.saved.value.dateISO, o.saved.value.startTime, o.saved.value.endTime))
  }

  /** A turn that saves nothing keeps the invariant when its next state does. */
  lemma KeepsUnsaved(bookings: seq<BookingRecord>, o: Outcome)
    requires o.saved == None && Consistent(o.next) && SlotFree(o.next, bookings)
    ensures Keeps(bookings, o)
  {
    assert bookings + SavedRecords(o) == bookings;
  }

  /** An outcome shaped as ask_service's keeps the invariant. */
  lemma ServiceStepKeeps(o: Outcome, state: AgentState, bookings: seq<BookingRecord>)
    requires Consistent(state) && SlotFree(state, bookings) && state.step == AskService && o.saved == None
    requires o.next == state || (o.next.step == AskDate && HasService(o.next.pending))
    ensures Keeps(bookings, o)
  {
    KeepsUnsaved(bookings, o);
  }

  /** An outcome shaped as ask_date's keeps the invariant. */
  lemma DateStepKeeps(o: Outcome, state: AgentState, bookings: seq<BookingRecord>)
    requires Consistent(state) && SlotFree(state, bookings) && state.step == AskDate && o.saved == None
    requires o.next == state
          || (o.next.step == AskTime && o.next.pending == state.pending.(dateISO := o.next.pending.dateISO)
              && HasDate(o.next.pending))
    ensures Keeps(bookings, o)
  {
    HasServiceOfFields(state.pending, o.next.pending);
    KeepsUnsaved(bookings, o);
  }

  /** An outcome shaped as ask_time's keeps the invariant. */
  lemma TimeStepKeeps(o: Outcome, state: AgentState, bookings: seq<BookingRecord>)
    requires Consistent(state) && SlotFree(state, bookings) && state.step == AskTime && o.saved == None
    requires var p := o.next.pending;
             || o.next == state
             || (&& o.next.step == AskName
                 && p == state.pending.(startTime := p.startTime, endTime := p.endTime)
                 && HasSlot(p) && !Conflicts(bookings, p.dateISO.value, p.startTime.value, p.endTime.value))
    ensures Keeps(bookings, o)
  {
    if o.next == state {
      KeepsUnsaved(bookings, o);
    } else {
      var p := state.pending;
      assert HasService(p) && HasDate(p);
      TimeFilledKeeps(o, p, bookings);
    }
  }

  /** A free slot chosen on top of a service and a date keeps the invariant. */
  lemma TimeFilledKeeps(o: Outcome, p: Pending, bookings: seq<BookingRecord>)
    requires HasService(p) && HasDate(p)
    requires o.saved == None && o.next.step == AskName
    requires var q := o.next.pending;
             && q == p.(startTime := q.startTime, endTime := q.endTime)
             && HasSlot(q) && !Conflicts(bookings, q.dateISO.value, q.startTime.value, q.endTime.value)
    ensures Keeps(bookings, o)
  {
    var q := o.next.pending;
    assert q.serviceId == p.serviceId && q.serviceName == p.serviceName && q.durationMinutes == p.durationMinutes;
    assert q.dateISO == p.dateISO;
    HasServiceOfFields(p, q);
    KeepsUnsaved(bookings, o);
  }

  /** An outcome shaped as ask_name's keeps the invariant. */
  lemma NameStepKeeps(o: Outcome, state: AgentState, bookings: seq<BookingRecord>)
    requires Consistent(state) && SlotFree(state, bookings) && state.step == AskName && o.saved == None
    requires o.next == state
          || (o.next.step == AskEmail && o.next.pending == state.pending.(name := o.next.pending.name)
              && HasName(o.next.pending))
    ensures Keeps(bookings, o)
  {
    if o.next == state {
      KeepsUnsaved(bookings, o);
    } else {
      var p := state.pending;
      assert HasService(p) && HasDate(p) && HasSlot(p);
      assert !Conflicts(bookings, p.dateISO.value, p.startTime.value, p.endTime.value);
      NameFilledKeeps(o, p, bookings);
    }
  }

  /** A recorded name on top of a free slot keeps the invariant. */
  lemma NameFilledKeeps(o: Outcome, p: Pending, bookings: seq<BookingRecord>)
    requires HasService(p) && HasDate(p) && HasSlot(p)
    requires !Conflicts(bookings, p.dateISO.value, p.startTime.value, p.endTime.value)
    requires o.saved == None && o.next.step == AskEmail
    requires o.next.pending == p.(name := o.next.pending.name) && HasName(o.next.pending)
    ensures Keeps(bookings, o)
  {
    var q := o.next.pending;
    assert q.serviceId == p.serviceId && q.serviceName == p.serviceName && q.durationMinutes == p.durationMinutes;
    assert q.dateISO == p.dateISO && q.startTime == p.startTime && q.endTime == p.endTime;
    HasServiceOfFields(p, q);
    HasSlotOfFields(p, q);
    KeepsUnsaved(bookings, o);
  }

  /** An outcome shaped as ask_email's keeps the invariant. */
  lemma EmailStepKeeps(o: Outcome, state: AgentState, bookings: seq<BookingRecord>)
    requires Consistent(state) && SlotFree(state, bookings) && state.step == AskEmail && o.saved == None
    requires o.next == state
          || (o.next.step == AskPhone && o.next.pending == state.pending.(email := o.next.pending.email)
              && HasEmail(o.next.pending))
    ensures Keeps(bookings, o)
  {
    if o.next != state {
      HasServiceOfFields(state.pending, o.next.pending);
      HasSlotOfFields(state.pending, o.next.pending);
    }
    KeepsUnsaved(bookings, o);
  }

  /** An outcome shaped as ask_phone's keeps the invariant. */
  lemma PhoneStepKeeps(o: Outcome, state: AgentState, bookings: seq<BookingRecord>)
    requires Consistent(state) && SlotFree(state, bookings) && state.step == AskPhone && o.saved == None
    requires o.next.step == Confirm && o.next.pending == state.pending.(phone := o.next.pending.phone)
    ensures Keeps(bookings, o)
  {
    HasServiceOfFields(state.pending, o.next.pending);
    HasSlotOfFields(state.pending, o.next.pending);
    KeepsUnsaved(bookings, o);
  }

  /** An outcome shaped as confirm's keeps the invariant. */
  lemma ConfirmStepKeeps(o: Outcome, state: AgentState, bookings: seq<BookingRecord>, bookingId: string, now: int)
    requires Consistent(state) && SlotFree(state, bookings) && state.step == Confirm
    requires o.saved.Some? ==> o.saved == Some(BookingOf(state.pending, bookingId, now)) && o.next.step == Completed
    requires o.saved.None? ==> o.next == state || o.next == AgentState(AskTime, state.pending, None)
    ensures Keeps(bookings, o)
  {
    if o.saved.Some? {
      BookingOfConfirm(state, bookings, bookingId, now);
    } else {
      KeepsUnsaved(bookings, o);
    }
  }

  /** Every step handler keeps the dialogue invariant. */
  lemma StepReplyKeeps(text: string, lower: string, state: AgentState, bookings: seq<BookingRecord>, clock: Clock,
                       bookingId: string, now: int)
    requires Consistent(state) && SlotFree(state, bookings)
    ensures Keeps(bookings, StepReply(text, lower, state, bookings, clock, bookingId, now))
  {
    match state.step {
      case AskService =>
        ServiceStepSpec(lower, state);
        ServiceStepKeeps(ServiceStep(lower, state), state, bookings);
      case AskDate =>
        DateStepSpec(text, state, clock);
        DateStepKeeps(DateStep(text, state, clock), state, bookings);
      case AskTime =>
        TimeStepSpec(text, state, bookings);
        TimeStepKeeps(TimeStep(text, state, bookings), state, bookings);
      case AskName =>
        NameStepSpec(text, state);
        NameStepKeeps(NameStep(text, state), state, bookings);
      case AskEmail =>
        EmailStepSpec(text, state);
        EmailStepKeeps(EmailStep(text, state), state, bookings);
      case AskPhone =>
        PhoneStepSpec(text, lower, state);
        PhoneStepKeeps(PhoneStep(text, lower, state), state, bookings);
      case Confirm =>
        ConfirmIsComplete(state);
        ConfirmStepSpec(lower, state, bookingId, now);
        ConfirmStepKeeps(ConfirmStep(lower, state, bookingId, now), state, bookings, bookingId, now);
      case _ =>
    }
  }

  /** Every turn of `agentReply` keeps the dialogue invariant. */
  lemma RespondKeeps(userText: string, state: AgentState, bookings: seq<BookingRecord>, clock: Clock,
                     bookingId: string, now: int)
    requires Consistent(state) && SlotFree(state, bookings)
    ensures Keeps(bookings, Respond(userText, state, bookings, clock, bookingId, now))
  {
    var text := Trim(userText);
    var lower := Lower(text);
    if IsGlobal(lower) || Restarts(lower, state.step) {
      Intercepted(userText, state, bookings, clock, bookingId, now);
      InterceptKeeps(Respond(userText, state, bookings, clock, bookingId, now), state, bookings);
    } else {
      NotIntercepted(userText, state, bookings, clock, bookingId, now);
      StepReplyKeeps(text, lower, state, bookings, clock, bookingId, now);
    }
  }

  /** A global intent or a restart saves nothing, keeps the pending booking and stays put or goes back to ask_service. */
  lemma Intercepted(userText: string, state: AgentState, bookings: seq<BookingRecord>, clock: Clock,
                    bookingId: string, now: int)
    requires Consistent(state)
    requires IsGlobal(Lower(Trim(userText))) || Restarts(Lower(Trim(userText)), state.step)
    ensures var o := Respond(userText, state, bookings, clock, bookingId, now);
            o.saved == None && o.next.pending == state.pending && (o.next.step == state.step || o.next.step == AskService)
  {
  }

  /** Any other text goes to the step handlers. */
  lemma NotIntercepted(userText: string, state: AgentState, bookings: seq<BookingRecord>, clock: Clock,
                       bookingId: string, now: int)
    requires Consistent(state)
    requires !IsGlobal(Lower(Trim(userText))) && !Restarts(Lower(Trim(userText)), state.step)
    ensures Respond(userText, state, bookings, clock, bookingId, now)
         == StepReply(Trim(userText), Lower(Trim(userText)), state, bookings, clock, bookingId, now)
  {
  }

  /** A global intent or a restart keeps the pending booking and stays put or goes back to ask_service. */
  lemma InterceptKeeps(o: Outcome, state: AgentState, bookings: seq<BookingRecord>)
    requires Consistent(state) && SlotFree(state, bookings)
    requires o.saved == None && o.next.pending == state.pending
    requires o.next.step == state.step || o.next.step == AskService
    ensures Keeps(bookings, o)
  {
    KeepsUnsaved(bookings, o);
  }

  /** One user message with what the engine reads besides it: the clock, and the id and timestamp of a booking. */
  datatype Turn = Turn(text: string, clock: Clock, bookingId: string, now: int)

  /** A conversation: the turns answered in order, each against the store the earlier turns left. */
  function Converse(turns: seq<Turn>, state: AgentState, bookings: seq<BookingRecord>): (r: (AgentState, seq<BookingRecord>))
    requires Consistent(state) && SlotFree(state, bookings)
    decreases |turns|
  {
    if turns == [] then (state, bookings)
    else
      var t := turns[0];
      var o := Respond(t.text, state, bookings, t.clock, t.bookingId, t.now);
      RespondKeeps(t.text, state, bookings, t.clock, t.bookingId, t.now);
      Converse(turns[1..], o.next, bookings + SavedRecords(o))
  }

  /**
   * `after` is `before` with records appended at the end, each well formed
   * and passing the engine's own `hasConflict` test against every record
   * before it.
   */
  predicate GrowsWithoutDoubleBooking(before: seq<BookingRecord>, after: seq<BookingRecord>) {
    && |before| <= |after| && after[..|before|] == before
    && forall j :: |before| <= j < |after| ==>
         WellFormed(after[j]) && !Conflicts(after[..j], after[j].dateISO, after[j].startTime, after[j].endTime)
  }

  /** A turn's saved record, followed by well-formed free records, extends the store the same way. */
  lemma SavedThenGrows(bookings: seq<BookingRecord>, o: Outcome, r: seq<BookingRecord>)
    requires o.saved.Some? ==>
               WellFormed(o.saved.value)
               && !Conflicts(bookings, o.saved.value.dateISO, o.saved.value.startTime, o.saved.value.endTime)
    requires GrowsWithoutDoubleBooking(bookings + SavedRecords(o), r)
    ensures GrowsWithoutDoubleBooking(bookings, r)
  {
    var mid := bookings + SavedRecords(o);
    assert r[..|mid|] == mid;
    assert r[..|bookings|] == bookings by {
      assert r[..|bookings|] == mid[..|bookings|];
    }
    if o.saved.Some? {
      var b := o.saved.value;
      assert r[|bookings|] == mid[|bookings|] == b;
      forall j | |bookings| <= j < |r|
        ensures WellFormed(r[j]) && !Conflicts(r[..j], r[j].dateISO, r[j].startTime, r[j].endTime)
      {
        if j == |bookings| {
          assert r[..j] == bookings;
        }
      }
    }
  }

  /**
   * Over a whole conversation the store only grows at its end, and every
   * record the dialogue adds is well formed and passes the engine's own
   * `hasConflict` test against every record before it. That test compares
   * `HH:mm` texts, so it does not see a slot running past midnight
   * (`SameWrappedSlotTwice`). The store is threaded through this one
   * dialogue's turns: no other writer changes it between the ask_time check
   * and the save at confirm, which does not check again.
   */
  lemma {:induction false} ConversationNeverDoubleBooks(turns: seq<Turn>, state: AgentState, bookings: seq<BookingRecord>)
    requires Consistent(state) && SlotFree(state, bookings)
    ensures GrowsWithoutDoubleBooking(bookings, Converse(turns, state, bookings).1)
  {
    if turns == [] {
      assert Converse(turns, state, bookings).1 == bookings;
    } else {
      var t := turns[0];
      var o := Respond(t.text, state, bookings, t.clock, t.bookingId, t.now);
      RespondKeeps(t.text, state, bookings, t.clock, t.bookingId, t.now);
      var mid := bookings + SavedRecords(o);
      ConversationNeverDoubleBooks(turns[1..], o.next, mid);
      SavedThenGrows(bookings, o, Converse(turns[1..], o.next, mid).1);
    }
  }

  /**
   * The text test never finds a slot running past midnight taken, not even
   * by a record of that very slot, so the same late slot can be stored
   * twice. Such records are well formed: a Bridal Glam slot starting at
   * 22:00 or later ends before 18:00 in text and passes the working-hours
   * test (`Hours.SlotPastMidnightAccepted`).
   */
  lemma SameWrappedSlotTwice(b: BookingRecord)
    requires WellFormed(b) && Less(b.endTime, b.startTime)
    ensures !Blocks(b, b.dateISO, b.startTime, b.endTime)
    ensures GrowsWithoutDoubleBooking([], [b, b])
  {
    LessIsStrictTotal(b.endTime, b.startTime);
    assert LessEq(b.endTime, b.startTime);
    var r := [b, b];
    assert r[..0] == [] && r[..1] == [b];
    assert !Conflicts([b], b.dateISO, b.startTime, b.endTime);
  }
}
