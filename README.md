# Booking-dialogue engine of a makeup-studio assistant

This project models the engine behind a makeup artist's booking chat. The engine is `agentReply` in `app/agent/agent.ts`. Each turn it reads one line of user text and the dialogue state, and answers with assistant messages and the next state.

The dialogue walks through these steps:

idle → ask_service → ask_date → ask_time → ask_name → ask_email → ask_phone → confirm → completed

From confirm it can go back to ask_time. On a confirmed booking it appends one booking record to the browser's booking store. Before a time is accepted, the store is checked for a clash with the requested slot.

Around the dialogue sit the input normalizers:

- `parseTimeTo24h`: `2pm`, `14:30` to `HH:mm`
- `normalizeDate`: `2025-11-05`, `11/5`, `Nov 5` to `YYYY-MM-DD`
- `addMinutes` and `getEndTime`: time arithmetic that wraps at midnight
- `compareTime`: text comparison of times
- `isWithinWorkingHours`: open weekday, opening and closing time
- `hasConflict`: half-open interval overlap against stored bookings
- `findService`: free text to a catalog entry
- `toTwo`: zero padding

The modules follow the program's structure:

- `Text`: the string primitives the engine uses. These are ASCII `trim` and `toLowerCase`, `parseInt`/`toString`, `toTwo`, `includes` and string `<`.
- `Times`: the time parser, `compareTime`, `addMinutes` and `getEndTime`.
- `Calendar`: date text and the weekday of a date.
- `Dates`: `normalizeDate`.
- `Config`: the catalog, working hours and blackout dates, copied from `app/agent/config.ts`.
- `Hours`: `isWithinWorkingHours`.
- `Catalog`: `findService`.
- `Store`: the booking store as a class holding a sequence of records.
  - Methods: `saveBooking`, `hasConflict`, and the admin page's `cancel`.
- `Agent`: the turn itself, in two forms.
  - `Agent.Respond` is a function that gives the messages, the next state and the record saved, if any.
  - `Agent.AgentReply` is a method that pushes messages one by one and saves into a `Store.BookingStore`. Its contract ties it to `Respond`.

On top of one turn, `Agent.Converse` runs a whole conversation. `Agent.ConversationNeverDoubleBooks` proves that the store only grows at its end, and that every record the dialogue adds is well formed and passes the engine's own `hasConflict` test against every earlier record. This assumes the dialogue is the only writer of the store (see "## Left out"). That test is weaker than "no two bookings share time". A slot that wraps past midnight has an end earlier than its start, so it overlaps nothing, and `Agent.SameWrappedSlotTwice` shows two identical such records both passing. A stored date is compared as text, so the same day written as another text (`2025-11-31`, which the weekday check reads as 1 December) is never a clash with `2025-12-01`.

## Model

| member | source | states |
|---|---|---|
| Text.ToTwo | app/agent/agent.ts:10-12 | `toTwo` yields at least two characters |
| Text.ToTwoReadsBack | app/agent/agent.ts:10-12 | for n < 100, `toTwo(n)` is exactly two digits that read back as n |
| Text.ToTwoOfDigits | app/agent/agent.ts:10-12 | every two-digit text is `toTwo` of its own value |
| Text.DecimalRoundTrip | app/agent/agent.ts:10-12 | `toString` and `parseInt` are inverse on non-negative integers; one digit exactly below 10, at most two exactly below 100 |
| Text.Lower | app/agent/agent.ts:186 | lower-casing keeps the length, maps each character to its lower-case form and leaves no upper-case letter |
| Text.TrimIsTrimmed | app/agent/agent.ts:185 | `trim` leaves no white space at either end |
| Text.TrimChars | app/agent/agent.ts:185 | the trimmed text is a contiguous run of the input; every character removed before it and after it is white space |
| Text.TrimStartDropsSpaces | app/agent/agent.ts:185 | trimming the front removes only white space |
| Text.TrimEndDropsSpaces | app/agent/agent.ts:185 | trimming the back removes only white space |
| Text.CleanIsFixed | app/agent/agent.ts:185-186 | text already trimmed and lower-case is unchanged by `trim().toLowerCase()` |
| Text.LessIsStrictTotal | app/agent/agent.ts:81-83 | string order is irreflexive, asymmetric and total on distinct strings |
| Times.ParseTime | app/agent/agent.ts:14-28 | a non-null result is a well-formed `HH:mm`: two digits, colon, two digits, hour ≤ 23, minute ≤ 59 |
| Times.ParseTimeText | app/agent/agent.ts:14-28 | for every text of the accepted shape (`H`, `HH`, `H:MM`, `HH:MM`, then optionally any white space and `am`/`pm`), the result is the 12-hour-converted hour and the minute, or null when either is out of range |
| Times.TimeFormsOnly | app/agent/agent.ts:14-28 | a time is given exactly when the cleaned text is one of the accepted shapes with hour (after the 12-hour rule) at most 23 and minute at most 59; anything else (`2:30:00`, `noon`, `123`) gives null |
| Times.ReadTimeForms | app/agent/agent.ts:16-27 | the same on text already trimmed and lower-cased |
| Times.ParseTimeKeepsTime | app/agent/agent.ts:14-28 | any well-formed `HH:mm` input comes back unchanged |
| Times.MidnightIsTwelveAm | app/agent/agent.ts:21-22 | `12am` is 00:00 |
| Times.NoonIsTwelvePm | app/agent/agent.ts:23-24 | `12pm` stays 12:00 |
| Times.AfternoonHour | app/agent/agent.ts:21-25 | `Hpm` for H in 1..11 is hour H+12; `Ham` is hour H |
| Times.SpacedMeridiem | app/agent/agent.ts:17-25 | `H pm`, with a space, is read like `Hpm` |
| Times.LatePmRejected | app/agent/agent.ts:24-26 | an hour of 13 or more with `pm` is out of range: null |
| Times.OutOfRangeRejected | app/agent/agent.ts:26 | hour above 23 (`25:00`) or minute above 59 (`2:75pm`) gives null |
| Times.FormatTimeIsTime | app/agent/agent.ts:27 | formatting an in-range hour and minute gives a well-formed time with exactly that hour and minute |
| Times.TimeIsFormatted | app/agent/agent.ts:27 | every well-formed time is the formatted form of its own hour and minute |
| Times.CompareTime | app/agent/agent.ts:81-83 | negative, zero or positive exactly when the first text is less than, equal to or greater than the second |
| Times.LessIsEarlier | app/agent/agent.ts:81-83 | on well-formed times, text order is the order of the minutes since midnight |
| Times.AddMinutes | app/agent/agent.ts:85-91 | the result is a well-formed time whose minutes since midnight are (start + minutes) mod 1440 |
| Times.AddHour | app/agent/agent.ts:85-91 | before 23:00, sixty minutes later is the next hour at the same minute (17:30 → 18:30) |
| Times.EndTime | app/agent/agent.ts:93-95 | `getEndTime` is a well-formed time `durationMinutes` after the start, modulo a day |
| Times.EndTimeWithinDay | app/agent/agent.ts:93-95 | a slot ending the same day ends exactly `durationMinutes` later and not before its start |
| Times.EndTimeWrapsPastMidnight | app/agent/agent.ts:85-91 | a slot that runs past midnight wraps: its end is earlier than its start |
| Calendar.Weekday | app/agent/agent.ts:99-100 | a weekday is given only for 4-2-2 digit dates, and is below 7 |
| Calendar.DateTextIsIso | app/agent/agent.ts:51 | a date the engine writes (four-digit year) has the 4-2-2 digit shape and reads back as its year, month and day |
| Calendar.WeekdayOfDateText | app/agent/agent.ts:99-100 | the weekday of a well-formed date is Sakamoto's weekday of its year, month and day |
| Calendar.SakamotoNextDay | app/agent/agent.ts:99-100 | within a month the weekday advances by one each day |
| Calendar.DecemberFirstIsMonday | app/agent/agent.ts:99-100 | 1 December 2025 is a Monday and the 2nd a Tuesday |
| Hours.IsWithinWorkingHours | app/agent/agent.ts:97-105 | the source's three tests as written: the date's weekday is an open day, and `compareTime` puts the start not before the opening time and the end not after the closing time; what that means in minutes is `Hours.WithinHoursByMinutes` |
| Hours.OpeningTimes | app/agent/config.ts:40-45 | 10:00 and 18:00 are well-formed, at minutes 600 and 1080 |
| Hours.OpenExceptMonday | app/agent/config.ts:44 | every weekday except Monday is open |
| Hours.WithinHoursByMinutes | app/agent/agent.ts:97-105 | on well-formed times the check is: open day, start at minute ≥ 600, end at minute ≤ 1080 |
| Hours.SlotWithinHours | app/agent/agent.ts:97-105 | a same-day slot is accepted exactly when it lies inside 10:00..18:00 on an open day |
| Hours.SlotPastMidnightAccepted | app/agent/agent.ts:102-103 | a slot that starts in hours and wraps past midnight passes, with an end earlier than its start |
| Hours.MondayClosed | app/agent/agent.ts:101 | no slot is accepted on a Monday |
| Hours.OtherDaysOpen | app/agent/agent.ts:101 | on any other day the date does not stand in the way |
| Hours.MalformedDateClosed | app/agent/agent.ts:99-101 | a date that is not 4-2-2 digits is never within working hours |
| Dates.FirstMonth | app/agent/agent.ts:71 | a month found is a valid index into the month names |
| Dates.FirstMonthIsFirst | app/agent/agent.ts:71 | the month found is the first in calendar order whose name starts with the token; with none, none starts with it |
| Dates.RelativeDays | app/agent/agent.ts:33-41 | `today` is today's date; `tomorrow` and `tmrw` are tomorrow's |
| Dates.IsoDateVerbatim | app/agent/agent.ts:43 | any 4-2-2 digit dash text is returned verbatim, with no range check |
| Dates.NumericDateText | app/agent/agent.ts:45-53 | `M/D` and `M/D/YYYY` (either separator) are accepted exactly with month 1..12 and day 1..31; a missing year is the current year |
| Dates.ThirteenFortyRejected | app/agent/agent.ts:45-53 | `13/40` gives null |
| Dates.NamedDateText | app/agent/agent.ts:69-76 | `<word> D` or `<word> DD`, any white space between them, then optionally a comma, any white space and a four-digit year: the first month whose name starts with the word and the day as written, with no range check; a missing year is the current year; a word that starts no month name gives null |
| Dates.NamedVariants | app/agent/agent.ts:69 | `nov 5 2025` and `nov  5,2025` read like `nov 5, 2025` |
| Dates.MaIsMarch | app/agent/agent.ts:71 | `ma` is March, not May |
| Dates.JuIsJune | app/agent/agent.ts:71 | `ju` is June, not July |
| Dates.NovIsNovember | app/agent/agent.ts:71 | `nov` is November |
| Dates.NoDigitNoDate | app/agent/agent.ts:30-79 | text without a digit, other than `today`/`tomorrow`/`tmrw`, gives null |
| Dates.NormalizeDate | app/agent/agent.ts:30-79 | `normalizeDate`: trim and lower-case, then the relative words, the 4-2-2 dash form, the numeric form and the month-name form, in that order; its properties are stated by the lemmas around it |
| Dates.ReadDate | app/agent/agent.ts:33-78 | the same matching on text already trimmed and lower-cased |
| Dates.DateFormsOnly | app/agent/agent.ts:30-79 | a date is given exactly when the cleaned text is `today`/`tomorrow`/`tmrw`, a 4-2-2 dash text, a numeric date with month 1..12 and day 1..31, or a month-name date whose word starts a month name; anything else gives null |
| Dates.ReadDateForms | app/agent/agent.ts:33-78 | the same on text already trimmed and lower-cased |
| Catalog.Matches | app/agent/agent.ts:142-146 | the `find` test: the cleaned text equals the id or the lower-cased name, or contains either |
| Catalog.FirstMatch | app/agent/agent.ts:141-147 | a match found is a valid catalog index at or after the starting point |
| Catalog.FirstMatchIsFirst | app/agent/agent.ts:141-147 | the entry found is the first in catalog order that matches; with none, no entry matches |
| Catalog.FindService | app/agent/agent.ts:139-148 | a service found is a catalog entry |
| Catalog.FindServiceMatches | app/agent/agent.ts:139-148 | the entry found matches the cleaned text; when none is found, no entry matches it |
| Catalog.FindServiceIsFirst | app/agent/agent.ts:141-147 | whenever an entry matches, a service is found, and it is that entry or an earlier one |
| Catalog.FindServiceOfCleaned | app/agent/agent.ts:140 | cleaning the text first (as `agentReply` does) changes nothing |
| Catalog.MentionsBridal | app/agent/agent.ts:145 | any text containing `bridal` resolves to Bridal Glam, the first entry |
| Catalog.IdsResolve | app/agent/agent.ts:143 | each service id resolves to its own entry |
| Catalog.NamesResolve | app/agent/agent.ts:144-146 | each lower-cased name resolves to its entry, except `bridal trial`, which resolves to Bridal Glam |
| Catalog.PartyNotBridal | app/agent/agent.ts:143-146 | `party` does not match the first entry |
| Store.BookingStore.constructor | app/agent/agent.ts:107-115 | an empty store |
| Store.BookingStore.Save | app/agent/agent.ts:117-121 | `saveBooking` appends the record at the end; nothing else changes |
| Store.BookingStore.HasConflict | app/agent/agent.ts:123-129 | true exactly when some stored record that is not cancelled, on the same date, overlaps the slot |
| Store.BookingStore.Cancel | app/admin/page.tsx:18-22 | every record with the id is marked cancelled; nothing else changes |
| Store.Overlaps | app/agent/agent.ts:126 | the slot neither ends at or before the booking's start nor starts at or after its end, comparing time texts |
| Store.CancelIn | app/admin/page.tsx:19 | the admin page's `map`: records with the id get status cancelled |
| Store.ActiveOn | app/agent/agent.ts:124 | the filter keeps exactly the records that are not cancelled and on the date |
| Store.OverlapsByMinutes | app/agent/agent.ts:126 | on well-formed times, the test is the overlap of half-open intervals |
| Store.TouchingNeverBlocks | app/agent/agent.ts:126 | a slot that starts when a booking ends, or ends when it starts, is never taken by it |
| Store.ConflictsAfterSave | app/agent/agent.ts:117-129 | saving a record adds exactly the slots that record takes |
| Store.InertRecordsNeverConflict | app/agent/agent.ts:124 | a cancelled record, or one on another date, never makes a slot taken |
| Store.CancelKeepsRecords | app/admin/page.tsx:19 | cancel keeps the length, keeps records with another id, and changes only the status of records with the id |
| Store.ConflictsAfterCancel | app/admin/page.tsx:18-22 | after a cancel, a slot is taken exactly when a record with another id takes it |
| Agent.InitialState | app/agent/agent.ts:150-152 | step idle, nothing pending, no last prompt |
| Agent.PromptFor | app/agent/agent.ts:154-177 | `nextPromptFor`: the prompt of each question step, the summary of the pending booking at confirm, the default prompt otherwise |
| Agent.InitialStateIsConsistent | app/agent/agent.ts:150-152 | the initial state satisfies the dialogue invariant |
| Agent.KeepNameChars | app/agent/agent.ts:279 | the name filter keeps only letters, white space, `-`, `'` and `.` |
| Agent.KeepNameCharsOfChar | app/agent/agent.ts:279 | one character is kept exactly when it is a letter, white space, `-`, `'` or `.` |
| Agent.KeepNameCharsOfConcat | app/agent/agent.ts:279 | the filter works character by character: filtering a concatenation concatenates the filtered parts |
| Agent.KeepNameCharsOfName | app/agent/agent.ts:279 | text made only of those characters is kept whole |
| Agent.CleanName | app/agent/agent.ts:279-280 | the name filter followed by `trim` |
| Agent.CleanNameIsName | app/agent/agent.ts:279-283 | the cleaned name is a valid trimmed name exactly when it has at least two characters |
| Agent.IsEmail | app/agent/agent.ts:293 | `^[^\s@]+@[^\s@]+\.[^\s@]+$`: a non-empty local part, `@`, then a host with a dot that has text on both sides, none of it white space or `@` |
| Agent.EmailHasOneAt | app/agent/agent.ts:293 | an accepted address has no white space and exactly one `@` |
| Agent.EmailOfParts | app/agent/agent.ts:293 | every `local@host.tld` with non-empty parts free of white space and `@` is accepted |
| Agent.BookingOf | app/agent/agent.ts:314-329 | the saved record copies every pending field, with status confirmed and the given id and time |
| Agent.ServiceStep | app/agent/agent.ts:216-233 | the ask_service handler always answers |
| Agent.DateStep | app/agent/agent.ts:235-250 | the ask_date handler always answers |
| Agent.TimeStep | app/agent/agent.ts:252-276 | the ask_time handler always answers |
| Agent.SlotRejection | app/agent/agent.ts:255-270 | why a time is refused: not understood, outside working hours, or taken, checked in that order |
| Agent.SlotStep | app/agent/agent.ts:255-276 | the ask_time handler always answers, once the time pattern has been applied |
| Agent.NameStep | app/agent/agent.ts:278-289 | the ask_name handler always answers |
| Agent.EmailStep | app/agent/agent.ts:291-302 | the ask_email handler always answers |
| Agent.PhoneStep | app/agent/agent.ts:304-310 | the ask_phone handler always answers |
| Agent.ConfirmStep | app/agent/agent.ts:312-346 | the confirm handler always answers |
| Agent.StepReply | app/agent/agent.ts:215-350 | the step handlers always answer |
| Agent.Dispatch | app/agent/agent.ts:188-350 | `agentReply` after cleaning always answers |
| Agent.Respond | app/agent/agent.ts:179-351 | every `agentReply` call returns at least one assistant message |
| Agent.ServiceStepSpec | app/agent/agent.ts:216-233 | an unmatched reply leaves the state; a match records that catalog entry's fields only and moves to ask_date |
| Agent.DateStepSpec | app/agent/agent.ts:235-250 | a non-date or blackout date leaves the state; otherwise the date is recorded and the step moves to ask_time |
| Agent.TimeStepSpec | app/agent/agent.ts:252-276 | an unreadable, out-of-hours or taken slot leaves the state; otherwise the slot recorded is in hours and free, at ask_name |
| Agent.SlotStepSpec | app/agent/agent.ts:255-276 | the same, for the time the pattern read |
| Agent.NameStepSpec | app/agent/agent.ts:278-289 | the cleaned name is recorded, and is valid, exactly when it has at least two characters |
| Agent.EmailStepSpec | app/agent/agent.ts:291-302 | the address is recorded exactly when it has the e-mail shape |
| Agent.PhoneStepSpec | app/agent/agent.ts:304-310 | every reply moves to confirm; `skip` records no phone, anything else is recorded as given |
| Agent.ConfirmStepSpec | app/agent/agent.ts:312-346 | `yes`/`y` saves the pending booking and completes with nothing pending; `no`/`n` returns to ask_time keeping it; anything else keeps the state |
| Agent.ConfirmIsComplete | app/agent/agent.ts:314-324 | a consistent confirm state has every field the record needs |
| Agent.StepReplyAtQuestion | app/agent/agent.ts:215-310 | at a question step, the state is kept exactly when the reply is refused; otherwise one step forward, filling only that step's fields |
| Agent.QuestionStep | app/agent/agent.ts:215-310 | the same for a whole turn whose text is neither a global intent nor a restart |
| Agent.GlobalIntentsKeepState | app/agent/agent.ts:188-202 | price, then service, then help questions are answered with one message, keeping step and pending and saving nothing; help keeps the whole state |
| Agent.BookRestarts | app/agent/agent.ts:204-213 | text mentioning `book` restarts at ask_service from any step, keeping what was collected |
| Agent.Intercepted | app/agent/agent.ts:188-213 | a global intent or a restart saves nothing, keeps pending, and stays or goes to ask_service |
| Agent.NotIntercepted | app/agent/agent.ts:215 | any other text goes to the step handlers |
| Agent.ConfirmAnswers | app/agent/agent.ts:312-346 | at confirm, plain answers go to the confirm handler |
| Agent.AnswersAreNotIntents | app/agent/agent.ts:313 | `yes` and `y` are neither global intents nor restarts |
| Agent.StepReplySaves | app/agent/agent.ts:312-330 | among the step handlers, only confirm with `yes`/`y` saves |
| Agent.SavesOnlyOnYes | app/agent/agent.ts:313-330 | a record is saved exactly when the answer at confirm is `yes` or `y` |
| Agent.HasServiceOfFields | app/agent/agent.ts:223-228 | the service fields alone decide whether a catalog entry was recorded |
| Agent.HasSlotOfFields | app/agent/agent.ts:271 | the slot fields alone decide whether a valid slot was recorded |
| Agent.BookingOfConfirm | app/agent/agent.ts:314-330 | the record saved from a consistent confirm state is well formed and takes no taken slot |
| Agent.KeepsUnsaved | app/agent/agent.ts:179-351 | a turn that saves nothing keeps the invariant when its next state does |
| Agent.ServiceStepKeeps | app/agent/agent.ts:216-233 | the ask_service outcome keeps the invariant |
| Agent.DateStepKeeps | app/agent/agent.ts:235-250 | the ask_date outcome keeps the invariant |
| Agent.TimeStepKeeps | app/agent/agent.ts:252-276 | the ask_time outcome keeps the invariant |
| Agent.NameStepKeeps | app/agent/agent.ts:278-289 | the ask_name outcome keeps the invariant |
| Agent.EmailStepKeeps | app/agent/agent.ts:291-302 | the ask_email outcome keeps the invariant |
| Agent.PhoneStepKeeps | app/agent/agent.ts:304-310 | the ask_phone outcome keeps the invariant |
| Agent.ConfirmStepKeeps | app/agent/agent.ts:312-346 | the confirm outcome keeps the invariant |
| Agent.InterceptKeeps | app/agent/agent.ts:188-213 | global intents and restarts keep the invariant |
| Agent.StepReplyKeeps | app/agent/agent.ts:215-350 | every step handler keeps the invariant |
| Agent.RespondKeeps | app/agent/agent.ts:179-351 | every turn keeps the invariant: next state consistent, slot free from ask_name on, a saved record well formed and free |
| Agent.SavedThenGrows | app/agent/agent.ts:330 | a turn's saved record followed by well-formed free records extends the store the same way |
| Agent.ConversationNeverDoubleBooks | app/agent/agent.ts:179-351 | over any conversation the store only grows at its end, and every record added is well formed and passes the engine's own `hasConflict` test against every record before it |
| Agent.SameWrappedSlotTwice | app/agent/agent.ts:122-127 | a slot that wraps past midnight never fails `hasConflict`, so the same such record can be saved twice |
| Agent.ServiceTurn | app/agent/agent.ts:216-233 | the ask_service block pushes the messages and gives the state of `ServiceStep` |
| Agent.DateTurn | app/agent/agent.ts:235-250 | the ask_date block agrees with `DateStep` |
| Agent.TimeTurn | app/agent/agent.ts:252-276 | the ask_time block agrees with `TimeStep` on the store's records |
| Agent.SlotTurn | app/agent/agent.ts:254-276 | the slot checks, with the conflict loop over the store, agree with `SlotStep` |
| Agent.NameTurn | app/agent/agent.ts:278-289 | the ask_name block agrees with `NameStep` |
| Agent.EmailTurn | app/agent/agent.ts:291-302 | the ask_email block agrees with `EmailStep` |
| Agent.PhoneTurn | app/agent/agent.ts:304-310 | the ask_phone block agrees with `PhoneStep` |
| Agent.ConfirmTurn | app/agent/agent.ts:312-346 | the confirm block agrees with `ConfirmStep` and appends to the store exactly the record it saves |
| Agent.StepTurn | app/agent/agent.ts:215-350 | the step handlers agree with `StepReply`, and the store grows by the saved record only |
| Agent.DispatchTurn | app/agent/agent.ts:188-350 | the body after cleaning agrees with `Dispatch`, and the store grows by the saved record only |
| Agent.AgentReply | app/agent/agent.ts:179-351 | `agentReply` gives the messages and next state of `Respond`, and appends to the store exactly the record it saves |

The dialogue invariant (`Agent.Consistent`, `Agent.SlotFree`) says:

- Every field the current step relies on is present.
- Each field was validated as the step that asked for it validates it.
- From ask_name to confirm, the chosen slot is free in the store.

The source reads those fields with non-null assertions (`p.serviceId!`, `state.pending.dateISO!`). The invariant is what makes those assertions hold.

The quirks of the code are modelled as written:

- any text containing `book` restarts, at every step, and keeps what was collected
- 4-2-2 digit dates are taken without a range check
- month prefixes resolve in calendar order
- the service test only asks whether the text contains the id or name
- the hours check never compares the start with the closing time or the end with the start, so a slot that wraps past midnight passes

## Left out

- The browser storage is not modelled: `localStorage`, the JSON round trip and the read of the stored list in `getStoredBookings`. The store is an object holding the list.
- The reply wording is not modelled: `nextPromptFor`'s text, the service summary of `listServicesSummary` and the price text of `formatPrice`. Messages are kinds of the `Reply` datatype and prompts are `Prompt` values. A confirmation prompt carries the pending booking it summarises.
- Message ids and timestamps (`generateId`, `Date.now`, `Math.random`) are left out of messages. A saved booking's id and creation time are parameters.
- The system clock is a parameter. `today`, `tomorrow` and the current year come from a `Clock` value, and JavaScript's day rollover for `tomorrow` is the caller's concern.
- Dates.NormalizeDate: the timezone argument is ignored, as in the source.
- Calendar.Weekday: `new Date(...).getDay()` is modelled by Sakamoto's formula for `YYYY-MM-DD` with month 1..12 and day 1..31. Any other text is an invalid date and is closed. A day past the end of a short month rolls into the next month, as the formula does.
- Times.CompareTime: `localeCompare` is modelled as plain lexicographic order on characters.
- Text.Lower: only ASCII is modelled. `\s`, `\w` and `toLowerCase` are restricted to ASCII characters.
- Agent.Respond: requires the dialogue invariant `Consistent` of its input state. The source assumes the fields with `!` instead of checking them. Every state a conversation starting from `createInitialState` reaches satisfies the invariant.
- The `notes` field of a booking is never set by the dialogue and is not part of the model. The same goes for the catalog entries' descriptions.
- The chat component's persistence and simulated latency (`app/components/Chat.tsx`) are not part of this model. So is the admin page's table.
- Agent.ConversationNeverDoubleBooks: assumes the turns of one dialogue are the only writer of the booking store. In the browser the list lives in `localStorage`, and `app/components/Chat.tsx` persists the dialogue state, so a second tab or a reloaded confirm state can meet a list changed since its ask_time check. The confirm step (`app/agent/agent.ts` lines 313-330) saves without running `hasConflict` again, so such a change can produce a clash that the model does not see.
- Store.BookingStore.Cancel: works on the live list, with one writer. The admin page's `cancel` (`app/admin/page.tsx` lines 19-21) maps the `rows` snapshot it loaded when the page opened and writes that back, so any booking saved after the page loaded is dropped. The model's "nothing else changes" holds only when no booking was saved in between.
- `slotMinutes` is declared in the configuration but never read by the engine.
