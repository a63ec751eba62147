# conneviaClient booking-studio client, modelled in Dafny

This project models the client-side logic of conneviaClient, a React Native app for a Pilates/yoga studio. Consumers use it to browse the weekly schedule, book a seat, cancel bookings and manage a subscription. Admins use it to edit the weekly work-period template, generate sessions, and add or edit sessions and bookings. The server (seat booking, quotas, subscription approval) is not part of the client and not part of this model.

Each `.dfy` file holds one module; the modules follow the program's structure.

- **Shared helpers**
  - `Wrappers` and `Js`: JavaScript's truthiness and `||` / `??` chains, `indexOf` and `%`.
  - `Text`: `trim`, `Number`, `parseInt`, `split`/`join`, `padStart`, lower and upper case, string `<`.
  - `Clock`: "HH:mm" strings.
  - `Calendar`: a local date-time reduced to a day number and the milliseconds into that day.
  - `UtcDate`: `Date.UTC`.
  - `Sorting`: a stable insertion sort, filter and map.
  - `Mojibake`: UTF-8 bytes misread in a single-byte code page.
- **Schedule data**
  - `ScheduleCore`: `src/types/scheduleCore.ts`.
  - `ScheduleMappers`: `src/mappers/scheduleMappers.ts`.
  - `ScheduleDebug`: `src/utils/scheduleDebug.ts`.
- **Admin schedule settings**
  - `WorkPeriods`: `AddPeriodModal` and `DayHoursModal`.
  - `ScheduleSettings`: `AutoGenerateSection` and `AdminScheduleSettingsScreen`.
  - `TimeDisplay`: `TimePickerField` and `WorkPeriodCard`.
- **Admin sessions**
  - `AdminForms`: the add/edit session and booking modals.
  - `AdminSchedule`: `AdminScheduleScreen`.
  - `WeekView`: the week and day-tab helpers shared by the schedule screens.
- **Consumer**
  - `ScheduleScreen` and `SessionCards`: the schedule tab, its two session cards and the clamp of the shared `Progress` bar.
  - `BookingWizard`: the four-step booking wizard.
  - `MyBookings`: `MyBookingsScreen`.
  - `Subscription`: `SubscriptionScreen`, `UsageCard` and `WeeklyUsageCard`.
  - `SubscriptionPlans`: `SubscriptionPlansScreen` and `PaymentMethodModal`.
  - `ProfileWizard`: `CompleteProfileWizard`.
  - `DashboardHeader`: the dashboard greeting.
- **Authentication**
  - `Auth`: `authSlice`, `tokenUtils` and `RootNavigator`.

Things the program receives from outside become parameters:
- the clock is a `nowMs` argument;
- `new Date(text)` is a `parse` function, or a date already parsed in the record;
- the JWT decoder is a `decode` function;
- the outcome of each server call is an argument.

Screens are modelled as a state record plus one pure function per handler.

## Model

| member | source | states |
|---|---|---|
| ScheduleCore.WeekdayOrderIsPermutation | src/types/scheduleCore.ts:66-74 | the weekday order has seven distinct ids, starts on Sunday and lists every weekday |
| ScheduleCore.TypeLabelRoundTrip | src/types/scheduleCore.ts:29-48 | the reverse table maps the label of every type except 'other' back to that type, and has no entry for the label of 'other' |
| ScheduleCore.TypeKeyInjective | src/types/scheduleCore.ts:19-24 | distinct session types have distinct string keys |
| ScheduleCore.AvailableSeats | src/types/scheduleCore.ts:123-125 | free seats are never negative; they are capacity minus occupancy when that is not negative, and 0 when the session is over-full |
| ScheduleCore.IsFullIffNoSeats | src/types/scheduleCore.ts:123-129 | a session is full exactly when it has no free seat |
| ScheduleCore.AvailabilityBadge | src/types/scheduleCore.ts:134-140 | the badge's flag agrees with fullness; its text is 'ممتلئ' exactly when full and 'متاح' exactly when a seat is free |
| ScheduleCore.OccupancyPercent | src/types/scheduleCore.ts:145-148 | the percentage is at most 100 and 0 without capacity; it is not negative for a non-negative count, is the exact ratio up to capacity and is 100 from capacity on |
| ScheduleMappers.DayIndexToWeekdayId | src/mappers/scheduleMappers.ts:33-36 | any integer, negative included, maps to the weekday at its non-negative remainder modulo 7 |
| ScheduleMappers.DayIndexPeriodic | src/mappers/scheduleMappers.ts:33-36 | the index-to-weekday mapping repeats every seven days |
| ScheduleMappers.WeekdayIdToDayIndex | src/mappers/scheduleMappers.ts:41-43 | the index lies in 0..6 and names the weekday in the order table |
| ScheduleMappers.DayIndexRoundTrip | src/mappers/scheduleMappers.ts:33-43 | index to weekday and back gives the index's remainder modulo 7 |
| ScheduleMappers.WeekdayIdRoundTrip | src/mappers/scheduleMappers.ts:33-43 | weekday to index and back is the identity |
| ScheduleMappers.WeekdayFromParsed | src/mappers/scheduleMappers.ts:48-51 | a weekday exists exactly when the date parsed, and it is that date's day of the week |
| ScheduleMappers.MatchAt | src/mappers/scheduleMappers.ts:77 | a match starts at a position exactly when one or two digits, a colon and two digits stand there, and then its groups are those characters, two hour digits whenever they are present |
| ScheduleMappers.CapturedGroups | src/mappers/scheduleMappers.ts:77 | the captured hour group is one or two digits and the minute group two digits, taken from the text around the match position |
| ScheduleMappers.MatchTime | src/mappers/scheduleMappers.ts:77-82 | the search finds the leftmost `(\d{1,2}):(\d{2})`, or reports that no position matches; the groups are one or two hour digits and two minute digits taken from the text at the match (the two-digit slices, or the single hour digit and the two digits after the colon), and the hour group is greedy |
| ScheduleMappers.FirstMatchIsAt | src/mappers/scheduleMappers.ts:77 | when a match stands at a position and none before it, the search reports that position |
| ScheduleMappers.MatchedClock | src/mappers/scheduleMappers.ts:79-81 | a match is shown as "HH:mm": the hour group padded to two digits with a leading '0', a colon, and the minute group |
| ScheduleMappers.ClockOfTwoDigitMatch | src/mappers/scheduleMappers.ts:79-81 | a match with a two-digit hour is shown as the five characters of the text it was found in |
| ScheduleMappers.ClockOfOneDigitMatch | src/mappers/scheduleMappers.ts:79-81 | a match with a one-digit hour is shown as '0' followed by the four characters of the text it was found in |
| ScheduleMappers.EmbeddedTimeShown | src/mappers/scheduleMappers.ts:77-82 | text that is not "HH:mm" and does not parse as a date shows its leftmost embedded time: the five characters there, or '0' and the four characters there when the hour has one digit |
| ScheduleMappers.FormatTimeTo24h | src/mappers/scheduleMappers.ts:56-85 | text always yields "HH:mm"; "HH:mm" text is returned unchanged; otherwise a parsable date gives its clock, else the first embedded time as that match is shown, else "00:00"; a Date yields its clock |
| ScheduleMappers.FormatTimeTo24hIdempotent | src/mappers/scheduleMappers.ts:56-85 | formatting a formatted time changes nothing |
| ScheduleMappers.SetMinutesAdds | src/mappers/scheduleMappers.ts:90-94 | setting the minute field to minutes plus n moves the time by exactly n minutes, across hours and days |
| ScheduleMappers.CalculateEndTime | src/mappers/scheduleMappers.ts:90-94 | the end time is the start moved by the duration; it is "HH:mm" exactly when the start parsed |
| ScheduleMappers.NormalizeTimeOrder | src/mappers/scheduleMappers.ts:99-118 | the result is the pair or its swap; it swaps exactly when the start's minutes are not before the end's |
| ScheduleMappers.NormalizeTimeOrderOrders | src/mappers/scheduleMappers.ts:99-118 | for two readable times the normalised start is at or before the end, and strictly before it unless both name the same minute |
| ScheduleMappers.NormalizedOutOfOrderOnlyWhenEqual | src/mappers/scheduleMappers.ts:99-118 | after normalising, the start is at or after the end only when both name the same minute |
| ScheduleMappers.NormalizeTimeOrderSettles | src/mappers/scheduleMappers.ts:99-118 | normalising an already normalised pair of distinct readable times swaps nothing |
| ScheduleMappers.InferFromKeywords | src/mappers/scheduleMappers.ts:130-147 | a title naming Pilates is reformer or mat; mat only with 'مات' and without 'أجهزة'; a title with no keyword is 'other' |
| ScheduleMappers.ContainsLowered | src/mappers/scheduleMappers.ts:130 | lower-casing the title neither adds nor removes an Arabic keyword |
| ScheduleMappers.InferSessionType | src/mappers/scheduleMappers.ts:123-148 | an exact table entry wins; otherwise the keyword rules apply to the lower-cased title |
| ScheduleMappers.InferSessionTypeKeywords | src/mappers/scheduleMappers.ts:123-148 | stated on the title itself: any title containing 'بيلاتس' is a Pilates type; an unlisted title with none of the keywords is 'other' |
| ScheduleMappers.TableTitlesWithoutPilates | src/mappers/scheduleMappers.ts:125-127 | every table title containing 'بيلاتس' maps to a Pilates type, so the exact match never contradicts the keyword rule |
| ScheduleMappers.InferSessionTypeOfLabel | src/mappers/scheduleMappers.ts:123-148 | every label except 'other''s infers back to its own type |
| ScheduleMappers.ClampOccupiedCount | src/mappers/scheduleMappers.ts:153-164 | for a non-negative total the count lies in [0, total]; the flag is set exactly when the input was outside; inputs inside come back unchanged |
| ScheduleMappers.ClampIdempotent | src/mappers/scheduleMappers.ts:153-164 | clamping a clamped count changes nothing and sets no flag |
| ScheduleMappers.StartsAt | src/mappers/scheduleMappers.ts:184 | the start is the first truthy of startsAt, starts_at and startTime, else "" |
| ScheduleMappers.Capacity | src/mappers/scheduleMappers.ts:211 | the capacity is the first truthy of capacity, capacityTotal and total_capacity, else 0 |
| ScheduleMappers.RawOccupied | src/mappers/scheduleMappers.ts:213-227 | the raw count is the first numeric of bookedCount, booked_count and occupiedCount, else capacity minus availableSeats or available_seats, else 0 |
| ScheduleMappers.EndTimeOf | src/mappers/scheduleMappers.ts:187-196 | a given end time (endTime, ends_at, endsAt) is formatted; otherwise the start is moved by the first truthy duration, or by 60 minutes |
| ScheduleMappers.TitleOf | src/mappers/scheduleMappers.ts:205 | the title is the first truthy of title, titleAr and name, else "" |
| ScheduleMappers.MapApiToSessionCore | src/mappers/scheduleMappers.ts:183-246 | the session takes each field from its precedence chain, every link of the title, instructor and location chains included; its count is the clamped raw count, so it lies in [0, capacity] for a non-negative capacity; its start is "HH:mm" and the times are normalised |
| ScheduleMappers.MinutesOfMalformedEnd | src/mappers/scheduleMappers.ts:189-196 | the only end time that is not "HH:mm" ("NaN:NaN" from an unparsable start) has no minute value |
| ScheduleMappers.NaNClockUnreadable | src/mappers/scheduleMappers.ts:103-107 | "NaN:NaN" reads as NaN minutes |
| ScheduleMappers.MapApiToBookingDetails | src/mappers/scheduleMappers.ts:251-261 | each booking field comes from the first truthy link of its chain (id, customer name, phone, bed number, creation date), the id being empty exactly when no id link is truthy; `attended` falls back to `attendance` only when it is null or undefined |
| ScheduleMappers.WithBookings | src/mappers/scheduleMappers.ts:282-296 | the bookings are the raw records mapped in order; only the count can change, and it becomes the clamped booking total exactly when the session's count was 0 and bookings exist; a consistent count stays in [0, capacity] |
| ScheduleMappers.MapApiToAdminSessionDetails | src/mappers/scheduleMappers.ts:278-297 | the bookings come from `bookings`, else `reservations`, one per raw record; the count stays in [0, capacity] |
| ScheduleDebug.SessionErrors | src/utils/scheduleDebug.ts:36-71 | each error is recorded exactly when its condition holds: occupancy over capacity, start not before end, an unknown weekday, a missing id; there are no errors exactly when none holds |
| ScheduleDebug.SessionWarnings | src/utils/scheduleDebug.ts:60-77 | each warning is recorded exactly when its condition holds: a start or end not in "HH:mm", a missing title, a capacity of 0 or less |
| ScheduleDebug.ValidateSession | src/utils/scheduleDebug.ts:32-85 | a session is valid exactly when no error condition holds; warnings play no part |
| ScheduleDebug.ValidityIgnoresWarnings | src/utils/scheduleDebug.ts:72-81 | changing the title, which only ever produces a warning, never changes validity |
| ScheduleDebug.MappedSessionChecks | src/utils/scheduleDebug.ts:36-62 | a session the mapper builds from a record with non-negative capacity never fails the occupancy check and has a well-formed start; it fails the time-order check only when start and end are the same minute |
| ScheduleDebug.DifferencesIn | src/utils/scheduleDebug.ts:105-113 | every recorded difference names a checked field whose two values differ, and every checked field whose values differ is recorded |
| ScheduleDebug.DifferencesEmptyIff | src/utils/scheduleDebug.ts:105-113 | no difference is recorded exactly when every checked field agrees |
| ScheduleDebug.CompareSessions | src/utils/scheduleDebug.ts:90-120 | two sessions match exactly when there is no difference, exactly when the six compared fields agree; differences only name compared fields |
| ScheduleDebug.CompareSessionsReflexiveSymmetric | src/utils/scheduleDebug.ts:90-120 | a session matches itself, and matching does not depend on the order of the two sessions |
| ScheduleDebug.CompareSessionsMatchesIff | src/utils/scheduleDebug.ts:96-117 | matching means equal weekday, start, end, capacity, occupancy and title |
| ScheduleDebug.CountValidAppend | src/utils/scheduleDebug.ts:190 | the count of valid results of two lists is the sum of their counts |
| ScheduleDebug.CountValidExtremes | src/utils/scheduleDebug.ts:190 | all results are counted exactly when all are valid; none exactly when none is |
| ScheduleDebug.ValidateAll | src/utils/scheduleDebug.ts:189 | there is one result per session, in order, each that session's validation |
| ScheduleDebug.ValidateAllConcat | src/utils/scheduleDebug.ts:189 | validating two batches one after the other gives the results of validating them together |
| ScheduleDebug.ValidateSessions | src/utils/scheduleDebug.ts:183-211 | the total is the number of sessions; valid plus invalid is the total; the valid count is between 0 and the total |
| ScheduleDebug.ValidateSessionsSplits | src/utils/scheduleDebug.ts:183-211 | the valid count of a batch is the sum of the valid counts of its two parts |
| Calendar.FromTimeOfTime | src/utils/dates.ts:124-126 | a date-time is determined by its time value: rebuilding it from `getTime()` gives it back |
| Calendar.WeekdayAfter | src/utils/dates.ts:36-43 | moving k days moves `getDay()` by k modulo 7 |
| Calendar.AddMinutes | src/utils/dates.ts:124-126 | adding n minutes adds exactly n minutes of milliseconds to the time value |
| Calendar.SetClock | src/utils/dates.ts:41 | `setHours` gives the time value of that day plus the hours and minutes, out-of-range values carrying into other days |
| Calendar.ClockOfDay | src/utils/dates.ts:41 | an in-range hour and minute set on a day stay on that day and read back unchanged |
| Calendar.WeekShift | src/utils/dates.ts:39 | for a start day in 0..6 the shift lies in 0..6 and lands on that weekday; for any start day it lies strictly between -7 and 7 |
| Calendar.StartOfWeek | src/utils/dates.ts:36-43 | the result is at midnight; for a start day in 0..6 it falls on that weekday, on the same day or up to six days earlier |
| Calendar.StartOfWeekIdempotent | src/utils/dates.ts:36-43 | the start of the start of a week is that start |
| Calendar.StartOfWeekUnique | src/utils/dates.ts:36-43 | the start is the only day with that weekday among the seven days ending on the date |
| Calendar.WeekDays | src/utils/dates.ts:50-58 | exactly seven consecutive days, the first being the argument, each at its time of day |
| Calendar.EndOfWeek | src/utils/dates.ts:99-104 | 23:59 on the sixth day after the start: one millisecond before the seventh day begins |
| Calendar.EndOfWeekIsLastWeekDay | src/utils/dates.ts:50-104 | the end of the week is the same calendar day as the seventh of the week's days |
| Calendar.FormatClock | src/utils/dates.ts:111-116 | a valid date gives "HH:mm" reading back its hours and minutes; an invalid one gives "NaN:NaN" |
| Calendar.FormatTime | src/utils/dates.ts:111-116 | as above, for the date the ISO text parsed to |
| Calendar.GetEndTime | src/utils/dates.ts:124-130 | a parsed start gives "HH:mm"; an unparsable one gives "NaN:NaN" |
| Calendar.GetEndTimeZero | src/utils/dates.ts:111-130 | the end of a zero-minute session is its formatted start |
| Calendar.GetEndTimeWholeDays | src/utils/dates.ts:124-130 | a duration of whole days shows the same clock as the start |
| Calendar.ClockMinutes | src/utils/dates.ts:113-114 | the clock reading lies in 0..1439 and is the whole minutes elapsed in the day |
| Calendar.ClockAfterMinutes | src/utils/dates.ts:124-128 | moving n minutes moves the clock reading by n modulo a day |
| Calendar.GetEndTimeClock | src/utils/dates.ts:124-130 | the end time shows the clock the duration after the start, modulo a day |
| Calendar.ArabicDayNameIdentifiesWeekday | src/utils/dates.ts:5-81 | two dates have the same Arabic day name exactly when they fall on the same weekday, exactly when they are a whole number of weeks apart |
| Calendar.ArabicDayName | src/utils/dates.ts:79-81 | the name shown is the i-th of the seven week-day names exactly when the date falls on weekday i |
| Clock.SplitOfHhMm | src/mappers/scheduleMappers.ts:103-104 | splitting a well-formed "HH:mm" at ':' gives its two digit pairs |
| Clock.TimePartsOfHhMm | src/mappers/scheduleMappers.ts:103-107 | reading a well-formed "HH:mm" with `split(':').map(Number)` gives its hour and minute, and the minute of the day is hours × 60 + minutes |
| Clock.FormatHhMmShape | src/utils/dates.ts:113-115 | an hour and a minute below 100 format to a well-formed "HH:mm" whose digit pairs read back as that hour and minute |
| Clock.FormatHhMmRoundTrip | src/utils/dates.ts:113-115 | formatting and reading back with `split(':').map(Number)` gives the minute of the day the pair stands for |
| Clock.HhMmIsFormatted | src/utils/dates.ts:113-115 | every well-formed "HH:mm" is the formatting of its own digit pairs |
| Js.Or | src/mappers/scheduleMappers.ts:184 | `a \|\| b` is `a` when `a` is truthy and `b` otherwise |
| Js.Nullish | src/mappers/scheduleMappers.ts:257 | `a ?? b` replaces only a missing value |
| Js.IndexOf | src/mappers/scheduleMappers.ts:42 | the first position holding the value, or -1 when it is absent |
| Js.JsRem | src/utils/dates.ts:39 | JavaScript's `%` with a positive divisor: Dafny's remainder for a non-negative dividend, a remainder in (-b, 0] with the dividend's sign otherwise |
| Text.NatToString | src/utils/dates.ts:113 | a natural prints as at least one digit, one digit exactly below 10, at most two below 100 |
| Text.DecimalValueOfNatToString | src/utils/dates.ts:113 | a natural printed and read back as digits is itself |
| Text.IntToString | src/screens/Admin/components/EditSessionModal.tsx:49-50 | an integer prints as its digits, after a '-' when negative |
| Text.PadStart2 | src/mappers/scheduleMappers.ts:79 | `padStart(2, '0')` gives length two for short text, keeps the text as a suffix with only '0' before it, and leaves longer text unchanged |
| Text.Pad2Exact | src/utils/dates.ts:113-114 | a number below 100 pads to its tens digit followed by its units digit |
| Text.Pad2Digits | src/utils/dates.ts:113-114 | a number below 100 pads to exactly two digits that read back as it |
| Text.Pad2OfTwoDigits | src/utils/dates.ts:113-114 | two digits read as a number and padded back give the same two digits |
| Text.TrimStartSpec | src/screens/CompleteProfileWizard.tsx:56 | trimming the front removes exactly the leading white space and keeps the rest as a suffix |
| Text.TrimEndSpec | src/screens/CompleteProfileWizard.tsx:56 | trimming the back removes exactly the trailing white space and keeps the rest as a prefix |
| Text.TrimSpec | src/screens/CompleteProfileWizard.tsx:56 | `trim()` leaves no white space at either end and leaves a string without any there unchanged |
| Text.TrimEmptyIffBlank | src/screens/CompleteProfileWizard.tsx:56-59 | `!s.trim()` holds exactly when the string is all white space |
| Text.TrimIdempotent | src/screens/Admin/components/EditBookingModal.tsx:45-49 | trimming a trimmed string changes nothing |
| Text.RemoveSpaces | src/screens/CompleteProfileWizard.tsx:19 | removing `\s+` leaves no white space, never lengthens the text and keeps text without white space unchanged |
| Text.KeepDigits | src/screens/Admin/components/AddSessionModal.tsx:127 | removing `\D` leaves only digits, never lengthens the text and keeps all-digit text unchanged |
| Text.KeepDigitsConcat | src/screens/Admin/components/AddSessionModal.tsx:127 | keeping the digits of a concatenation keeps the digits of each part |
| Text.JsNumberOfBlankOrDigits | src/mappers/scheduleMappers.ts:103-104 | `Number` of white space alone is 0 and of plain digits their decimal value |
| Text.DigitPrefix | src/screens/Admin/components/EditSessionModal.tsx:60-61 | the longest run of leading digits: a digit prefix not followed by a digit |
| Text.ParseInt | src/screens/Admin/components/EditSessionModal.tsx:60-61 | `parseInt(s, 10)` of plain digits is their value |
| Text.ParseIntOfIntToString | src/screens/Admin/components/EditSessionModal.tsx:49-61 | an integer printed and parsed back with `parseInt` is itself |
| Text.ParseIntOfIntToStringThen | src/screens/Dashboard/components/UsageCard.tsx:85-97 | an integer printed and followed by text that does not start with a digit reads back with `parseInt` as itself, so the number shown at the head of a message is the one printed |
| Text.FirstIndex | src/mappers/scheduleMappers.ts:103 | the first position of a character that occurs |
| Text.Split | src/mappers/scheduleMappers.ts:103 | `split` gives at least one part and no part holds the separator |
| Text.JoinSplit | src/mappers/scheduleMappers.ts:103 | joining the parts of a split with the separator gives the text back |
| Text.BeforeFirst | src/screens/Dashboard/components/DashboardHeader.tsx:25-27 | `split(c)[0]` is a prefix without `c`; it is the whole text when `c` is absent and is followed by `c` otherwise |
| Text.ToUpperChar | src/screens/Dashboard/components/DashboardHeader.tsx:29 | upper-casing changes only the ASCII small letters, and lower-casing undoes it |
| Text.ToLower | src/mappers/scheduleMappers.ts:130 | `toLowerCase` keeps the length and lower-cases character by character |
| Text.LexLessIrreflexive | src/screens/AdminScheduleSettings/components/DayHoursModal.tsx:56 | no string precedes itself |
| Text.LexLessTransitive | src/screens/AdminScheduleSettings/components/DayHoursModal.tsx:56 | string order is transitive |
| Text.LexLessTotal | src/screens/AdminScheduleSettings/components/DayHoursModal.tsx:56 | of two different strings one precedes the other |
| Text.LexLessAsymmetric | src/screens/AdminScheduleSettings/components/DayHoursModal.tsx:56 | no two strings precede each other |
| TimeDisplay.OrZero | src/components/UI/TimePickerField.tsx:19 | `x \|\| 0` keeps a non-zero number and turns NaN into 0 |
| TimeDisplay.ParseTime | src/components/UI/TimePickerField.tsx:16-21 | the picker date is today's midnight moved by the read hour and minute, an unreadable part counting as 0 |
| TimeDisplay.UnreadablePartsAreZero | src/components/UI/TimePickerField.tsx:16-21 | text with no readable hour or minute opens the picker at midnight |
| TimeDisplay.FormatTime24 | src/components/UI/TimePickerField.tsx:24-28 | the picked clock becomes a well-formed "HH:mm" reading back its hour and minute |
| TimeDisplay.PickerRoundTrip | src/components/UI/TimePickerField.tsx:16-28 | opening the picker on a valid time and confirming it gives the same text back |
| TimeDisplay.ParsedClock | src/components/UI/TimePickerField.tsx:16-21 | a valid time sets the picker to its own hour and minute on today's date |
| TimeDisplay.HandleChange | src/components/UI/TimePickerField.tsx:47-54 | a picked date yields its "HH:mm" and no date yields nothing; the picker stays open only when it was open and the platform is not Android |
| TimeDisplay.DisplayHour | src/components/UI/TimePickerField.tsx:34 | `hours % 12 \|\| 12` lies in 1..12 and agrees with the hour modulo 12; NaN gives 12 |
| TimeDisplay.DisplayTime | src/components/UI/TimePickerField.tsx:31-36 | the display fails exactly when the text has no ':'; a valid time shows the twelve-hour figure, its minutes and the marker for its half of the day |
| TimeDisplay.EndsWithMarker | src/components/UI/TimePickerField.tsx:33-35 | the display of a valid time ends with the evening marker exactly from 12:00 on |
| TimeDisplay.LastLetterIsMarker | src/components/UI/TimePickerField.tsx:33-35 | with one-letter markers the display's last letter tells the half of the day |
| TimeDisplay.PickerDisplay | src/components/UI/TimePickerField.tsx:31-36 | the field's display of a valid time ends with 'م' from noon and 'ص' before |
| TimeDisplay.MidnightAndNoon | src/components/UI/TimePickerField.tsx:33-35 | 00:mm shows as 12:mm in the morning and 12:mm as 12:mm in the evening |
| TimeDisplay.DisplayDeterminesTime | src/components/UI/TimePickerField.tsx:31-36 | two valid times of the day with the same display are the same time |
| TimeDisplay.DisplayedParts | src/components/UI/TimePickerField.tsx:31-36 | equal displays show the same twelve-hour figure, minutes and half of the day |
| TimeDisplay.SameHour | src/components/UI/TimePickerField.tsx:33-34 | two hours of the day with the same twelve-hour figure in the same half are equal |
| TimeDisplay.WorkPeriodCardTimeAsWritten | src/screens/AdminScheduleSettings/components/WorkPeriodCard.tsx:13-18 | the card as written ends a valid time with the garbled evening or morning marker |
| TimeDisplay.GarbledMarkersAreMisreadArabic | src/screens/AdminScheduleSettings/components/WorkPeriodCard.tsx:15 | the card's markers are the UTF-8 bytes of 'م' and 'ص' (D9 85 and D8 B5) read as ISO/IEC 8859-11, and are not Arabic letters |
| TimeDisplay.OnePmOnTheCard | src/screens/AdminScheduleSettings/components/WorkPeriodCard.tsx:13-18 | at 13:00 the card shows "1:00" and the garbled marker where the time field shows "1:00 م" |
| TimeDisplay.WorkPeriodCardTime | src/screens/AdminScheduleSettings/components/WorkPeriodCard.tsx:13-18 | with the intended markers the card shows what the time field shows, ending in 'م' exactly from noon |
| WorkPeriods.OverlapSymmetricBackToBack | src/screens/AdminScheduleSettings/components/AddPeriodModal.tsx:16-18 | overlap is symmetric, and periods that meet end to start do not overlap |
| WorkPeriods.OverlapIffSharedInstant | src/screens/AdminScheduleSettings/components/AddPeriodModal.tsx:16-18 | for periods that start before they end, the test holds exactly when some instant lies in both half-open periods |
| WorkPeriods.Insert | src/screens/AdminScheduleSettings/components/DayHoursModal.tsx:55-57 | insertion adds exactly the new period: one more element, the same multiset plus the period |
| WorkPeriods.InsertMember | src/screens/AdminScheduleSettings/components/DayHoursModal.tsx:55-57 | every element after insertion is the new period or an old one |
| WorkPeriods.InsertSorted | src/screens/AdminScheduleSettings/components/DayHoursModal.tsx:55-57 | inserting into a list sorted by start keeps it sorted |
| WorkPeriods.InsertWellFormed | src/screens/AdminScheduleSettings/components/AddPeriodModal.tsx:47-68 | inserting a proper period that overlaps none of a well-formed list keeps the list well formed |
| WorkPeriods.SortByStart | src/screens/AdminScheduleSettings/components/DayHoursModal.tsx:55-57 | the sort is a permutation of its input and is ordered by start time |
| WorkPeriods.InsertLast | src/screens/AdminScheduleSettings/components/DayHoursModal.tsx:55-57 | a period starting no earlier than all others is appended at the end |
| WorkPeriods.SortSortedIsIdentity | src/screens/AdminScheduleSettings/components/DayHoursModal.tsx:55-57 | sorting a sorted list changes nothing (the sort is stable) |
| WorkPeriods.SortWellFormed | src/screens/AdminScheduleSettings/components/DayHoursModal.tsx:55-57 | sorting keeps a well-formed list well formed |
| WorkPeriods.OnVisibility | src/screens/AdminScheduleSettings/components/AddPeriodModal.tsx:31-45 | showing the modal keeps the form; hiding it resets it to a proper period with no error |
| WorkPeriods.HandleAdd | src/screens/AdminScheduleSettings/components/AddPeriodModal.tsx:47-69 | a start not before the end is refused with the order error; an overlapping period is refused with the overlap error; otherwise the new period goes to `onAdd` and the modal closes; it closes exactly when a period is added |
| WorkPeriods.HandleAddKeepsWellFormed | src/screens/AdminScheduleSettings/components/AddPeriodModal.tsx:47-68 | a period reaches `onAdd` exactly when it is proper and overlaps no existing period, so adding it keeps a well-formed list well formed |
| WorkPeriods.ResetFormIsAccepted | src/screens/AdminScheduleSettings/components/AddPeriodModal.tsx:26-68 | the reset form's 08:00–12:00 period is accepted on an empty day |
| WorkPeriods.OpenEditor | src/screens/AdminScheduleSettings/components/DayHoursModal.tsx:33-44 | opening the modal on a day yields a working copy of that day, whatever copy an earlier opening left; its use is stated by WorkPeriods.EditingSessionKeepsDayShape |
| WorkPeriods.EditingSessionKeepsDayShape | src/screens/AdminScheduleSettings/components/DayHoursModal.tsx:33-74 | the modal works on a copy: opening it on a well-formed sorted day, then any sequence of toggles, form-accepted additions, period deletions and day deletions, then saving, hands `onSave` a well-formed sorted day with the opened day's number; saving without edits hands back the opened day itself |
| WorkPeriods.HandleSave | src/screens/AdminScheduleSettings/components/DayHoursModal.tsx:72-74 | `onSave` receives the working copy as edited; that this copy keeps the opened day's number and well-formed sorted periods is stated by WorkPeriods.EditingSessionKeepsDayShape |
| WorkPeriods.ApplyEditKeepsDayShape | src/screens/AdminScheduleSettings/components/DayHoursModal.tsx:50-70 | each single edit the modal offers keeps the day's number and keeps its periods well formed and sorted, an addition going through the add-period form's checks |
| WorkPeriods.ToggleEnabled | src/screens/AdminScheduleSettings/components/DayHoursModal.tsx:50-52 | toggling sets the flag and changes nothing else |
| WorkPeriods.AddPeriod | src/screens/AdminScheduleSettings/components/DayHoursModal.tsx:54-59 | adding gives the old periods plus the new one, sorted by start; nothing else changes |
| WorkPeriods.AddPeriodToSortedDay | src/screens/AdminScheduleSettings/components/DayHoursModal.tsx:54-59 | on a sorted day, adding inserts the period in place |
| WorkPeriods.AddAcceptedPeriodKeepsWellFormed | src/screens/AdminScheduleSettings/components/DayHoursModal.tsx:54-59 | adding a period the add-period form accepted keeps the day's periods well formed |
| WorkPeriods.RemoveId | src/screens/AdminScheduleSettings/components/DayHoursModal.tsx:62 | filtering keeps every period with another id, as often as it occurred, and no period with that id |
| WorkPeriods.RemoveIdConcat | src/screens/AdminScheduleSettings/components/DayHoursModal.tsx:62 | filtering works piecewise, so the kept periods keep their order |
| WorkPeriods.RemoveAbsentId | src/screens/AdminScheduleSettings/components/DayHoursModal.tsx:62 | removing an id no period has changes nothing |
| WorkPeriods.RemoveIdKeepsWellFormed | src/screens/AdminScheduleSettings/components/DayHoursModal.tsx:61-65 | removing periods keeps a well-formed list well formed |
| WorkPeriods.RemoveIdKeepsSorted | src/screens/AdminScheduleSettings/components/DayHoursModal.tsx:61-65 | removing periods keeps a sorted list sorted |
| WorkPeriods.DeletePeriod | src/screens/AdminScheduleSettings/components/DayHoursModal.tsx:61-65 | deleting removes every period with the id and keeps all others; the day's number and flag are unchanged |
| WorkPeriods.DeleteDay | src/screens/AdminScheduleSettings/components/DayHoursModal.tsx:67-70 | deleting the day disables it and empties its periods, keeping its number |
| WorkPeriods.EditsKeepDayShape | src/screens/AdminScheduleSettings/components/DayHoursModal.tsx:50-70 | toggling, deleting a period and deleting the day keep a well-formed sorted day well formed and sorted |
| ScheduleSettings.PresetsInRange | src/types/scheduleSettings.ts:61-66 | every preset except the custom 0 is an allowed duration in 15..180, and the initial 60 is a preset |
| ScheduleSettings.EnabledDays | src/screens/AdminScheduleSettings/components/AutoGenerateSection.tsx:24 | the enabled days are exactly the days that are on and have at least one period |
| ScheduleSettings.SelectDuration | src/screens/AdminScheduleSettings/components/AutoGenerateSection.tsx:26-29 | choosing a preset sets it and clears the error, leaving the rest of the form |
| ScheduleSettings.CustomDurationError | src/screens/AdminScheduleSettings/components/AutoGenerateSection.tsx:31-39 | the error is set exactly when the text is non-empty and does not parse to a whole number in 15..180 |
| ScheduleSettings.ChangeCustomDuration | src/screens/AdminScheduleSettings/components/AutoGenerateSection.tsx:31-39 | typing stores the text and its error, leaving the rest of the form |
| ScheduleSettings.InRangeTextHasNoError | src/screens/AdminScheduleSettings/components/AutoGenerateSection.tsx:31-39 | a typed whole number in 15..180 clears the error |
| ScheduleSettings.Without | src/screens/AdminScheduleSettings/components/AutoGenerateSection.tsx:44 | filtering a day out removes it and keeps every other day |
| ScheduleSettings.ToggleDay | src/screens/AdminScheduleSettings/components/AutoGenerateSection.tsx:41-47 | a toggled day is selected afterwards exactly when it was not before; other days are unaffected |
| ScheduleSettings.WithoutNoDuplicates | src/screens/AdminScheduleSettings/components/AutoGenerateSection.tsx:44 | filtering keeps a selection free of duplicates |
| ScheduleSettings.ToggleDayTwice | src/screens/AdminScheduleSettings/components/AutoGenerateSection.tsx:41-47 | toggling keeps the selection free of duplicates; toggling twice gives back the same days, and the same list when the day was not selected |
| ScheduleSettings.WithoutAppended | src/screens/AdminScheduleSettings/components/AutoGenerateSection.tsx:44-45 | removing a day just appended gives the list before it |
| ScheduleSettings.DaysOf | src/screens/AdminScheduleSettings/components/AutoGenerateSection.tsx:50 | one day number per day, in order |
| ScheduleSettings.SelectAllEnabled | src/screens/AdminScheduleSettings/components/AutoGenerateSection.tsx:49-51 | selecting all replaces the selection with the numbers of the enabled days and leaves the rest |
| ScheduleSettings.SelectAllEnabledMembers | src/screens/AdminScheduleSettings/components/AutoGenerateSection.tsx:24-51 | after selecting all, a number is selected exactly when some day with that number is on and has a period |
| ScheduleSettings.HandleGenerate | src/screens/AdminScheduleSettings/components/AutoGenerateSection.tsx:53-69 | an invalid custom duration sets the error; no selected day does nothing; otherwise the preset or the parsed custom duration is sent with the selected days |
| ScheduleSettings.CanGenerate | src/screens/AdminScheduleSettings/components/AutoGenerateSection.tsx:71-75 | the button needs a selected day and no generation running, and a custom duration needs text and no error; a preset with a day selected suffices |
| ScheduleSettings.EnabledButtonGenerates | src/screens/AdminScheduleSettings/components/AutoGenerateSection.tsx:53-75 | when the button is enabled and the shown error is up to date, pressing it generates with a duration in 15..180 |
| ScheduleSettings.SetDayEnabled | src/screens/AdminScheduleSettings/AdminScheduleSettingsScreen.tsx:83-85 | the optimistic list sets the flag of the days with that number and keeps every other day and field |
| ScheduleSettings.HandleToggleDay | src/screens/AdminScheduleSettings/AdminScheduleSettingsScreen.tsx:81-104 | a saved toggle keeps the new list with a success toast; a failed one rolls back to the old list with an error toast |
| ScheduleSettings.ToggleOnOffRestores | src/screens/AdminScheduleSettings/AdminScheduleSettingsScreen.tsx:81-104 | turning a disabled day on and off again, both saved, gives back the original list |
| ScheduleSettings.ReplaceDay | src/screens/AdminScheduleSettings/AdminScheduleSettingsScreen.tsx:121-123 | the days with the updated day's number are replaced by it and every other day is kept |
| ScheduleSettings.ReplaceDayProperties | src/screens/AdminScheduleSettings/AdminScheduleSettingsScreen.tsx:121-123 | saving the same day twice is saving it once, and saving a day unchanged changes nothing |
| ScheduleSettings.FindDay | src/screens/AdminScheduleSettings/AdminScheduleSettingsScreen.tsx:130 | a found day is in the list with that number; nothing is found exactly when no day has it |
| ScheduleSettings.HandleSaveDay | src/screens/AdminScheduleSettings/AdminScheduleSettingsScreen.tsx:120-150 | the list is replaced in any case; a save closes the editor with the period-added message exactly when the day gained periods; a failure keeps the editor open with an error toast |
| ScheduleSettings.PressEditSaveKeepsDays | src/screens/AdminScheduleSettings/AdminScheduleSettingsScreen.tsx:107-150 | pressing a disabled day keeps the selection and shows a hint; pressing an enabled day opens the editor on it, and whatever is edited and however the save answers, the list keeps distinct day numbers and well-formed sorted periods, with only the pressed position changed; saving it back unedited leaves the list as it was and closes the editor with the plain "settings saved" message |
| ScheduleSettings.HandleDayPress | src/screens/AdminScheduleSettings/AdminScheduleSettingsScreen.tsx:107-117 | the hint toast shows exactly when the pressed day is disabled, and the selection is then left as it was; otherwise the editor opens on the pressed day, which is enabled; the whole edit cycle is stated by ScheduleSettings.PressEditSaveKeepsDays |
| ScheduleSettings.GenerateRequestOf | src/screens/AdminScheduleSettings/AdminScheduleSettingsScreen.tsx:155-162 | the request carries the duration and days, one week, and a start date exactly when one was given |
| ScheduleSettings.GeneratorRequestShape | src/screens/AdminScheduleSettings/components/AutoGenerateSection.tsx:53-69 | the generator section's request covers one week, has at least one day and a duration in 15..180 |
| ScheduleSettings.ClassifyGenerateResult | src/screens/AdminScheduleSettings/AdminScheduleSettingsScreen.tsx:164-185 | a rejected request shows exactly the error toast; otherwise success exactly when sessions were created, the info toast exactly when none were created but some skipped, and nothing otherwise |
| AdminForms.OptionRanges | src/screens/Admin/components/AddSessionModal.tsx:25-36 | the day options are exactly 0..6 starting with Sunday, and the capacity options exactly 1..12 in increasing order; AdminSchedule.SubmittedSessionHasPositiveDuration uses the day range and AdminForms.CapacityOptionBedGrid the capacity range |
| AdminForms.CapacityOptionBedGrid | src/screens/Admin/components/AddSessionModal.tsx:36 | a capacity picked from the options gives a booking grid of one to twelve beds, numbered 1..capacity, each once |
| AdminForms.FormatTimeInput | src/screens/Admin/components/AddSessionModal.tsx:126-132 | the field holds at most five characters, all digits except a colon in third place, which appears exactly when more than two digits were typed |
| AdminForms.FormatTimeInputDigits | src/screens/Admin/components/AddSessionModal.tsx:126-132 | the field's digits are the first four digits typed, in order |
| AdminForms.DigitsAroundColon | src/screens/Admin/components/AddSessionModal.tsx:127 | dropping non-digits from two digit strings joined by a colon gives their concatenation |
| AdminForms.FormatTimeInputIdempotent | src/screens/Admin/components/AddSessionModal.tsx:126-132 | formatting a formatted field changes nothing |
| AdminForms.FormatTimeInputComplete | src/screens/Admin/components/AddSessionModal.tsx:126-139 | a field reaches the five characters the form needs exactly when four digits were typed, and is then an HH:MM text |
| AdminForms.ValidateTime | src/screens/Admin/components/AddSessionModal.tsx:86-100 | empty or unreadable sides pass; otherwise the check holds exactly when the end is later than the start in minutes |
| AdminForms.ChangeStartTime | src/screens/Admin/components/AddSessionModal.tsx:102-112 | the start field is the formatted text; with both fields filled the error is cleared exactly when the times pass the check, otherwise it stays |
| AdminForms.ChangeEndTime | src/screens/Admin/components/AddSessionModal.tsx:114-124 | the same for the end field |
| AdminForms.HandleSubmit | src/screens/Admin/components/AddSessionModal.tsx:134-156 | a session is submitted exactly when the form is valid, with its fields, and the form is then reset; otherwise nothing changes |
| AdminForms.SubmittedTimesOrdered | src/screens/Admin/components/AddSessionModal.tsx:126-156 | a submitted session whose fields came through the formatter has HH:MM times with the end later than the start |
| AdminForms.HhMmTimesOrdered | src/screens/Admin/components/AddSessionModal.tsx:86-100 | two HH:MM texts that pass the check are readable and ordered |
| AdminForms.CompleteFieldIsHhMm | src/screens/Admin/components/AddSessionModal.tsx:126-132 | a complete formatted field is an HH:MM text |
| AdminForms.HandleCloseSession | src/screens/Admin/components/AddSessionModal.tsx:69-84 | closing resets the form, which can then not be submitted |
| AdminForms.Beds | src/screens/Admin/components/AddBookingModal.tsx:37-40 | the grid numbers beds 1, 2, … up to the capacity, and is empty for a capacity below one |
| AdminForms.BedsAreOneToCapacity | src/screens/Admin/components/AddBookingModal.tsx:37-40 | the grid holds each bed 1..capacity exactly once |
| AdminForms.PressBed | src/screens/Admin/components/AddBookingModal.tsx:160-167 | pressing a booked bed changes nothing; pressing a free one selects it |
| AdminForms.HandleAddBooking | src/screens/Admin/components/AddBookingModal.tsx:43-50 | a booking is added exactly when the trimmed name is non-empty and a bed is chosen, with the trimmed fields, and the form is cleared; otherwise nothing changes |
| AdminForms.HandleCloseBooking | src/screens/Admin/components/AddBookingModal.tsx:52-57 | closing clears the name, phone and bed |
| AdminForms.BookingFormKeepsBedChoice | src/screens/Admin/components/AddBookingModal.tsx:37-167 | every step keeps the chosen bed on the grid and free, so an added booking's bed is in 1..capacity and not booked |
| AdminForms.LoadSession | src/screens/Admin/components/EditSessionModal.tsx:45-52 | a session loads its title and type, and numbers whose text reads back as the same numbers; without a session the fields stay |
| AdminForms.NumberOrOld | src/screens/Admin/components/EditSessionModal.tsx:60-61 | the parsed number when the text reads as a non-zero integer, the previous value otherwise |
| AdminForms.SaveSession | src/screens/Admin/components/EditSessionModal.tsx:54-64 | a session is saved exactly when there is one and the trimmed title and type and both numbers' texts are non-empty; it keeps the id, time and bookings and takes the trimmed texts and the numbers or their old values |
| AdminForms.SaveLoadedSession | src/screens/Admin/components/EditSessionModal.tsx:45-64 | saving straight after loading gives back the session with its title and type trimmed |
| AdminForms.LoadBooking | src/screens/Admin/components/EditBookingModal.tsx:37-42 | a booking loads its name and phone; without one the fields stay |
| AdminForms.SaveBooking | src/screens/Admin/components/EditBookingModal.tsx:44-52 | a booking is saved exactly when there is one and its trimmed name and phone are non-empty, keeping its id |
| AdminForms.SaveLoadedBooking | src/screens/Admin/components/EditBookingModal.tsx:37-52 | saving straight after loading keeps an already trimmed booking, and saving a saved booking again changes nothing |
| AdminSchedule.SlotOfSession | src/screens/Admin/AdminScheduleScreen.tsx:136-148 | a fetched session shows with its id, Arabic title as title and type, capacity and occupancy, and no bookings until they are loaded; it starts at the session's date text when that is non-empty, else at the empty text, and lasts 60 minutes |
| AdminSchedule.SortedSlots | src/screens/Admin/AdminScheduleScreen.tsx:268-272 | every listed slot starts on the selected day, and the list is in order of start time |
| AdminSchedule.SortedSlotsArePermutation | src/screens/Admin/AdminScheduleScreen.tsx:268-272 | the list holds each slot of the selected day as often as the fetched list does, and no other slot |
| AdminSchedule.CardOf | src/screens/Admin/AdminScheduleScreen.tsx:493-538 | a card is full exactly when the booked count reaches the capacity and then shows the full badge, otherwise the available one; a readable start shows as "HH:MM - HH:MM", the start's clock, then the end the slot's duration later |
| AdminSchedule.RangeShape | src/screens/Admin/AdminScheduleScreen.tsx:497 | "start - end" of two HH:MM texts has the start, the dash and the end at fixed places |
| AdminSchedule.CardAgreesWithSession | src/screens/Admin/AdminScheduleScreen.tsx:494-538 | a fetched session's card shows the same full / available badge the shared availability rule gives the session and, when its date parses, the session's start clock and the clock an hour later |
| AdminSchedule.DurationOf | src/screens/Admin/AdminScheduleScreen.tsx:446-457 | the duration is the end's minute of the day less the start's, and is missing exactly when either time is unreadable |
| AdminSchedule.StartOfNewSession | src/screens/Admin/AdminScheduleScreen.tsx:447-451 | a start exists only for a day inside the week; an HH:MM start within the day lands on that day at that hour and minute |
| AdminSchedule.PartsWhenHhMm | src/screens/Admin/AdminScheduleScreen.tsx:449 | the two parts of an HH:MM text split at the colon read as its hour and minutes |
| AdminSchedule.CreateRequestOf | src/screens/Admin/AdminScheduleScreen.tsx:446-466 | a create request is sent exactly when the start is valid; it carries the submitted type as title, the capacity, the start computed from the picked day and start time, and the minutes between start and end |
| AdminSchedule.SubmittedSessionHasPositiveDuration | src/screens/Admin/AdminScheduleScreen.tsx:446-466 | a session submitted from the form with the times typed into it yields a create request whose duration is a positive number of minutes |
| AdminSchedule.Open | src/screens/Admin/AdminScheduleScreen.tsx:239-247 | every opener closes all modals and shows exactly its own |
| AdminSchedule.RemoveBooking | src/screens/Admin/AdminScheduleScreen.tsx:429 | the list afterwards has no booking with that id and keeps every other booking as often as before |
| AdminSchedule.RemoveBookingIdempotent | src/screens/Admin/AdminScheduleScreen.tsx:429 | removing the same booking again removes nothing more |
| AdminSchedule.NoMatchFilterIsIdentity | src/screens/Admin/AdminScheduleScreen.tsx:429 | filtering out an id no booking has keeps the list |
| AdminSchedule.StepModals | src/screens/Admin/AdminScheduleScreen.tsx:274-490 | each handler opens exactly one modal, closes them all, or leaves them as they were, so it keeps at most one modal visible |
| AdminSchedule.Step | src/screens/Admin/AdminScheduleScreen.tsx:274-444 | a failed request leaves the screen exactly as it was; only opening a session's details, loading its bookings or a successful deletion touch the booking list, and a deletion never lengthens it |
| AdminSchedule.AtMostOneModal | src/screens/Admin/AdminScheduleScreen.tsx:238-247 | from a screen with at most one modal visible, any sequence of actions and request outcomes keeps at most one visible |
| AdminSchedule.DeleteBookingEffect | src/screens/Admin/AdminScheduleScreen.tsx:419-435 | a deletion that succeeds drops exactly the bookings with the chosen id, keeps the others in order, clears the chosen booking and closes every modal |
| WeekView.FindSameDay | src/screens/Schedule/index.tsx:52 | the first day that is the same calendar day as today, or -1 exactly when there is none |
| WeekView.TodayIndex | src/screens/Schedule/index.tsx:51-54 | today's position in the week when it is there (the first match), otherwise 0 |
| WeekView.TodayIndexIsWeekday | src/screens/Schedule/index.tsx:47-54 | in the week starting on the Sunday on or before today, today sits at its weekday number |
| WeekView.DayTabs | src/screens/Schedule/index.tsx:65-76 | one tab per day of the week, named after its weekday, and every tab enabled whether or not a session falls on it |
| WeekView.DayList | src/screens/Schedule/index.tsx:80-85 | every listed entry starts on the selected day, and the list is in order of start time |
| WeekView.DayListContents | src/screens/Schedule/index.tsx:80-85 | the list holds every entry of the selected day as often as the fetched list does and nothing else, and entries starting at the same instant keep their order |
| WeekView.DayListChronological | src/screens/Admin/AdminScheduleScreen.tsx:268-272 | an earlier entry of the list never starts after a later one, and both fall on the selected day |
| ScheduleScreen.Week | src/screens/Schedule/index.tsx:46-49 | seven days, the i-th on weekday i from Sunday, one of them today |
| ScheduleScreen.InitialDayIndex | src/screens/Schedule/index.tsx:51-56 | the tab selected first is a day of the week that is today |
| ScheduleScreen.InitialDayIsWeekday | src/screens/Schedule/index.tsx:51-56 | that tab is today's weekday number, Sunday first |
| ScheduleScreen.Tabs | src/screens/Schedule/index.tsx:65-76 | seven tabs on the week's days, all enabled |
| ScheduleScreen.Filtered | src/screens/Schedule/index.tsx:78-85 | the listed sessions start on the selected day, earliest first |
| ScheduleScreen.FilteredContents | src/screens/Schedule/index.tsx:80-85 | a session is listed exactly when it starts on the selected day, as often as it was fetched |
| ScheduleScreen.PressSession | src/screens/Schedule/index.tsx:92-106 | a press opens the booking wizard exactly when the card is not full, at step 3 with the session's id and, as date, the text of its start before the first 'T' |
| ScheduleScreen.ScheduleEntrySkipsToBeds | src/screens/Schedule/index.tsx:92-106 | the wizard then opens consistently at the bed step with the session chosen and no bed, and its back button leaves the wizard at once |
| SessionCards.Clamp | src/components/UI/Progress.tsx:26 | the filled share lies in 0..100, is the value itself inside that range, 0 below it and 100 above it |
| SessionCards.ClampMonotoneIdempotent | src/components/UI/Progress.tsx:26 | clamping keeps order and clamping twice is clamping once |
| SessionCards.SeatsLeft | src/screens/Schedule/SessionCard.tsx:31 | the seats the server reports when present, otherwise the capacity less the booked count |
| SessionCards.CardOccupancy | src/screens/Schedule/SessionCard.tsx:37-40 | the taken share of the places in percent, counting as taken every place not free; 0 without places |
| SessionCards.ProgressVariant | src/screens/Schedule/SessionCard.tsx:42-47 | red exactly when full; for an open session with places, amber exactly when at most half the places are free, green otherwise |
| SessionCards.RatioAtMostHalf | src/screens/Schedule/SessionCard.tsx:44-45 | a share of at most one half is twice the part at most the whole |
| SessionCards.WarningIffHalfOccupied | src/screens/Schedule/SessionCard.tsx:37-47 | for an open session with places the bar turns amber exactly when at least half the places are taken |
| SessionCards.BarShowsOccupancy | src/screens/Schedule/SessionCard.tsx:37-106 | with consistent counts the clamp leaves the occupancy as it is, so the bar draws it exactly |
| SessionCards.AvailabilityText | src/screens/Schedule/SessionCard.tsx:49-51 | the no-places message exactly when full; otherwise the text reads back with `parseInt` as the number of free seats, and after that number and " من " the rest reads back as the capacity |
| SessionCards.CardPress | src/screens/Schedule/SessionCard.tsx:55-113 | a full session ignores every press; otherwise the book button books and the card opens |
| SessionCards.AvailablePercent | src/screens/Booking/components/SessionCard.tsx:25 | the free share of the places in percent; 0 without places |
| SessionCards.ProgressColour | src/screens/Booking/components/SessionCard.tsx:28-32 | grey exactly when full or nothing is free, orange exactly when open with a free share up to 50, green otherwise |
| SessionCards.BarWidth | src/screens/Booking/components/SessionCard.tsx:65 | the bar's width is the taken share, within 0..100 for consistent counts and 100 without places |
| SessionCards.AvailablePercentBounds | src/screens/Booking/components/SessionCard.tsx:25 | consistent counts give a free share between 0 and 100 |
| SessionCards.WizardCardColour | src/screens/Booking/BookingWizardScreen.tsx:450-453 | with the wizard's notion of full, a card with places is grey exactly when no seat is free and orange exactly when at most half are |
| SessionCards.HalfShare | src/screens/Booking/components/SessionCard.tsx:29-30 | a share of c places is at most 50 exactly when twice the part is at most c, and 0 exactly when the part is |
| SessionCards.ScaleCompare | src/screens/Booking/components/SessionCard.tsx:30 | comparing after scaling by a positive factor keeps the comparison |
| BookingWizard.CountIn | src/screens/Booking/BookingWizardScreen.tsx:234-246 | the count is the number of sessions whose start falls in the day's group |
| BookingWizard.AnyAvailable | src/screens/Booking/BookingWizardScreen.tsx:247 | a day has a free seat exactly when some session of its group has one |
| BookingWizard.DayGroups | src/screens/Booking/BookingWizardScreen.tsx:213-250 | fourteen days from today, each keyed and named after its date, counting the sessions that start on it and marking whether one of them has a free seat; an unparsable start yields no groups |
| BookingWizard.AvailableDayHasSessions | src/screens/Booking/BookingWizardScreen.tsx:242-248 | a day marked as having a free seat has at least one session |
| BookingWizard.SessionsForDate | src/screens/Booking/BookingWizardScreen.tsx:253-256 | no chosen date gives no sessions; otherwise every listed session starts on the chosen date, and each session of that date is listed as often as it occurs in the fetched list |
| BookingWizard.StepTwoListsTheCountedSessions | src/screens/Booking/BookingWizardScreen.tsx:213-256 | the session list of step 2 is as long as the count step 1 showed for the chosen day |
| BookingWizard.Init | src/screens/Booking/BookingWizardScreen.tsx:122-131 | the wizard counts as entered from the schedule exactly when a session id was passed, starts at the given step or 1, and holds the passed date and session but no bed |
| BookingWizard.SelectDate | src/screens/Booking/BookingWizardScreen.tsx:277-281 | a new date clears the session and the bed |
| BookingWizard.SelectSession | src/screens/Booking/BookingWizardScreen.tsx:283-286 | a new session clears the bed and keeps the date |
| BookingWizard.Next | src/screens/Booking/BookingWizardScreen.tsx:289-297 | the step moves one forward exactly when the current step's choice is made, never past 4, and nothing else changes |
| BookingWizard.Back | src/screens/Booking/BookingWizardScreen.tsx:299-318 | from the schedule, step 3 leaves the screen and step 4 goes back to 3; otherwise one step back, and step 1 leaves the screen |
| BookingWizard.CanProceed | src/screens/Booking/BookingWizardScreen.tsx:347-355 | step 1 needs a chosen date whose first matching day has sessions, step 2 a session, step 3 a bed, step 4 nothing, and any other step is blocked |
| BookingWizard.FindGroup | src/screens/Booking/BookingWizardScreen.tsx:349 | the first day with that date, or past the end when there is none |
| BookingWizard.Confirm | src/screens/Booking/BookingWizardScreen.tsx:321-328 | a reservation is sent exactly when a session and a bed are chosen, with those two |
| BookingWizard.InitConsistent | src/screens/Booking/BookingWizardScreen.tsx:122-131 | the wizard starts consistent (a step in 1..4, a session from step 3 on, a bed at step 4) exactly for the entries without a step, at step 1 (the main screen's button), at step 2, or at step 3 with a session (a schedule card) |
| BookingWizard.StepConsistent | src/screens/Booking/BookingWizardScreen.tsx:277-355 | every press keeps the wizard consistent |
| BookingWizard.RunConsistent | src/screens/Booking/BookingWizardScreen.tsx:277-318 | any sequence of presses keeps a consistent wizard consistent |
| BookingWizard.ConfirmAlwaysSendsAtLastStep | src/screens/Booking/BookingWizardScreen.tsx:321-328 | from any consistent entry, the main screen's `{ startStep: 1 }` included, and however the user moves through the wizard, confirming at step 4 always sends a reservation |
| MyBookings.CanCancelReservation | src/screens/MyBookingsScreen.tsx:212-217 | cancellable exactly when the start parsed and lies at least 48 hours after now, the boundary included |
| MyBookings.StatusOf | src/screens/MyBookingsScreen.tsx:293-311 | upcoming exactly for a booked reservation not yet begun, attended exactly when the studio marked it so, missed in every other case, cancelled ones included |
| MyBookings.CancelOnlyUpcoming | src/screens/MyBookingsScreen.tsx:212-338 | only a booked reservation at least 48 hours ahead offers cancelling, and such a card is always upcoming |
| MyBookings.CanCancel | src/screens/MyBookingsScreen.tsx:336-338 | cancelling is offered exactly for a booked reservation whose session starts at least 48 hours from now |
| MyBookings.UnparsableBookedIsUpcoming | src/screens/MyBookingsScreen.tsx:293-338 | a booked reservation whose start does not parse is listed as upcoming but offers no cancelling |
| MyBookings.Hour12 | src/screens/MyBookingsScreen.tsx:35 | the 12-hour reading lies in 1..12 and agrees with the hour modulo 12 |
| MyBookings.FormatArabicTime | src/screens/MyBookingsScreen.tsx:29-40 | two digits of the 12-hour reading, a colon, two digits of the minutes and the evening word from noon on, the morning word before; an invalid date reads "12:NaN" in the morning |
| MyBookings.ArabicTimeDeterminesClock | src/screens/MyBookingsScreen.tsx:29-40 | two times shown alike have the same hour and minute |
| MyBookings.SameHalfSameHour | src/screens/MyBookingsScreen.tsx:34-35 | an hour of the day is fixed by its 12-hour reading and its half |
| MyBookings.FormatTimeRange | src/screens/MyBookingsScreen.tsx:43-51 | a range exists exactly for a valid start and begins with the start's clock |
| MyBookings.RangeEndsAfterDuration | src/screens/MyBookingsScreen.tsx:43-51 | the range is the start, " - ", then the clock the duration later, wrapping around midnight |
| MyBookings.RangeParts | src/screens/MyBookingsScreen.tsx:50 | the pieces of "start - end" sit at fixed places |
| MyBookings.TimeRangeOfZeroDuration | src/screens/MyBookingsScreen.tsx:43-51 | a session of no length shows the same time on both sides |
| MyBookings.SessionTypeLabel | src/screens/MyBookingsScreen.tsx:344-347 | the first non-empty of the type label, the type and the title, and the default type name when all are empty; never empty |
| MyBookings.DayOfWeekOf | src/screens/MyBookingsScreen.tsx:74-82 | the weekday number of a recognised short weekday name, Sunday otherwise |
| MyBookings.PastTabDateRange | src/screens/MyBookingsScreen.tsx:98-122 | the range runs from the first of the month, or from the week's Sunday exactly when that Sunday lies in the previous month, to the first of the next month, a month's length later |
| MyBookings.Step | src/screens/MyBookingsScreen.tsx:220-256 | a cancellation request is sent only from the open confirmation, for the selected booking |
| MyBookings.OnlyCancellableBookingsAreCancelled | src/screens/MyBookingsScreen.tsx:220-338 | whatever the user does, the dialogs stay consistent and every cancellation request names a booking the 48-hour rule allowed |
| UtcDate.DaysInMonth | src/screens/MyBookingsScreen.tsx:106-113 | a month has 28 to 31 days |
| UtcDate.DaysBeforeMonth | src/screens/MyBookingsScreen.tsx:106-113 | the days before a month are those before the previous month plus its length |
| UtcDate.FloorStep | src/screens/MyBookingsScreen.tsx:106-113 | integer division by k steps up by one exactly at a multiple of k |
| UtcDate.ModShift | src/screens/MyBookingsScreen.tsx:106-113 | shifting by a multiple of k keeps the remainder |
| UtcDate.DayFromNextYear | src/screens/MyBookingsScreen.tsx:106-113 | consecutive New Year's days are a year's length apart |
| UtcDate.NextMonthStart | src/screens/MyBookingsScreen.tsx:106-109 | the first of the next month is the month's length after the first of this one, across a year's end as well |
| UtcDate.DayOffset | src/screens/MyBookingsScreen.tsx:112-113 | day d of a month, however far outside the month, lies d - 1 days after its first |
| Sorting.WithKey | src/screens/Schedule/index.tsx:84 | the elements with one key, each with that key, no more than the list holds |
| Sorting.InsertBy | src/screens/Schedule/index.tsx:84 | inserting adds exactly the one element and keeps the rest |
| Sorting.InsertBySorted | src/screens/Schedule/index.tsx:84 | inserting into a sorted list keeps it sorted |
| Sorting.SortBy | src/screens/Schedule/index.tsx:82-84 | the sort by start time is a permutation of its input in ascending key order |
| Sorting.WithKeyInsert | src/screens/Schedule/index.tsx:84 | inserting into a sorted list puts the new element at the front of its key class and leaves the other classes |
| Sorting.WithKeyCons | src/screens/Schedule/index.tsx:84 | the key class of a list with a known head |
| Sorting.SortByStable | src/screens/Admin/AdminScheduleScreen.tsx:271 | entries with equal start times keep their original order, as the stable sort of the language guarantees |
| Sorting.Filter | src/screens/Schedule/index.tsx:82-83 | the kept elements all pass the test, come from the list, and every passing element is kept |
| Sorting.FilterCount | src/screens/Admin/AdminScheduleScreen.tsx:270 | filtering keeps exactly the copies that pass, each as often as before |
| Sorting.Map | src/screens/Admin/AdminScheduleScreen.tsx:138-147 | one result per element, each the function applied to it |
| Sorting.MapConcat | src/screens/Admin/AdminScheduleScreen.tsx:138-147 | mapping two parts one after the other gives the map of the whole |
| Subscription.CeilDiv | src/screens/Subscription/SubscriptionScreen.tsx:124 | the rounded-up quotient: the least q with a <= q * b |
| Subscription.DaysRemaining | src/screens/Subscription/SubscriptionScreen.tsx:122-124 | the whole days left, rounded up, exactly when the end date parsed: the time left lies in the last of those days |
| Subscription.DisplayStatus | src/screens/Subscription/SubscriptionScreen.tsx:118-133 | a pending request reads as pending, no subscription as expired, a non-active status as itself; an active one as expired at 0 days or fewer, expiring soon at 1 to 7, active beyond 7 or with an unparsable end date |
| Subscription.ExpiringSoonWithinAWeek | src/screens/Subscription/SubscriptionScreen.tsx:118-133 | an active subscription reads as expiring soon exactly when it ends within the coming seven days, and as expired exactly when its end has passed |
| Subscription.DaysRemainingShown | src/screens/Subscription/SubscriptionScreen.tsx:139-144 | 0 without a subscription or end date, otherwise the rounded-up days left |
| Subscription.CardsShown | src/screens/Subscription/SubscriptionScreen.tsx:136-330 | the no-subscription card exactly without subscription or request; the pending notice exactly with a request; usage exactly with usage and an active subscription; the info card exactly when active or pending; the expiry warning only for a subscription without a request |
| Subscription.CardsExclusive | src/screens/Subscription/SubscriptionScreen.tsx:159-330 | the no-subscription card never shows beside the usage card or the expiry warning, and the warning for an active subscription shows 1 to 7 days |
| Subscription.UsageWidth | src/screens/Subscription/SubscriptionScreen.tsx:288-307 | the bar width is at most 100 and is the used share of a positive limit; for a zero limit it exists exactly when something was used |
| Subscription.ProgressPercentage | src/screens/Dashboard/components/UsageCard.tsx:26 | the used share of a positive total in percent, capped at 100; 0 without a total |
| Subscription.ScaledBound | src/screens/Dashboard/components/UsageCard.tsx:26 | comparing a share with 100 is comparing the scaled share with 100 times the total |
| Subscription.WeeklyMessage | src/screens/Dashboard/components/UsageCard.tsx:85-90 | the weekly cap message exactly when no session is left this week; otherwise the sessions-left prefix followed by text that reads back with `parseInt` as the count left |
| Subscription.MonthlyMessage | src/screens/Dashboard/components/UsageCard.tsx:92-97 | the month-finished message exactly when the balance is exactly 0; otherwise the remaining prefix followed by text that reads back with `parseInt` as the balance |
| Subscription.UsageCardView | src/screens/Dashboard/components/UsageCard.tsx:43-149 | the plans prompt exactly without a subscription, nothing exactly without usage, otherwise both bars, each red exactly when nothing is left, with the messages and shares above |
| Subscription.NegativeMonthlyLeftIsRedButRemaining | src/screens/Dashboard/components/UsageCard.tsx:93-147 | a negative monthly balance paints the bar red yet still words it as sessions remaining |
| Subscription.WeeklyUsageView | src/screens/Subscription/components/WeeklyUsageCard.tsx:19-50 | the bar is the used share of a positive limit capped at 100, and 0 without one; the limit is reached exactly when no session is left; the singular unit exactly for one left |
| Subscription.WeeklyBarsAgree | src/screens/Subscription/components/WeeklyUsageCard.tsx:19-42 | the weekly card's bar and the dashboard's bar agree |
| SubscriptionPlans.SortedPlans | src/screens/SubscriptionPlans/SubscriptionPlansScreen.tsx:57-60 | the plans are a permutation of the fetched ones, fewest monthly sessions first |
| SubscriptionPlans.SortedPlansStable | src/screens/SubscriptionPlans/SubscriptionPlansScreen.tsx:57-60 | plans with the same monthly limit keep the order the server sent them in |
| SubscriptionPlans.PlanRelation | src/screens/SubscriptionPlans/SubscriptionPlansScreen.tsx:69-74 | new exactly without a current plan; the same plan exactly when the plan's id equals the current plan's database id; otherwise lower exactly for fewer sessions and higher for as many or more |
| SubscriptionPlans.ChooseAction | src/screens/SubscriptionPlans/SubscriptionPlansScreen.tsx:77-267 | a pending request blocks every choice; a lower plan always schedules a downgrade; renewing needs the same plan, a subscription and the confirmation; upgrading now needs a higher plan, a subscription and both confirmations; a new or higher plan without a subscription upgrades next month |
| SubscriptionPlans.SelectPlan | src/screens/SubscriptionPlans/SubscriptionPlansScreen.tsx:77-83 | blocked while a request is pending, otherwise it records the plan and action and opens the dialog |
| SubscriptionPlans.ConfirmPayment | src/screens/SubscriptionPlans/SubscriptionPlansScreen.tsx:153-187 | a request is sent exactly when a plan is chosen, with that plan, method, action and proof; a success clears the plan and closes the dialog, a failure keeps the selection |
| SubscriptionPlans.ChoosingThenPayingSendsTheChoice | src/screens/SubscriptionPlans/SubscriptionPlansScreen.tsx:77-187 | choosing a plan and paying sends the request for that plan with the action its relation led to |
| SubscriptionPlans.RequestedAction | src/screens/SubscriptionPlans/components/PaymentMethodModal.tsx:40 | the given action, or upgrading next month when none is given |
| SubscriptionPlans.PressConfirm | src/screens/SubscriptionPlans/components/PaymentMethodModal.tsx:44-176 | the method reaches the screen exactly when one is chosen and nothing is being submitted, without a proof URL |
| SubscriptionPlans.CloseThenConfirm | src/screens/SubscriptionPlans/components/PaymentMethodModal.tsx:44-55 | closing when not submitting closes the dialog and forgets the method, so a confirm press after it sends nothing; a close while submitting is ignored and the chosen method can still be confirmed afterwards |
| SubscriptionPlans.Close | src/screens/SubscriptionPlans/components/PaymentMethodModal.tsx:50-55 | a close while submitting is ignored and leaves the chosen method confirmable; otherwise the dialog closes and no confirm press can send a method afterwards, submitting or not |
| SubscriptionPlans.EstimateNoticeOnlyForImmediateUpgrade | src/screens/SubscriptionPlans/components/PaymentMethodModal.tsx:40-156 | the estimate notice shows exactly when the user chose to upgrade a current subscription now |
| ProfileWizard.PhoneIgnoresSpaces | src/screens/CompleteProfileWizard.tsx:18-21 | white space anywhere in a phone number does not change whether it is valid |
| ProfileWizard.IsValidPhone | src/screens/CompleteProfileWizard.tsx:18-21 | a valid number has at least nine characters; a number without white space is valid exactly when it starts with "05" and has nine or more characters; white space inside it is ignored, as ProfileWizard.PhoneIgnoresSpaces states |
| ProfileWizard.RemoveSpacesConcat | src/screens/CompleteProfileWizard.tsx:19 | removing white space works piecewise |
| ProfileWizard.Step1Errors | src/screens/CompleteProfileWizard.tsx:53-64 | each name is flagged exactly when blank; the phone exactly when blank (the required message) or not a valid mobile number (the invalid message); no other field |
| ProfileWizard.Step1PassesIffNoErrors | src/screens/CompleteProfileWizard.tsx:53-64 | the first step passes exactly when no field is flagged |
| ProfileWizard.Step2Errors | src/screens/CompleteProfileWizard.tsx:66-82 | age and weight are flagged exactly when blank (the required message) or not a positive finite number (the invalid message); the condition exactly when blank; no other field |
| ProfileWizard.Step2PassesIffNoErrors | src/screens/CompleteProfileWizard.tsx:66-82 | the second step passes exactly when no field is flagged |
| ProfileWizard.ProgressShowsStep | src/screens/CompleteProfileWizard.tsx:47 | wherever the user has got to from the start, the bar is half full exactly on step one and full exactly on step two, and full only once the basic details validated |
| ProfileWizard.ProgressValue | src/screens/CompleteProfileWizard.tsx:47 | on step one or two the bar shows the share of the two steps reached: half, then all |
| ProfileWizard.Submit | src/screens/CompleteProfileWizard.tsx:113-158 | the errors are those of step two; nothing is sent when step two does not validate; a rejected upload of an attached file shows the error toast and sends no update; otherwise the update is sent with trimmed texts, positive numbers, and the uploaded address exactly when a file was attached and the upload returned one |
| ProfileWizard.Step | src/screens/CompleteProfileWizard.tsx:84-132 | only submitting on step two sends an update; next on step one stores its errors and moves on exactly when they are empty; back clears the errors and returns to step one |
| ProfileWizard.StepConsistent | src/screens/CompleteProfileWizard.tsx:84-132 | every event keeps the wizard on step one or two, with valid basics on step two, and an update it sends is complete |
| ProfileWizard.StartConsistent | src/screens/CompleteProfileWizard.tsx:32-45 | the wizard starts consistent |
| ProfileWizard.SentProfilesAreComplete | src/screens/CompleteProfileWizard.tsx:53-132 | whatever the user does, every update sent has both names, a phone, a health condition and a positive age and weight |
| ProfileWizard.AfterSubmit | src/screens/CompleteProfileWizard.tsx:134-158 | only a completed profile leaves the wizard and counts as saved; a failed request is reported as a failure |
| Auth.RoleOf | src/utils/tokenUtils.ts:35-39 | the role claim names the admin or business role exactly when it is that string; every other value, absent included, gives the consumer role |
| Auth.ExpiredIffSecondPassed | src/utils/tokenUtils.ts:42-43 | a token with a non-zero expiry has expired exactly when the whole second after it has begun |
| Auth.DecodeAccessToken | src/utils/tokenUtils.ts:30-63 | a token decodes exactly when the JWT library accepts it, with the normalised role, the email and expiry as given, the subject or the empty id, and expired exactly for a non-zero expiry before the current second |
| Auth.ExtractRoleFromToken | src/utils/tokenUtils.ts:69-72 | the role of a decodable token, the default role otherwise |
| Auth.AdminOnlyFromAdminClaim | src/utils/tokenUtils.ts:35-72 | only a decodable token whose role claim is "admin" yields the admin role |
| Auth.Reduce | src/features/auth/authSlice.ts:36-75 | signing in and restoring set the token, user and role and authenticate, signing in also saving the token; logging out clears everything to the default role and deletes the token; finishing only hides the splash |
| Auth.RunValid | src/features/auth/authSlice.ts:36-75 | any sequence of actions keeps an authenticated state holding a token and a user, and once the splash is gone it never comes back |
| Auth.InitialValid | src/features/auth/authSlice.ts:24-30 | the initial state is signed out, restoring, and valid |
| Auth.Bootstrap | src/navigation/RootNavigator.tsx:31-77 | a stored, decodable, unexpired token restores the session with the token's user and role; an expired one logs out when its deletion succeeds; every other case only finishes restoring; the stored token is deleted exactly when it is present and not restored and the deletion succeeds |
| Auth.ScreenOf | src/navigation/RootNavigator.tsx:80-103 | the splash exactly while restoring, then the login screen when signed out, the admin tabs for an admin and the customer tabs for anyone else |
| Auth.StartupScreen | src/navigation/RootNavigator.tsx:31-103 | after start-up the splash is gone whatever the store held; the admin tabs show exactly for a stored, decodable, unexpired token whose role claim is "admin", and the login screen exactly when there is no such usable token |
| Mojibake.Utf8Char | src/screens/Dashboard/components/DashboardHeader.tsx:26 | a character of the two-byte range is written as a lead byte 0xC2..0xDF and a continuation byte 0x80..0xBF whose payload bits give back the code point |
| Mojibake.Utf8 | src/screens/Dashboard/components/DashboardHeader.tsx:26 | a text of two-byte characters is written as twice as many bytes, each in 0x80..0xDF |
| Mojibake.ThaiChar | src/screens/AdminScheduleSettings/components/WorkPeriodCard.tsx:15 | an assigned ISO/IEC 8859-11 byte from 0xA1 reads as the Thai character at the same offset from U+0E01 (U+0E01..U+0E5B), a byte below 0xA1 as itself; the unassigned bytes 0xDB..0xDE and 0xFC..0xFF are excluded |
| Mojibake.ReadAsThai | src/screens/AdminScheduleSettings/components/WorkPeriodCard.tsx:15 | reading assigned bytes as Thai gives one character per byte, each the reading of its byte |
| Mojibake.Cp1252Char | src/screens/Dashboard/components/DashboardHeader.tsx:26 | a Windows-1252 byte outside 0x80..0x9F reads as itself, one inside that range as a character beyond Latin-1 |
| Mojibake.ReadAsCp1252 | src/screens/Dashboard/components/DashboardHeader.tsx:26 | reading bytes as Windows-1252 never gives more characters than bytes, since unassigned bytes are dropped |
| Mojibake.ReadAsCp1252Concat | src/screens/Dashboard/components/DashboardHeader.tsx:26 | reading is byte by byte, so the reading of two joined byte strings is the two readings joined |
| DashboardHeader.DisplayNameWith | src/screens/Dashboard/components/DashboardHeader.tsx:24-26 | a missing or empty name gives the fallback; otherwise a prefix of the name with no space and no '@', and the whole name when it has neither |
| DashboardHeader.DisplayName | src/screens/Dashboard/components/DashboardHeader.tsx:24-26 | a guest is greeted with the Arabic word for "guest"; anyone else with a prefix of their name holding no space and no '@' |
| DashboardHeader.DisplayNameAsWritten | src/screens/Dashboard/components/DashboardHeader.tsx:24-26 | with the default as written, a guest gets the garbled word and anyone else the same name as with the intended default |
| DashboardHeader.DisplayNameOfFullName | src/screens/Dashboard/components/DashboardHeader.tsx:24-26 | a name "first rest" and an address "first@rest" both greet with "first" |
| DashboardHeader.BeforeSeparator | src/screens/Dashboard/components/DashboardHeader.tsx:24-26 | cutting a text at its first separator gives back what came before it |
| DashboardHeader.AtInFirstWord | src/screens/Dashboard/components/DashboardHeader.tsx:24-26 | the first word of an address with no space before its '@' starts with the local part and the '@' |
| DashboardHeader.Initial | src/screens/Dashboard/components/DashboardHeader.tsx:29 | the avatar letter is empty exactly for an empty name, otherwise the name's first letter, upper-cased when it is a Latin small letter |
| DashboardHeader.MisreadDad | src/screens/Dashboard/components/DashboardHeader.tsx:26 | the first letter of the guest word, read back as Windows-1252, is the first two garbled characters |
| DashboardHeader.MisreadYa | src/screens/Dashboard/components/DashboardHeader.tsx:26 | the second letter reads back as the next two garbled characters |
| DashboardHeader.MisreadFa | src/screens/Dashboard/components/DashboardHeader.tsx:26 | the third letter reads back as one garbled character, its second byte being unassigned |
| DashboardHeader.MisreadTaMarbuta | src/screens/Dashboard/components/DashboardHeader.tsx:26 | the last letter reads back as the last two garbled characters |
| DashboardHeader.GuestNameBytes | src/screens/Dashboard/components/DashboardHeader.tsx:26 | the guest word's bytes are its letters' bytes in order |
| DashboardHeader.GuestNameMisread | src/screens/Dashboard/components/DashboardHeader.tsx:26 | the default as written is exactly the guest word's UTF-8 bytes read as Windows-1252 |
| DashboardHeader.GuestNameGarbled | src/screens/Dashboard/components/DashboardHeader.tsx:24-29 | the garbled default is the misread guest word, and a guest's avatar shows a Latin letter rather than an Arabic one |
| DashboardHeader.GuestGreeting | src/screens/Dashboard/components/DashboardHeader.tsx:24-29 | with the intended default a guest is greeted with an all-Arabic word and its Arabic first letter |

## Left out

- The server: seat allocation, quotas, session generation without duplicates and payment approval run behind `src/features/api/apiSlice.ts`. The model sees only whether each call succeeded, and what it returned, as arguments.
- `src/features/api/apiSlice.ts`, `src/api.ts`, `src/auth/useAuth.ts` and the configuration files: network and sign-in plumbing over libraries.
- `jwtDecode`: a `decode` argument that either fails or gives the claims. `SecureStore` reads, writes and deletions: their outcomes are arguments.
- Refetch debouncing, the in-flight guards, and the `AppState` and focus listeners: timing and event plumbing.
- `Intl.DateTimeFormat`, `toLocaleDateString` and the device time zone. The studio-zone date parts of `getPastTabDateRange` are arguments, and `Calendar` has no daylight saving time.
- `toISOString`: `MyBookings.PastTabDateRange` gives the range as time values in milliseconds rather than as ISO text.
- `formatTimeRange` throws on an invalid start; `MyBookings.FormatTimeRange` gives no value instead.
- Floating point: percentages, ages and weights are exact rationals. `toFixed` price formatting is not modelled.
- Presentation: navigators, headers, skeletons, icons, animations, colour and label tables, the texts of alerts and toasts, and console logging. `ScheduleDebug` keeps its messages as values, not console output.
- The fallback mock slots of `AdminScheduleScreen`: they are shown while no session list has arrived, and a session added in that state stays local. The model's slots are always the fetched sessions.
- `isPopular`, `SubscriptionPlans.IsPopular`: a one-line predicate (a plan with eight monthly sessions) with no contract of its own.
- `isSameDay` is an equality of day numbers in this model, so its reflexivity, symmetry and transitivity hold trivially and carry no lemma.
- Text.JsNumberOfBlankOrDigits: `Number(text)` is modelled for blank text and optionally signed decimal integers only. Fractions, exponents and hexadecimal text read as not a number. In `ProfileWizard`, where ages and weights may be fractional, `Number` is a `number` argument instead.
- Text.ToUpperChar: `toUpperCase` and `toLowerCase` change only the ASCII letters. No form in the model depends on other scripts' case.
- Text.LexLessTotal: `localeCompare` and string `<` are both modelled as code-point order. This is the order `<` uses for the Basic Multilingual Plane; locale collation is not modelled.
- Calendar.StartOfWeek: day boundaries are those of a fixed offset; a daylight-saving change within a week is not modelled.
- Auth.DecodeAccessToken: expiry claims are whole seconds; a fractional `exp` is not modelled.
- ScheduleMappers.InferSessionType: the exact-title table is looked up as a map of its own entries. In the program it is a plain object, so a title naming an inherited member ("constructor", "toString", "valueOf", "hasOwnProperty", "__proto__") returns that member, which is not a session type; the model has no such values and gives the keyword result instead.
- ScheduleMappers.InferSessionTypeKeywords: for the same inherited-member titles, "an unlisted title without keywords is 'other'" does not hold in the program, which returns the inherited member.

Behaviour of the program that the model keeps as written:
- An active subscription whose end date does not parse has no number of days left, and `Subscription.DisplayStatus` keeps it active, since comparisons with `NaN` are false.
- A booked reservation whose start does not parse is listed as upcoming (`MyBookings.UnparsableBookedIsUpcoming`).
- The usage card is gated on the stored status alone, so it shows for an active subscription that the status line already calls expired.
- The monthly usage message tests for exactly 0 left, while its colour tests for 0 or less (`Subscription.NegativeMonthlyLeftIsRedButRemaining`).
- The plan relation compares a plan's `id` with the current plan's `_id`.
- The booking card's bar width is 100 minus the free share and is not clamped (`SessionCards.BarWidth`).
- At start-up, a token that cannot be deleted after it has expired leads to `finishRestoring` rather than `logout`, because the failure is caught (`Auth.Bootstrap`).
- An `exp` of 0 counts as no expiry.

## Findings

| source | as written | input that shows it | evidently intended | confidence | as-written member | corrected member |
|---|---|---|---|---|---|---|
| src/screens/AdminScheduleSettings/components/WorkPeriodCard.tsx:15 | the period markers are the UTF-8 bytes of 'م' and 'ص' read back as ISO/IEC 8859-11: a Thai vowel sign followed by a C1 control character, and two Thai letters | a work period starting at "13:00" is shown as "1:00" followed by Thai characters, while the time field shows "1:00 م" | the Arabic markers 'م' from noon on and 'ص' before it, as in `TimePickerField` | high; not executed | TimeDisplay.WorkPeriodCardTimeAsWritten, TimeDisplay.OnePmOnTheCard, TimeDisplay.GarbledMarkersAreMisreadArabic | TimeDisplay.WorkPeriodCardTime |
| src/screens/Dashboard/components/DashboardHeader.tsx:26 | the guest name is the UTF-8 bytes of 'ضيفة' read back as Windows-1252, with the unassigned byte 0x81 lost | with no user name, the greeting shows Latin-1 characters and the avatar shows 'Ø'; the greeting and subtitle literals at DashboardHeader.tsx:73 and :76 are garbled the same way, so every user sees garbled text there | the Arabic word 'ضيفة' ("guest"), with 'ض' in the avatar | high; not executed | DashboardHeader.DisplayNameAsWritten, DashboardHeader.GuestNameGarbled | DashboardHeader.DisplayName, DashboardHeader.GuestGreeting |
