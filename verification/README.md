# Countdown and participant deletion, modelled in Dafny

This project models the two pieces of decision and arithmetic logic in the
registration site of a student competition (CQI/QEC 2025):

- the **countdown** component (`timeBetweenDates`): the millisecond difference
  between the competition's start, 18 January 2025 08:00 UTC-05, and the
  current instant, split into days, hours, minutes and seconds, each rendered
  zero-padded to at least two characters, with every field left at `"00"`
  unless the difference is positive;
- the server's **participant deletion** handler: organisers delete any
  participant, team chefs delete within their own university, every other
  role is refused with 403, and a database error becomes a 500 carrying the
  error text.

Files:

- `optional.dfy` — `Option`, for parses that can fail.
- `decimal.dfy` — decimal rendering of naturals (what a JavaScript template
  literal produces for a non-negative integer), the two-character padding,
  and a parser that reads a field back; round trips in both directions.
- `countdown.dfy` — the countdown: unit split, rendering, the whole
  `timeBetweenDates` computation with the clock and the target as integer
  parameters, and its range, reconstruction, uniqueness, sub-second,
  monotonicity and concrete-date properties.
- `delete_participant.dfy` — the deletion handler. The database is a
  parameter, a function from the delete query issued to `Ok` or
  `Err(message)`; the handler returns the response together with the list of
  queries it issued, so that "which delete runs, if any" is part of the result.

The target instant is the constant `Countdown.TargetMillis` =
1737205200000 ms since the epoch (2025-01-18T13:00:00Z). The current instant
is the parameter `now`.

## Model

| member | source | states |
|---|---|---|
| Countdown.TimeBetweenDates | client/src/components/Countdown.tsx:5-37 | the returned difference is target − now, never clamped; at or after the target every field is "00"; the fields always read back into an in-range breakdown whose total seconds equal floor(difference / 1000) when the difference is positive and 0 otherwise; hours, minutes and seconds are two characters wide, days at least two; and the four fields are exactly the padded rendering of the breakdown they denote, so a days count of 10 or more shows no leading zero |
| Countdown.CompetitionCountdown | client/src/components/Countdown.tsx:6-8 | the component's fixed target is 18 January 2025 08:00 UTC-05: the difference is 1737205200000 − now, and all fields are "00" from that instant on |
| Countdown.Split | client/src/components/Countdown.tsx:17-24 | the cascaded floor divisions and remainders give hours < 24, minutes < 60, seconds < 60, and days·86400 + hours·3600 + minutes·60 + seconds equals the total seconds |
| Countdown.SplitUnique | client/src/components/Countdown.tsx:17-24 | the split is the only in-range breakdown of its total: splitting the total of any in-range breakdown gives that breakdown back |
| Countdown.Render | client/src/components/Countdown.tsx:26-31 | the four padded fields built from an in-range breakdown parse back to exactly that breakdown and have the display widths: two characters for hours, minutes and seconds, at least two for days |
| Countdown.ZerosRendersZero | client/src/components/Countdown.tsx:10-15 | the initial all-"00" fields are the padded rendering of the zero breakdown and read back as it |
| Countdown.SubSecondShowsZeros | client/src/components/Countdown.tsx:16-17 | a difference strictly between 0 and 1000 ms takes the positive branch yet still shows "00" in every field |
| Countdown.ZerosExactly | client/src/components/Countdown.tsx:10-31 | all four fields are "00" if and only if less than one whole second remains |
| Countdown.SplitMonotone | client/src/components/Countdown.tsx:17-20 | for differences d1 ≥ d2 > 0, the seconds counted for d1 are at least those counted for d2 |
| Countdown.CountsDown | client/src/components/Countdown.tsx:8-24 | for a later `now` the displayed remaining time is never larger |
| Countdown.OneDayBefore | client/src/components/Countdown.tsx:7-31 | exactly one day before the start the display reads 01 / 00 / 00 / 00 |
| Countdown.OneSecondBefore | client/src/components/Countdown.tsx:7-31 | one second before the start the display reads 00 / 00 / 00 / 01 |
| Decimal.Pad | client/src/components/Countdown.tsx:27-30 | a padded field parses back to its value, is at least two characters, exactly two below 100, starts with '0' exactly when the value is below 10 (then followed by the plain decimal form), and is the canonical numeral from 10 on |
| Decimal.Show | client/src/components/Countdown.tsx:27-30 | the plain decimal form of a value is a canonical numeral (no leading zero except "0" itself), one character below 10, at most two below 100 |
| Decimal.ValueOfShow | client/src/components/Countdown.tsx:27-30 | reading the decimal form back gives the value |
| Decimal.ShowOfValue | client/src/components/Countdown.tsx:27-30 | every canonical numeral is the decimal form of its value |
| Decimal.ShowParseInverse | client/src/components/Countdown.tsx:27-30 | parsing and rendering are inverse: a canonical numeral parses to n exactly when it is the rendering of n |
| Decimal.LeadingZero | client/src/components/Countdown.tsx:27-30 | the "0" prefix put before values below 10 does not change the value read back |
| Decimal.Parse | client/src/components/Countdown.tsx:27-30 | a field is read back exactly when it is a non-empty string of digits |
| DeleteParticipant.Delete | server/src/routes/delete_participant.rs:14-34 | at most one delete query is issued; none exactly when the role is neither Organizer nor Chef, and exactly then the response is 403 "Forbidden"; any query issued targets the requested id and stays in the caller's scope (unrestricted only for an organiser, the caller's own university for a chef); otherwise the response is the outcome of that query |
| DeleteParticipant.Respond | server/src/routes/delete_participant.rs:20-29 | success of the delete query answers 201 "Participant deleted" and only success answers 201; an error answers 500 with the error's text |
| DeleteParticipant.Status.Code | server/src/routes/delete_participant.rs:21-32 | the three statuses the handler answers with carry the HTTP codes 201, 403 and 500, all valid status codes |
| DeleteParticipant.OrganizerSucceeds | server/src/routes/delete_participant.rs:20-21 | an organiser whose unrestricted delete succeeds gets 201 "Participant deleted" |
| DeleteParticipant.ChefSucceeds | server/src/routes/delete_participant.rs:24-28 | a chef's delete is the university-scoped one with the chef's own university, and on success answers 201 "Participant deleted" |
| DeleteParticipant.ErrorIsInternal | server/src/routes/delete_participant.rs:20-29 | for an organiser or a chef, a failing delete answers 500 with the database's error text |
| DeleteParticipant.OthersForbidden | server/src/routes/delete_participant.rs:32 | every other role gets 403 and the result does not depend on the database at all |
| DeleteParticipant.QueryMatchesRole | server/src/routes/delete_participant.rs:19-31 | an organiser never issues the university-scoped delete and a chef never the unrestricted one |
| DeleteParticipant.OnlyIssuedQueriesMatter | server/src/routes/delete_participant.rs:19-33 | two databases that agree on the queries the handler issues give the same result |

## Left out

- The periodic one-second timer, its cleanup on unmount and the reactive
  signal that feeds the display cards (Countdown.tsx lines 39-58): UI
  scheduling and rendering.
- Reading the clock and parsing the target date string: `now` is a
  parameter and the target is the constant 1737205200000 ms.
- JavaScript numbers are doubles: the model uses unbounded integers. For
  non-negative values below 2^53 (every realistic clock reading)
  `Math.floor(x / k)` and `%` agree with integer division, and `${n}` is the
  plain decimal form; the exponent notation JavaScript uses from 10^21 on is
  not modelled.
- Decimal.Parse is the model's own reader for the round trip; the source
  never parses the fields back.
- The database side of deletion: the SQL of `delete_from_database`
  (server/src/model/participant.rs) and `delete_from_database_university`
  (its definition is not part of this model) are opaque; the model only sees which query is issued and whether it
  returns `Ok` or an error message. Whether the scoped delete actually
  restricts rows to the university is therefore not modelled.
- Authentication (decoding the token into claims) and extracting the id from
  the path: the claims and the id are parameters.
- The role enumeration (`model/role.rs`) is not part of this model: besides
  `Organizer` and `Chef` the model has `Participant` (the role named in the
  SQL of server/src/model/preview_participant.rs) and `OtherRole` standing
  for any further variant; the handler treats all of them alike.
- `Uuid` and `University` are opaque values compared only for equality.
- Everything else in the repository (forms, navigation, document pages,
  generated type bindings, participant listing and insertion, password
  hashing): UI, HTTP and database glue with no decision logic of its own.
