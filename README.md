# Booking backend: slots, bookings, payments and accounts

This project is a Dafny model of a small appointment-booking backend written in
JavaScript (Express with Mongoose, plus an in-memory mock user store). It covers
the following parts.

- **Providers** publish availability slots. A slot is a provider with a start
  and end time, a status (`available`, `booked`, `blocked`) and a recurrence tag.
- **Clients** book a slot, cancel the booking and pay for it. A booking claims a
  slot by an exact `(provider, startTime, endTime, status)` match. It is
  released the same way: the first `booked` slot with the booking's triple
  becomes `available` again.
- **Providers** edit and delete their slots, change the status of their
  bookings, and see their upcoming bookings.
- **Admins** page through users, edit users and bookings with "only the
  supplied fields change" updates, delete a booking together with its
  payments, and get dashboard totals.
- **Accounts**: register, login, profile changes and password changes.
  Register and login run over the mock user store of `config/database.js`.
  The mock has no `findById` or `findByIdAndUpdate`, so profile and password
  changes run over the user collection (`Store.State.users`) instead, with
  plain-text passwords.
- **Middleware**: the role check and the error classifier.
- **Date utilities** over a naive civil calendar. Time values are integer
  milliseconds since 1970-01-01, with no time zone.

Each handler that changes the database is modelled twice:

1. A pure **step function** on the `Store.State` value (users, slots, bookings,
   payments and the next fresh id). Its `ensures` clauses state the guards in
   the handler's own order, the HTTP code and message of every error, and the
   exact new state: which record changed and that nothing else did.
2. A **method** on the `Store.Db` class, which holds the same tables as fields
   and updates them in place. Each method is proved to produce the step
   function's response and state.

`SlotAccounting` proves that the client operations, slot creation and
deletion, and provider status changes on live bookings all preserve one
invariant: on every exact triple, live bookings (pending or confirmed) never
outnumber booked slots. It also proves the two ways the code as written breaks
that invariant, and that a guarded version of each of the two provider
handlers keeps it (see Findings below).

The date utilities follow the source in imperative form. A `JsDate` object holds
one time value and has `setHours`, `setDate` and `setMonth`, which normalise out
of range fields the way JavaScript does. Each `getStartOf…`/`getEndOf…`
function copies the date and mutates it step by step. The formatters are pure
functions, each with a parser that reads its output back.

Where the system's written description and its code disagree, the model
follows the code.

- The description gives booking statuses a transition graph with terminal
  states. The code checks statuses only when a client cancels (cancelled,
  completed and no-show are refused there). `updateBookingStatus` and the admin
  `updateBooking` accept any allowed value from any status.
- The description calls a slot deletable only while `available`. The code
  refuses deletion only of a `booked` slot, so `blocked` slots can be deleted
  too.
- The description asks for an atomic check-and-claim of a slot. The code reads
  and then writes. The model treats requests as sequential (see "Left out").
- `updateAvailability` has no `end > start` check. It lets a `booked` slot be
  set back to `available` while its booking stays live, and it answers 400
  only for booked→blocked.

## Model

| member | source | states |
|---|---|---|
| Common.OrElse | controllers/authController.js:29 | `o \|\| fallback` on a string: the value when it is sent and non-empty, the fallback otherwise |
| AvailabilityModel.ParseSlotStatus | models/Availability.js:27-31 | exactly `available`, `booked`, `blocked` are accepted, and each parses back to the status that prints as it |
| AvailabilityModel.ParseRecurrence | models/Availability.js:17-22 | exactly `none`, `daily`, `weekly`, `monthly` are accepted, inverse of the printed name |
| AvailabilityModel.CastSlotStatus | models/Availability.js:27-31 | a missing status defaults to `available`; a sent one is accepted iff it is in the enum |
| AvailabilityModel.CastRecurrence | models/Availability.js:17-26 | a missing recurrence defaults to `none`; a sent one is accepted iff it is in the enum |
| BookingModel.ParseBookingStatus | models/Booking.js:31-35 | exactly the five statuses `pending` … `no-show` are accepted, inverse of the printed name |
| BookingModel.ParsePaymentState | models/Booking.js:42-46 | exactly `not_paid`, `pending`, `paid`, `refunded` are accepted, inverse of the printed name |
| BookingModel.CastBookingStatus | models/Booking.js:31-35 | a missing status defaults to `pending`; a sent one is accepted iff it is in the enum |
| BookingModel.CastPaymentState | models/Booking.js:42-46 | a missing payment status defaults to `not_paid`; a sent one is accepted iff it is in the enum |
| PaymentModel.ParsePaymentMethod | models/Payment.js:17-21 | exactly `stripe`, `razorpay`, `paypal`, `other` are accepted, inverse of the printed name |
| PaymentModel.ParsePaymentStatus | models/Payment.js:22-26 | exactly `pending`, `completed`, `failed`, `refunded` are accepted, inverse of the printed name |
| PaymentModel.CastPaymentStatus | models/Payment.js:22-26 | a missing status defaults to `pending`; a sent one is accepted iff it is in the enum |
| PaymentModel.CastCurrency | models/Payment.js:13-16 | a missing currency defaults to `USD`, a sent one is kept |
| Store.FindUser | controllers/clientController.js:95 | the first user with the id, or none when no user has it |
| Store.FindSlot | controllers/providerController.js:82 | the first slot with the id, or none when no slot has it |
| Store.FindBooking | controllers/clientController.js:211 | the first booking with the id, or none when no booking has it |
| Store.FindMatchingSlot | controllers/clientController.js:101-106 | the first slot with exactly this provider, start, end and status; none when no slot matches |
| Store.ReleaseSlot | controllers/clientController.js:236-244 | slots unchanged when no slot matches the triple as `booked`; otherwise exactly the first such slot becomes `available`; ids and length kept |
| Sequences.SortBy | controllers/clientController.js:59 | `sort({ startTime: 1 })`: the result is sorted by the key and is a permutation of the input |
| Sequences.Insert | controllers/clientController.js:59 | inserting into a sorted sequence keeps it sorted and adds exactly one occurrence |
| Sequences.Take | controllers/providerController.js:268 | `limit(n)`: a prefix of length min(n, size) |
| Sequences.TakeKeepsSmallest | controllers/providerController.js:267-268 | after sorting, the kept prefix is sorted and no left-out element has a smaller key |
| Sequences.RemoveAt | controllers/providerController.js:144 | removing one element shifts the rest down by one and keeps their order |
| ClientController.DurationMinutes | controllers/clientController.js:87 | the unrounded ratio (end − start) / 60000, positive when end > start |
| ClientController.AvailabilityWindow | controllers/clientController.js:42-57 | both dates given: that range; otherwise the 30 days from `now` |
| ClientController.OpenSlots | controllers/clientController.js:39-57 | exactly the slots of this provider that are `available` with start inside the window |
| ClientController.ProviderAvailability | controllers/clientController.js:27-74 | 404 unless the id names a provider; otherwise 200 with exactly the provider's open slots in the window, sorted by start time |
| ClientController.CreateBookingStep | controllers/clientController.js:79-135 | guards in order: 400 for end ≤ start, 404 for a missing or non-provider user, 400 without an exactly matching available slot, each leaving the state unchanged; success iff all three pass; then a pending, unpaid booking with the exact duration is appended and exactly the first matching slot becomes `booked` |
| ClientController.ClientBooking | controllers/clientController.js:185-192 | 404 for an unknown id, 401 for another client's booking, else 200 with it |
| ClientController.CancelBookingStep | controllers/clientController.js:204-251 | 404, 401, then 400 for cancelled/completed/no-show, each with no change; otherwise the booking becomes cancelled with the reason or `Client cancelled`, and its slot is released (none matching is not an error) |
| ClientController.ProcessPaymentStep | controllers/clientController.js:256-314 | 404, 401, then 400 when already paid, with no change; otherwise one completed payment is appended and the booking is marked paid with that payment's id, pending becoming confirmed and any other status kept |
| ClientController.CreateBooking | controllers/clientController.js:79-135 | the in-place handler matches `CreateBookingStep` in response and new state |
| ClientController.CancelBooking | controllers/clientController.js:204-251 | the in-place handler matches `CancelBookingStep` |
| ClientController.ProcessPayment | controllers/clientController.js:256-314 | the in-place handler matches `ProcessPaymentStep` |
| ProviderController.CreateAvailabilityStep | controllers/providerController.js:9-42 | 400 with no change for end ≤ start; otherwise exactly one new `available` slot with recurrence defaulting to `none`, even when recurrence is set |
| ProviderController.UpdatedSlot | controllers/providerController.js:100-109 | only the supplied start, end and status change; id, provider and recurrence are kept |
| ProviderController.UpdateAvailabilityStep | controllers/providerController.js:75-116 | 404, 401, then 400 for booked→blocked, each with no change; otherwise exactly that slot gets the supplied fields |
| ProviderController.DeleteAvailabilityStep | controllers/providerController.js:121-151 | 404, 401, then 400 for a `booked` slot, with no change; otherwise exactly that slot is removed and every other slot stays |
| ProviderController.UpdateBookingStatusStep | controllers/providerController.js:191-235 | 404, 401, with no change; otherwise the requested status is set from any status, and on `cancelled` the provider's matching booked slot is released |
| ProviderController.UpdateAvailabilityGuardedStep | controllers/providerController.js:75-116 | as `UpdateAvailabilityStep`, but any edit of a booked slot that backs a live booking answers 400 with no change (blocking keeps its own message) |
| ProviderController.UpdateBookingStatusGuardedStep | controllers/providerController.js:191-235 | as `UpdateBookingStatusStep`, but a cancelled, completed or no-show booking answers 400 with no change, so only a pending or confirmed booking releases a slot |
| ProviderController.UpcomingCandidates | controllers/providerController.js:261-265 | exactly the provider's pending or confirmed bookings starting within seven days of `now` |
| ProviderController.UpcomingBookings | controllers/providerController.js:256-268 | at most 10 of the candidates, each a candidate and none listed more often than it occurs among them, sorted by start time, no left-out candidate starting earlier; `totalBookings` is their count |
| ProviderController.LeftOutHasLaterStart | controllers/providerController.js:267-268 | an element cut off by `limit` starts no earlier than any kept one |
| ProviderController.CreateAvailability | controllers/providerController.js:9-42 | the in-place handler matches `CreateAvailabilityStep` |
| ProviderController.UpdateAvailability | controllers/providerController.js:75-116 | the in-place handler matches `UpdateAvailabilityStep` |
| ProviderController.DeleteAvailability | controllers/providerController.js:121-151 | the in-place handler matches `DeleteAvailabilityStep` |
| ProviderController.UpdateBookingStatus | controllers/providerController.js:191-235 | the in-place handler matches `UpdateBookingStatusStep` |
| SlotAccounting.LiveCountAppend | controllers/clientController.js:113-124 | appending a booking adds one to the live count of its triple only |
| SlotAccounting.LiveCountUpdate | controllers/clientController.js:229-233 | replacing a booking changes the live count by the old and new records' share |
| SlotAccounting.BookedCountAppend | controllers/providerController.js:20-35 | appending a slot adds one to the booked count of its triple only when it is booked |
| SlotAccounting.BookedCountUpdate | controllers/clientController.js:127-128 | replacing a slot changes the booked count by the old and new records' share |
| SlotAccounting.BookedCountRemove | controllers/providerController.js:144 | removing a slot lowers the booked count of its triple only when it was booked |
| SlotAccounting.BookedCountWitness | controllers/clientController.js:236-244 | a positive booked count means some slot matches the triple as booked |
| SlotAccounting.LiveCountWitness | controllers/clientController.js:214-226 | a live booking makes its triple's live count positive |
| SlotAccounting.ReleaseCount | controllers/clientController.js:236-244 | a release lowers the booked count of exactly its own triple, by one when a booked slot matched |
| SlotAccounting.CreateBookingKeepsAccounting | controllers/clientController.js:101-128 | booking a slot keeps live bookings ≤ booked slots on every triple |
| SlotAccounting.CancelBookingKeepsAccounting | controllers/clientController.js:224-244 | cancelling keeps the invariant, because only live bookings can be cancelled |
| SlotAccounting.ProcessPaymentKeepsAccounting | controllers/clientController.js:294-304 | paying keeps the invariant |
| SlotAccounting.CreateAvailabilityKeepsAccounting | controllers/providerController.js:20-35 | creating a slot keeps the invariant |
| SlotAccounting.DeleteAvailabilityKeepsAccounting | controllers/providerController.js:139-144 | deleting a slot keeps the invariant, because booked slots cannot be deleted |
| SlotAccounting.UpdateLiveBookingStatusKeepsAccounting | controllers/providerController.js:211-228 | a provider's status change on a live booking keeps the invariant |
| SlotAccounting.ReopeningBookedSlotAllowsDoubleBooking | controllers/providerController.js:94-109 | setting a booked slot back to `available` breaks the invariant, and a second client can then book the same triple: two live bookings, one booked slot |
| SlotAccounting.RecancellingReleasesAnotherBookingsSlot | controllers/providerController.js:211-228 | cancelling an already cancelled booking again releases a slot that backs another live booking |
| SlotAccounting.LiveCountHasWitness | controllers/providerController.js:94-109 | a positive live count means some booking is live on the triple |
| SlotAccounting.UpdateAvailabilityGuardedKeepsAccounting | controllers/providerController.js:94-109 | the slot edit that refuses to reopen or move a booked slot backing a live booking keeps the invariant on every input |
| SlotAccounting.UpdateBookingStatusGuardedKeepsAccounting | controllers/providerController.js:211-228 | the status change that refuses finished bookings keeps the invariant for every status it sets |
| DateUtils.CivilOf | utils/dateUtils.js:38-52 | a day number's civil date is valid and maps back to the same day |
| DateUtils.CivilOfDay | utils/dateUtils.js:38-52 | a valid civil date survives the round trip through its day number |
| DateUtils.WeekBounds | utils/dateUtils.js:22-32 | stepping back by the weekday lands on a Sunday; forward by six minus it, on a Saturday |
| DateUtils.SetDateShifts | utils/dateUtils.js:23 | `setDate(getDate() + k)` moves by exactly k days and keeps the time of day, across month ends |
| DateUtils.JsDate.constructor | utils/dateUtils.js:7 | `new Date(date)` copies the time value |
| DateUtils.JsDate.GetDay | utils/dateUtils.js:22 | `getDay()` is 0 to 6 and advances by one each day, day 0 being a Thursday (4) |
| DateUtils.JsDate.GetDate | utils/dateUtils.js:23 | `getDate()` lies within the month's length and, with the year and month, names the instant's day |
| DateUtils.JsDate.GetMonth | utils/dateUtils.js:48 | `getMonth()` is 0 to 11 and, with the year and day of the month, names the instant's day |
| DateUtils.JsDate.SetHours | utils/dateUtils.js:8 | `setHours(h, m, s, ms)` keeps the day and sets the time of day |
| DateUtils.JsDate.SetDate | utils/dateUtils.js:23 | `setDate(d)` keeps year, month and time of day, and normalises an out-of-range day |
| DateUtils.JsDate.SetMonth | utils/dateUtils.js:48 | `setMonth(m)` keeps the day of month and time of day, and normalises an out-of-range month |
| DateUtils.StartOfDay | utils/dateUtils.js:6-10 | same calendar day at 00:00:00.000, not after the input |
| DateUtils.EndOfDay | utils/dateUtils.js:13-17 | same calendar day at 23:59:59.999, not before the input |
| DateUtils.StartOfWeek | utils/dateUtils.js:20-26 | the Sunday at most six days earlier, at midnight |
| DateUtils.EndOfWeek | utils/dateUtils.js:29-35 | the Saturday at most six days later, at 23:59:59.999 |
| DateUtils.StartOfMonth | utils/dateUtils.js:38-43 | day 1 of the same month and year, at midnight |
| DateUtils.EndOfMonth | utils/dateUtils.js:46-52 | as written: the last day of the same month when the day of month fits in the next month, otherwise the last day of the next month; at 23:59:59.999 |
| DateUtils.EndOfMonthOverflows | utils/dateUtils.js:48-49 | January 31 of a common year ends up on February 28 |
| DateUtils.EndOfMonthCorrected | utils/dateUtils.js:46-52 | the last day of the same month, at 23:59:59.999, for every date |
| DateUtils.DifferenceInMinutes | utils/dateUtils.js:75-78 | the floor of the absolute gap in minutes, non-negative |
| DateUtils.DifferenceSymmetric | utils/dateUtils.js:75-78 | the difference does not depend on the argument order |
| DateUtils.RangesOverlap | utils/dateUtils.js:81-90 | for non-empty ranges, true iff some instant lies in both half-open ranges |
| DateUtils.OverlapSymmetric | utils/dateUtils.js:81-90 | overlap does not depend on which range comes first |
| DateUtils.TouchingRangesDoNotOverlap | utils/dateUtils.js:89 | a range ending where the other begins does not overlap it |
| DateFormat.NatToString | utils/dateUtils.js:57-58 | `String(n)`: at least one decimal digit, no leading zero |
| DateFormat.IntToString | utils/dateUtils.js:56 | a year prints with a leading minus sign exactly when negative |
| DateFormat.ParseNatToString | utils/dateUtils.js:57-58 | the decimal digits read back as the number |
| DateFormat.NatToStringLength | utils/dateUtils.js:57-58 | at most k digits exactly when the number is below 10^k |
| DateFormat.PadStart | utils/dateUtils.js:57-58 | `padStart`: the target length, the string as suffix, fill characters in front |
| DateFormat.Pad2 | utils/dateUtils.js:57-58 | `String(n).padStart(2, '0')`: at least two characters; below 100 exactly two digits that read back as the number |
| DateFormat.DateString | utils/dateUtils.js:59 | a four-digit year with a month and day below 100 joins into ten characters that parse back to the three values |
| DateFormat.FormatDate | utils/dateUtils.js:55-60 | for a four-digit year, `YYYY-MM-DD` is ten characters that parse back to the year, month + 1 and day |
| DateFormat.FormatTime | utils/dateUtils.js:63-67 | `HH:MM` is always five characters that parse back to the hours and minutes |
| DateFormat.FormatDateTime | utils/dateUtils.js:70-72 | for a four-digit year, sixteen characters with a space at position 10 between a date and a time that parse back to the instant's fields |
| DateFormat.JoinAtSpace | utils/dateUtils.js:71 | the template's date, space and time: a ten-character date and the time are recovered at positions 0-9 and from 11 |
| MockDatabase.StrOr | config/database.js:20-22 | `s \|\| fallback` on a string |
| MockDatabase.FindUser | config/database.js:9-11 | the first stored user with the email, none exactly when no user has it |
| MockDatabase.Insert | config/database.js:46-51 | refused exactly when the email is stored; otherwise one record appended; distinct emails kept |
| MockDatabase.SavesKeepEmailsDistinct | config/database.js:46-52 | when every insertion goes through `save`, no two stored users share an email and earlier records stay |
| MockDatabase.FindOneRecord | config/database.js:67-72 | a record exactly when the query has a non-empty email that is stored; it is the first one |
| MockDatabase.MockDb.constructor | config/database.js:5-6 | the user list starts empty |
| MockDatabase.MockDb.SaveUser | config/database.js:14-28 | exactly one record is appended: role defaults to `client`, phone and bio to empty |
| MockDatabase.UserModel.constructor | config/database.js:32-43 | role defaults to `client`; name, email, password, phone and bio default to empty |
| MockDatabase.UserModel.Record | config/database.js:15-22 | the stored record carries the instance's email and password under the new id |
| MockDatabase.UserModel.Save | config/database.js:46-53 | throws `User already exists` and changes nothing when the email is stored; otherwise appends and sets the instance id to the stored id |
| MockDatabase.UserModel.MatchPassword | config/database.js:61-63 | plain equality with the stored password |
| MockDatabase.FindOne | config/database.js:67-88 | null unless the email is stored; otherwise a fresh instance with the stored id, name, email, password and role |
| AuthController.RegisteredRecord | controllers/authController.js:25-32 | the stored record for a registration, role defaulting to `client` |
| AuthController.Register | controllers/authController.js:8-54 | 400 without email or password, 400 for a stored email, no store change in either; otherwise one record appended and 201; keeps emails distinct |
| AuthController.Login | controllers/authController.js:59-101 | 400 without credentials; otherwise success iff the first user with the email has that password; unknown email and wrong password give the same 400 |
| AuthController.LoginAfterRegister | controllers/authController.js:8-101 | a fresh registration logs in with the same credentials and summary |
| AuthController.RegisterTwiceFails | controllers/authController.js:18-21 | the same email cannot be registered twice |
| AuthController.RegisterUser | controllers/authController.js:8-54 | the handler over the mock store matches `Register` |
| AuthController.LoginUser | controllers/authController.js:59-101 | the handler over the mock store matches `Login`, with `select` as the identity |
| AuthController.UpdateProfileStep | controllers/authController.js:120-154 | only the truthy supplied fields change, and never the role; an unknown id changes nothing |
| AuthController.ChangePasswordStep | controllers/authController.js:159-181 | 400 and no change for a wrong current password; otherwise only that user's password becomes the new one |
| AuthController.ChangePasswordThenMatch | controllers/authController.js:167-174 | after a change the new password matches and the old one no longer does |
| AuthController.UpdateProfile | controllers/authController.js:120-154 | the in-place handler matches `UpdateProfileStep` |
| AuthController.ChangePassword | controllers/authController.js:159-181 | the in-place handler matches `ChangePasswordStep` |
| Profile.KeepTruthy | controllers/adminController.js:70-75 | `if (field)`: a supplied non-empty value is kept, anything else dropped |
| Profile.SuppliedAddress | controllers/adminController.js:78-85 | each address sub-field is kept exactly when truthy |
| Profile.SuppliedFields | controllers/adminController.js:69-85 | the update object holds exactly the truthy supplied fields |
| Profile.SetFields | controllers/adminController.js:88-92 | `$set` keeps id and password, and an empty update changes nothing |
| Profile.UpdateKeepsUnsuppliedFields | controllers/adminController.js:69-92 | each field becomes the supplied value or keeps its old one |
| Profile.UpdateIdempotent | controllers/adminController.js:88-92 | applying the same update twice equals applying it once |
| AdminController.ParsedOr | controllers/adminController.js:12-13 | `parseInt(x) \|\| fallback`: NaN and 0 give the fallback |
| AdminController.Pages | controllers/adminController.js:34 | `ceil(total / limit)`: (pages − 1)·limit < total ≤ pages·limit for a positive limit |
| AdminController.PaginationOf | controllers/adminController.js:12-14 | page defaults to 1 and limit to 10; the pages count brackets the total |
| AdminController.Window | controllers/adminController.js:25-26 | `skip(start).limit(n)`: the items from the start index, at most n |
| AdminController.PageOfIndexUnique | controllers/adminController.js:14 | an index lies in exactly one page window |
| AdminController.PageHoldsIndex | controllers/adminController.js:14-34 | every item appears on page k / limit + 1, which is within the page count |
| AdminController.PagesBeyondLastAreEmpty | controllers/adminController.js:14-34 | a page beyond the page count is empty, every page up to it is not |
| AdminController.UpdateUserStep | controllers/adminController.js:64-103 | for a request the route accepts (valid role, non-empty name): 404 and no change for an unknown id; otherwise only the truthy supplied fields change |
| AdminController.UpdateBookingStep | controllers/adminController.js:206-236 | 404 for an unknown id; otherwise only a supplied status and non-empty notes change, with no transition check and no slot release |
| AdminController.PaymentsNotFor | controllers/adminController.js:251 | `deleteMany({ booking })`: exactly the payments of other bookings remain |
| AdminController.DeleteBookingStep | controllers/adminController.js:241-261 | 404 for an unknown id; otherwise that booking and all its payments are removed and everything else stays |
| AdminController.KeyIndex | controllers/adminController.js:276 | the position of a key in the stats object, or none |
| AdminController.Assign | controllers/adminController.js:276 | `obj[key] = count`: a new key is appended, an existing one is overwritten; keys stay distinct |
| AdminController.FormatStats | controllers/adminController.js:274-288 | the stats object has distinct keys, equals the groups when their keys are distinct, and the total is its counts' sum |
| AdminController.Without | controllers/adminController.js:269-271 | removing a key removes exactly its occurrences |
| AdminController.GroupTotalIsDocumentCount | controllers/adminController.js:269-288 | the counts of a `$group` by a field sum to the number of documents |
| AdminController.Roles | controllers/adminController.js:270 | the grouped field of each user is its role |
| AdminController.StatusNames | controllers/adminController.js:281 | the grouped field of each booking is its status name |
| AdminController.DashboardTotals | controllers/adminController.js:323-327 | the user total is the number of users, the booking total the number of bookings |
| AdminController.BuildAddress | controllers/adminController.js:78-85 | the address object built field by field equals `SuppliedAddress` |
| AdminController.BuildProfileFields | controllers/adminController.js:69-85 | the profile object built field by field equals `SuppliedFields` |
| AdminController.UpdateUser | controllers/adminController.js:64-103 | the in-place handler matches `UpdateUserStep` |
| AdminController.UpdateBooking | controllers/adminController.js:206-236 | the in-place handler matches `UpdateBookingStep` |
| AdminController.DeleteBooking | controllers/adminController.js:241-261 | the in-place handler matches `DeleteBookingStep` |
| RoleCheck.Check | middleware/roleCheck.js:4-31 | 401 without a user; with one, `next()` iff the role is allowed, otherwise 403 with the role in the message |
| RoleCheck.SingletonArrayIsString | middleware/roleCheck.js:11-27 | a one-element array behaves like the plain string |
| RoleCheck.MoreRolesAllowMore | middleware/roleCheck.js:11-18 | widening the role array never rejects a user who was let through |
| ErrorHandler.Join | middleware/errorHandler.js:17 | `join` of no messages is empty, of one is that message |
| ErrorHandler.JoinSnoc | middleware/errorHandler.js:17 | joining one more message appends the separator and it |
| ErrorHandler.JoinLength | middleware/errorHandler.js:17 | the joined length is the messages' lengths plus one separator between each pair |
| ErrorHandler.Handle | middleware/errorHandler.js:4-37 | always a failure; ValidationError, CastError, code 11000, JsonWebTokenError, TokenExpiredError in that order take precedence; otherwise the error's status or 500 and its message or `Server Error` |

## Left out

- HTTP and framework wiring are not part of this model: the server, the
  Swagger setup, the configuration, the routers and the response helper. The
  routers' `isIn` and non-empty checks are kept as preconditions: slot status
  updates to `available`/`blocked`, provider status updates to
  confirmed/cancelled/completed, admin role and status values, a non-empty
  `name` in the admin user update, a non-empty `service` and `currency`, and
  the payment method as a typed value.
- Token creation and verification (`middleware/auth.js`,
  `getSignedJwtToken`) depend on a library that is not visible. A successful
  login or registration answers with the user summary only.
- The request validators (`middleware/validation.js`, ISO-8601 and e-mail
  checks) are not modelled. Times arrive as integer milliseconds.
- `models/User.js` is not part of this model. Users are records with the
  fields the handlers touch. Passwords are compared as plain strings, the way
  the mock store does, with no hashing.
- A `$set` of `address` replaces the stored address with the supplied
  sub-fields. The merge rules of the user schema are not modelled.
- The list endpoints are not modelled, because they only filter and sort
  through the driver: `getMyAvailability`, `getClientBookings`,
  `getProviderBookings`, `getAvailableProviders`, `getAllUsers`' query,
  `getAllBookings`, `getAllPayments`, `getUserById`, admin `getBookingById`
  and `getMe`. Their pagination arithmetic is modelled through
  `AdminController.PaginationOf` and `AdminController.Window`.
- `deleteUser` is not modelled. It is a cascade delete through the driver:
  the user's bookings as client and as provider, the payments of the user's
  bookings as client, and then the user. It does not delete the payments of
  the user's bookings as provider or the user's availability slots, so those
  stay behind, and the slots keep any `booked` status.
- Driver mechanics are not modelled: `populate`, `select` projections,
  sorting by `createdAt`, and `aggregate` beyond its grouping counts.
- AdminController.Window: models `skip`/`limit` only for a non-negative
  start and a positive limit. The driver's treatment of zero or negative
  values is not modelled.
- Requests run one at a time. The race between the slot lookup and the slot
  save in `createBooking`, and the non-atomic booking-then-slot writes, are
  not modelled. Server errors from the database are also left out, except
  where the code dereferences a missing user in `changePassword`.
- The clock and randomness become parameters: `now`, stored ids, the mock
  store's random `_id`s and the transaction id. The default 30-day and 7-day
  windows are fixed lengths of milliseconds from `now`. The source computes
  them with a local-time `setDate`, which can differ by a DST hour.
- The range limit of a JavaScript time value is not modelled. A `Date` holds
  at most 8.64e15 ms either side of 1970-01-01. Beyond that, `setHours`,
  `setDate` and `setMonth` give an invalid date, and the formatters print
  `NaN`. Here a time value is an unbounded integer.
- Time zones and DST are not modelled. The calendar is the proleptic
  Gregorian calendar in UTC, with day and time-of-day arithmetic as in
  JavaScript.
- Floating point is not modelled: `totalHoursAvailable` with `toFixed`, and
  the revenue sum in the admin dashboard. Booking duration is an exact
  rational number, and payment amounts are opaque reals.
- Recurrence expansion is declared but empty in the source, so a recurring
  slot is still one slot.
- The `updatedAt` pre-save hooks and the `createdAt` defaults are not
  modelled. Neither is console logging.
- DateFormat.FormatDate: the read-back is proved only for years
  1000 to 9999. Other years print with fewer or more digits, or with a minus
  sign, exactly as `String(year)` does.
- DateFormat.FormatDateTime: the read-back is proved for years 1000 to 9999,
  for the same reason.
- AuthController.LoginUser: the model takes `select('+password')` as the
  identity, as the mock's found user provides it. The handler calls `select`
  on the Promise returned by the mock's async `findOne`, however, so over the
  mock store as written every login that passes the 400 check throws and
  answers 500 `Server Error`. `Login` models the evident intent.
- AuthController.UpdateProfileStep: over the mock store as written,
  `findByIdAndUpdate` does not exist and the handler answers 500. The model
  runs it over the user collection instead.
- AuthController.ChangePasswordStep: over the mock store as written,
  `findById` does not exist and the handler answers 500. The model runs it
  over the user collection instead.
- ProviderController.UpcomingBookings: which of several bookings with the
  same start time survive `limit(10)` is left open, as the driver leaves the
  order among equal keys unspecified; only the start-time order is stated.

## Findings

| source | as written | input that shows it | evidently intended | confidence | as-written member | corrected member |
|---|---|---|---|---|---|---|
| utils/dateUtils.js:46-52 | `setMonth(getMonth() + 1)` keeps the day of month, so a day beyond the next month's length overflows into the month after; then `setDate(0)` steps back to the end of the next month | January 31 of a common year gives February 28 (also March 31 gives April 30, and so on) | the last day of the same month, at 23:59:59.999 | not executed | DateUtils.EndOfMonth, DateUtils.EndOfMonthOverflows | DateUtils.EndOfMonthCorrected |
| controllers/providerController.js:94-109 | only blocking a booked slot is refused; the slot may be set back to `available` or given new times while a live booking rests on it | a booked slot backing one live booking, edited to `available`: a second client can then book the same time, leaving two live bookings on one booked slot | a booked slot that backs a live booking cannot be reopened or moved | not executed | ProviderController.UpdateAvailabilityStep, SlotAccounting.ReopeningBookedSlotAllowsDoubleBooking | ProviderController.UpdateAvailabilityGuardedStep, SlotAccounting.UpdateAvailabilityGuardedKeepsAccounting |
| controllers/providerController.js:211-228 | any status may be set from any status, and every `cancelled` releases a matching booked slot | a booking already cancelled is cancelled again while a later live booking holds the only booked slot of that time: that slot is released | as the client's cancel does, a cancelled, completed or no-show booking is refused, so a slot is released only for a booking that was pending or confirmed | not executed | ProviderController.UpdateBookingStatusStep, SlotAccounting.RecancellingReleasesAnotherBookingsSlot | ProviderController.UpdateBookingStatusGuardedStep, SlotAccounting.UpdateBookingStatusGuardedKeepsAccounting |
