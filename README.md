# Restaurant booking admission controller, in Dafny

This project models the booking scheduler of a small restaurant. A
`BookingScheduler` is built with a fixed capacity per hour. `AddSchedule`
takes a schedule (a timestamp, a party size and a customer) and checks three
rules, in this order:

1. **Day of rest.** The scheduler's own current time (`GetNow`) must not be a
   Sunday. The requested time does not matter for this rule.
2. **On the hour.** The requested time must have no minutes, seconds or
   microseconds.
3. **Capacity.** The people already booked for that exact timestamp, plus the
   new party, must not exceed the capacity per hour.

The first rule that fails decides the refusal (`DayOfRest`, `NotOnTheHour`, or
`CapacityExceeded` with the message "Number of people is over restaurant
capacity per hour"). A refusal changes nothing and notifies no one. An accepted
schedule is stored. Then the SMS sender is always called, and the mail sender
is called only when the customer has an email address.

Files:

- `calendar.dfy` (module `Calendar`): timestamps, day numbers counted from
  1 January of year 1, weekdays, the next day and one hour later.
- `schedule.dfy` (module `Schedules`): the `Customer` and `Schedule` values.
- `communication.dfy` (module `Communication`): the two recording senders.
  `TestableSmsSender` keeps a flag. `TestableMailSender` keeps a counter. Each
  also has a ghost history of the schedules it was given, so that contracts can
  say "exactly once".
- `booking_scheduler.dfy` (module `Booking`): the decision function `Admit`,
  the per-timestamp count `BookedAt`, the invariant `WithinCapacity`, the
  lemmas about them, and the class `BookingScheduler`.
- `booking_scheduler_tests.dfy` (module `BookingSchedulerTests`): one client
  method per scenario of the test suite. Each returns what its scenario asserts
  and states it in its `ensures`.

`AddSchedule` is proved against `Admit`. Its contract gives the verdict and the
complete new state: the stored schedules, the SMS history and the mail history.
It also keeps the invariant that every stored time is on the hour and that no
stored timestamp holds more people than the capacity. The properties of the
rules are lemmas about `Admit` and `BookedAt`.

`GetNow` is the clock seam. The scheduler reads "now" from a value fixed at
construction, as the test subclass `TestableBoockingScheduler` does
(test_booking_scheduler.py:93-99). Most scenarios use the real clock. Their
methods take the clock reading as a parameter and require that it is not a
Sunday. The original tests depend on that silently: run on a Sunday, they fail.
Only the off-the-hour scenario passes on every day (on a Sunday it is refused
for the day of rest instead), and its method has no such requirement.

## Model

| member | source | states |
|---|---|---|
| Calendar.At | test_booking_scheduler.py:10-11 | a timestamp parsed from "%Y/%m/%d %H:%M" has zero seconds and microseconds |
| Calendar.WeekdayOf | test_booking_scheduler.py:98-114 | the weekday of a date, as datetime numbers them: Monday exactly on day numbers one past a multiple of seven, Sunday exactly on the multiples |
| Calendar.PlusOneHour | test_booking_scheduler.py:47 | adding one hour to a valid timestamp gives a valid timestamp exactly one hour later (counted in hours from day 1, across midnight, month and year ends) with the same minute, second and microsecond |
| Calendar.NextDayOrdinal | test_booking_scheduler.py:101-114 | the day after a valid date has the next day number, across month ends, year ends and leap days, so the weekday computation counts days correctly |
| Calendar.NextDayWeekday | test_booking_scheduler.py:101-114 | consecutive dates fall on consecutive weekdays |
| Calendar.PlusOneHourKeepsSubHour | test_booking_scheduler.py:47 | one hour later is a different timestamp with the same minute, second and microsecond, so a time on the hour stays on the hour |
| Calendar.August2025Weekdays | test_booking_scheduler.py:101-114 | 2025/08/01 is a Friday, 2025/08/03 a Sunday and 2025/08/04 a Monday, at any time of day |
| Communication.TestableSmsSender.constructor | test_communication.py:4-6 | a new SMS recorder has sent nothing, so its flag is false |
| Communication.TestableSmsSender.Send | test_communication.py:8-10 | every send is recorded with its argument, and the flag stays equal to "something was sent" |
| Communication.TestableSmsSender.SendCalled | test_communication.py:12-14 | the flag is true exactly when send was called at least once; reading it changes nothing |
| Communication.TestableMailSender.constructor | test_booking_scheduler.py:70-75 | a new mail recorder has a count of zero |
| Communication.TestableMailSender.SendMail | test_booking_scheduler.py:77-91 | every mail request is recorded, and the counter stays equal to the number of requests |
| Communication.TestableMailSender.SendMailCount | test_booking_scheduler.py:83-91 | the count read is the number of mail requests so far |
| Booking.BookedAt | test_booking_scheduler.py:35-41 | the number of people booked at a timestamp is never negative |
| Booking.BookedAtAppend | test_booking_scheduler.py:35-52 | storing one schedule adds its party to its own timestamp's count and leaves every other timestamp's count unchanged |
| Booking.StoredIsCounted | test_booking_scheduler.py:35-41 | a stored schedule's party is always part of the count at its timestamp |
| Booking.Admit | test_booking_scheduler.py:22-114 | the verdict of add_schedule's rule chain: an accepted request is on the hour and fits within capacity at its timestamp once added; a capacity refusal carries the message "Number of people is over restaurant capacity per hour" |
| Booking.AdmitAcceptsExactly | test_booking_scheduler.py:22-114 | a booking is accepted if and only if now is not a Sunday, the time is on the hour and the party fits what is left at that exact timestamp |
| Booking.DayOfRestRefusesAll | test_booking_scheduler.py:101-106 | when now is a Sunday, every request is refused for the day of rest, whatever its own time |
| Booking.OffTheHourRefused | test_booking_scheduler.py:22-26 | on any other day, a time off the hour is refused for that reason, before capacity is considered |
| Booking.FullSlotRefusesMore | test_booking_scheduler.py:35-41 | once a timestamp holds the capacity, even one more person there is refused with the capacity message |
| Booking.AcceptKeepsWithinCapacity | test_booking_scheduler.py:35-41 | accepting a booking keeps every stored time on the hour and every stored timestamp within capacity |
| Booking.SlotsAreIndependent | test_booking_scheduler.py:43-52 | a booking at one timestamp never changes the verdict on a request for any other timestamp |
| Booking.FullSlotDoesNotBlockNextHour | test_booking_scheduler.py:43-52 | once an accepted booking fills its timestamp to capacity, a party within capacity one hour later, where nothing is booked, is still accepted |
| Booking.BookingScheduler.constructor | test_booking_scheduler.py:18-20 | a new scheduler has the given capacity, no schedules and fresh senders, and holds its invariant |
| Booking.BookingScheduler.GetNow | test_booking_scheduler.py:93-99 | the current time the day-of-rest rule reads is the clock reading fixed when the scheduler was built, as the test subclass stores it |
| Booking.BookingScheduler.SetSmsSender | test_booking_scheduler.py:54-59 | later SMS notifications go to the given sender; nothing else changes |
| Booking.BookingScheduler.SetMailSender | test_booking_scheduler.py:70-75 | later mail notifications go to the given sender; nothing else changes |
| Booking.BookingScheduler.HasSchedule | test_booking_scheduler.py:28-33 | true exactly when an equal schedule is stored, and then its party is counted at its timestamp |
| Booking.BookingScheduler.PeopleBookedAt | test_booking_scheduler.py:35-41 | the loop's sum is the number of people stored for exactly that timestamp |
| Booking.BookingScheduler.AddSchedule | test_booking_scheduler.py:22-114 | the verdict is Admit's; on acceptance the schedule is appended, the SMS sender gets it exactly once and the mail sender gets it exactly once if the customer has an email, otherwise never; on refusal nothing changes |
| BookingSchedulerTests.NotOnTheHourRefused | test_booking_scheduler.py:22-26 | 09:05 is refused on every day and is not stored; on a day other than Sunday the reason is the hour rule |
| BookingSchedulerTests.OnTheHourAccepted | test_booking_scheduler.py:28-33 | 09:00 for one person is accepted and then found |
| BookingSchedulerTests.FullHourRefusesOneMore | test_booking_scheduler.py:35-41 | after three people at 09:00, one more at 09:00 is refused with the capacity message |
| BookingSchedulerTests.OtherHourAcceptedWhenFull | test_booking_scheduler.py:43-52 | with 09:00 full, 10:00 is accepted and both bookings are found |
| BookingSchedulerTests.SmsAlwaysSent | test_booking_scheduler.py:61-68 | an accepted booking sets the flag of the SMS sender that was set |
| BookingSchedulerTests.NoMailWithoutEmail | test_booking_scheduler.py:77-83 | on a day other than Sunday, the booking of a customer without an email is accepted and makes zero mail calls |
| BookingSchedulerTests.OneMailWithEmail | test_booking_scheduler.py:85-91 | a customer with an email gets exactly one mail |
| BookingSchedulerTests.SundayNowRefuses | test_booking_scheduler.py:101-106 | with now at Sunday 2025/08/03, a valid booking for Friday 2025/08/01 is refused for the day of rest and not stored |
| BookingSchedulerTests.MondayNowAccepts | test_booking_scheduler.py:108-114 | with now at Monday 2025/08/04, the same booking is accepted and found |
| BookingSchedulerTests.SmsFlagNeverResets | test_communication.py:3-14 | the SMS flag is false when new, true after one send and still true after another |

## Left out

- The implementation files `booking_scheduler.py`, `schedule.py` and `communication.py` are not part of this model. The scheduler's behaviour is taken from the tests and the test doubles; the choices below fill in what the tests leave open.
- `print` in `TestableSmsSender.send` is console output with no effect on state.
- `datetime.strptime` parsing is not modelled. Timestamps are composed field by field with `Calendar.At`. `timedelta(hours=1)` is modelled as `Calendar.PlusOneHour`.
- Python's upper year bound (9999) and the `OverflowError` past it are not modelled. Years are unbounded here.
- The real clock behind the default `get_now` is not modelled. The scheduler reads a clock value fixed at construction, as the test subclass does.
- Real SMS and mail transports are external I/O. Dafny classes here cannot share an interface (no traits), so a port is always a recorder class. `SetSmsSender` and `SetMailSender` accept only recorders.
- A notification port that fails is not modelled, because the recorders never fail. The body still stores the schedule before notifying anyone.
- Python exception classes are not modelled. All three refusals are `ValueError` in the tests. Here they are the three `BookingError` cases. Only the capacity message is pinned by the tests, so only that case carries a message.
- Booking.BookingScheduler.HasSchedule: uses structural equality of schedules. Python list membership on objects without their own equality uses object identity, so two distinct but equal schedule objects are told apart there and not here.
- Communication.TestableMailSender.SendMail: takes the schedule. The tests observe only the number of mail calls, not their argument.
- Schedules.HasEmail: treats an empty address like a missing one. The tests only use a missing address and a non-empty one.
- Party sizes are positive by type (`PartySize`). The tests only use parties of 1 and 3.
