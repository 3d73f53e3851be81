/** The booking scenarios, one client method per scenario. Each builds a
    scheduler with capacity 3 per hour, makes the calls the scenario makes and
    returns what the scenario checks; the `ensures` clauses are those checks.
    Where a scenario uses the real clock, the clock reading is a parameter. */
module BookingSchedulerTests {
  import opened Calendar
  import opened Schedules
  import opened Communication
  import opened Booking

  const CapacityPerHour := 3
  const UnderCapacity: PartySize := 1
  const FullParty: PartySize := 3

  /** 2025/08/01 09:05 and 09:00, a Friday. */
  const NotOnTheHourTime := At(2025, 8, 1, 9, 5)
  const OnTheHourTime := At(2025, 8, 1, 9, 0)

  const CustomerNoEmail := Customer("Fake name", "010-1234-5678", None)
  const CustomerWithEmail := Customer("Fake name", "010-1234-5678", Some("test@example.com"))

  /** 09:05 is refused; on any day but Sunday the reason is the hour rule. */
  method NotOnTheHourRefused(now: DateTime) returns (outcome: Outcome, found: bool)
    ensures outcome.Rejected? && !found
    ensures !IsDayOfRest(now) ==> outcome == Rejected(NotOnTheHour)
  {
    var scheduler := new BookingScheduler(CapacityPerHour, now);
    var schedule := Schedule(NotOnTheHourTime, UnderCapacity, CustomerNoEmail);
    outcome := scheduler.AddSchedule(schedule);
    found := scheduler.HasSchedule(schedule);
  }

  /** 09:00 with one person is accepted and then found. */
  method OnTheHourAccepted(now: DateTime) returns (found: bool)
    requires !IsDayOfRest(now)
    ensures found
  {
    var scheduler := new BookingScheduler(CapacityPerHour, now);
    var schedule := Schedule(OnTheHourTime, UnderCapacity, CustomerNoEmail);
    var outcome := scheduler.AddSchedule(schedule);
    found := scheduler.HasSchedule(schedule);
  }

  /** After three people at 09:00, one more at 09:00 is refused for capacity. */
  method FullHourRefusesOneMore(now: DateTime) returns (second: Outcome)
    requires !IsDayOfRest(now)
    ensures second == Rejected(CapacityExceeded(CapacityMessage))
  {
    var scheduler := new BookingScheduler(CapacityPerHour, now);
    var first := scheduler.AddSchedule(Schedule(OnTheHourTime, FullParty, CustomerNoEmail));
    second := scheduler.AddSchedule(Schedule(OnTheHourTime, UnderCapacity, CustomerNoEmail));
  }

  /** A full 09:00 does not block 10:00; both bookings are then found. */
  method OtherHourAcceptedWhenFull(now: DateTime) returns (foundFirst: bool, foundSecond: bool)
    requires !IsDayOfRest(now)
    ensures foundFirst && foundSecond
  {
    var scheduler := new BookingScheduler(CapacityPerHour, now);
    var schedule := Schedule(OnTheHourTime, FullParty, CustomerNoEmail);
    var first := scheduler.AddSchedule(schedule);
    var differentHour := PlusOneHour(OnTheHourTime);
    PlusOneHourKeepsSubHour(OnTheHourTime);
    assert scheduler.schedules == [schedule];
    assert BookedAt(scheduler.schedules, differentHour) == 0;
    var newSchedule := Schedule(differentHour, UnderCapacity, CustomerNoEmail);
    var second := scheduler.AddSchedule(newSchedule);
    foundFirst := scheduler.HasSchedule(schedule);
    foundSecond := scheduler.HasSchedule(newSchedule);
  }

  /** An accepted booking always reaches the SMS sender that was set. */
  method SmsAlwaysSent(now: DateTime) returns (called: bool)
    requires !IsDayOfRest(now)
    ensures called
  {
    var scheduler := new BookingScheduler(CapacityPerHour, now);
    var sms := new TestableSmsSender();
    scheduler.SetSmsSender(sms);
    scheduler.SetSmsSender(sms);
    var outcome := scheduler.AddSchedule(Schedule(OnTheHourTime, UnderCapacity, CustomerNoEmail));
    called := sms.SendCalled();
  }

  /** An accepted booking for a customer without an email address sends no mail. */
  method NoMailWithoutEmail(now: DateTime) returns (outcome: Outcome, count: nat)
    requires !IsDayOfRest(now)
    ensures outcome == Accepted && count == 0
  {
    var scheduler := new BookingScheduler(CapacityPerHour, now);
    var mail := new TestableMailSender();
    scheduler.SetMailSender(mail);
    outcome := scheduler.AddSchedule(Schedule(OnTheHourTime, UnderCapacity, CustomerNoEmail));
    count := mail.SendMailCount();
  }

  /** A customer with an email address gets exactly one mail. */
  method OneMailWithEmail(now: DateTime) returns (count: nat)
    requires !IsDayOfRest(now)
    ensures count == 1
  {
    var scheduler := new BookingScheduler(CapacityPerHour, now);
    var mail := new TestableMailSender();
    scheduler.SetMailSender(mail);
    var outcome := scheduler.AddSchedule(Schedule(OnTheHourTime, UnderCapacity, CustomerWithEmail));
    count := mail.SendMailCount();
  }

  /** With "now" fixed at Sunday 2025/08/03 09:05, a valid Friday booking is refused. */
  method SundayNowRefuses() returns (outcome: Outcome, found: bool)
    ensures outcome == Rejected(DayOfRest) && !found
  {
    August2025Weekdays(9, 5);
    var scheduler := new BookingScheduler(CapacityPerHour, At(2025, 8, 3, 9, 5));
    var schedule := Schedule(OnTheHourTime, UnderCapacity, CustomerWithEmail);
    outcome := scheduler.AddSchedule(schedule);
    found := scheduler.HasSchedule(schedule);
  }

  /** With "now" fixed at Monday 2025/08/04 09:05, the same booking is accepted. */
  method MondayNowAccepts() returns (found: bool)
    ensures found
  {
    August2025Weekdays(9, 5);
    var scheduler := new BookingScheduler(CapacityPerHour, At(2025, 8, 4, 9, 5));
    var schedule := Schedule(OnTheHourTime, UnderCapacity, CustomerWithEmail);
    var outcome := scheduler.AddSchedule(schedule);
    found := scheduler.HasSchedule(schedule);
  }

  /** The SMS recorder's flag: false when fresh, true after one send, still
      true after another. */
  method SmsFlagNeverResets() returns (before: bool, afterOne: bool, afterTwo: bool)
    ensures !before && afterOne && afterTwo
  {
    var sender := new TestableSmsSender();
    before := sender.SendCalled();
    var schedule := Schedule(OnTheHourTime, UnderCapacity, CustomerNoEmail);
    sender.Send(schedule);
    afterOne := sender.SendCalled();
    sender.Send(schedule);
    afterTwo := sender.SendCalled();
  }
}
