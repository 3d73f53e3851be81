/** The admission controller. A booking is accepted only if, in this order:
    the scheduler's own "now" is not a Sunday (the day of rest), the
    requested time is exactly on the hour, and the people already booked for
    that exact timestamp plus the new party stay within the capacity per
    hour. An accepted booking is stored, then an SMS is always sent and a
    mail is sent only when the customer has an email address. */
module Booking {
  import opened Calendar
  import opened Schedules
  import opened Communication

  /** The three ways `AddSchedule` refuses a booking. */
  datatype BookingError =
    | DayOfRest
    | NotOnTheHour
    | CapacityExceeded(message: string)

  datatype Outcome = Accepted | Rejected(error: BookingError)

  /** The message that a capacity refusal carries. */
  const CapacityMessage := "Number of people is over restaurant capacity per hour"

  /** Bookings are not taken while "now" falls on a Sunday. */
  predicate IsDayOfRest(now: DateTime) {
    WeekdayOf(now) == Sunday
  }

  /** No minutes, seconds or microseconds past the hour. */
  predicate OnTheHour(t: DateTime) {
    t.minute == 0 && t.second == 0 && t.microsecond == 0
  }

  /** The number of people that `booked` holds for the exact timestamp `t`. */
  function BookedAt(booked: seq<Schedule>, t: DateTime): (people: int)
    ensures people >= 0
  {
    if booked == [] then 0
    else (if booked[0].time == t then booked[0].partySize else 0) + BookedAt(booked[1..], t)
  }

  /** The scheduler's invariant on what it stores: every stored time is on the
      hour, and at no stored timestamp do the parties exceed `capacity`. */
  ghost predicate WithinCapacity(capacity: int, booked: seq<Schedule>) {
    forall i :: 0 <= i < |booked| ==>
      OnTheHour(booked[i].time) && BookedAt(booked, booked[i].time) <= capacity
  }

  /** The verdict on request `s`, given the capacity, the current time and
      what is already booked: the first rule that fails decides it. */
  function Admit(capacity: int, now: DateTime, booked: seq<Schedule>, s: Schedule): (o: Outcome)
    ensures o == Accepted ==> OnTheHour(s.time) && BookedAt(booked + [s], s.time) <= capacity
    ensures o.Rejected? && o.error.CapacityExceeded? ==> o.error.message == CapacityMessage
  {
    BookedAtAppend(booked, s, s.time);
    if IsDayOfRest(now) then Rejected(DayOfRest)
    else if !OnTheHour(s.time) then Rejected(NotOnTheHour)
    else if BookedAt(booked, s.time) + s.partySize > capacity then Rejected(CapacityExceeded(CapacityMessage))
    else Accepted
  }

  /** Appending one schedule adds its party to its own timestamp and to no other. */
  lemma {:induction false} BookedAtAppend(booked: seq<Schedule>, s: Schedule, t: DateTime)
    ensures BookedAt(booked + [s], t) == BookedAt(booked, t) + (if s.time == t then s.partySize else 0)
  {
    if booked != [] {
      assert (booked + [s])[1..] == booked[1..] + [s];
      BookedAtAppend(booked[1..], s, t);
    }
  }

  /** Every stored party is part of the count at its own timestamp. */
  lemma {:induction false} StoredIsCounted(booked: seq<Schedule>, s: Schedule)
    requires s in booked
    ensures BookedAt(booked, s.time) >= s.partySize
  {
    if booked[0] != s {
      StoredIsCounted(booked[1..], s);
    }
  }

  /** A booking is accepted exactly when "now" is not the day of rest, its
      time is on the hour and its party fits what is left at that timestamp. */
  lemma AdmitAcceptsExactly(capacity: int, now: DateTime, booked: seq<Schedule>, s: Schedule)
    ensures Admit(capacity, now, booked, s) == Accepted <==>
            !IsDayOfRest(now) && OnTheHour(s.time) && BookedAt(booked, s.time) + s.partySize <= capacity
  {
  }

  /** The day-of-rest rule looks only at "now": on a Sunday every request is
      refused with that error, whatever its own time, size or customer. */
  lemma DayOfRestRefusesAll(capacity: int, now: DateTime, booked: seq<Schedule>, s: Schedule)
    requires IsDayOfRest(now)
    ensures Admit(capacity, now, booked, s) == Rejected(DayOfRest)
  {
  }

  /** On any other day, a time off the hour is refused before capacity is looked at. */
  lemma OffTheHourRefused(capacity: int, now: DateTime, booked: seq<Schedule>, s: Schedule)
    requires !IsDayOfRest(now) && !OnTheHour(s.time)
    ensures Admit(capacity, now, booked, s) == Rejected(NotOnTheHour)
  {
  }

  /** Once a timestamp holds `capacity` people, even one more person there is
      refused, with the capacity message. */
  lemma FullSlotRefusesMore(capacity: int, now: DateTime, booked: seq<Schedule>, s: Schedule)
    requires !IsDayOfRest(now) && OnTheHour(s.time)
    requires BookedAt(booked, s.time) == capacity
    ensures Admit(capacity, now, booked, s) == Rejected(CapacityExceeded(CapacityMessage))
  {
  }

  /** Accepting a booking keeps the invariant on what is stored. */
  lemma AcceptKeepsWithinCapacity(capacity: int, now: DateTime, booked: seq<Schedule>, s: Schedule)
    requires WithinCapacity(capacity, booked)
    requires Admit(capacity, now, booked, s) == Accepted
    ensures WithinCapacity(capacity, booked + [s])
  {
    var after := booked + [s];
    forall i | 0 <= i < |after|
      ensures OnTheHour(after[i].time) && BookedAt(after, after[i].time) <= capacity
    {
      BookedAtAppend(booked, s, after[i].time);
    }
  }

  /** Bookings at different timestamps never meet in the capacity count: a
      booking at one timestamp leaves the verdict at every other unchanged. */
  lemma SlotsAreIndependent(capacity: int, now: DateTime, booked: seq<Schedule>, s: Schedule, u: Schedule)
    requires s.time != u.time
    ensures Admit(capacity, now, booked + [s], u) == Admit(capacity, now, booked, u)
  {
    BookedAtAppend(booked, s, u.time);
  }

  /** A full slot does not block the slot one hour later: once an accepted
      booking fills its timestamp to capacity, a party within capacity asking
      for the next hour, where nothing is booked yet, is still accepted. */
  lemma {:induction false} FullSlotDoesNotBlockNextHour(capacity: int, now: DateTime, booked: seq<Schedule>,
                                                        s: Schedule, u: Schedule)
    requires s.time.Valid() && Admit(capacity, now, booked, s) == Accepted
    requires BookedAt(booked, s.time) + s.partySize == capacity
    requires u.time == PlusOneHour(s.time) && BookedAt(booked, u.time) == 0 && u.partySize <= capacity
    ensures BookedAt(booked + [s], s.time) == capacity
    ensures Admit(capacity, now, booked + [s], u) == Accepted
  {
    BookedAtAppend(booked, s, s.time);
    PlusOneHourKeepsSubHour(s.time);
    SlotsAreIndependent(capacity, now, booked, s, u);
  }

  /** The restaurant's booking book. `now` is what `GetNow` reports; the two
      senders are the ports notified on every accepted booking. */
  class BookingScheduler {
    const capacityPerHour: int
    const now: DateTime
    var schedules: seq<Schedule>
    var sms: TestableSmsSender
    var mail: TestableMailSender

    ghost predicate Valid()
      reads this, sms, mail
    {
      WithinCapacity(capacityPerHour, schedules) && sms.Valid() && mail.Valid()
    }

    /** An empty book with the given capacity per hour and clock reading, and
        fresh default senders. */
    constructor (capacityPerHour: int, now: DateTime)
      ensures Valid() && fresh(sms) && fresh(mail)
      ensures this.capacityPerHour == capacityPerHour && this.now == now
      ensures schedules == [] && sms.sent == [] && mail.mailed == []
    {
      this.capacityPerHour := capacityPerHour;
      this.now := now;
      schedules := [];
      sms := new TestableSmsSender();
      mail := new TestableMailSender();
    }

    /** The current time, as the day-of-rest rule reads it: the clock reading
        fixed when the scheduler was built. */
    function GetNow(): (t: DateTime)
      reads this
      ensures t == now
    {
      now
    }

    /** Routes later SMS notifications to `sender`. */
    method SetSmsSender(sender: TestableSmsSender)
      requires Valid() && sender.Valid()
      modifies this
      ensures Valid() && sms == sender
      ensures schedules == old(schedules) && mail == old(mail)
    {
      sms := sender;
    }

    /** Routes later mail notifications to `sender`. */
    method SetMailSender(sender: TestableMailSender)
      requires Valid() && sender.Valid()
      modifies this
      ensures Valid() && mail == sender
      ensures schedules == old(schedules) && sms == old(sms)
    {
      mail := sender;
    }

    /** Whether a schedule equal to `s` has been accepted; a stored schedule's
        party is always counted at its own timestamp. */
    predicate HasSchedule(s: Schedule): (found: bool)
      reads this
      ensures found <==> exists i :: 0 <= i < |schedules| && schedules[i] == s
      ensures found ==> BookedAt(schedules, s.time) >= s.partySize
    {
      if s in schedules then StoredIsCounted(schedules, s); true else false
    }

    /** The number of people already booked for exactly the timestamp `t`. */
    method PeopleBookedAt(t: DateTime) returns (total: int)
      ensures total == BookedAt(schedules, t)
    {
      total := 0;
      var i := 0;
      while i < |schedules|
        invariant 0 <= i <= |schedules|
        invariant total == BookedAt(schedules[..i], t)
      {
        BookedAtAppend(schedules[..i], schedules[i], t);
        assert schedules[..i] + [schedules[i]] == schedules[..i + 1];
        if schedules[i].time == t {
          total := total + schedules[i].partySize;
        }
        i := i + 1;
      }
      assert schedules[..i] == schedules;
    }

    /** Checks the day of rest, the hour alignment and the capacity, in that
        order; on success stores `s`, then sends the SMS, then the mail if the
        customer has an address. A refusal changes nothing and notifies no one. */
    method AddSchedule(s: Schedule) returns (outcome: Outcome)
      requires Valid()
      modifies this, sms, mail
      ensures Valid() && sms == old(sms) && mail == old(mail)
      ensures outcome == Admit(capacityPerHour, now, old(schedules), s)
      ensures schedules == if outcome.Accepted? then old(schedules) + [s] else old(schedules)
      ensures sms.sent == if outcome.Accepted? then old(sms.sent) + [s] else old(sms.sent)
      ensures mail.mailed == if outcome.Accepted? && HasEmail(s.customer)
                             then old(mail.mailed) + [s] else old(mail.mailed)
      ensures HasSchedule(s) <==> outcome.Accepted? || old(HasSchedule(s))
    {
      if IsDayOfRest(GetNow()) {
        return Rejected(DayOfRest);
      }
      if !OnTheHour(s.time) {
        return Rejected(NotOnTheHour);
      }
      var booked := PeopleBookedAt(s.time);
      if booked + s.partySize > capacityPerHour {
        return Rejected(CapacityExceeded(CapacityMessage));
      }
      AcceptKeepsWithinCapacity(capacityPerHour, now, schedules, s);
      schedules := schedules + [s];
      sms.Send(s);
      if HasEmail(s.customer) {
        mail.SendMail(s);
      }
      outcome := Accepted;
    }
  }
}
