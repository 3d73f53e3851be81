/** Recording stand-ins for the two notification ports the scheduler drives.
    They remember what was sent instead of reaching a real SMS or mail
    transport. */
module Communication {
  import opened Schedules

  /** The SMS port as a recorder: a flag that becomes true at the first
      `Send` and is never reset. The ghost `sent` keeps every schedule passed
      to `Send`, in order, so that callers can state how often it was used. */
  class TestableSmsSender {
    var sendCalled: bool
    ghost var sent: seq<Schedule>

    ghost predicate Valid()
      reads this
    {
      sendCalled <==> sent != []
    }

    constructor ()
      ensures Valid() && sent == []
    {
      sendCalled := false;
      sent := [];
    }

    /** Delivers `schedule` by SMS; here it only records the call. */
    method Send(schedule: Schedule)
      requires Valid()
      modifies this
      ensures Valid() && sent == old(sent) + [schedule]
    {
      sendCalled := true;
      sent := sent + [schedule];
    }

    /** True exactly when `Send` has been called at least once; reading it
        changes nothing. */
    function SendCalled(): (called: bool)
      requires Valid()
      reads this
      ensures called <==> |sent| > 0
    {
      sendCalled
    }
  }

  /** The mail port as a recorder: counts the mails it was asked to send.
      The ghost `mailed` keeps the schedule of every such call, in order. */
  class TestableMailSender {
    var sendMailCount: nat
    ghost var mailed: seq<Schedule>

    ghost predicate Valid()
      reads this
    {
      sendMailCount == |mailed|
    }

    constructor ()
      ensures Valid() && mailed == []
    {
      sendMailCount := 0;
      mailed := [];
    }

    /** Mails the customer of `schedule`; here it only records the call. */
    method SendMail(schedule: Schedule)
      requires Valid()
      modifies this
      ensures Valid() && mailed == old(mailed) + [schedule]
    {
      sendMailCount := sendMailCount + 1;
      mailed := mailed + [schedule];
    }

    /** The number of mails requested so far; reading it changes nothing. */
    function SendMailCount(): (count: nat)
      requires Valid()
      reads this
      ensures count == |mailed|
    {
      sendMailCount
    }
  }
}
