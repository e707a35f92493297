/**
 * DebeziumConsumer: hands each change record to the event consumer, and on any failure waits and
 * tries the same record again, until an attempt succeeds.
 *
 * The retry by self-recursion is a loop over the outcomes of successive attempts, which are given.
 */
module Retry {
  import opened Wrappers
  import opened Rows

  /**
   * One attempt: whether eventConsumer.accept throws, and whether the wait after a failure throws.
   * Accept never reads `sleepThrows`: the source catches and only logs an exception from the wait,
   * so its outcome is ignored; SleepFailuresIgnored states that runs differing only there end alike.
   */
  datatype Attempt = Attempt(consumerThrows: bool, sleepThrows: bool)

  /**
   * Where accept stands after the given attempts: whether it has returned, how many attempts it
   * made, and the events it handed to the consumer, one per call.
   */
  datatype Delivery = Delivery(returned: bool, attempts: nat, delivered: seq<DbEvent>)

  /**
   * accept over a finite run of attempts. Every attempt rebuilds the event from the same record;
   * when that fails the consumer is not called, and every failure is caught and retried, whatever
   * happens during the wait.
   */
  method Accept(record: ChangeRecord, parse: string -> Option<Operation>, outcomes: seq<Attempt>) returns (d: Delivery)
    ensures d.attempts <= |outcomes|
    ensures d.returned <==> NewEvent(record, parse).Ok? && exists i :: 0 <= i < |outcomes| && !outcomes[i].consumerThrows
    ensures d.returned ==> d.attempts > 0 && !outcomes[d.attempts - 1].consumerThrows
    ensures d.returned ==> forall j :: 0 <= j < d.attempts - 1 ==> outcomes[j].consumerThrows
    ensures !d.returned ==> d.attempts == |outcomes|
    ensures NewEvent(record, parse).Ok? ==> |d.delivered| == d.attempts
    ensures NewEvent(record, parse).Ok? ==> forall j :: 0 <= j < |d.delivered| ==> d.delivered[j] == NewEvent(record, parse).value
    ensures NewEvent(record, parse).Err? ==> d.delivered == []
  {
    var attempts := 0;
    var delivered := [];
    while attempts < |outcomes|
      invariant 0 <= attempts <= |outcomes|
      invariant forall j :: 0 <= j < attempts ==> NewEvent(record, parse).Err? || outcomes[j].consumerThrows
      invariant NewEvent(record, parse).Ok? ==> |delivered| == attempts
      invariant NewEvent(record, parse).Ok? ==> forall j :: 0 <= j < |delivered| ==> delivered[j] == NewEvent(record, parse).value
      invariant NewEvent(record, parse).Err? ==> delivered == []
    {
      var attempt := outcomes[attempts];
      var event := NewEvent(record, parse);
      attempts := attempts + 1;
      if event.Ok? {
        delivered := delivered + [event.value];
        if !attempt.consumerThrows {
          return Delivery(true, attempts, delivered);
        }
      }
    }
    return Delivery(false, attempts, delivered);
  }

  /** Failures while waiting change nothing: runs that differ only in them end alike. */
  method SleepFailuresIgnored(record: ChangeRecord, parse: string -> Option<Operation>, outcomes1: seq<Attempt>, outcomes2: seq<Attempt>)
    returns (d1: Delivery, d2: Delivery)
    requires |outcomes1| == |outcomes2|
    requires forall i :: 0 <= i < |outcomes1| ==> outcomes1[i].consumerThrows == outcomes2[i].consumerThrows
    ensures d1 == d2
  {
    d1 := Accept(record, parse, outcomes1);
    d2 := Accept(record, parse, outcomes2);
    if d1.returned {
      assert !outcomes2[d1.attempts - 1].consumerThrows;
    }
    assert d1.delivered == d2.delivered;
  }
}
