/** The events a controller has received since its last reset, and the completion latch
    (internal/daemon/controller/events.go). */
module EventLogs {

  /** A received line. `arrival` numbers the lines of one controller in the order received. */
  datatype Event = Event(text: string, arrival: nat)

  datatype EventLog = EventLog(events: seq<Event>, expected: int, completeFirstTime: bool)

  const EMPTY_LOG := EventLog([], 0, false)

  /** The check succeeds: exactly `expected` events are there and it has not succeeded before. */
  predicate Fires(l: EventLog) {
    l.expected == |l.events| && !l.completeFirstTime
  }

  function Checked(l: EventLog): EventLog {
    if Fires(l) then l.(completeFirstTime := true) else l
  }

  class Events {
    var events: seq<Event>
    var completeFirstTime: bool
    var expected: int

    function Log(): EventLog
      reads this
    {
      EventLog(events, expected, completeFirstTime)
    }

    constructor ()
      ensures Log() == EMPTY_LOG
    {
      events, completeFirstTime, expected := [], false, 0;
    }

    method Append(event: Event)
      modifies this
      ensures Log() == old(Log()).(events := old(events) + [event])
    {
      events := events + [event];
    }

    method IsCompleteFirstTime() returns (first: bool)
      modifies this
      ensures first == Fires(old(Log()))
      ensures Log() == Checked(old(Log()))
    {
      if expected == |events| && !completeFirstTime {
        completeFirstTime := true;
        return true;
      }
      return false;
    }

    method Reset(expected: int)
      modifies this
      ensures Log() == EventLog([], expected, false)
    {
      this.expected := expected;
      events := [];
      completeFirstTime := false;
    }

    method Get() returns (results: seq<Event>)
      ensures results == Log().events
    {
      results := events;
    }
  }
}
