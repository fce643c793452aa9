/** The life of the release callback held by a response-body wrapper, as a
    function of the calls made on the body. The callback is armed when the
    wrapper is made; the first read that ends in end-of-file, or the first
    close, runs it and disarms it. */
module BodyEvents {

  /** A call on the wrapped body: a read, and whether the underlying read
      reported end-of-file; or a close. */
  datatype Event = Read(eof: bool) | Close

  /** The calls that run an armed callback. */
  predicate Triggers(e: Event) {
    e.Close? || e.eof
  }

  /** Whether the callback is still armed after `e`. */
  function After(armed: bool, e: Event): (a: bool)
    ensures a ==> armed
    ensures armed && !a <==> armed && Triggers(e)
  {
    armed && !Triggers(e)
  }

  /** How many times the callback runs over `events`, starting from `armed`. */
  function Runs(armed: bool, events: seq<Event>): nat
    decreases |events|
  {
    if events == [] then 0
    else (if armed && Triggers(events[0]) then 1 else 0) + Runs(After(armed, events[0]), events[1..])
  }

  /** Index of the first call that triggers, if any. */
  function FirstTrigger(events: seq<Event>): (k: nat)
    ensures k <= |events|
    ensures k < |events| ==> Triggers(events[k])
    ensures forall i :: 0 <= i < k ==> !Triggers(events[i])
    decreases |events|
  {
    if events == [] then 0
    else if Triggers(events[0]) then 0
    else 1 + FirstTrigger(events[1..])
  }

  /** A disarmed callback never runs again. */
  lemma {:induction false} DisarmedNeverRuns(events: seq<Event>)
    ensures Runs(false, events) == 0
  {
    if events != [] {
      DisarmedNeverRuns(events[1..]);
    }
  }

  /** The callback runs at most once over any series of calls, and it runs
      exactly when some call triggers it: it is armed until the first such
      call and disarmed from then on. */
  lemma {:induction false} RunsAtMostOnce(events: seq<Event>)
    ensures Runs(true, events) <= 1
    ensures Runs(true, events) == 1 <==> exists i :: 0 <= i < |events| && Triggers(events[i])
    ensures Runs(true, events[..FirstTrigger(events)]) == 0
  {
    if events != [] {
      if Triggers(events[0]) {
        DisarmedNeverRuns(events[1..]);
      } else {
        RunsAtMostOnce(events[1..]);
        assert events[..FirstTrigger(events)][1..] == events[1..][..FirstTrigger(events[1..])];
        if exists i :: 0 <= i < |events[1..]| && Triggers(events[1..][i]) {
          var i :| 0 <= i < |events[1..]| && Triggers(events[1..][i]);
          assert Triggers(events[i + 1]);
        }
        if exists i :: 0 <= i < |events| && Triggers(events[i]) {
          var i :| 0 <= i < |events| && Triggers(events[i]);
          assert i > 0 && Triggers(events[1..][i - 1]);
        }
      }
    }
  }
}
