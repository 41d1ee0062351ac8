/** Single-deadline timers. Each concern of the player keeps one timer handle
    (`seekDebounceRef`, `bufferingTimeoutRef`, the controls `timeout`, ...):
    re-triggering clears the pending callback and schedules a new one, so at
    most one deadline per concern is ever pending. Time is in milliseconds. */
module Timers {
  import opened Numbers

  /** A timer handle: nothing pending, or one callback due at `deadline`
      carrying the values its closure captured. */
  datatype Pending<T> = Idle | Armed(deadline: int, payload: T)

  predicate IsDue<T>(t: Pending<T>, now: int) {
    t.Armed? && t.deadline <= now
  }

  /** Letting the clock reach `now`: a due callback runs once (its payload is
      returned) and the handle is spent; otherwise nothing happens. */
  function Fire<T>(t: Pending<T>, now: int): (r: (Pending<T>, Option<T>))
    ensures IsDue(t, now) ==> r.0 == Idle && r.1 == Some(t.payload)
    ensures !IsDue(t, now) ==> r.0 == t && r.1 == None
  {
    if IsDue(t, now) then (Idle, Some(t.payload)) else (t, None)
  }

  /** Letting the clock reach `now` and then `later` runs the callback as
      letting it reach `later` at once does: at most once, with the same
      handle left behind. */
  lemma FireAtMostOnce<T>(t: Pending<T>, now: int, later: int)
    requires now <= later
    ensures Fire(t, now).1.Some? ==> Fire(Fire(t, now).0, later).1 == None
    ensures OptionToSeq(Fire(t, now).1) + OptionToSeq(Fire(Fire(t, now).0, later).1)
            == OptionToSeq(Fire(t, later).1)
    ensures Fire(Fire(t, now).0, later).0 == Fire(t, later).0
  {
  }

  /** One click of a debounced control at time `at`, carrying its value. */
  datatype Trigger<T> = Trigger(at: int, value: T)

  function OptionToSeq<T>(o: Option<T>): seq<T> {
    if o.Some? then [o.value] else []
  }

  /** A run of triggers against one debounced handle: before each trigger the
      clock reaches its time (a due callback fires), then the trigger clears
      the handle and re-arms it `delay` ms later. Returns the final handle and
      the values whose callbacks fired, in order. */
  function RunTriggers<T>(t: Pending<T>, triggers: seq<Trigger<T>>, delay: nat): (Pending<T>, seq<T>)
    decreases |triggers|
  {
    if triggers == [] then (t, [])
    else
      var fired := Fire(t, triggers[0].at);
      var rest := RunTriggers(Armed(triggers[0].at + delay, triggers[0].value), triggers[1..], delay);
      (rest.0, OptionToSeq(fired.1) + rest.1)
  }

  /** Reference definition of what a debounce lets through: the value of every
      trigger followed by a gap of at least `delay` ms before the next one. */
  function Survivors<T>(triggers: seq<Trigger<T>>, delay: nat): seq<T>
    decreases |triggers|
  {
    if |triggers| <= 1 then []
    else
      (if triggers[1].at - triggers[0].at >= delay then [triggers[0].value] else [])
      + Survivors(triggers[1..], delay)
  }

  /** Starting with nothing due by the first trigger, the debounced handle
      fires exactly the survivors, and afterwards holds one deadline: the last
      trigger's time plus `delay`, carrying the last trigger's value. */
  lemma {:induction false} DebounceFiresSurvivors<T>(t: Pending<T>, triggers: seq<Trigger<T>>, delay: nat)
    requires triggers != []
    requires !IsDue(t, triggers[0].at)
    ensures RunTriggers(t, triggers, delay).1 == Survivors(triggers, delay)
    ensures RunTriggers(t, triggers, delay).0
            == Armed(triggers[|triggers| - 1].at + delay, triggers[|triggers| - 1].value)
    decreases |triggers|
  {
    var next := Armed(triggers[0].at + delay, triggers[0].value);
    var rest := triggers[1..];
    var later := RunTriggers(next, rest, delay);
    assert RunTriggers(t, triggers, delay) == (later.0, [] + later.1);
    assert [] + later.1 == later.1;
    if |triggers| == 1 {
      assert RunTriggers(next, rest, delay) == (next, []);
    } else {
      var kept := if rest[0].at - triggers[0].at >= delay then [triggers[0].value] else [];
      assert Survivors(triggers, delay) == kept + Survivors(rest, delay);
      if rest[0].at - triggers[0].at >= delay {
        assert IsDue(next, rest[0].at);
        DebounceFiresSurvivorsAfterFire(next, rest, delay);
      } else {
        DebounceFiresSurvivors(next, rest, delay);
      }
    }
  }

  /** The same run when the first trigger finds a due callback: that one
      fires first, then the rest behaves as above. */
  lemma {:induction false} DebounceFiresSurvivorsAfterFire<T>(t: Pending<T>, triggers: seq<Trigger<T>>, delay: nat)
    requires triggers != []
    requires IsDue(t, triggers[0].at)
    ensures RunTriggers(t, triggers, delay).1 == [t.payload] + Survivors(triggers, delay)
    ensures RunTriggers(t, triggers, delay).0
            == Armed(triggers[|triggers| - 1].at + delay, triggers[|triggers| - 1].value)
    decreases |triggers|
  {
    var next := Armed(triggers[0].at + delay, triggers[0].value);
    var rest := triggers[1..];
    assert RunTriggers(t, triggers, delay)
        == (RunTriggers(next, rest, delay).0, [t.payload] + RunTriggers(next, rest, delay).1);
    if |triggers| == 1 {
      assert RunTriggers(next, rest, delay) == (next, []);
    } else {
      var kept := if rest[0].at - triggers[0].at >= delay then [triggers[0].value] else [];
      assert Survivors(triggers, delay) == kept + Survivors(rest, delay);
      if rest[0].at - triggers[0].at >= delay {
        DebounceFiresSurvivorsAfterFire(next, rest, delay);
      } else {
        DebounceFiresSurvivors(next, rest, delay);
      }
    }
  }

  /** A burst of triggers, each less than `delay` ms after the one before,
      lets nothing through. */
  lemma {:induction false} BurstHasNoSurvivors<T>(triggers: seq<Trigger<T>>, delay: nat)
    requires forall i :: 0 <= i < |triggers| - 1 ==> triggers[i + 1].at - triggers[i].at < delay
    ensures Survivors(triggers, delay) == []
    decreases |triggers|
  {
    if |triggers| > 1 {
      assert triggers[1].at - triggers[0].at < delay;
      var rest := triggers[1..];
      forall i | 0 <= i < |rest| - 1 ensures rest[i + 1].at - rest[i].at < delay {
        assert rest[i] == triggers[i + 1] && rest[i + 1] == triggers[i + 2];
      }
      BurstHasNoSurvivors(rest, delay);
    }
  }

  /** Debounce end to end: a burst of triggers with gaps under `delay`, then
      the clock reaching the last trigger's deadline, runs exactly one
      callback, and it carries the last trigger's value. */
  lemma BurstFiresLastOnce<T>(t: Pending<T>, triggers: seq<Trigger<T>>, delay: nat, later: int)
    requires triggers != []
    requires !IsDue(t, triggers[0].at)
    requires forall i :: 0 <= i < |triggers| - 1 ==> triggers[i + 1].at - triggers[i].at < delay
    requires later >= triggers[|triggers| - 1].at + delay
    ensures var run := RunTriggers(t, triggers, delay);
            run.1 + OptionToSeq(Fire(run.0, later).1) == [triggers[|triggers| - 1].value]
  {
    DebounceFiresSurvivors(t, triggers, delay);
    BurstHasNoSurvivors(triggers, delay);
  }
}
