/**
 * Step timing with one level of sub-steps (app/lib/utils/performance-logger.ts).
 *
 * The logger is a value; every operation that reads the clock takes its
 * reading `now` (milliseconds) as a parameter and returns the new logger.
 * Console output is not modelled.
 */
module PerformanceLogger {
  import opened Wrappers

  datatype TimingEntry = TimingEntry(name: string, duration: real, children: Option<seq<TimingEntry>>)

  datatype TimerState = TimerState(startTime: real, children: seq<TimingEntry>)

  datatype Logger = Logger(startTime: real, timings: seq<TimingEntry>, activeTimers: map<string, TimerState>, prefix: string)

  /** A fresh logger: nothing recorded, no active timer. */
  function NewLogger(prefix: string): (l: Logger)
    ensures l.timings == [] && l.activeTimers == map[] && l.prefix == prefix
  {
    Logger(0.0, [], map[], prefix)
  }

  /** Seconds elapsed between two millisecond readings. */
  function Elapsed(from: real, now: real): (s: real)
    ensures s * 1000.0 == now - from
  {
    (now - from) / 1000.0
  }

  /** `start`: restart the overall clock and forget every entry and timer. */
  function Start(l: Logger, now: real): (r: Logger)
    ensures r.startTime == now && r.timings == [] && r.activeTimers == map[] && r.prefix == l.prefix
  {
    l.(startTime := now, timings := [], activeTimers := map[])
  }

  /** `startStep`: (re)start the timer for `name` with no children; an older timer of that name is discarded. */
  function StartStep(l: Logger, name: string, now: real): (r: Logger)
    ensures r.timings == l.timings && r.startTime == l.startTime
    ensures name in r.activeTimers && r.activeTimers[name] == TimerState(now, [])
    ensures forall k :: k in l.activeTimers && k != name ==> k in r.activeTimers && r.activeTimers[k] == l.activeTimers[k]
    ensures r.activeTimers.Keys == l.activeTimers.Keys + {name}
  {
    l.(activeTimers := l.activeTimers[name := TimerState(now, [])])
  }

  /** The timer key of a sub-step. */
  function SubStepKey(parent: string, sub: string): (k: string)
    ensures |k| == |parent| + 1 + |sub| && k[..|parent|] == parent && k[|parent|] == ':'
  {
    parent + ":" + sub
  }

  /** `startSubStep`: a timer under the key `parent:sub`; the parent need not be running. */
  function StartSubStep(l: Logger, parent: string, sub: string, now: real): (r: Logger)
    ensures r.timings == l.timings && r.startTime == l.startTime
    ensures r.activeTimers == l.activeTimers[SubStepKey(parent, sub) := TimerState(now, [])]
    ensures parent in l.activeTimers ==> parent in r.activeTimers && r.activeTimers[parent] == l.activeTimers[parent]
  {
    assert SubStepKey(parent, sub) != parent;
    StartStep(l, SubStepKey(parent, sub), now)
  }

  /**
   * `stopStep`: for an active timer, record one entry with its elapsed
   * seconds and its children (absent when it collected none), drop the
   * timer and return the duration; otherwise change nothing and return 0.
   */
  function StopStep(l: Logger, name: string, now: real): (r: (Logger, real))
    ensures name !in l.activeTimers ==> r == (l, 0.0)
    ensures name in l.activeTimers ==>
      var t := l.activeTimers[name];
      && r.1 * 1000.0 == now - t.startTime
      && |r.0.timings| == |l.timings| + 1
      && r.0.timings[..|l.timings|] == l.timings
      && r.0.timings[|l.timings|].name == name
      && r.0.timings[|l.timings|].duration == r.1
      && (r.0.timings[|l.timings|].children.None? <==> |t.children| == 0)
      && (r.0.timings[|l.timings|].children.Some? ==> r.0.timings[|l.timings|].children.value == t.children)
      && r.0.activeTimers == l.activeTimers - {name}
      && r.0.startTime == l.startTime
  {
    if name !in l.activeTimers then (l, 0.0)
    else
      var t := l.activeTimers[name];
      var duration := Elapsed(t.startTime, now);
      var entry := TimingEntry(name, duration, if |t.children| > 0 then Some(t.children) else None);
      (l.(timings := l.timings + [entry], activeTimers := l.activeTimers - {name}), duration)
  }

  /**
   * `stopSubStep`: for an active `parent:sub` timer, append a childless entry
   * to the parent's children when the parent is active, drop the sub-step
   * timer and return the duration; otherwise change nothing and return 0.
   * The recorded timings never change.
   */
  function StopSubStep(l: Logger, parent: string, sub: string, now: real): (r: (Logger, real))
    ensures r.0.timings == l.timings && r.0.startTime == l.startTime
    ensures SubStepKey(parent, sub) !in l.activeTimers ==> r == (l, 0.0)
    ensures SubStepKey(parent, sub) in l.activeTimers ==>
      var key := SubStepKey(parent, sub);
      && r.1 * 1000.0 == now - l.activeTimers[key].startTime
      && key !in r.0.activeTimers
      && r.0.activeTimers.Keys == l.activeTimers.Keys - {key}
      && (parent in l.activeTimers ==>
            r.0.activeTimers[parent].children == l.activeTimers[parent].children + [TimingEntry(sub, r.1, None)]
            && r.0.activeTimers[parent].startTime == l.activeTimers[parent].startTime)
      && (forall k :: k in r.0.activeTimers && k != parent ==> r.0.activeTimers[k] == l.activeTimers[k])
  {
    var key := SubStepKey(parent, sub);
    if key !in l.activeTimers then (l, 0.0)
    else
      var duration := Elapsed(l.activeTimers[key].startTime, now);
      var timers :=
        if parent in l.activeTimers then
          var p := l.activeTimers[parent];
          l.activeTimers[parent := p.(children := p.children + [TimingEntry(sub, duration, None)])]
        else l.activeTimers;
      assert parent != key;
      (l.(activeTimers := timers - {key}), duration)
  }

  /** `end` and `getTotalDuration`: seconds since `start`. */
  function TotalDuration(l: Logger, now: real): (s: real)
    ensures s * 1000.0 == now - l.startTime
  {
    Elapsed(l.startTime, now)
  }

  /** `getTimings`. */
  function GetTimings(l: Logger): seq<TimingEntry> {
    l.timings
  }

  /**
   * What `getTimings` reports: nothing after `start`; one more entry, at
   * the end, for each step stopped while running; no change for a step
   * stopped twice or never started, nor for starting a step or sub-step.
   */
  lemma GetTimingsRecordsStops(l: Logger, name: string, now: real)
    ensures GetTimings(Start(l, now)) == []
    ensures GetTimings(StartStep(l, name, now)) == GetTimings(l)
    ensures name in l.activeTimers ==>
      var ts := GetTimings(StopStep(l, name, now).0);
      |ts| == |GetTimings(l)| + 1 && ts[..|GetTimings(l)|] == GetTimings(l) && ts[|ts| - 1].name == name
    ensures name !in l.activeTimers ==> GetTimings(StopStep(l, name, now).0) == GetTimings(l)
  {
  }

  /* ---------- Invariant: two levels, children present only when non-empty ---------- */

  predicate Leaf(e: TimingEntry) {
    e.children.None?
  }

  predicate WellFormedEntry(e: TimingEntry) {
    match e.children
    case None => true
    case Some(cs) => |cs| > 0 && forall i :: 0 <= i < |cs| ==> Leaf(cs[i])
  }

  predicate Valid(l: Logger) {
    && (forall i :: 0 <= i < |l.timings| ==> WellFormedEntry(l.timings[i]))
    && (forall k :: k in l.activeTimers ==> forall i :: 0 <= i < |l.activeTimers[k].children| ==> Leaf(l.activeTimers[k].children[i]))
  }

  /** Every operation keeps the entries two levels deep, with children present only when non-empty. */
  lemma ValidPreserved(l: Logger, name: string, parent: string, sub: string, now: real)
    requires Valid(l)
    ensures Valid(NewLogger(l.prefix))
    ensures Valid(Start(l, now))
    ensures Valid(StartStep(l, name, now))
    ensures Valid(StartSubStep(l, parent, sub, now))
    ensures Valid(StopStep(l, name, now).0)
    ensures Valid(StopSubStep(l, parent, sub, now).0)
  {
    var s := StopStep(l, name, now).0;
    if name in l.activeTimers {
      assert s.timings == l.timings + [s.timings[|l.timings|]];
      assert WellFormedEntry(s.timings[|l.timings|]);
    }
    var u := StopSubStep(l, parent, sub, now).0;
    forall k | k in u.activeTimers
      ensures forall i :: 0 <= i < |u.activeTimers[k].children| ==> Leaf(u.activeTimers[k].children[i])
    {
      if k == parent && SubStepKey(parent, sub) in l.activeTimers && parent in l.activeTimers {
        var cs := l.activeTimers[parent].children;
        assert u.activeTimers[k].children == cs + [TimingEntry(sub, StopSubStep(l, parent, sub, now).1, None)];
      }
    }
  }

  /** Stopping a step twice records it once; the second stop returns 0. */
  lemma StopStepTwice(l: Logger, name: string, now: real, later: real)
    ensures var first := StopStep(l, name, now).0;
      StopStep(first, name, later) == (first, 0.0)
  {
  }

  /** A sub-step stopped after its parent was stopped is dropped: no entry records it. */
  lemma OrphanSubStepDropped(l: Logger, parent: string, sub: string, now: real)
    requires parent !in l.activeTimers
    ensures StopSubStep(l, parent, sub, now).0.timings == l.timings
    ensures StopSubStep(l, parent, sub, now).0.activeTimers == l.activeTimers - {SubStepKey(parent, sub)}
  {
  }

  /**
   * The usual pattern: start, start a step at `t0`, time one sub-step from
   * `t1` to `t2`, stop the step at `t3`. The timings then hold exactly one
   * entry for the step, with the sub-step as its only child, and no timer
   * is left running.
   */
  lemma StepWithSubStep(prefix: string, t: real, step: string, sub: string, t0: real, t1: real, t2: real, t3: real)
    ensures
      var l0 := Start(NewLogger(prefix), t);
      var l1 := StartStep(l0, step, t0);
      var l2 := StartSubStep(l1, step, sub, t1);
      var l3 := StopSubStep(l2, step, sub, t2).0;
      var l4 := StopStep(l3, step, t3).0;
      && GetTimings(l4) == [TimingEntry(step, (t3 - t0) / 1000.0, Some([TimingEntry(sub, (t2 - t1) / 1000.0, None)]))]
      && l4.activeTimers == map[]
  {
    var l0 := Start(NewLogger(prefix), t);
    var l1 := StartStep(l0, step, t0);
    var key := SubStepKey(step, sub);
    assert key != step;
    var l2 := StartSubStep(l1, step, sub, t1);
    assert l2.activeTimers.Keys == {step, key};
    var l3 := StopSubStep(l2, step, sub, t2).0;
    assert l3.activeTimers.Keys == {step};
    assert l3.activeTimers[step] == TimerState(t0, [TimingEntry(sub, (t2 - t1) / 1000.0, None)]);
    var l4 := StopStep(l3, step, t3).0;
    assert l4.timings == [l4.timings[0]];
  }

  /** A step stopped without sub-steps has no children at all, not an empty list. */
  lemma StepWithoutSubSteps(l: Logger, step: string, t0: real, t1: real)
    ensures var r := StopStep(StartStep(l, step, t0), step, t1).0;
      r.timings == l.timings + [TimingEntry(step, (t1 - t0) / 1000.0, None)]
  {
    var r := StopStep(StartStep(l, step, t0), step, t1).0;
    assert r.timings[..|l.timings|] == l.timings;
  }
}
