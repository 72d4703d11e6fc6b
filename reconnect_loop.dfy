/**
 * ReconnectLoopManager: runs an action now and then again every interval,
 * until stopped.
 *
 * `start()` runs the action at once and posts the runnable on the
 * main-thread handler; each time a posted run fires it runs the action and
 * posts itself again. `stop()` removes every posted run of the runnable.
 * The loop itself therefore only keeps a count: how many posted runs are
 * waiting in the handler queue. Running the action is the owner's business
 * (the GATT client calls its reconnect attempt after `Start` and after
 * `Fire`).
 */
module ReconnectLoop {

  /** What can happen to a loop: a call of `start()`, a posted run firing, a call of `stop()`. */
  datatype LoopEvent = Start | Fire | Stop

  /** The number of posted runs waiting after `events`, counting from an idle loop. */
  function Pending(events: seq<LoopEvent>): (n: nat)
    ensures n <= Starts(events)
  {
    if events == [] then 0
    else
      var before := Pending(events[..|events| - 1]);
      match events[|events| - 1]
      case Start => before + 1
      case Fire => before
      case Stop => 0
  }

  /** A run can only fire while one is posted. */
  ghost predicate Feasible(events: seq<LoopEvent>)
    decreases |events|
  {
    || events == []
    || (var before := events[..|events| - 1];
        Feasible(before) && (events[|events| - 1] == Fire ==> Pending(before) > 0))
  }

  /** The index of the last stop, or -1 when there is none. */
  function LastStop(events: seq<LoopEvent>): (i: int)
    ensures -1 <= i < |events|
    ensures i >= 0 ==> events[i] == Stop
    ensures forall j :: i < j < |events| ==> events[j] != Stop
  {
    if events == [] then -1
    else if events[|events| - 1] == Stop then |events| - 1
    else LastStop(events[..|events| - 1])
  }

  /** The number of starts in `s`. */
  function Starts(s: seq<LoopEvent>): (n: nat)
    ensures n <= |s|
  {
    if s == [] then 0 else Starts(s[..|s| - 1]) + (if s[|s| - 1] == Start then 1 else 0)
  }

  /**
   * The posted runs are exactly the starts since the last stop: every start
   * adds a run that re-posts itself for ever, and only a stop removes them.
   */
  lemma {:induction false} PendingIsStartsSinceStop(events: seq<LoopEvent>)
    ensures Pending(events) == Starts(events[LastStop(events) + 1..])
    decreases |events|
  {
    if events != [] {
      var init := events[..|events| - 1];
      var e := events[|events| - 1];
      PendingIsStartsSinceStop(init);
      if e != Stop {
        assert LastStop(events) == LastStop(init);
        var tail := events[LastStop(events) + 1..];
        assert tail[..|tail| - 1] == init[LastStop(init) + 1..];
      } else {
        assert events[LastStop(events) + 1..] == [];
      }
    }
  }

  /** After a stop, no posted run fires until the next start. */
  lemma {:induction false} NoFireAfterStop(prefix: seq<LoopEvent>, suffix: seq<LoopEvent>)
    requires Feasible(prefix + [Stop] + suffix)
    requires Start !in suffix
    ensures Fire !in suffix
    ensures Pending(prefix + [Stop] + suffix) == 0
    decreases |suffix|
  {
    var all := prefix + [Stop] + suffix;
    if suffix != [] {
      var init := suffix[..|suffix| - 1];
      assert all[..|all| - 1] == prefix + [Stop] + init;
      NoFireAfterStop(prefix, init);
      assert suffix == init + [suffix[|suffix| - 1]];
    } else {
      assert all[..|all| - 1] == prefix;
    }
  }

  /**
   * `start()` is not idempotent: every start while the loop runs adds one
   * more chain of posted runs, and with it one more action per interval.
   */
  lemma {:induction false} StartsAccumulate(events: seq<LoopEvent>, k: nat)
    ensures Pending(events + seq(k, _ => Start)) == Pending(events) + k
    decreases k
  {
    var more := events + seq(k, _ => Start);
    if k == 0 {
      assert more == events;
    } else {
      assert more[..|more| - 1] == events + seq(k - 1, _ => Start);
      assert more[|more| - 1] == Start;
      StartsAccumulate(events, k - 1);
    }
  }

  /** The loop object; `events` is the history the model replays, `pending` what the handler holds. */
  class ReconnectLoopManager {
    const intervalMs: int
    var pending: nat
    ghost var events: seq<LoopEvent>

    ghost predicate Valid()
      reads this
    {
      pending == Pending(events) && Feasible(events)
    }

    constructor(intervalMs: int)
      ensures this.intervalMs == intervalMs
      ensures pending == 0 && events == [] && Valid()
    {
      this.intervalMs := intervalMs;
      pending := 0;
      events := [];
    }

    /** `start()`: the owner runs the action now; one more run is posted. */
    method Start()
      requires Valid()
      modifies this
      ensures Valid() && events == old(events) + [LoopEvent.Start]
      ensures pending == old(pending) + 1
    {
      FeasibleExtend(events, LoopEvent.Start);
      events := events + [LoopEvent.Start];
      pending := pending + 1;
    }

    /** A posted run fires: the owner runs the action, and the run posts itself again. */
    method Fire()
      requires Valid() && pending > 0
      modifies this
      ensures Valid() && events == old(events) + [LoopEvent.Fire]
      ensures pending == old(pending)
    {
      FeasibleExtend(events, LoopEvent.Fire);
      events := events + [LoopEvent.Fire];
    }

    /** `stop()`: every posted run is removed. */
    method Stop()
      requires Valid()
      modifies this
      ensures Valid() && events == old(events) + [LoopEvent.Stop]
      ensures pending == 0
    {
      FeasibleExtend(events, LoopEvent.Stop);
      events := events + [LoopEvent.Stop];
      pending := 0;
    }
  }

  lemma {:induction false} FeasibleExtend(events: seq<LoopEvent>, e: LoopEvent)
    requires Feasible(events)
    requires e == Fire ==> Pending(events) > 0
    ensures Feasible(events + [e])
    ensures Pending(events + [e]) == match e case Start => Pending(events) + 1 case Fire => Pending(events) case Stop => 0
  {
    assert (events + [e])[..|events|] == events;
  }
}
