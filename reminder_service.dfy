/** `ReminderService`: the work/rest timer. Starting the timer posts one delayed
    work callback, which fires the rest notification, and one log callback, which
    counts the remaining work time down in 5-second steps. The main-thread
    `Handler` is a queue of pending callbacks; time is not modelled, so any pending
    callback may be the next one to run. */
module ReminderService {
  import opened Wrappers
  import opened KotlinInt
  import opened Collections
  import opened Notifications
  import opened PreferenceHelper

  const ActionStartTimer: string := "com.example.reminder.ACTION_START_TIMER"
  const ActionRestartWork: string := "com.example.reminder.ACTION_RESTART_WORK"
  /** Sent by the drink popup. The service as written does not declare it; its
      value here only has to differ from the two actions above. */
  const ActionRecordDrink: string := "com.example.reminder.ACTION_RECORD_DRINK"

  const LogPeriodMillis: int := 5000

  /** The intent actions that (re)start the work timer. */
  predicate StartsTimer(action: Option<string>)
  {
    action == Some(ActionStartTimer) || action == Some(ActionRestartWork)
  }

  /** `workMinutes * 60 * 1000L`: the first product is an `Int` product and wraps,
      only the second is done in `Long`. Up to 35791394 minutes the delay is exact. */
  function StartDelay(workMinutes: Int32): (r: int)
    ensures r % 1000 == 0
    ensures 0 <= workMinutes <= 35791394 ==> r == workMinutes * 60000 && r >= 0 && r % LogPeriodMillis == 0
  {
    assert workMinutes * 60000 == (workMinutes * 12) * LogPeriodMillis;
    Wrap32(workMinutes * 60) * 1000
  }

  /** Past the `Int` range the product wraps: one minute more than the largest
      exact duration gives a negative delay, and 71582789 minutes a 44-second one
      that is not a multiple of the 5-second log step. */
  lemma StartDelayWraps()
    ensures StartDelay(35791395) < 0
    ensures StartDelay(71582789) == 44000 && 44000 % LogPeriodMillis != 0
  {
  }

  /** Whether a run of the log callback logs, counts down and re-posts itself. */
  predicate LogContinues(remaining: int, isResting: bool)
  {
    !isResting && remaining > 0
  }

  /** The remaining work time after one run of the log callback. */
  function LoggedRemaining(remaining: int, isResting: bool): int
  {
    if LogContinues(remaining, isResting) then remaining - LogPeriodMillis else remaining
  }

  /** The remaining work time after `n` runs of the log callback while working. */
  function RemainingAfterTicks(start: int, n: nat): int
  {
    if n == 0 then start else LoggedRemaining(RemainingAfterTicks(start, n - 1), false)
  }

  /** From `k` log periods the count goes down one period per run and stops at 0:
      the log callback runs and re-posts itself exactly `k` times. */
  lemma {:induction false} TicksCountDown(k: nat, n: nat)
    ensures RemainingAfterTicks(k * LogPeriodMillis, n) == if n <= k then (k - n) * LogPeriodMillis else 0
    ensures n < k <==> LogContinues(RemainingAfterTicks(k * LogPeriodMillis, n), false)
  {
    if n > 0 {
      TicksCountDown(k, n - 1);
    }
  }

  /** What the remaining work time can be, given the value the timer started at:
      it never grows, never moves from a start of 0 or less, stays above -5000
      otherwise, and from a non-negative multiple of 5000 stays one. */
  predicate RemainingInvariant(start: int, remaining: int)
  {
    && remaining <= start
    && (start <= 0 ==> remaining == start)
    && (start > 0 ==> remaining > -LogPeriodMillis)
    && (start >= 0 && start % LogPeriodMillis == 0 ==> remaining >= 0 && remaining % LogPeriodMillis == 0)
  }

  /** A run of the log callback keeps the invariant. */
  lemma LogKeepsRemainingInvariant(start: int, remaining: int, isResting: bool)
    requires RemainingInvariant(start, remaining)
    ensures RemainingInvariant(start, LoggedRemaining(remaining, isResting))
  {
  }

  /** A pending `Handler` message: a run of the work runnable or of the log
      runnable, each runnable object told apart by a number. */
  datatype Msg = WorkCallback(id: nat) | LogCallback(id: nat)

  /** The messages of `queue` that are not posts of `m`: `removeCallbacks`. */
  function Removed(queue: seq<Msg>, m: Msg): (r: seq<Msg>)
    ensures m !in r
    ensures forall x :: x in r <==> x in queue && x != m
  {
    var r := Filter(queue, (x: Msg) => x != m);
    assert forall x :: x in queue && x != m ==> x in r by {
      forall x | x in queue && x != m ensures x in r {
        FilterContains(queue, (x: Msg) => x != m, x);
      }
    }
    r
  }

  /** No message is pending twice. */
  predicate NoRepeats(queue: seq<Msg>)
  {
    forall i, j :: 0 <= i < j < |queue| ==> queue[i] != queue[j]
  }

  /** Removing posts keeps a queue free of repeats. */
  lemma RemovedNoRepeats(queue: seq<Msg>, m: Msg)
    requires NoRepeats(queue)
    ensures NoRepeats(Removed(queue, m))
  {
    FilterDistinctKeys(queue, (x: Msg) => x != m, (x: Msg) => x);
  }

  /** Removing one pending message by position. */
  lemma RemoveAtNoRepeats(queue: seq<Msg>, i: nat)
    requires NoRepeats(queue) && i < |queue|
    ensures NoRepeats(queue[..i] + queue[i + 1..])
    ensures queue[i] !in queue[..i] + queue[i + 1..]
    ensures forall x :: x in queue[..i] + queue[i + 1..] ==> x in queue
  {
    var r := queue[..i] + queue[i + 1..];
    forall a, b | 0 <= a < b < |r| ensures r[a] != r[b] {
      var a' := if a < i then a else a + 1;
      var b' := if b < i then b else b + 1;
      assert r[a] == queue[a'] && r[b] == queue[b'];
    }
    forall k | 0 <= k < |r| ensures r[k] != queue[i] {
      var k' := if k < i then k else k + 1;
      assert r[k] == queue[k'];
    }
  }

  /** A queue with no member is empty. */
  lemma EmptyWithoutMembers(queue: seq<Msg>)
    ensures (forall m :: m !in queue) ==> queue == []
  {
    if queue != [] {
      assert queue[0] in queue;
    }
  }

  /** In a queue free of repeats, if every work message is a post of the one
      current work runnable, at most one work message is pending (and likewise
      for log messages). */
  lemma PendingCallbacksAreSingle(queue: seq<Msg>, work: Option<nat>, log: Option<nat>, i: nat, j: nat)
    requires NoRepeats(queue)
    requires forall m :: m in queue && m.WorkCallback? ==> work == Some(m.id)
    requires forall m :: m in queue && m.LogCallback? ==> log == Some(m.id)
    requires i < j < |queue|
    ensures queue[i].WorkCallback? ==> !queue[j].WorkCallback?
    ensures queue[i].LogCallback? ==> !queue[j].LogCallback?
  {
    assert queue[i] in queue && queue[j] in queue;
  }

  class ReminderService {
    /** The handler's pending messages. */
    var queue: seq<Msg>
    /** `workRunnable` and `workLogRunnable`: the latest runnables created. */
    var workRunnable: Option<nat>
    var workLogRunnable: Option<nat>
    /** The number the next runnable object gets. */
    var nextRunnable: nat
    var workRemainingMillis: int
    var isResting: bool
    /** The value `workRemainingMillis` was last set to by starting the timer. */
    ghost var startRemaining: int
    const notifications: NotificationManager
    const prefs: PreferenceHelper

    /** Every pending message is a post of the current work or log runnable, none
        twice; resting means nothing is pending. */
    ghost predicate Valid()
      reads this
    {
      && (forall m :: m in queue && m.WorkCallback? ==> workRunnable == Some(m.id))
      && (forall m :: m in queue && m.LogCallback? ==> workLogRunnable == Some(m.id))
      && NoRepeats(queue)
      && (isResting ==> queue == [])
      && RemainingInvariant(startRemaining, workRemainingMillis)
    }

    /** A created service: no runnable, nothing pending, not resting. */
    constructor(notifications: NotificationManager, prefs: PreferenceHelper)
      ensures this.notifications == notifications && this.prefs == prefs
      ensures queue == [] && workRunnable == None && workLogRunnable == None
      ensures workRemainingMillis == 0 && !isResting
      ensures Valid()
    {
      this.notifications := notifications;
      this.prefs := prefs;
      queue := [];
      workRunnable := None;
      workLogRunnable := None;
      nextRunnable := 0;
      workRemainingMillis := 0;
      isResting := false;
      startRemaining := 0;
    }

    /** `onStartCommand`: the persistent notification is (re)posted, and only the
        two timer actions restart the work timer; any other action, or none,
        changes nothing else. */
    method OnStartCommand(action: Option<string>)
      requires Valid()
      modifies this, notifications
      ensures Valid()
      ensures notifications.shown == old(notifications.shown) + {ForegroundNotificationId}
      ensures StartsTimer(action) ==> Restarted(old(nextRunnable))
      ensures !StartsTimer(action) ==> unchanged(this)
    {
      notifications.Notify(ForegroundNotificationId);
      if StartsTimer(action) {
        StartWorkTimer();
      }
    }

    /** The state right after `startWorkTimer` with runnable numbers `n` and `n + 1`:
        exactly one fresh work callback and one fresh log callback pending, the
        full work time remaining, not resting. */
    ghost predicate Restarted(n: nat)
      reads this, prefs
    {
      && queue == [WorkCallback(n), LogCallback(n + 1)]
      && workRunnable == Some(n) && workLogRunnable == Some(n + 1)
      && nextRunnable == n + 2
      && workRemainingMillis == StartDelay(WorkMinutesOf(prefs.prefs))
      && !isResting
    }

    /** `startWorkTimer`: the old work callback and log callback are removed
        before the new ones are posted. */
    method StartWorkTimer()
      requires Valid()
      modifies this
      ensures Valid()
      ensures Restarted(old(nextRunnable))
    {
      if workRunnable.Some? {
        RemovedNoRepeats(queue, WorkCallback(workRunnable.value));
        queue := Removed(queue, WorkCallback(workRunnable.value));
      }
      StopWorkLog();
      EmptyWithoutMembers(queue);
      var workMinutes := prefs.GetWorkMinutes();
      PostWorkCallback(StartDelay(workMinutes));
      StartWorkLog();
    }

    /** The middle of `startWorkTimer`, once nothing is pending: the remaining time
        is set to the delay and a new work runnable is posted. */
    method PostWorkCallback(delayMillis: int)
      requires queue == []
      modifies this
      ensures Valid()
      ensures queue == [WorkCallback(old(nextRunnable))]
      ensures workRunnable == Some(old(nextRunnable)) && nextRunnable == old(nextRunnable) + 1
      ensures workLogRunnable == old(workLogRunnable)
      ensures workRemainingMillis == delayMillis && startRemaining == delayMillis && !isResting
    {
      workRemainingMillis := delayMillis;
      startRemaining := delayMillis;
      isResting := false;
      workRunnable := Some(nextRunnable);
      nextRunnable := nextRunnable + 1;
      queue := [WorkCallback(workRunnable.value)];
    }

    /** `startWorkLog`: a new log runnable, posted at once. */
    method StartWorkLog()
      requires Valid() && !isResting && forall m :: m in queue ==> m.WorkCallback?
      modifies this
      ensures Valid()
      ensures workLogRunnable == Some(old(nextRunnable)) && nextRunnable == old(nextRunnable) + 1
      ensures queue == old(queue) + [LogCallback(old(nextRunnable))]
      ensures workRunnable == old(workRunnable) && isResting == old(isResting)
      ensures workRemainingMillis == old(workRemainingMillis) && startRemaining == old(startRemaining)
    {
      workLogRunnable := Some(nextRunnable);
      nextRunnable := nextRunnable + 1;
      queue := queue + [LogCallback(workLogRunnable.value)];
    }

    /** `stopWorkLog`: the current log runnable's pending posts are removed. */
    method StopWorkLog()
      requires Valid()
      modifies this
      ensures Valid()
      ensures forall m :: m in queue ==> m.WorkCallback? && m in old(queue)
      ensures forall m :: m in old(queue) && m.WorkCallback? ==> m in queue
      ensures workRunnable == old(workRunnable) && workLogRunnable == old(workLogRunnable)
      ensures nextRunnable == old(nextRunnable) && isResting == old(isResting)
      ensures workRemainingMillis == old(workRemainingMillis) && startRemaining == old(startRemaining)
    {
      if workLogRunnable.Some? {
        RemovedNoRepeats(queue, LogCallback(workLogRunnable.value));
        queue := Removed(queue, LogCallback(workLogRunnable.value));
      }
    }

    /** The handler runs pending message `i`: the work callback sends the rest
        notification; the log callback counts down and re-posts itself only while
        working with time left. */
    method RunMessage(i: nat)
      requires Valid() && i < |queue|
      modifies this, notifications
      ensures Valid()
      ensures old(queue[i]).WorkCallback? ==>
        && isResting && queue == []
        && notifications.shown == old(notifications.shown) + {RestNotificationId}
        && workRemainingMillis == old(workRemainingMillis)
      ensures old(queue[i]).LogCallback? ==>
        && workRemainingMillis == LoggedRemaining(old(workRemainingMillis), old(isResting))
        && queue == old(queue[..i] + queue[i + 1..])
                    + (if LogContinues(old(workRemainingMillis), old(isResting)) then [old(queue[i])] else [])
        && isResting == old(isResting)
        && notifications.shown == old(notifications.shown)
      ensures workRunnable == old(workRunnable) && workLogRunnable == old(workLogRunnable)
      ensures nextRunnable == old(nextRunnable)
    {
      var m := queue[i];
      RemoveAtNoRepeats(queue, i);
      queue := queue[..i] + queue[i + 1..];
      match m
      case WorkCallback(_) =>
        SendRestNotification();
      case LogCallback(_) =>
        if !isResting && workRemainingMillis > 0 {
          workRemainingMillis := workRemainingMillis - LogPeriodMillis;
          queue := queue + [m];
        }
    }

    /** `sendRestNotification`: the rest notification is shown, the service rests
        and the log stops; the work timer is not re-armed. */
    method SendRestNotification()
      requires Valid() && forall m :: m in queue ==> m.LogCallback?
      modifies this, notifications
      ensures Valid()
      ensures notifications.shown == old(notifications.shown) + {RestNotificationId}
      ensures isResting && queue == []
      ensures workRunnable == old(workRunnable) && workLogRunnable == old(workLogRunnable)
      ensures nextRunnable == old(nextRunnable)
      ensures workRemainingMillis == old(workRemainingMillis) && startRemaining == old(startRemaining)
    {
      notifications.Notify(RestNotificationId);
      StopWorkLog();
      EmptyWithoutMembers(queue);
      isResting := true;
    }

    /** `onDestroy`: the pending work and log callbacks are removed; nothing else
        changes. */
    method OnDestroy()
      requires Valid()
      modifies this
      ensures Valid()
      ensures queue == []
      ensures workRunnable == old(workRunnable) && workLogRunnable == old(workLogRunnable)
      ensures nextRunnable == old(nextRunnable)
      ensures isResting == old(isResting) && workRemainingMillis == old(workRemainingMillis)
    {
      if workRunnable.Some? {
        RemovedNoRepeats(queue, WorkCallback(workRunnable.value));
        queue := Removed(queue, WorkCallback(workRunnable.value));
      }
      StopWorkLog();
      EmptyWithoutMembers(queue);
    }
  }
}
