/** `RestActivity`: the rest countdown, its minutes-and-seconds display, and the
    "postpone" button that sends the service back to work. */
module RestActivity {
  import opened Wrappers
  import opened KotlinInt
  import opened Notifications
  import opened PreferenceHelper
  import opened ReminderService
  import opened Countdown

  /** `restMinutes * 60`, an `Int` product: exact up to 35791394 minutes. */
  function RestSeconds(restMinutes: Int32): (r: Int32)
    ensures 0 <= restMinutes <= 35791394 ==> r == restMinutes * 60
    ensures (r - restMinutes * 60) % 0x1_0000_0000 == 0
  {
    Wrap32(restMinutes * 60)
  }

  /** The remaining time as shown: whole minutes and the seconds left over. */
  datatype Clock = Clock(minutes: int, seconds: int)

  /** `remaining / 60` and `remaining % 60` with Kotlin's truncating operators:
      the two parts always add back up to `remaining`, and for a remaining time
      that is not negative the seconds are below a minute. */
  function DisplaySplit(remaining: int): (r: Clock)
    ensures r.minutes * 60 + r.seconds == remaining
    ensures remaining >= 0 ==> r.minutes >= 0 && 0 <= r.seconds < 60
    ensures remaining < 0 ==> r.minutes <= 0 && -60 < r.seconds <= 0
  {
    Clock(TruncDiv(remaining, 60), TruncMod(remaining, 60))
  }

  /** Two remaining times show the same clock only if they are equal. */
  lemma DisplaySplitInjective(a: int, b: int)
    requires DisplaySplit(a) == DisplaySplit(b)
    ensures a == b
  {
  }

  class RestActivity {
    const totalSeconds: Int32
    var remaining: int
    var finished: bool
    /** How many times the countdown effect has run. */
    ghost var effects: nat
    const service: ReminderService

    /** The counter is where the countdown from `totalSeconds` has taken it. */
    ghost predicate Valid()
      reads this
    {
      remaining == AfterEffects(totalSeconds, effects)
    }

    /** `onCreate`: the countdown starts at the rest duration in seconds. */
    constructor(prefs: PreferenceHelper, service: ReminderService)
      ensures totalSeconds == RestSeconds(RestMinutesOf(prefs.prefs))
      ensures remaining == totalSeconds && !finished && effects == 0
      ensures this.service == service
      ensures Valid()
    {
      var restMinutes := prefs.GetRestMinutes();
      totalSeconds := RestSeconds(restMinutes);
      remaining := RestSeconds(restMinutes);
      finished := false;
      effects := 0;
      this.service := service;
    }

    /** One run of the countdown effect: count a second down while time is left,
        otherwise `onFinish`. From a non-negative rest duration the counter thus
        never goes below 0. */
    method RunEffect()
      requires Valid() && !finished
      modifies this
      ensures Valid()
      ensures remaining == AfterEffect(old(remaining))
      ensures finished <==> EffectFinishes(old(remaining))
      ensures effects == old(effects) + 1
      ensures totalSeconds >= 0 ==> remaining >= 0
    {
      if remaining > 0 {
        remaining := remaining - 1;
      } else {
        OnFinish();
      }
      effects := effects + 1;
      if totalSeconds >= 0 {
        CountdownFinishesAtZero(totalSeconds, effects);
      } else {
        NonPositiveStartFinishesAtOnce(totalSeconds, effects);
      }
    }

    /** `onPostpone`: the service is told to restart work, then the screen
        closes. */
    method Postpone()
      requires service.Valid()
      modifies this, service, service.notifications
      ensures finished && remaining == old(remaining) && effects == old(effects)
      ensures service.Valid() && service.Restarted(old(service.nextRunnable))
      ensures service.notifications.shown == old(service.notifications.shown) + {ForegroundNotificationId}
    {
      service.OnStartCommand(Some(ActionRestartWork));
      finished := true;
    }

    /** `onFinish`: the screen closes and the service hears nothing. */
    method OnFinish()
      modifies this
      ensures finished && remaining == old(remaining) && effects == old(effects)
    {
      finished := true;
    }
  }
}
