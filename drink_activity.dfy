/** `DrinkActivity`: the full-screen drink popup. It counts 15 seconds down,
    offers four amounts, and routes "drink", "skip" and the end of the countdown. */
module DrinkActivity {
  import opened Wrappers
  import opened KotlinInt
  import opened DrinkRecord
  import opened DrinkRecordDao
  import opened DrinkRecordRepository
  import opened Notifications
  import opened ReminderService
  import opened Countdown

  const CountdownSeconds: int := 15

  /** The amounts on the buttons, in ml: two rows of two. */
  const OfferedAmounts: seq<Int32> := [50, 100, 200, 300]

  /** The amount on the button at `row`, `col`: the first row shows `take(2)`,
      the second `drop(2)`. */
  function ButtonAmount(row: nat, col: nat): (r: Int32)
    requires row < 2 && col < 2
    ensures row == 0 ==> r == OfferedAmounts[..2][col]
    ensures row == 1 ==> r == OfferedAmounts[2..][col]
    ensures r in {50, 100, 200, 300}
  {
    OfferedAmounts[2 * row + col]
  }

  /** Each offered amount is on exactly one button. */
  lemma ButtonsOfferEachAmountOnce(amount: Int32)
    requires amount in OfferedAmounts
    ensures exists row: nat, col: nat :: row < 2 && col < 2 && ButtonAmount(row, col) == amount
    ensures forall row1: nat, col1: nat, row2: nat, col2: nat ::
      row1 < 2 && col1 < 2 && row2 < 2 && col2 < 2 && ButtonAmount(row1, col1) == amount && ButtonAmount(row2, col2) == amount ==>
        row1 == row2 && col1 == col2
  {
    var i :| 0 <= i < |OfferedAmounts| && OfferedAmounts[i] == amount;
    assert ButtonAmount(i / 2, i % 2) == amount;
  }

  /** `todayDrink ?: 0`: the day's total as shown, with no rows read as 0. */
  function ActualTodayDrink(todayDrink: Option<Int32>): (r: Int32)
    ensures todayDrink.None? ==> r == 0
    ensures todayDrink.Some? ==> r == todayDrink.value
  {
    todayDrink.GetOr(0)
  }

  /** The amount shown for today is 0 when nothing was logged today, and today's
      sum otherwise (when it fits an `Int`). */
  lemma ActualTodayDrinkIsDaySum(records: seq<DrinkRecord>, today: CalendarDate)
    requires ValidDate(today)
    ensures (forall r :: r in records ==> r.date != DateKey(today)) ==>
      ActualTodayDrink(TotalAmountByDate(records, DateKey(today))) == 0
    ensures IntMin <= DaySum(records, DateKey(today)) <= IntMax ==>
      ActualTodayDrink(TotalAmountByDate(records, DateKey(today))) == DaySum(records, DateKey(today))
  {
    TotalAmountByDateSpec(records, DateKey(today));
  }

  class DrinkActivity {
    var countdown: int
    var finished: bool
    /** How many times the countdown effect has run. */
    ghost var effects: nat
    const repository: DrinkRecordRepository
    const notifications: NotificationManager
    const service: ReminderService

    /** The counter is where the countdown from 15 has taken it, and an open
        popup has not yet run the effect that closes it. */
    ghost predicate Valid()
      reads this
    {
      && countdown == AfterEffects(CountdownSeconds, effects)
      && (!finished ==> effects <= CountdownSeconds)
    }

    constructor(repository: DrinkRecordRepository, notifications: NotificationManager, service: ReminderService)
      ensures this.repository == repository && this.notifications == notifications && this.service == service
      ensures countdown == 15 && !finished && effects == 0
      ensures Valid()
    {
      this.repository := repository;
      this.notifications := notifications;
      this.service := service;
      countdown := CountdownSeconds;
      finished := false;
      effects := 0;
    }

    /** One run of the countdown effect: count a second down while time is left,
        otherwise the `onFinish` route. The popup closes on the sixteenth run. */
    method RunEffect()
      requires Valid() && !finished
      modifies this, notifications
      ensures Valid()
      ensures countdown == AfterEffect(old(countdown)) && countdown >= 0
      ensures effects == old(effects) + 1
      ensures finished <==> effects == CountdownSeconds + 1
      ensures finished ==> notifications.shown == old(notifications.shown) - {FullScreenNotificationId, RestNotificationId}
      ensures !finished ==> notifications.shown == old(notifications.shown)
    {
      CountdownFinishesAtZero(CountdownSeconds, effects);
      if countdown > 0 {
        countdown := countdown - 1;
      } else {
        OnFinish();
      }
      effects := effects + 1;
      CountdownFinishesAtZero(CountdownSeconds, effects);
    }

    /** `clearNotifications`: the full-screen reminder (3), then the rest
        notification (2), are cancelled. */
    method ClearNotifications()
      modifies notifications
      ensures notifications.shown == old(notifications.shown) - {FullScreenNotificationId, RestNotificationId}
    {
      notifications.Cancel(FullScreenNotificationId);
      notifications.Cancel(RestNotificationId);
    }

    /** `onDrink(amount)`, through `recordDrink`: the amount is logged for today,
        the reminders are cancelled, the service is sent the record-drink action
        (which only re-posts its persistent notification), and the popup closes. */
    method OnDrink(amount: Int32, now: int, today: CalendarDate)
      requires ValidDate(today) && repository.dao.Valid() && service.Valid()
      requires service.notifications == notifications
      modifies this, repository.dao, notifications, service
      ensures finished && countdown == old(countdown) && effects == old(effects)
      ensures repository.dao.Valid()
      ensures repository.dao.records ==
        old(repository.dao.records) + [DrinkRecord(old(repository.dao.nextId), amount, now, DateKey(today))]
      ensures repository.dao.nextId == old(repository.dao.nextId) + 1
      ensures notifications.shown ==
        old(notifications.shown) - {FullScreenNotificationId, RestNotificationId} + {ForegroundNotificationId}
      ensures unchanged(service)
    {
      repository.AddDrinkRecord(amount, now, today);
      ClearNotifications();
      service.OnStartCommand(Some(ActionRecordDrink));
      finished := true;
    }

    /** A tap on one of the four amount buttons: `onDrink` with the amount shown. */
    method OnAmountButton(row: nat, col: nat, now: int, today: CalendarDate)
      requires row < 2 && col < 2
      requires ValidDate(today) && repository.dao.Valid() && service.Valid()
      requires service.notifications == notifications
      modifies this, repository.dao, notifications, service
      ensures finished && countdown == old(countdown) && effects == old(effects)
      ensures repository.dao.Valid()
      ensures var amount := ButtonAmount(row, col);
        && amount in {50, 100, 200, 300}
        && repository.dao.records ==
          old(repository.dao.records) + [DrinkRecord(old(repository.dao.nextId), amount, now, DateKey(today))]
      ensures repository.dao.nextId == old(repository.dao.nextId) + 1
      ensures notifications.shown ==
        old(notifications.shown) - {FullScreenNotificationId, RestNotificationId} + {ForegroundNotificationId}
      ensures unchanged(service)
    {
      OnDrink(ButtonAmount(row, col), now, today);
    }

    /** `onSkip`: the reminders are cancelled and the popup closes; nothing is
        logged and the service hears nothing. */
    method OnSkip()
      modifies this, notifications
      ensures finished && countdown == old(countdown) && effects == old(effects)
      ensures notifications.shown == old(notifications.shown) - {FullScreenNotificationId, RestNotificationId}
    {
      ClearNotifications();
      finished := true;
    }

    /** `onFinish`, at the end of the countdown: the same as skipping. */
    method OnFinish()
      modifies this, notifications
      ensures finished && countdown == old(countdown) && effects == old(effects)
      ensures notifications.shown == old(notifications.shown) - {FullScreenNotificationId, RestNotificationId}
    {
      ClearNotifications();
      finished := true;
    }

    /** `onBackPressed` is overridden to do nothing: the popup can only be left
        through its buttons or the countdown. */
    method OnBackPressed()
      ensures unchanged(this) && unchanged(notifications)
    {
    }
  }
}
