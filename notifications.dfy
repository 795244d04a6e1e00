/** The system `NotificationManager`, reduced to the set of notification ids on
    show. The app uses id 1 for the service's persistent notification, id 2 for the
    rest reminder and id 3 for the full-screen drink reminder. */
module Notifications {

  const ForegroundNotificationId: int := 1
  const RestNotificationId: int := 2
  const FullScreenNotificationId: int := 3

  class NotificationManager {
    var shown: set<int>

    constructor()
      ensures shown == {}
    {
      shown := {};
    }

    /** `notify(id, …)` and `startForeground(id, …)`: posting an id again replaces
        the notification, so the set just gains the id. */
    method Notify(id: int)
      modifies this
      ensures shown == old(shown) + {id}
    {
      shown := shown + {id};
    }

    /** `cancel(id)`; cancelling an id that is not on show does nothing. */
    method Cancel(id: int)
      modifies this
      ensures shown == old(shown) - {id}
    {
      shown := shown - {id};
    }
  }
}
