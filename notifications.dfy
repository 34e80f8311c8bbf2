/**
 * The notifications collection as the route handlers use it: each handler
 * that announces something appends one record through `createNotification`.
 */
module Notifications {
  import opened Records

  class NotificationLog {
    /** The notifications created so far, oldest first. */
    var entries: seq<Notification>

    constructor ()
      ensures entries == []
    {
      entries := [];
    }

    /** `createNotification(data)`: stores one notification and nothing else. */
    method Create(n: Notification)
      modifies this
      ensures entries == old(entries) + [n]
    {
      entries := entries + [n];
    }
  }
}
