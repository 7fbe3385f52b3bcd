/**
 * The notification list utilities (app/features/notifications/utils.js):
 * turning stored notifications into the scheduler's trigger notifications,
 * dropping those that are not later than a given time, splitting a queue into
 * a batch and the rest, and the boolean mutex that guards the queue top-up.
 */
module Notifications {
  import opened Wrappers
  import opened Js
  import opened Filtering

  /**
   * A stored notification. Every field but `scheduledAt` is copied without
   * being inspected, so it is any JavaScript value; `scheduledAt` is a
   * timestamp.
   */
  datatype StoredNotification = StoredNotification(
    notificationHeader: Value,
    notificationBody: Value,
    notificationId: Value,
    shortId: Value,
    scheduledAt: real,
    scheduledAtString: Value,
    appletId: Value,
    activityId: Value,
    eventId: Value)

  datatype NotificationData = NotificationData(
    shortId: Value,
    scheduledAt: real,
    scheduledAtString: Value,
    appletId: Value,
    activityId: Value,
    activityFlowId: Value,
    eventId: Value,
    isLocal: bool,
    kind: string)

  datatype NotificationContent = NotificationContent(title: Value, body: Value, notificationId: Value, data: NotificationData)

  datatype TriggerNotification = TriggerNotification(notification: NotificationContent, fireDate: real)

  const ScheduleEventAlert := "schedule-event-alert"

  /** The default parameter `notifications = []`: an absent list is empty. */
  function OrEmpty(notifications: Option<seq<StoredNotification>>): seq<StoredNotification> {
    if notifications.Some? then notifications.value else []
  }

  /** The arrow function given to `map` in `mapToTriggerNotifications`. */
  function ToTrigger(n: StoredNotification): TriggerNotification {
    TriggerNotification(
      NotificationContent(n.notificationHeader, n.notificationBody, n.notificationId,
        NotificationData(n.shortId, n.scheduledAt, n.scheduledAtString, n.appletId, n.activityId,
                         n.activityId, n.eventId, true, ScheduleEventAlert)),
      n.scheduledAt)
  }

  /**
   * `mapToTriggerNotifications`: one trigger notification per stored one, in
   * the same order; the title and body come from the header and body, the
   * fire date is the scheduled time, every entry is local and of type
   * `schedule-event-alert`, and the activity flow id repeats the activity id.
   */
  function MapToTriggerNotifications(notifications: Option<seq<StoredNotification>>): (r: seq<TriggerNotification>)
    ensures |r| == |OrEmpty(notifications)|
    ensures forall i :: 0 <= i < |r| ==>
      var n, t := OrEmpty(notifications)[i], r[i];
      t.notification.title == n.notificationHeader && t.notification.body == n.notificationBody &&
      t.notification.notificationId == n.notificationId && t.fireDate == n.scheduledAt &&
      t.notification.data == NotificationData(n.shortId, n.scheduledAt, n.scheduledAtString, n.appletId,
                                              n.activityId, n.activityId, n.eventId, true, ScheduleEventAlert)
  {
    var ns := OrEmpty(notifications);
    seq(|ns|, i requires 0 <= i < |ns| => ToTrigger(ns[i]))
  }

  /** Mapping works entry by entry: mapping a concatenation concatenates the mapped parts. */
  lemma MapDistributes(a: seq<StoredNotification>, b: seq<StoredNotification>)
    ensures MapToTriggerNotifications(Some(a + b)) == MapToTriggerNotifications(Some(a)) + MapToTriggerNotifications(Some(b))
  {
  }

  const DateRequired := "[filterNotificationsByDate] date is required"

  /** `!date` for a timestamp that may be `undefined`. */
  predicate DateMissing(date: Option<real>) {
    date.None? || date.value == 0.0
  }

  /** The filter predicate of `filterNotificationsByDate`, by position. */
  function LaterAt(ns: seq<StoredNotification>, date: real): nat -> bool {
    (i: nat) => i < |ns| && ns[i].scheduledAt > date
  }

  function ElementAt(ns: seq<StoredNotification>): nat -> StoredNotification {
    (i: nat) => if i < |ns| then ns[i] else StoredNotification(Undefined, Undefined, Undefined, Undefined, 0.0,
                                                              Undefined, Undefined, Undefined, Undefined)
  }

  /**
   * `filterNotificationsByDate`: throws when the date is missing or zero,
   * and otherwise keeps the notifications scheduled strictly later.
   */
  function FilterNotificationsByDate(notifications: Option<seq<StoredNotification>>, date: Option<real>)
    : (r: Result<seq<StoredNotification>, string>)
    ensures r.Err? <==> DateMissing(date)
    ensures r.Err? ==> r.error == DateRequired
  {
    if DateMissing(date) then Err(DateRequired)
    else
      var ns := OrEmpty(notifications);
      Ok(FilterMap(|ns|, LaterAt(ns, date.value), ElementAt(ns)))
  }

  /**
   * The filter keeps exactly the notifications scheduled after `date`, in
   * their original order: the result is the list's entries at increasing
   * positions, each of them later than `date`, and every later entry is
   * among those positions.
   */
  lemma FilterKeepsLaterInOrder(notifications: Option<seq<StoredNotification>>, date: real)
    requires date != 0.0
    ensures var ns, r := OrEmpty(notifications), FilterNotificationsByDate(notifications, Some(date)).value;
      var idx := Indices(|ns|, LaterAt(ns, date));
      |r| == |idx| &&
      (forall k :: 0 <= k < |idx| ==> idx[k] < |ns| && r[k] == ns[idx[k]] && r[k].scheduledAt > date) &&
      (forall j, k :: 0 <= j < k < |idx| ==> idx[j] < idx[k]) &&
      (forall i :: 0 <= i < |ns| && ns[i].scheduledAt > date ==> i in idx)
  {
    var ns := OrEmpty(notifications);
    IndicesExactly(|ns|, LaterAt(ns, date));
    FilterMapOfIndices(|ns|, LaterAt(ns, date), ElementAt(ns));
  }

  /** Everything that survives the filter and is then mapped fires after `date`. */
  lemma FilteredTriggersFireLater(notifications: Option<seq<StoredNotification>>, date: real)
    requires date != 0.0
    ensures var kept := FilterNotificationsByDate(notifications, Some(date)).value;
      forall t :: t in MapToTriggerNotifications(Some(kept)) ==> t.fireDate > date
  {
    FilterKeepsLaterInOrder(notifications, date);
    var kept := FilterNotificationsByDate(notifications, Some(date)).value;
    var mapped := MapToTriggerNotifications(Some(kept));
    forall t | t in mapped ensures t.fireDate > date {
      var k :| 0 <= k < |mapped| && mapped[k] == t;
      assert t.fireDate == kept[k].scheduledAt;
    }
  }

  const SizeRequired := "[splitArray] leftArraySize is required"
  const SizeNotNumber := "[splitArray] leftArraySize must be number"

  /** The pair `[leftArray, rightArray]` returned by `splitArray`. */
  datatype Split<T> = Split(left: seq<T>, right: seq<T>)

  /** ToIntegerOrInfinity on a finite number: truncation toward zero. */
  function Truncate(n: real): (t: int)
    ensures n >= 0.0 ==> t as real <= n < t as real + 1.0
    ensures n < 0.0 ==> t as real - 1.0 < n <= t as real
  {
    if n >= 0.0 then n.Floor else -((-n).Floor)
  }

  /** The number of elements `splice(0, count)` removes from an array of length `len`. */
  function DeleteCount(count: real, len: nat): (k: nat)
    ensures k <= len
  {
    var t := Truncate(count);
    if t < 0 then 0 else if t > len then len else t
  }

  /** For a positive integer `n`, `splice(0, n)` removes the first `min(n, len)` elements. */
  lemma DeleteCountOfInteger(n: int, len: nat)
    requires n >= 1
    ensures DeleteCount(n as real, len) == if n <= len then n else len
  {
  }

  /** Below one nothing is removed: `splice(0, n)` with `0 < n < 1` or `n < 0` keeps every element. */
  lemma DeleteCountBelowOne(n: real, len: nat)
    requires n < 1.0
    ensures DeleteCount(n, len) == 0
  {
  }

  /**
   * `splitArray`: throws when the size is falsy (`0` included) or not a
   * number; otherwise copies `items`, splices its first elements off the
   * copy, and returns them with what is left. The input, a value, is never
   * changed.
   */
  method SplitArray<T>(items: seq<T>, leftArraySize: Value) returns (result: Result<Split<T>, string>)
    ensures !Truthy(leftArraySize) ==> result == Err(SizeRequired)
    ensures Truthy(leftArraySize) && !IsNumber(leftArraySize) ==> result == Err(SizeNotNumber)
    ensures Truthy(leftArraySize) && IsNumber(leftArraySize) ==>
      result.Ok? && result.value.left + result.value.right == items &&
      |result.value.left| == DeleteCount(leftArraySize.n, |items|)
  {
    if !Truthy(leftArraySize) {
      return Err(SizeRequired);
    }
    if !IsNumber(leftArraySize) {
      return Err(SizeNotNumber);
    }
    var rightArray := items;
    var k := DeleteCount(leftArraySize.n, |rightArray|);
    var leftArray := rightArray[..k];
    rightArray := rightArray[k..];
    return Ok(Split(leftArray, rightArray));
  }

  /** The object returned by `getMutex`: a `busy` flag and its three methods. */
  class Mutex {
    var busy: bool

    /** A new mutex is not busy. */
    constructor()
      ensures !busy
    {
      busy := false;
    }

    /** Marks the mutex busy, whatever it was before; a second call changes nothing. */
    method SetBusy()
      modifies this
      ensures busy
    {
      busy := true;
    }

    /** Marks the mutex free, whatever it was before; a second call changes nothing. */
    method Release()
      modifies this
      ensures !busy
    {
      busy := false;
    }

    /** `isBusy`: whether the mutex is currently held. */
    function IsBusy(): (b: bool)
      reads this
      ensures b <==> busy
    {
      busy
    }
  }
}
