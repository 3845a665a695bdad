// The notification bell and panel (client/src/components/NotificationCenter.jsx):
// the loaded list, the unread counter, paging, and the badge, icon and
// colour of a notification.  The panel is a class whose fields are the
// component's state; each request to the backend is split into the part
// that runs before it (which returns the query it sends) and the part that
// runs on its answer, whose outcome is a parameter.
module NotificationCenter {
  import opened Common

  datatype Notification = Notification(id: string, kind: string, priority: string, isRead: bool, readAt: Option<Time>)

  /** The answer to a list request: a page of notifications, the user's
      unread count, and the pagination. */
  datatype Answer = Answer(notifications: seq<Notification>, unreadCount: int, current: int, pages: int)

  /** The list request: page, page size, and the `isRead` parameter. */
  datatype Query = Query(page: int, limit: int, isRead: string)

  const PageSize := 20

  /** `isRead=false` under the 'unread' filter, empty otherwise. */
  function QueryFor(pageNum: int, filter: string): (q: Query)
    ensures q.page == pageNum && q.limit == PageSize
    ensures q.isRead == "false" <==> filter == "unread"
    ensures q.isRead == "" <==> filter != "unread"
  {
    Query(pageNum, PageSize, if filter == "unread" then "false" else "")
  }

  // ---------------------------------------------------------------------
  // The list updates, on values

  /** markAsRead's update: the notifications with that id are read at `now`. */
  function MarkRead(s: seq<Notification>, id: string, now: Time): (r: seq<Notification>)
    ensures |r| == |s|
    ensures forall i :: 0 <= i < |s| ==>
      r[i] == (if s[i].id == id then s[i].(isRead := true, readAt := Some(now)) else s[i])
  {
    if s == [] then []
    else [if s[0].id == id then s[0].(isRead := true, readAt := Some(now)) else s[0]] + MarkRead(s[1..], id, now)
  }

  /** markAllAsRead's update: every notification is read at `now`. */
  function MarkAllRead(s: seq<Notification>, now: Time): (r: seq<Notification>)
    ensures |r| == |s|
    ensures forall i :: 0 <= i < |s| ==> r[i] == s[i].(isRead := true, readAt := Some(now))
  {
    if s == [] then [] else [s[0].(isRead := true, readAt := Some(now))] + MarkAllRead(s[1..], now)
  }

  /** deleteNotification's update: the notifications with that id go. */
  function Without(s: seq<Notification>, id: string): (r: seq<Notification>)
    ensures forall n :: n in r <==> n in s && n.id != id
  {
    Filter(s, (n: Notification) => n.id != id)
  }

  /** The number of unread notifications in a list. */
  function UnreadIn(s: seq<Notification>): nat
  {
    if s == [] then 0 else (if s[0].isRead then 0 else 1) + UnreadIn(s[1..])
  }

  predicate DistinctIds(s: seq<Notification>)
  {
    forall i, j :: 0 <= i < j < |s| ==> s[i].id != s[j].id
  }

  /** The list holds an unread notification with that id. */
  predicate HasUnread(s: seq<Notification>, id: string)
  {
    exists i :: 0 <= i < |s| && s[i].id == id && !s[i].isRead
  }

  lemma {:induction false} MarkReadAbsent(s: seq<Notification>, id: string, now: Time)
    requires forall i :: 0 <= i < |s| ==> s[i].id != id
    ensures MarkRead(s, id, now) == s
  {
    if s != [] {
      MarkReadAbsent(s[1..], id, now);
    }
  }

  /** An unread notification with that id is the head or in the tail. */
  lemma HasUnreadCons(s: seq<Notification>, id: string)
    requires s != []
    ensures HasUnread(s, id) <==> (s[0].id == id && !s[0].isRead) || HasUnread(s[1..], id)
  {
    if HasUnread(s, id) {
      var i :| 0 <= i < |s| && s[i].id == id && !s[i].isRead;
      if i > 0 {
        assert s[1..][i - 1] == s[i];
      }
    }
    if HasUnread(s[1..], id) {
      var i :| 0 <= i < |s[1..]| && s[1..][i].id == id && !s[1..][i].isRead;
      assert s[i + 1] == s[1..][i];
    }
  }

  /** With distinct ids, the tail holds no other notification with the head's id. */
  lemma DistinctTail(s: seq<Notification>)
    requires s != [] && DistinctIds(s)
    ensures DistinctIds(s[1..])
    ensures forall i :: 0 <= i < |s[1..]| ==> s[1..][i].id != s[0].id
  {
    forall i | 0 <= i < |s[1..]|
      ensures s[1..][i].id != s[0].id
    {
      assert s[1..][i] == s[i + 1];
    }
  }

  /** With distinct ids, marking one read lowers the unread notifications
      in the list by one exactly when it was there and unread. */
  lemma {:induction false} MarkReadCount(s: seq<Notification>, id: string, now: Time)
    requires DistinctIds(s)
    ensures UnreadIn(MarkRead(s, id, now)) == UnreadIn(s) - (if HasUnread(s, id) then 1 else 0)
  {
    if s != [] {
      var t := s[1..];
      DistinctTail(s);
      HasUnreadCons(s, id);
      assert MarkRead(s, id, now)[1..] == MarkRead(t, id, now);
      if s[0].id == id {
        MarkReadAbsent(t, id, now);
        assert !HasUnread(t, id);
      } else {
        MarkReadCount(t, id, now);
      }
    }
  }

  /** After marking all read nothing in the list is unread. */
  lemma {:induction false} MarkAllReadCount(s: seq<Notification>, now: Time)
    ensures UnreadIn(MarkAllRead(s, now)) == 0
  {
    if s != [] {
      assert MarkAllRead(s, now)[1..] == MarkAllRead(s[1..], now);
      MarkAllReadCount(s[1..], now);
    }
  }

  /** With distinct ids, deleting one lowers the unread notifications in
      the list by one exactly when it was there and unread. */
  lemma {:induction false} WithoutCount(s: seq<Notification>, id: string)
    requires DistinctIds(s)
    ensures UnreadIn(Without(s, id)) == UnreadIn(s) - (if HasUnread(s, id) then 1 else 0)
  {
    if s != [] {
      var t := s[1..];
      DistinctTail(s);
      HasUnreadCons(s, id);
      var keep := (n: Notification) => n.id != id;
      assert Without(s, id) == (if keep(s[0]) then [s[0]] else []) + Filter(t, keep);
      if s[0].id == id {
        FilterKeepsAll(t, keep);
        assert !HasUnread(t, id);
      } else {
        WithoutCount(t, id);
      }
    }
  }

  /** The counter against the list: `unreadCount` also counts unread
      notifications not loaded, and the gap is what the list does not show.
      Marking a loaded unread notification read keeps the gap, while
      deleting one widens it by one, since the counter is left as it was.
      (Marking all read sets both to zero: see MarkAllReadCount.) */
  lemma CounterGap(s: seq<Notification>, count: int, id: string, now: Time)
    requires DistinctIds(s) && HasUnread(s, id)
    ensures (count - 1) - UnreadIn(MarkRead(s, id, now)) == count - UnreadIn(s)
    ensures count - UnreadIn(Without(s, id)) == count - UnreadIn(s) + 1
  {
    MarkReadCount(s, id, now);
    WithoutCount(s, id);
  }

  // ---------------------------------------------------------------------
  // The panel

  class Panel {
    var notifications: seq<Notification>
    var isOpen: bool
    var unreadCount: int
    var loading: bool
    var page: int
    var hasMore: bool
    var filter: string

    constructor ()
      ensures notifications == [] && !isOpen && unreadCount == 0 && !loading
      ensures page == 1 && hasMore && filter == "all"
    {
      notifications, isOpen, unreadCount, loading := [], false, 0, false;
      page, hasMore, filter := 1, true, "all";
    }

    /** fetchNotifications up to its request: with no signed-in user
        nothing happens; otherwise the panel is loading and the query for
        that page under the current filter goes out. */
    method StartFetch(pageNum: int, signedIn: bool) returns (query: Option<Query>)
      modifies this
      ensures !signedIn ==> query.None? && loading == old(loading)
      ensures signedIn ==> query == Some(QueryFor(pageNum, filter)) && loading
      ensures notifications == old(notifications) && unreadCount == old(unreadCount) && isOpen == old(isOpen)
      ensures page == old(page) && hasMore == old(hasMore) && filter == old(filter)
    {
      if !signedIn {
        return None;
      }
      loading := true;
      query := Some(QueryFor(pageNum, filter));
    }

    /** fetchNotifications on its answer (`None`: the request failed).  A
        reset fetch replaces the list and a page fetch appends to it; the
        counter comes from the answer, and more pages remain while the
        current page is before the last.  Loading ends either way. */
    method FinishFetch(reset: bool, answer: Option<Answer>)
      modifies this
      ensures !loading
      ensures answer.None? ==>
        notifications == old(notifications) && unreadCount == old(unreadCount) && hasMore == old(hasMore)
      ensures answer.Some? ==>
        notifications == (if reset then answer.value.notifications else old(notifications) + answer.value.notifications) &&
        unreadCount == answer.value.unreadCount &&
        (hasMore <==> answer.value.current < answer.value.pages)
      ensures page == old(page) && filter == old(filter) && isOpen == old(isOpen)
    {
      if answer.Some? {
        if reset {
          notifications := answer.value.notifications;
        } else {
          notifications := notifications + answer.value.notifications;
        }
        unreadCount := answer.value.unreadCount;
        hasMore := answer.value.current < answer.value.pages;
      }
      loading := false;
    }

    /** markAsRead once the request has answered (`ok`: it succeeded): the
        notifications with that id are read and the counter drops by one. */
    method MarkAsRead(id: string, now: Time, ok: bool)
      modifies this
      ensures ok ==> notifications == MarkRead(old(notifications), id, now) && unreadCount == old(unreadCount) - 1
      ensures !ok ==> notifications == old(notifications) && unreadCount == old(unreadCount)
      ensures loading == old(loading) && page == old(page) && hasMore == old(hasMore)
      ensures filter == old(filter) && isOpen == old(isOpen)
    {
      if ok {
        notifications := MarkRead(notifications, id, now);
        unreadCount := unreadCount - 1;
      }
    }

    /** markAllAsRead once the request has answered: everything is read and
        the counter is zero. */
    method MarkAllAsRead(now: Time, ok: bool)
      modifies this
      ensures ok ==> notifications == MarkAllRead(old(notifications), now) && unreadCount == 0
      ensures !ok ==> notifications == old(notifications) && unreadCount == old(unreadCount)
      ensures loading == old(loading) && page == old(page) && hasMore == old(hasMore)
      ensures filter == old(filter) && isOpen == old(isOpen)
    {
      if ok {
        notifications := MarkAllRead(notifications, now);
        unreadCount := 0;
      }
    }

    /** deleteNotification once the request has answered: the notification
        goes, and the counter is left as it was, even for an unread one. */
    method DeleteNotification(id: string, ok: bool)
      modifies this
      ensures ok ==> notifications == Without(old(notifications), id)
      ensures !ok ==> notifications == old(notifications)
      ensures unreadCount == old(unreadCount)
      ensures loading == old(loading) && page == old(page) && hasMore == old(hasMore)
      ensures filter == old(filter) && isOpen == old(isOpen)
    {
      if ok {
        notifications := Without(notifications, id);
      }
    }

    /** loadMore: only when not loading and more pages remain, the page
        advances by exactly one and that page is requested, to be appended. */
    method LoadMore(signedIn: bool) returns (query: Option<Query>)
      modifies this
      ensures old(loading) || !old(hasMore) ==> query.None? && page == old(page) && loading == old(loading)
      ensures !old(loading) && old(hasMore) ==>
        page == old(page) + 1 &&
        (signedIn ==> query == Some(QueryFor(old(page) + 1, filter)) && loading) &&
        (!signedIn ==> query.None?)
      ensures notifications == old(notifications) && unreadCount == old(unreadCount) && isOpen == old(isOpen)
      ensures hasMore == old(hasMore) && filter == old(filter)
    {
      query := None;
      if !loading && hasMore {
        page := page + 1;
        query := StartFetch(page, signedIn);
      }
    }

    /** A filter button: the filter is set and the page goes back to 1; the
        reset fetch of page 1 follows only when the filter actually changed,
        since the effect runs on a change of filter. */
    method SelectFilter(f: string, signedIn: bool) returns (query: Option<Query>)
      modifies this
      ensures filter == f && page == 1
      ensures query.Some? <==> f != old(filter) && signedIn
      ensures query.Some? ==> query.value == QueryFor(1, f) && loading
      ensures query.None? ==> loading == old(loading)
      ensures notifications == old(notifications) && unreadCount == old(unreadCount)
      ensures hasMore == old(hasMore) && isOpen == old(isOpen)
    {
      var changed := f != filter;
      filter := f;
      page := 1;
      query := None;
      if changed {
        query := StartFetch(1, signedIn);
      }
    }

    /** The bell toggles the panel open and closed. */
    method ToggleOpen()
      modifies this
      ensures isOpen == !old(isOpen)
      ensures notifications == old(notifications) && unreadCount == old(unreadCount) && loading == old(loading)
      ensures page == old(page) && hasMore == old(hasMore) && filter == old(filter)
    {
      isOpen := !isOpen;
    }
  }

  /** Clicking the filter already selected after a second page has loaded
      sends the page back to 1 without reloading the list, so the next
      "load more" asks for page 2 again and appends it a second time. */
  method SameFilterReloadsPage(first: Answer, second: Answer) returns (shown: seq<Notification>, again: Option<Query>)
    requires first.current < first.pages && second.current < second.pages
    ensures again == Some(QueryFor(2, "all"))
    ensures shown == first.notifications + second.notifications + second.notifications
  {
    var p := new Panel();
    var q := p.StartFetch(1, true);
    p.FinishFetch(true, Some(first));
    q := p.LoadMore(true);
    assert q == Some(QueryFor(2, "all"));
    p.FinishFetch(false, Some(second));
    q := p.SelectFilter("all", true);
    again := p.LoadMore(true);
    p.FinishFetch(false, Some(second));
    shown := p.notifications;
  }

  // ---------------------------------------------------------------------
  // What the panel shows

  /** The badge on the bell: none unless something is unread, "99+" above
      99, else the count. */
  function Badge(unreadCount: int): (r: Option<string>)
    ensures r.None? <==> unreadCount <= 0
    ensures r == Some("99+") <==> unreadCount > 99
    ensures 0 < unreadCount <= 99 ==>
      r.Some? && 1 <= |r.value| <= 2 &&
      (forall i :: 0 <= i < |r.value| ==> IsDigit(r.value[i])) && DigitsValue(r.value) == unreadCount
  {
    if unreadCount <= 0 then None
    else if unreadCount > 99 then Some("99+")
    else
      NatToStringRoundTrip(unreadCount);
      assert |NatToString(unreadCount)| <= 2 by {
        if unreadCount >= 10 {
          assert NatToString(unreadCount) == NatToString(unreadCount / 10) + [DigitChar(unreadCount % 10)];
        }
      }
      Some(NatToString(unreadCount))
  }

  const IconMap: map<string, string> := map[
    "course_enrollment" := "📚", "new_lesson" := "🎯", "course_completion" := "🎉",
    "certificate_issued" := "🏆", "comment_reply" := "💬", "course_update" := "🔄",
    "lesson_completed" := "✅", "quiz_result" := "📊", "new_course_available" := "🆕",
    "instructor_message" := "👨‍🏫", "system_announcement" := "📢"]

  const DefaultIcon := "🔔"

  /** getNotificationIcon: a listed type shows its own icon, and the bell
      marks exactly the types not listed. */
  function Icon(kind: string): (r: string)
    ensures kind in IconMap ==> r == IconMap[kind]
    ensures r == DefaultIcon <==> kind !in IconMap
  {
    if kind in IconMap then IconMap[kind] else DefaultIcon
  }

  const PriorityColors: map<string, string> := map[
    "high" := "border-red-500 bg-red-50",
    "medium" := "border-yellow-500 bg-yellow-50",
    "low" := "border-blue-500 bg-blue-50"]

  const DefaultColor := "border-gray-300 bg-gray-50"

  /** getPriorityColor: the three priorities have their own colours, and
      grey marks exactly any other priority. */
  function PriorityColor(priority: string): (r: string)
    ensures priority in PriorityColors ==> r == PriorityColors[priority]
    ensures r == DefaultColor <==> priority !in PriorityColors
  {
    if priority in PriorityColors then PriorityColors[priority] else DefaultColor
  }

  /** Which parts of the panel show: "Mark all read" while the counter is
      positive; the empty message when nothing is loaded or loading; "Load
      more" when more pages remain, nothing is loading and something is
      loaded. */
  datatype View = View(markAll: bool, empty: bool, loadMore: bool, spinner: bool)

  function ViewOf(notifications: seq<Notification>, unreadCount: int, loading: bool, hasMore: bool): (v: View)
    ensures v.markAll <==> Badge(unreadCount).Some?
    ensures v.empty ==> !v.loadMore && !v.spinner
    ensures v.loadMore ==> !v.spinner && !v.empty
  {
    View(unreadCount > 0, |notifications| == 0 && !loading, hasMore && !loading && |notifications| > 0, loading)
  }
}
