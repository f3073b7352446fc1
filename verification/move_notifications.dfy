/** Preparing notifications for a move: for each supplier of the move and each
    of its kept, enabled subscriptions, a webhook notification when a callback
    URL is configured and an email notification when an address is configured
    and the move is in an emailable state. Each created notification record is
    handed to a delivery job by its id. */
module MoveNotifications {
  import opened Common

  datatype NotificationType = Webhook | Email

  /** A supplier's delivery preference. `kept` is false once soft-deleted. */
  datatype Subscription = Subscription(
    id: nat,
    kept: bool,
    enabled: bool,
    callbackUrl: Option<string>,
    emailAddress: Option<string>)

  datatype Supplier = Supplier(id: nat, subscriptions: seq<Subscription>)

  /** What the job reads of the move. `current` is the move's own judgement of
      whether its dates have not yet entirely passed. */
  datatype Move = Move(id: nat, status: string, current: bool)

  /** One notification record. `topicId` is the move it concerns. */
  datatype Notification = Notification(
    subscriptionId: nat,
    notificationType: NotificationType,
    topicId: nat,
    eventType: Option<string>)

  /** A delivery job enqueued with the id of the notification it delivers. */
  datatype Job = NotifyWebhookJob(notificationId: nat) | NotifyEmailJob(notificationId: nat)

  const StatusProposed: string := "proposed"
  const StatusRequested: string := "requested"
  const StatusBooked: string := "booked"
  const StatusInTransit: string := "in_transit"
  const StatusCompleted: string := "completed"
  const StatusCancelled: string := "cancelled"

  /** The statuses in which an email may be sent. */
  const EmailStatuses: set<string> := {StatusRequested, StatusBooked, StatusInTransit, StatusCancelled}

  /** Email only for a move that is requested, booked, in transit or cancelled, and current. */
  predicate ShouldEmail(move: Move) {
    move.status in EmailStatuses && move.current
  }

  /** The logical event type recorded on a notification, by action name. */
  function EventType(actionName: string): (r: Option<string>)
    ensures r == Some("create_move") <==> actionName == "create"
    ensures r == Some("update_move") <==> actionName == "update"
    ensures r == Some("update_move_status") <==> actionName == "update_status"
    ensures r == Some("destroy_move") <==> actionName == "destroy"
    ensures r.None? <==> actionName !in {"create", "update", "update_status", "destroy"}
  {
    if actionName == "create" then Some("create_move")
    else if actionName == "update" then Some("update_move")
    else if actionName == "update_status" then Some("update_move_status")
    else if actionName == "destroy" then Some("destroy_move")
    else None
  }

  /** Different known actions are recorded under different event types. */
  lemma EventTypeInjective(a1: string, a2: string)
    requires EventType(a1).Some? && EventType(a1) == EventType(a2)
    ensures a1 == a2
  {
  }

  function NotificationFor(sub: Subscription, t: NotificationType, move: Move, actionName: string): Notification {
    Notification(sub.id, t, move.id, EventType(actionName))
  }

  /** What one subscription yields: nothing unless kept and enabled; then the
      webhook (if a callback URL is present) followed by the email (if an
      address is present and the move should be emailed). */
  function SubscriptionNotifications(move: Move, sub: Subscription, actionName: string): seq<Notification> {
    if !sub.kept || !sub.enabled then []
    else
      (if Present(sub.callbackUrl) then [NotificationFor(sub, Webhook, move, actionName)] else []) +
      (if Present(sub.emailAddress) && ShouldEmail(move) then [NotificationFor(sub, Email, move, actionName)] else [])
  }

  /** What one supplier yields: its subscriptions in order. */
  function SupplierNotifications(move: Move, subs: seq<Subscription>, actionName: string): seq<Notification> {
    if subs == [] then []
    else SupplierNotifications(move, subs[..|subs| - 1], actionName) +
         SubscriptionNotifications(move, subs[|subs| - 1], actionName)
  }

  /** What the job creates: suppliers in order, then subscriptions in order. */
  function Dispatch(move: Move, suppliers: seq<Supplier>, actionName: string): seq<Notification> {
    if suppliers == [] then []
    else Dispatch(move, suppliers[..|suppliers| - 1], actionName) +
         SupplierNotifications(move, suppliers[|suppliers| - 1].subscriptions, actionName)
  }

  /** The job that delivers the notification stored under `id`. */
  function JobFor(n: Notification, id: nat): Job {
    if n.notificationType == Webhook then NotifyWebhookJob(id) else NotifyEmailJob(id)
  }

  // ---------------------------------------------------------------------------
  // Properties of the dispatch.

  /** Each subscription yields at most one webhook and one email, the webhook first. */
  lemma SubscriptionYield(move: Move, sub: Subscription, actionName: string)
    ensures |SubscriptionNotifications(move, sub, actionName)| <= 2
    ensures forall i, j :: 0 <= i < j < |SubscriptionNotifications(move, sub, actionName)| ==>
              SubscriptionNotifications(move, sub, actionName)[i].notificationType == Webhook &&
              SubscriptionNotifications(move, sub, actionName)[j].notificationType == Email
    ensures (exists n :: n in SubscriptionNotifications(move, sub, actionName) && n.notificationType == Webhook) <==>
              sub.kept && sub.enabled && Present(sub.callbackUrl)
    ensures (exists n :: n in SubscriptionNotifications(move, sub, actionName) && n.notificationType == Email) <==>
              sub.kept && sub.enabled && Present(sub.emailAddress) && ShouldEmail(move)
  {
    var ns := SubscriptionNotifications(move, sub, actionName);
    if sub.kept && sub.enabled && Present(sub.callbackUrl) {
      assert ns[0] == NotificationFor(sub, Webhook, move, actionName);
    }
    if sub.kept && sub.enabled && Present(sub.emailAddress) && ShouldEmail(move) {
      assert ns[|ns| - 1] == NotificationFor(sub, Email, move, actionName);
    }
  }

  /** `n` is one of the notifications that subscription `j` of supplier `i` yields. */
  predicate YieldedBy(move: Move, suppliers: seq<Supplier>, actionName: string, i: int, j: int, n: Notification) {
    0 <= i < |suppliers| && 0 <= j < |suppliers[i].subscriptions| &&
    n in SubscriptionNotifications(move, suppliers[i].subscriptions[j], actionName)
  }

  /** Where a notification of the dispatch comes from, in both directions: it
      is one that some supplier's subscription yields. */
  lemma DispatchMembership(move: Move, suppliers: seq<Supplier>, actionName: string, n: Notification)
    ensures n in Dispatch(move, suppliers, actionName) <==>
              exists i, j :: YieldedBy(move, suppliers, actionName, i, j, n)
  {
    if n in Dispatch(move, suppliers, actionName) {
      var i, j := DispatchSource(move, suppliers, actionName, n);
    }
    if exists i, j :: YieldedBy(move, suppliers, actionName, i, j, n) {
      var i, j :| YieldedBy(move, suppliers, actionName, i, j, n);
      DispatchIncludes(move, suppliers, actionName, i, j, n);
    }
  }

  /** The supplier and subscription a notification of the dispatch comes from. */
  lemma {:induction false} DispatchSource(move: Move, suppliers: seq<Supplier>, actionName: string, n: Notification)
    returns (i: int, j: int)
    requires n in Dispatch(move, suppliers, actionName)
    ensures YieldedBy(move, suppliers, actionName, i, j, n)
  {
    var init, last := suppliers[..|suppliers| - 1], suppliers[|suppliers| - 1];
    assert Dispatch(move, suppliers, actionName) ==
           Dispatch(move, init, actionName) + SupplierNotifications(move, last.subscriptions, actionName);
    if n in Dispatch(move, init, actionName) {
      i, j := DispatchSource(move, init, actionName, n);
      assert suppliers[i] == init[i];
    } else {
      SupplierMembership(move, last.subscriptions, actionName, n);
      i := |suppliers| - 1;
      j :| YieldedBySubscription(move, last.subscriptions, actionName, j, n);
    }
  }

  /** Whatever a subscription of a supplier yields is in the dispatch. */
  lemma {:induction false} DispatchIncludes(move: Move, suppliers: seq<Supplier>, actionName: string, i: int, j: int, n: Notification)
    requires YieldedBy(move, suppliers, actionName, i, j, n)
    ensures n in Dispatch(move, suppliers, actionName)
  {
    var init, last := suppliers[..|suppliers| - 1], suppliers[|suppliers| - 1];
    assert Dispatch(move, suppliers, actionName) ==
           Dispatch(move, init, actionName) + SupplierNotifications(move, last.subscriptions, actionName);
    if i < |init| {
      assert suppliers[i] == init[i];
      DispatchIncludes(move, init, actionName, i, j, n);
    } else {
      SupplierMembership(move, last.subscriptions, actionName, n);
      assert YieldedBySubscription(move, last.subscriptions, actionName, j, n);
    }
  }

  /** `n` is one of the notifications that subscription `j` of `subs` yields. */
  predicate YieldedBySubscription(move: Move, subs: seq<Subscription>, actionName: string, j: int, n: Notification) {
    0 <= j < |subs| && n in SubscriptionNotifications(move, subs[j], actionName)
  }

  lemma {:induction false} SupplierMembership(move: Move, subs: seq<Subscription>, actionName: string, n: Notification)
    ensures n in SupplierNotifications(move, subs, actionName) <==>
              exists j :: YieldedBySubscription(move, subs, actionName, j, n)
  {
    if subs != [] {
      var init, last := subs[..|subs| - 1], subs[|subs| - 1];
      SupplierMembership(move, init, actionName, n);
      assert SupplierNotifications(move, subs, actionName) ==
             SupplierNotifications(move, init, actionName) + SubscriptionNotifications(move, last, actionName);
      if n in SupplierNotifications(move, init, actionName) {
        var j :| YieldedBySubscription(move, init, actionName, j, n);
        assert subs[j] == init[j];
        assert YieldedBySubscription(move, subs, actionName, j, n);
      } else if n in SubscriptionNotifications(move, last, actionName) {
        assert YieldedBySubscription(move, subs, actionName, |subs| - 1, n);
      }
      if exists j :: YieldedBySubscription(move, subs, actionName, j, n) {
        var j :| YieldedBySubscription(move, subs, actionName, j, n);
        if j < |init| {
          assert init[j] == subs[j];
          assert YieldedBySubscription(move, init, actionName, j, n);
        }
      }
    }
  }

  /** Every notification concerns the move, carries the action's event type and
      belongs to a kept, enabled subscription; an email is only ever created for
      a move that should be emailed. */
  lemma DispatchShape(move: Move, suppliers: seq<Supplier>, actionName: string)
    ensures forall n :: n in Dispatch(move, suppliers, actionName) ==>
              n.topicId == move.id && n.eventType == EventType(actionName)
    ensures forall n :: n in Dispatch(move, suppliers, actionName) && n.notificationType == Email ==>
              ShouldEmail(move)
    ensures forall n :: n in Dispatch(move, suppliers, actionName) ==>
              exists i, j :: 0 <= i < |suppliers| && 0 <= j < |suppliers[i].subscriptions| &&
                suppliers[i].subscriptions[j].id == n.subscriptionId &&
                suppliers[i].subscriptions[j].kept && suppliers[i].subscriptions[j].enabled
  {
    forall n | n in Dispatch(move, suppliers, actionName)
      ensures n.topicId == move.id && n.eventType == EventType(actionName)
      ensures n.notificationType == Email ==> ShouldEmail(move)
      ensures exists i, j :: 0 <= i < |suppliers| && 0 <= j < |suppliers[i].subscriptions| &&
                suppliers[i].subscriptions[j].id == n.subscriptionId &&
                suppliers[i].subscriptions[j].kept && suppliers[i].subscriptions[j].enabled
    {
      DispatchMembership(move, suppliers, actionName, n);
      var i, j :| 0 <= i < |suppliers| && 0 <= j < |suppliers[i].subscriptions| &&
                  n in SubscriptionNotifications(move, suppliers[i].subscriptions[j], actionName);
    }
  }

  /** A proposed or completed move never yields an email. */
  lemma NoEmailWhenProposedOrCompleted(move: Move, suppliers: seq<Supplier>, actionName: string)
    requires move.status == StatusProposed || move.status == StatusCompleted
    ensures forall n :: n in Dispatch(move, suppliers, actionName) ==> n.notificationType == Webhook
  {
    DispatchShape(move, suppliers, actionName);
  }

  /** A kept, enabled subscription with a callback URL is notified by webhook
      whatever the move's status or date. */
  lemma WebhookAlwaysSent(move: Move, suppliers: seq<Supplier>, actionName: string, i: nat, j: nat)
    requires i < |suppliers| && j < |suppliers[i].subscriptions|
    requires suppliers[i].subscriptions[j].kept && suppliers[i].subscriptions[j].enabled
    requires Present(suppliers[i].subscriptions[j].callbackUrl)
    ensures NotificationFor(suppliers[i].subscriptions[j], Webhook, move, actionName) in Dispatch(move, suppliers, actionName)
  {
    var sub := suppliers[i].subscriptions[j];
    assert SubscriptionNotifications(move, sub, actionName)[0] == NotificationFor(sub, Webhook, move, actionName);
    assert YieldedBy(move, suppliers, actionName, i, j, NotificationFor(sub, Webhook, move, actionName));
    DispatchMembership(move, suppliers, actionName, NotificationFor(sub, Webhook, move, actionName));
  }

  /** An email is created for a subscription iff it is kept and enabled, has an
      address, and the move is in an emailable status and current. */
  lemma EmailSentIff(move: Move, suppliers: seq<Supplier>, actionName: string, i: nat, j: nat)
    requires i < |suppliers| && j < |suppliers[i].subscriptions|
    requires forall i', j' :: (0 <= i' < |suppliers| && 0 <= j' < |suppliers[i'].subscriptions| &&
               suppliers[i'].subscriptions[j'].id == suppliers[i].subscriptions[j].id) ==>
               i' == i && j' == j
    ensures NotificationFor(suppliers[i].subscriptions[j], Email, move, actionName) in Dispatch(move, suppliers, actionName) <==>
              suppliers[i].subscriptions[j].kept && suppliers[i].subscriptions[j].enabled &&
              Present(suppliers[i].subscriptions[j].emailAddress) &&
              move.status in EmailStatuses && move.current
  {
    var sub := suppliers[i].subscriptions[j];
    var n := NotificationFor(sub, Email, move, actionName);
    DispatchMembership(move, suppliers, actionName, n);
    SubscriptionYield(move, sub, actionName);
    assert sub.kept && sub.enabled && Present(sub.emailAddress) && ShouldEmail(move) ==>
           YieldedBy(move, suppliers, actionName, i, j, n);
    if n in Dispatch(move, suppliers, actionName) {
      var i', j' :| YieldedBy(move, suppliers, actionName, i', j', n);
      assert suppliers[i'].subscriptions[j'].id == sub.id;
    }
  }

  /** How many notifications of type `t` for subscription `id` a list holds. */
  function Count(ns: seq<Notification>, id: nat, t: NotificationType): nat {
    if ns == [] then 0
    else Count(ns[..|ns| - 1], id, t) +
         (if ns[|ns| - 1].subscriptionId == id && ns[|ns| - 1].notificationType == t then 1 else 0)
  }

  lemma {:induction false} CountAppend(a: seq<Notification>, b: seq<Notification>, id: nat, t: NotificationType)
    ensures Count(a + b, id, t) == Count(a, id, t) + Count(b, id, t)
    decreases |b|
  {
    if b == [] {
      assert a + b == a;
    } else {
      var ab := a + b;
      CountAppend(a, b[..|b| - 1], id, t);
      assert ab[..|ab| - 1] == a + b[..|b| - 1];
      assert ab[|ab| - 1] == b[|b| - 1];
    }
  }

  /** Whether a subscription is owed a notification of type `t` for the move. */
  predicate Owed(move: Move, sub: Subscription, t: NotificationType) {
    sub.kept && sub.enabled &&
    (if t == Webhook then Present(sub.callbackUrl) else Present(sub.emailAddress) && ShouldEmail(move))
  }

  /** One subscription yields one notification of each type it is owed, and
      none for any other subscription. */
  lemma SubscriptionCount(move: Move, sub: Subscription, actionName: string, id: nat, t: NotificationType)
    ensures Count(SubscriptionNotifications(move, sub, actionName), id, t) ==
              if sub.id == id && Owed(move, sub, t) then 1 else 0
  {
    if sub.kept && sub.enabled {
      var w := if Present(sub.callbackUrl) then [NotificationFor(sub, Webhook, move, actionName)] else [];
      var m := if Present(sub.emailAddress) && ShouldEmail(move) then [NotificationFor(sub, Email, move, actionName)] else [];
      CountAppend(w, m, id, t);
      assert w != [] ==> w[..0] == [];
      assert m != [] ==> m[..0] == [];
    }
  }

  /** A supplier none of whose subscriptions has the id yields nothing for it. */
  lemma {:induction false} SupplierCountAbsent(move: Move, subs: seq<Subscription>, actionName: string, id: nat, t: NotificationType)
    requires forall j :: 0 <= j < |subs| ==> subs[j].id != id
    ensures Count(SupplierNotifications(move, subs, actionName), id, t) == 0
  {
    if subs != [] {
      var init, last := subs[..|subs| - 1], subs[|subs| - 1];
      SupplierCountAbsent(move, init, actionName, id, t);
      SubscriptionCount(move, last, actionName, id, t);
      CountAppend(SupplierNotifications(move, init, actionName), SubscriptionNotifications(move, last, actionName), id, t);
    }
  }

  /** A supplier whose subscription `j` alone carries its id yields exactly
      what that subscription is owed. */
  lemma {:induction false} SupplierCountUnique(move: Move, subs: seq<Subscription>, actionName: string, j: nat, t: NotificationType)
    requires j < |subs|
    requires forall j' :: 0 <= j' < |subs| && subs[j'].id == subs[j].id ==> j' == j
    ensures Count(SupplierNotifications(move, subs, actionName), subs[j].id, t) == if Owed(move, subs[j], t) then 1 else 0
  {
    var id, init, last := subs[j].id, subs[..|subs| - 1], subs[|subs| - 1];
    if j == |subs| - 1 {
      SupplierCountAbsent(move, init, actionName, id, t);
    } else {
      assert init[j] == subs[j];
      SupplierCountUnique(move, init, actionName, j, t);
    }
    SubscriptionCount(move, last, actionName, id, t);
    CountAppend(SupplierNotifications(move, init, actionName), SubscriptionNotifications(move, last, actionName), id, t);
  }

  /** A dispatch in which no subscription has the id yields nothing for it. */
  lemma {:induction false} DispatchCountAbsent(move: Move, suppliers: seq<Supplier>, actionName: string, id: nat, t: NotificationType)
    requires forall i, j :: 0 <= i < |suppliers| && 0 <= j < |suppliers[i].subscriptions| ==>
               suppliers[i].subscriptions[j].id != id
    ensures Count(Dispatch(move, suppliers, actionName), id, t) == 0
  {
    if suppliers != [] {
      var init, last := suppliers[..|suppliers| - 1], suppliers[|suppliers| - 1];
      DispatchCountAbsent(move, init, actionName, id, t);
      SupplierCountAbsent(move, last.subscriptions, actionName, id, t);
      CountAppend(Dispatch(move, init, actionName), SupplierNotifications(move, last.subscriptions, actionName), id, t);
    }
  }

  /** A dispatch in which subscription `j` of supplier `i` alone carries its id
      yields exactly what that subscription is owed. */
  lemma {:induction false} DispatchCountUnique(move: Move, suppliers: seq<Supplier>, actionName: string, i: nat, j: nat, t: NotificationType)
    requires i < |suppliers| && j < |suppliers[i].subscriptions|
    requires forall i', j' :: (0 <= i' < |suppliers| && 0 <= j' < |suppliers[i'].subscriptions| &&
               suppliers[i'].subscriptions[j'].id == suppliers[i].subscriptions[j].id) ==>
               i' == i && j' == j
    ensures Count(Dispatch(move, suppliers, actionName), suppliers[i].subscriptions[j].id, t) ==
              if Owed(move, suppliers[i].subscriptions[j], t) then 1 else 0
  {
    var id, init, last := suppliers[i].subscriptions[j].id, suppliers[..|suppliers| - 1], suppliers[|suppliers| - 1];
    if i == |suppliers| - 1 {
      assert forall i', j' :: 0 <= i' < |init| && 0 <= j' < |init[i'].subscriptions| ==>
               init[i'].subscriptions[j'] == suppliers[i'].subscriptions[j'];
      DispatchCountAbsent(move, init, actionName, id, t);
      SupplierCountUnique(move, last.subscriptions, actionName, j, t);
    } else {
      assert init[i] == suppliers[i];
      assert forall i', j' :: 0 <= i' < |init| && 0 <= j' < |init[i'].subscriptions| ==>
               init[i'].subscriptions[j'] == suppliers[i'].subscriptions[j'];
      DispatchCountUnique(move, init, actionName, i, j, t);
      assert forall j' :: 0 <= j' < |last.subscriptions| ==> last.subscriptions[j'] == suppliers[|suppliers| - 1].subscriptions[j'];
      SupplierCountAbsent(move, last.subscriptions, actionName, id, t);
    }
    CountAppend(Dispatch(move, init, actionName), SupplierNotifications(move, last.subscriptions, actionName), id, t);
  }

  /** Per call, a subscription whose id is unique among the move's suppliers
      gets exactly one webhook when it is kept, enabled and has a callback
      URL, and none otherwise; and exactly one email when it is kept, enabled,
      has an address and the move is emailable and current, and none otherwise. */
  lemma NotificationsPerSubscription(move: Move, suppliers: seq<Supplier>, actionName: string, i: nat, j: nat)
    requires i < |suppliers| && j < |suppliers[i].subscriptions|
    requires forall i', j' :: (0 <= i' < |suppliers| && 0 <= j' < |suppliers[i'].subscriptions| &&
               suppliers[i'].subscriptions[j'].id == suppliers[i].subscriptions[j].id) ==>
               i' == i && j' == j
    ensures Count(Dispatch(move, suppliers, actionName), suppliers[i].subscriptions[j].id, Webhook) ==
              if suppliers[i].subscriptions[j].kept && suppliers[i].subscriptions[j].enabled &&
                 Present(suppliers[i].subscriptions[j].callbackUrl) then 1 else 0
    ensures Count(Dispatch(move, suppliers, actionName), suppliers[i].subscriptions[j].id, Email) ==
              if suppliers[i].subscriptions[j].kept && suppliers[i].subscriptions[j].enabled &&
                 Present(suppliers[i].subscriptions[j].emailAddress) &&
                 move.status in EmailStatuses && move.current then 1 else 0
  {
    DispatchCountUnique(move, suppliers, actionName, i, j, Webhook);
    DispatchCountUnique(move, suppliers, actionName, i, j, Email);
  }

  /** Dispatch over suppliers joined end to end is the two dispatches joined:
      notifications follow supplier order. */
  lemma {:induction false} DispatchAppend(move: Move, s1: seq<Supplier>, s2: seq<Supplier>, actionName: string)
    ensures Dispatch(move, s1 + s2, actionName) == Dispatch(move, s1, actionName) + Dispatch(move, s2, actionName)
    decreases |s2|
  {
    if s2 == [] {
      assert s1 + s2 == s1;
    } else {
      var init, whole := s2[..|s2| - 1], s1 + s2;
      DispatchAppend(move, s1, init, actionName);
      assert whole[..|whole| - 1] == s1 + init;
      var tail := SupplierNotifications(move, s2[|s2| - 1].subscriptions, actionName);
      DispatchLast(move, whole, s1 + init, tail, actionName);
      DispatchLast(move, s2, init, tail, actionName);
      AppendAssociative(Dispatch(move, s1, actionName), Dispatch(move, init, actionName), tail);
    }
  }

  /** Dispatch over a non-empty list, stated with the parts named. */
  lemma DispatchLast(move: Move, suppliers: seq<Supplier>, init: seq<Supplier>, tail: seq<Notification>, actionName: string)
    requires suppliers != [] && init == suppliers[..|suppliers| - 1]
    requires tail == SupplierNotifications(move, suppliers[|suppliers| - 1].subscriptions, actionName)
    ensures Dispatch(move, suppliers, actionName) == Dispatch(move, init, actionName) + tail
  {
  }

  lemma AppendAssociative(a: seq<Notification>, b: seq<Notification>, c: seq<Notification>)
    ensures (a + b) + c == a + (b + c)
  {
  }

  /** Subscriptions that are not kept, or not enabled, produce nothing. */
  lemma {:induction false} InactiveSubscriptionsSilent(move: Move, subs: seq<Subscription>, actionName: string)
    requires forall j :: 0 <= j < |subs| ==> !subs[j].kept || !subs[j].enabled
    ensures SupplierNotifications(move, subs, actionName) == []
  {
    if subs != [] {
      InactiveSubscriptionsSilent(move, subs[..|subs| - 1], actionName);
    }
  }

  // ---------------------------------------------------------------------------
  // The job itself.

  /** The notification table: records are appended and identified by position. */
  class NotificationTable {
    var rows: seq<Notification>

    constructor ()
      ensures rows == []
    {
      rows := [];
    }

    method Create(n: Notification) returns (id: nat)
      modifies this
      ensures rows == old(rows) + [n]
      ensures id == |old(rows)| && rows[id] == n
    {
      id := |rows|;
      rows := rows + [n];
    }
  }

  /** The delivery jobs for notifications stored from position `first` on, in order. */
  function Jobs(ns: seq<Notification>, first: nat): (r: seq<Job>)
    ensures |r| == |ns|
    ensures forall k :: 0 <= k < |ns| ==> r[k] == JobFor(ns[k], first + k)
  {
    seq(|ns|, k requires 0 <= k < |ns| => JobFor(ns[k], first + k))
  }

  lemma JobsAppend(a: seq<Notification>, b: seq<Notification>, first: nat)
    ensures Jobs(a + b, first) == Jobs(a, first) + Jobs(b, first + |a|)
  {
  }

  /** Notifications of one subscription: the webhook record and its job when a
      callback URL is present, then the email record and its job when an address
      is present and the move should be emailed. */
  method NotifySubscription(table: NotificationTable, move: Move, sub: Subscription, actionName: string)
    returns (jobs: seq<Job>)
    modifies table
    ensures table.rows == old(table.rows) + SubscriptionNotifications(move, sub, actionName)
    ensures jobs == Jobs(SubscriptionNotifications(move, sub, actionName), |old(table.rows)|)
  {
    jobs := [];
    if sub.kept && sub.enabled {
      if Present(sub.callbackUrl) {
        var id := table.Create(NotificationFor(sub, Webhook, move, actionName));
        jobs := jobs + [NotifyWebhookJob(id)];
      }
      if Present(sub.emailAddress) && ShouldEmail(move) {
        var id := table.Create(NotificationFor(sub, Email, move, actionName));
        jobs := jobs + [NotifyEmailJob(id)];
      }
    }
  }

  lemma SupplierNotificationsStep(move: Move, subs: seq<Subscription>, j: nat, actionName: string)
    requires j < |subs|
    ensures SupplierNotifications(move, subs[..j + 1], actionName) ==
            SupplierNotifications(move, subs[..j], actionName) + SubscriptionNotifications(move, subs[j], actionName)
  {
    assert subs[..j + 1][..j] == subs[..j];
  }

  lemma DispatchStep(move: Move, suppliers: seq<Supplier>, i: nat, actionName: string)
    requires i < |suppliers|
    ensures Dispatch(move, suppliers[..i + 1], actionName) ==
            Dispatch(move, suppliers[..i], actionName) + SupplierNotifications(move, suppliers[i].subscriptions, actionName)
  {
    assert suppliers[..i + 1][..i] == suppliers[..i];
  }

  /** One more group of records and jobs, appended after those already made. */
  lemma RecordStep(before: seq<Notification>, done: seq<Notification>, next: seq<Notification>,
                   whole: seq<Notification>, jobs: seq<Job>, more: seq<Job>)
    requires whole == done + next
    requires jobs == Jobs(done, |before|) && more == Jobs(next, |before + done|)
    ensures (before + done) + next == before + whole
    ensures jobs + more == Jobs(whole, |before|)
  {
    JobsAppend(done, next, |before|);
  }

  /** Notifications of one supplier: its kept subscriptions in order. */
  method NotifySupplier(table: NotificationTable, move: Move, subs: seq<Subscription>, actionName: string)
    returns (jobs: seq<Job>)
    modifies table
    ensures table.rows == old(table.rows) + SupplierNotifications(move, subs, actionName)
    ensures jobs == Jobs(SupplierNotifications(move, subs, actionName), |old(table.rows)|)
  {
    ghost var before := table.rows;
    jobs := [];
    var j := 0;
    while j < |subs|
      invariant 0 <= j <= |subs|
      invariant table.rows == before + SupplierNotifications(move, subs[..j], actionName)
      invariant jobs == Jobs(SupplierNotifications(move, subs[..j], actionName), |before|)
    {
      ghost var done := SupplierNotifications(move, subs[..j], actionName);
      ghost var next := SubscriptionNotifications(move, subs[j], actionName);
      var more := NotifySubscription(table, move, subs[j], actionName);
      SupplierNotificationsStep(move, subs, j, actionName);
      RecordStep(before, done, next, SupplierNotifications(move, subs[..j + 1], actionName), jobs, more);
      jobs := jobs + more;
      j := j + 1;
    }
    assert subs[..j] == subs;
  }

  /** The job: walks the suppliers and their kept subscriptions, skipping the
      disabled ones, creating the notifications the rules call for and
      enqueuing one delivery job per notification, with the new record's id,
      in creation order. */
  method Perform(table: NotificationTable, move: Move, suppliers: seq<Supplier>, actionName: string)
    returns (jobs: seq<Job>)
    modifies table
    ensures table.rows == old(table.rows) + Dispatch(move, suppliers, actionName)
    ensures jobs == Jobs(Dispatch(move, suppliers, actionName), |old(table.rows)|)
  {
    ghost var before := table.rows;
    jobs := [];
    var i := 0;
    while i < |suppliers|
      invariant 0 <= i <= |suppliers|
      invariant table.rows == before + Dispatch(move, suppliers[..i], actionName)
      invariant jobs == Jobs(Dispatch(move, suppliers[..i], actionName), |before|)
    {
      ghost var done := Dispatch(move, suppliers[..i], actionName);
      ghost var next := SupplierNotifications(move, suppliers[i].subscriptions, actionName);
      var more := NotifySupplier(table, move, suppliers[i].subscriptions, actionName);
      DispatchStep(move, suppliers, i, actionName);
      RecordStep(before, done, next, Dispatch(move, suppliers[..i + 1], actionName), jobs, more);
      jobs := jobs + more;
      i := i + 1;
    }
    assert suppliers[..i] == suppliers;
  }
}
