/** The generic event record: one row of the polymorphic event log, the
    order in which an eventable's events are applied, the feed projection,
    the subtype naming used when converting a legacy event, the per-variant
    schema (declared `details` keys, allowed eventable kinds, extra rules)
    and the validations every event is checked against. */
module GenericEvents {
  import opened Common
  import IsoDateTime

  /** A value held under a key of an event's `details`. */
  datatype Value = Null | Bool(b: bool) | Int(i: int) | Str(s: string) | List(items: seq<Value>)

  type Details = map<string, Value>

  /** An eventable: the kind and id of a move, journey or person. */
  datatype EventableRef = EventableRef(kind: string, id: nat)

  /** The attributes of one event row. `eventType` is the single-table-inheritance
      class name, for example `GenericEvent::MoveApprove`; times are instants.
      `eventableType` and `eventableId` are the columns of the polymorphic
      `eventable` association, and `eventableFound` says whether the row they
      name exists, that is, whether the association loads. */
  datatype Event = Event(
    id: Option<nat>,
    eventType: string,
    eventableType: Option<string>,
    eventableId: Option<nat>,
    eventableFound: bool,
    notes: Option<string>,
    createdBy: Option<string>,
    createdAt: Option<int>,
    updatedAt: Option<int>,
    occurredAt: Option<int>,
    recordedAt: Option<int>,
    details: Details,
    supplierId: Option<nat>)

  // ---------------------------------------------------------------------------
  // Applied order: ascending occurred_at.

  /** `a` may come before `b` when ordering by ascending `occurred_at`; as in an
      ascending database sort, an event without `occurred_at` sorts last. */
  predicate Precedes(a: Event, b: Event) {
    match (a.occurredAt, b.occurredAt)
    case (Some(x), Some(y)) => x <= y
    case (Some(_), None) => true
    case (None, Some(_)) => false
    case (None, None) => true
  }

  predicate Sorted(s: seq<Event>) {
    forall i, j :: 0 <= i < j < |s| ==> Precedes(s[i], s[j])
  }

  lemma PrecedesTotal(a: Event, b: Event)
    ensures Precedes(a, b) || Precedes(b, a)
    ensures Precedes(a, b) && Precedes(b, a) <==> a.occurredAt == b.occurredAt
  {
  }

  lemma PrecedesTransitive(a: Event, b: Event, c: Event)
    requires Precedes(a, b) && Precedes(b, c)
    ensures Precedes(a, c)
  {
  }

  /** Places `x` before the first event it may precede; ties keep `x` first. */
  function Insert(x: Event, s: seq<Event>): seq<Event> {
    if s == [] then [x]
    else if Precedes(x, s[0]) then [x] + s
    else [s[0]] + Insert(x, s[1..])
  }

  lemma SortedTail(a: seq<Event>)
    requires |a| > 0 && Sorted(a)
    ensures Sorted(a[1..])
  {
    forall i, j | 0 <= i < j < |a[1..]| ensures Precedes(a[1..][i], a[1..][j]) {
      assert a[1..][i] == a[i + 1] && a[1..][j] == a[j + 1];
    }
  }

  /** A sorted sequence stays sorted when its head is first. */
  lemma SortedCons(x: Event, s: seq<Event>)
    requires Sorted(s)
    requires forall y :: y in s ==> Precedes(x, y)
    ensures Sorted([x] + s)
  {
    forall i, j | 0 <= i < j < |[x] + s| ensures Precedes(([x] + s)[i], ([x] + s)[j]) {
      assert ([x] + s)[j] == s[j - 1];
      if i > 0 {
        assert ([x] + s)[i] == s[i - 1];
      }
    }
  }

  lemma InsertMultiset(x: Event, s: seq<Event>)
    ensures multiset(Insert(x, s)) == multiset(s) + multiset{x}
  {
    if s != [] && !Precedes(x, s[0]) {
      InsertMultiset(x, s[1..]);
      assert s == [s[0]] + s[1..];
    }
  }

  /** Inserting into a sorted sequence keeps it sorted. */
  lemma {:induction false} InsertSorted(x: Event, s: seq<Event>)
    requires Sorted(s)
    ensures Sorted(Insert(x, s))
  {
    if s == [] {
    } else if Precedes(x, s[0]) {
      forall y | y in s ensures Precedes(x, y) {
        var k :| 0 <= k < |s| && s[k] == y;
        if k > 0 {
          PrecedesTransitive(x, s[0], y);
        }
      }
      SortedCons(x, s);
    } else {
      var rest := Insert(x, s[1..]);
      SortedTail(s);
      InsertSorted(x, s[1..]);
      InsertMultiset(x, s[1..]);
      forall y | y in rest ensures Precedes(s[0], y) {
        assert y in multiset(rest);
        if y == x {
          PrecedesTotal(x, s[0]);
        } else {
          assert y in multiset(s[1..]);
          var k :| 0 <= k < |s[1..]| && s[1..][k] == y;
          assert s[k + 1] == y;
        }
      }
      SortedCons(s[0], rest);
    }
  }

  /** The order in which events are applied: sorted by ascending `occurred_at`,
      events with the same time kept in the order the store yields them. */
  function AppliedOrder(events: seq<Event>): seq<Event> {
    if events == [] then []
    else Insert(events[0], AppliedOrder(events[1..]))
  }

  /** The applied order is a sorted permutation of the events. */
  lemma {:induction false} AppliedOrderSortedPermutation(events: seq<Event>)
    ensures Sorted(AppliedOrder(events))
    ensures multiset(AppliedOrder(events)) == multiset(events)
    ensures |AppliedOrder(events)| == |events|
  {
    if events != [] {
      AppliedOrderSortedPermutation(events[1..]);
      InsertSorted(events[0], AppliedOrder(events[1..]));
      InsertMultiset(events[0], AppliedOrder(events[1..]));
      assert events == [events[0]] + events[1..];
      assert |multiset(AppliedOrder(events))| == |multiset(events)|;
    }
  }

  /** The event's association columns name `owner`. */
  predicate BelongsTo(e: Event, owner: EventableRef) {
    e.eventableType == Some(owner.kind) && e.eventableId == Some(owner.id)
  }

  /** The `eventable` association loads: both columns are set and name an existing row. */
  predicate EventableLoads(e: Event) {
    e.eventableType.Some? && e.eventableId.Some? && e.eventableFound
  }

  /** The events of the log that belong to the given eventable, in log order. */
  function EventsOf(log: seq<Event>, owner: EventableRef): (r: seq<Event>)
    ensures forall e :: e in r <==> e in log && BelongsTo(e, owner)
  {
    if log == [] then []
    else (if BelongsTo(log[0], owner) then [log[0]] else []) + EventsOf(log[1..], owner)
  }

  /** An eventable's events in applied order: exactly its events, each as often
      as it is logged, in non-decreasing `occurred_at`. */
  lemma AppliedOrderOfEventable(log: seq<Event>, owner: EventableRef)
    ensures Sorted(AppliedOrder(EventsOf(log, owner)))
    ensures multiset(AppliedOrder(EventsOf(log, owner))) == multiset(EventsOf(log, owner))
    ensures forall e :: e in AppliedOrder(EventsOf(log, owner)) <==> e in log && BelongsTo(e, owner)
  {
    var mine := EventsOf(log, owner);
    var r := AppliedOrder(mine);
    AppliedOrderSortedPermutation(mine);
    forall e ensures e in r <==> e in mine {
      assert e in r <==> e in multiset(r);
      assert e in mine <==> e in multiset(mine);
    }
  }

  /** Events that are already in applied order are left exactly as they are. */
  lemma {:induction false} AppliedOrderOfSorted(s: seq<Event>)
    requires Sorted(s)
    ensures AppliedOrder(s) == s
  {
    if s != [] {
      SortedTail(s);
      AppliedOrderOfSorted(s[1..]);
      if |s| > 1 {
        assert Precedes(s[0], s[1..][0]);
      }
      assert s == [s[0]] + s[1..];
    }
  }

  /** Applying the order twice changes nothing. */
  lemma AppliedOrderIdempotent(s: seq<Event>)
    ensures AppliedOrder(AppliedOrder(s)) == AppliedOrder(s)
  {
    AppliedOrderSortedPermutation(s);
    AppliedOrderOfSorted(AppliedOrder(s));
  }

  /** No two events at different positions share an `occurred_at`. */
  predicate DistinctTimes(s: seq<Event>) {
    forall i, j :: 0 <= i < j < |s| ==> s[i].occurredAt != s[j].occurredAt
  }

  /** Sorted arrangements of the same events, one with distinct times, start alike. */
  lemma SortedPermutationHead(a: seq<Event>, b: seq<Event>)
    requires Sorted(a) && Sorted(b) && |a| > 0 && |b| > 0
    requires multiset(a) == multiset(b)
    requires DistinctTimes(a)
    ensures a[0] == b[0]
  {
    assert a[0] in multiset(b);
    assert b[0] in multiset(a);
    var i :| 0 <= i < |b| && b[i] == a[0];
    var j :| 0 <= j < |a| && a[j] == b[0];
    assert Precedes(b[0], a[0]) by {
      if i > 0 { assert Precedes(b[0], b[i]); }
    }
    assert Precedes(a[0], b[0]) by {
      if j > 0 { assert Precedes(a[0], a[j]); }
    }
    PrecedesTotal(a[0], b[0]);
    assert a[0].occurredAt == a[j].occurredAt;
    assert j == 0;
  }

  /** What remains after the common head meets the same conditions. */
  lemma SortedPermutationTails(a: seq<Event>, b: seq<Event>)
    requires Sorted(a) && Sorted(b) && |a| > 0 && |b| > 0
    requires multiset(a) == multiset(b)
    requires DistinctTimes(a)
    ensures a[0] == b[0]
    ensures Sorted(a[1..]) && Sorted(b[1..]) && multiset(a[1..]) == multiset(b[1..]) && DistinctTimes(a[1..])
  {
    SortedPermutationHead(a, b);
    SortedTail(a);
    SortedTail(b);
    assert a == [a[0]] + a[1..];
    assert b == [b[0]] + b[1..];
    assert multiset(a) == multiset{a[0]} + multiset(a[1..]);
    assert multiset(b) == multiset{b[0]} + multiset(b[1..]);
    assert multiset(a[1..]) == multiset(a) - multiset{a[0]};
    assert multiset(b[1..]) == multiset(b) - multiset{b[0]};
    forall i, j | 0 <= i < j < |a[1..]| ensures a[1..][i].occurredAt != a[1..][j].occurredAt {
      assert a[1..][i] == a[i + 1] && a[1..][j] == a[j + 1];
    }
  }

  lemma EmptyPermutation(a: seq<Event>, b: seq<Event>)
    requires multiset(a) == multiset(b) && (a == [] || b == [])
    ensures a == b
  {
    assert |a| == |multiset(a)| && |b| == |multiset(b)|;
  }

  /** Two sorted sequences holding the same events with distinct times are equal. */
  lemma {:induction false} SortedPermutationUnique(a: seq<Event>, b: seq<Event>)
    requires Sorted(a) && Sorted(b)
    requires multiset(a) == multiset(b)
    requires DistinctTimes(a)
    ensures a == b
  {
    if a == [] || b == [] {
      EmptyPermutation(a, b);
    } else {
      SortedPermutationTails(a, b);
      SortedPermutationUnique(a[1..], b[1..]);
      assert a == [a[0]] + a[1..];
      assert b == [b[0]] + b[1..];
    }
  }

  /** Two arrangements of the same events with distinct times have the same
      applied order, which has distinct times too. */
  lemma DistinctTimesPermutation(a: seq<Event>, b: seq<Event>)
    requires multiset(a) == multiset(b) && DistinctTimes(a)
    ensures DistinctTimes(b)
  {
    forall i, j | 0 <= i < j < |b| ensures b[i].occurredAt != b[j].occurredAt {
      DistinctTimesPair(a, b, i, j);
    }
  }

  lemma DistinctTimesPair(a: seq<Event>, b: seq<Event>, i: nat, j: nat)
    requires multiset(a) == multiset(b) && DistinctTimes(a)
    requires i < j < |b|
    ensures b[i].occurredAt != b[j].occurredAt
  {
    if b[i] == b[j] {
      // The same event twice in b means it occurs twice in a, at two positions.
      var x := b[i];
      assert multiset(b[..i + 1]) <= multiset(b[..j]) by {
        assert b[..j] == b[..i + 1] + b[i + 1..j];
      }
      MultisetTwice(b, i, j);
      MultiplicityTwice(a, x);
    } else {
      assert b[i] in multiset(a) && b[j] in multiset(a);
      var p :| 0 <= p < |a| && a[p] == b[i];
      var q :| 0 <= q < |a| && a[q] == b[j];
      assert p != q;
      if p < q {
        assert a[p].occurredAt != a[q].occurredAt;
      } else {
        assert a[q].occurredAt != a[p].occurredAt;
      }
    }
  }

  lemma MultisetTwice(s: seq<Event>, i: nat, j: nat)
    requires i < j < |s| && s[i] == s[j]
    ensures multiset(s)[s[i]] >= 2
  {
    assert s == s[..i] + [s[i]] + s[i + 1..j] + [s[j]] + s[j + 1..];
  }

  lemma MultiplicityTwice(a: seq<Event>, x: Event)
    requires DistinctTimes(a)
    ensures multiset(a)[x] <= 1
  {
    if a != [] {
      assert DistinctTimes(a[1..]) by {
        forall i, j | 0 <= i < j < |a[1..]| ensures a[1..][i].occurredAt != a[1..][j].occurredAt {
          assert a[1..][i] == a[i + 1] && a[1..][j] == a[j + 1];
        }
      }
      MultiplicityTwice(a[1..], x);
      assert a == [a[0]] + a[1..];
      forall k | 0 <= k < |a[1..]| ensures a[1..][k] != a[0] {
        assert a[1..][k] == a[k + 1];
      }
      assert a[0] !in a[1..];
    }
  }

  /** Deterministic replay: when no two events share an `occurred_at`, every
      arrangement of the same events is applied in one and the same order. */
  lemma ReplayDeterministic(s1: seq<Event>, s2: seq<Event>)
    requires multiset(s1) == multiset(s2)
    requires DistinctTimes(s1)
    ensures AppliedOrder(s1) == AppliedOrder(s2)
  {
    AppliedOrderSortedPermutation(s1);
    AppliedOrderSortedPermutation(s2);
    DistinctTimesPermutation(s1, AppliedOrder(s1));
    SortedPermutationUnique(AppliedOrder(s1), AppliedOrder(s2));
  }

  // ---------------------------------------------------------------------------
  // Feed projection.

  const Namespace: string := "GenericEvent::"

  /** The attribute names copied from the row into the feed document. */
  const FeedAttributes: set<string> := {
    "id", "notes", "created_at", "updated_at", "occurred_at", "recorded_at",
    "eventable_id", "eventable_type", "details"
  }

  datatype FeedValue = FNull | FNat(n: nat) | FText(s: string) | FTime(t: int) | FDetails(d: Details)

  function OptNat(x: Option<nat>): FeedValue {
    match x case None => FNull case Some(n) => FNat(n)
  }

  function OptText(x: Option<string>): FeedValue {
    match x case None => FNull case Some(s) => FText(s)
  }

  function OptTime(x: Option<int>): FeedValue {
    match x case None => FNull case Some(t) => FTime(t)
  }

  /** Every column of the row, by column name. */
  function Attributes(e: Event): (r: map<string, FeedValue>)
    ensures FeedAttributes <= r.Keys
    ensures "type" in r && "created_by" in r && "supplier_id" in r
  {
    map[
      "id" := OptNat(e.id),
      "type" := FText(e.eventType),
      "notes" := OptText(e.notes),
      "created_by" := OptText(e.createdBy),
      "created_at" := OptTime(e.createdAt),
      "updated_at" := OptTime(e.updatedAt),
      "occurred_at" := OptTime(e.occurredAt),
      "recorded_at" := OptTime(e.recordedAt),
      "eventable_id" := OptNat(e.eventableId),
      "eventable_type" := OptText(e.eventableType),
      "details" := FDetails(e.details),
      "supplier_id" := OptNat(e.supplierId)
    ]
  }

  /** Whether `pat` occurs in `s` starting at position `j`. */
  predicate OccursAt(s: string, pat: string, j: nat) {
    j + |pat| <= |s| && s[j..j + |pat|] == pat
  }

  function FirstIndexFrom(s: string, pat: string, k: nat): (r: Option<nat>)
    requires k <= |s|
    ensures r.Some? ==> k <= r.value && OccursAt(s, pat, r.value)
    ensures r.Some? ==> forall j: nat :: k <= j < r.value ==> !OccursAt(s, pat, j)
    ensures r.None? ==> forall j: nat :: k <= j ==> !OccursAt(s, pat, j)
    decreases |s| - k
  {
    if OccursAt(s, pat, k) then Some(k)
    else if k + |pat| >= |s| then None
    else FirstIndexFrom(s, pat, k + 1)
  }

  /** The position of the first occurrence of `pat` in `s`, if any. */
  function FirstIndexOf(s: string, pat: string): (r: Option<nat>)
    ensures r.Some? ==> OccursAt(s, pat, r.value)
    ensures r.Some? ==> forall j: nat :: j < r.value ==> !OccursAt(s, pat, j)
    ensures r.None? ==> forall j: nat :: !OccursAt(s, pat, j)
  {
    FirstIndexFrom(s, pat, 0)
  }

  /** Ruby's String#sub with a literal pattern: only the first occurrence is replaced. */
  function SubFirst(s: string, pat: string, rep: string): string {
    match FirstIndexOf(s, pat)
    case None => s
    case Some(i) => s[..i] + rep + s[i + |pat|..]
  }

  /** The feed's `type`: the class name with the first `GenericEvent::` removed. */
  function StripNamespace(t: string): string {
    SubFirst(t, Namespace, "")
  }

  lemma {:induction false} StripNamespaceOfQualified(x: string)
    ensures StripNamespace(Namespace + x) == x
  {
    var t := Namespace + x;
    assert OccursAt(t, Namespace, 0) by { assert t[0..|Namespace|] == Namespace; }
    var r := FirstIndexOf(t, Namespace);
    assert r == Some(0);
    assert t[|Namespace|..] == x;
  }

  lemma {:induction false} StripNamespaceOfUnqualified(t: string)
    requires forall j: nat :: !OccursAt(t, Namespace, j)
    ensures StripNamespace(t) == t
  {
  }

  /** `GenericEvent::MoveLockout` is published as `MoveLockout`. */
  lemma StripNamespaceExample(t: string)
    requires t == "GenericEvent::MoveLockout"
    ensures StripNamespace(t) == "MoveLockout"
  {
    var x := t[|Namespace|..];
    assert t == Namespace + x;
    StripNamespaceOfQualified(x);
    assert x == "MoveLockout";
  }

  /** The feed document of an event, given the hash merged in for its
      supplier. `supplierFeed` is what the supplier publishes about itself; it
      is merged in, winning on clashes, only when the event carries a
      `supplier_id`. */
  function FeedDocument(e: Event, supplierFeed: map<string, FeedValue>): (feed: map<string, FeedValue>)
    ensures feed.Keys <= FeedAttributes + {"type"} + (if e.supplierId.Some? then supplierFeed.Keys else {})
    ensures FeedAttributes + {"type"} <= feed.Keys
    ensures e.supplierId.None? ==> feed.Keys == FeedAttributes + {"type"}
    ensures e.supplierId.None? || "type" !in supplierFeed ==> feed["type"] == FText(StripNamespace(e.eventType))
    ensures forall k :: k in FeedAttributes && (e.supplierId.None? || k !in supplierFeed) ==>
              feed[k] == Attributes(e)[k]
    ensures e.supplierId.Some? ==> supplierFeed.Keys <= feed.Keys
    ensures e.supplierId.Some? ==> forall k :: k in supplierFeed ==> feed[k] == supplierFeed[k]
  {
    var typed := Sliced(e) + map["type" := FText(StripNamespace(e.eventType))];
    if e.supplierId.Some? then typed + supplierFeed else typed
  }

  /** The row's attributes restricted to the published ones. */
  function Sliced(e: Event): (r: map<string, FeedValue>)
    ensures r.Keys == FeedAttributes
    ensures forall k :: k in r ==> r[k] == Attributes(e)[k]
  {
    var attrs := Attributes(e);
    map k | k in attrs && k in FeedAttributes :: attrs[k]
  }

  /** `for_feed`. `supplier` is the supplier row's own feed, or None when no
      supplier row is found. With a `supplier_id` whose row is missing there
      is no hash to merge, and the merge raises a type error: None. */
  function ForFeed(e: Event, supplier: Option<map<string, FeedValue>>): (r: Option<map<string, FeedValue>>)
    ensures r.None? <==> e.supplierId.Some? && supplier.None?
    ensures e.supplierId.None? ==> r == Some(FeedDocument(e, map[]))
    ensures supplier.Some? ==> r == Some(FeedDocument(e, supplier.value))
  {
    if e.supplierId.None? then Some(FeedDocument(e, map[]))
    else match supplier
      case None => None
      case Some(f) => Some(FeedDocument(e, f))
  }

  /** Without a supplier id the feed is produced whatever is known of a
      supplier, and carries no supplier field, nor columns outside the
      published list such as `created_by` or `supplier_id`. */
  lemma FeedWithoutSupplier(e: Event, supplier: Option<map<string, FeedValue>>)
    requires e.supplierId.None?
    ensures ForFeed(e, supplier).Some?
    ensures ForFeed(e, supplier).value.Keys == FeedAttributes + {"type"}
    ensures supplier.Some? ==> forall k :: k in supplier.value && k !in FeedAttributes && k != "type" ==>
              k !in ForFeed(e, supplier).value
    ensures "created_by" !in ForFeed(e, supplier).value && "supplier_id" !in ForFeed(e, supplier).value
  {
    assert ForFeed(e, supplier).value.Keys == FeedAttributes + {"type"};
    UnpublishedColumns();
  }

  /** `created_by` and `supplier_id` are columns the feed does not publish. */
  lemma UnpublishedColumns()
    ensures "created_by" !in FeedAttributes + {"type"} && "supplier_id" !in FeedAttributes + {"type"}
  {
    var c, s := "created_by", "supplier_id";
    assert c[1] == 'r' && s[1] == 'u' && |c| == 10 && |s| == 11;
  }

  /** The `type` published for a namespaced class carries no namespace. */
  lemma FeedTypeUnqualified(e: Event, x: string, supplier: Option<map<string, FeedValue>>)
    requires e.eventType == Namespace + x
    requires e.supplierId.None? || (supplier.Some? && "type" !in supplier.value)
    ensures ForFeed(e, supplier).Some? && ForFeed(e, supplier).value["type"] == FText(x)
  {
    StripNamespaceOfQualified(x);
  }

  /** The eventable columns are published as stored, whether or not the row they name exists. */
  lemma FeedEventableColumns(e: Event, supplier: Option<map<string, FeedValue>>)
    requires e.supplierId.None? || (supplier.Some? && "eventable_type" !in supplier.value && "eventable_id" !in supplier.value)
    ensures ForFeed(e, supplier).Some?
    ensures ForFeed(e, supplier).value["eventable_type"] == OptText(e.eventableType)
    ensures ForFeed(e, supplier).value["eventable_id"] == OptNat(e.eventableId)
  {
    assert "eventable_type" in FeedAttributes && "eventable_id" in FeedAttributes;
  }

  // ---------------------------------------------------------------------------
  // Subtype naming for events converted from the legacy event table.

  function Upcase(c: char): char {
    if 'a' <= c <= 'z' then (c as int - 32) as char else c
  }

  function Downcase(c: char): char {
    if 'A' <= c <= 'Z' then (c as int + 32) as char else c
  }

  function Downcased(s: string): (r: string)
    ensures |r| == |s|
    ensures forall i :: 0 <= i < |s| ==> r[i] == Downcase(s[i])
  {
    if s == [] then [] else [Downcase(s[0])] + Downcased(s[1..])
  }

  /** Ruby's String#capitalize on ASCII text: first character upper case, the rest lower case. */
  function Capitalize(s: string): (r: string)
    ensures |r| == |s|
    ensures |s| > 0 ==> r[0] == Upcase(s[0])
    ensures forall i :: 0 < i < |s| ==> r[i] == Downcase(s[i])
  {
    if s == [] then [] else [Upcase(s[0])] + Downcased(s[1..])
  }

  lemma CapitalizeIdempotent(s: string)
    ensures Capitalize(Capitalize(s)) == Capitalize(s)
  {
    var c := Capitalize(s);
    var cc := Capitalize(c);
    forall i | 0 <= i < |s| ensures cc[i] == c[i] {
    }
  }

  /** The class an event converted from the legacy table becomes:
      `GenericEvent::` + eventable kind + capitalised event name. */
  function FromEventType(eventableType: string, eventName: string): string {
    Namespace + (eventableType + Capitalize(eventName))
  }

  /** The feed publishes a converted event under eventable kind + capitalised name. */
  lemma FromEventFeedType(eventableType: string, eventName: string)
    ensures StripNamespace(FromEventType(eventableType, eventName)) == eventableType + Capitalize(eventName)
  {
    StripNamespaceOfQualified(eventableType + Capitalize(eventName));
  }

  /** The single-table-inheritance variants of the event table, by the kind of eventable they name. */
  const JourneyVariants: seq<string> := [
    "JourneyAdmitThroughOuterGate", "JourneyArriveAtOuterGate", "JourneyCancel",
    "JourneyChangeVehicle", "JourneyComplete", "JourneyCreate", "JourneyExitThroughOuterGate",
    "JourneyHandoverToDestination", "JourneyLockout", "JourneyLodging",
    "JourneyPersonBoardsVehicle", "JourneyPersonLeaveVehicle", "JourneyReadyToExit",
    "JourneyReject", "JourneyStart", "JourneyUncancel", "JourneyUncomplete", "JourneyUpdate"
  ]

  const MoveVariants: seq<string> := [
    "MoveAccept", "MoveApprove", "MoveCancel", "MoveCollectionByEscort", "MoveComplete",
    "MoveCrossSupplierDropOff", "MoveCrossSupplierPickUp", "MoveLockout", "MoveLodgingEnd",
    "MoveLodgingStart", "MoveNotifyPremisesOfArrivalIn30Mins", "MoveNotifyPremisesOfEta",
    "MoveNotifyPremisesOfExpectedCollectionTime", "MoveOperationHmcts",
    "MoveOperationSafeguard", "MoveOperationTornado", "MoveRedirect", "MoveReject", "MoveStart"
  ]

  const PerVariants: seq<string> := [
    "PerCourtAllDocumentationProvidedToSupplier", "PerCourtAssignCellInCustody",
    "PerCourtCellShareRiskAssessment", "PerCourtExcessiveDelayNotDueToSupplier",
    "PerCourtHearing", "PerCourtPreReleaseChecksCompleted", "PerCourtReadyInCustody",
    "PerCourtRelease", "PerCourtReleaseOnBail", "PerCourtReturnToCustodyAreaFromDock",
    "PerCourtReturnToCustodyAreaFromVisitorArea", "PerCourtTakeFromCustodyToDock",
    "PerCourtTakeToSeeVisitors", "PerCourtTask", "PerGeneric", "PerMedicalAid",
    "PerPrisonerWelfare"
  ]

  const PersonVariants: seq<string> := [
    "PersonMoveAssault", "PersonMoveBookedIntoReceivingEstablishment",
    "PersonMoveDeathInCustody", "PersonMoveMajorIncidentOther", "PersonMoveMinorIncidentOther",
    "PersonMovePersonEscaped", "PersonMovePersonEscapedKpi", "PersonMoveReleasedError",
    "PersonMoveRoadTrafficAccident", "PersonMoveSeriousInjury", "PersonMoveUsedForce",
    "PersonMoveVehicleBrokeDown", "PersonMoveVehicleSystemsFailed"
  ]

  const StiClasses: seq<string> := JourneyVariants + MoveVariants + PerVariants + PersonVariants

  /** Resolving the class name: it exists only when it names a registered variant. */
  function ResolveFromEvent(eventableType: string, eventName: string): (r: Option<string>)
    ensures r.Some? <==> eventableType + Capitalize(eventName) in StiClasses
    ensures r.Some? ==> r.value == FromEventType(eventableType, eventName)
  {
    if eventableType + Capitalize(eventName) in StiClasses
    then Some(FromEventType(eventableType, eventName))
    else None
  }

  lemma MoveApproveRegistered(name: string)
    requires name == "MoveApprove"
    ensures name in StiClasses
  {
    assert StiClasses[|JourneyVariants| + 1] == MoveVariants[1] == name;
  }

  lemma CapitalizeApprove(action: string)
    requires action == "approve"
    ensures Capitalize(action) == "Approve"
  {
    var rest := action[1..];
    assert rest == "pprove";
    assert Downcased(rest) == rest;
  }

  /** A Move `approve` event becomes a `GenericEvent::MoveApprove`. */
  lemma FromEventExample(kind: string, action: string)
    requires kind == "Move" && action == "approve"
    ensures ResolveFromEvent(kind, action) == Some("GenericEvent::MoveApprove")
  {
    CapitalizeApprove(action);
    var name := kind + Capitalize(action);
    assert name == "MoveApprove";
    MoveApproveRegistered(name);
    assert FromEventType(kind, action) == Namespace + name;
    assert Namespace + name == "GenericEvent::MoveApprove";
  }

  // ---------------------------------------------------------------------------
  // Variant schema and validation.

  /** An extra rule a variant installs on one `details` key. */
  datatype Rule =
    | IsoDateTimeRule(key: string)                   // must be an ISO 8601 date-time
    | EnumRule(key: string, values: seq<string>)     // must be present and one of `values`

  /** What a variant declares: the `details` keys that get accessors, the keys
      that are relationships, the eventable kinds it accepts (None: no
      restriction declared) and its extra rules. */
  datatype Schema = Schema(
    detailsAttributes: seq<string>,
    relationshipAttributes: seq<string>,
    eventableTypes: Option<seq<string>>,
    rules: seq<Rule>)

  /** The base event declares no detail keys and restricts nothing. */
  const BaseSchema: Schema := Schema([], [], None, [])

  /** The keys that have a generated getter and setter. */
  function Accessors(schema: Schema): set<string> {
    (set k | k in schema.detailsAttributes) + (set k | k in schema.relationshipAttributes)
  }

  /** The getter: the value under `key`, or nil when the key is absent. */
  function ReadDetail(d: Details, key: string): Value {
    if key in d then d[key] else Null
  }

  /** Rails' `blank?` on a details value. */
  predicate BlankValue(v: Value) {
    match v
    case Null => true
    case Bool(b) => !b
    case Int(_) => false
    case Str(s) => Blank(s)
    case List(items) => |items| == 0
  }

  predicate RuleHolds(d: Details, rule: Rule) {
    match rule
    case IsoDateTimeRule(k) =>
      ReadDetail(d, k).Str? && IsoDateTime.IsIsoDateTime(ReadDetail(d, k).s)
    case EnumRule(k, values) =>
      !BlankValue(ReadDetail(d, k)) && ReadDetail(d, k).Str? && ReadDetail(d, k).s in values
  }

  /** The attributes a validation error can be reported against. */
  datatype Attr = Eventable | Type | OccurredAt | RecordedAt | EventableType | Detail(key: string)

  /** Some rule on key `k` does not hold. */
  predicate FailsOn(d: Details, rules: seq<Rule>, k: string) {
    exists i :: 0 <= i < |rules| && rules[i].key == k && !RuleHolds(d, rules[i])
  }

  lemma FailsOnCons(d: Details, rules: seq<Rule>, k: string)
    requires |rules| > 0
    ensures FailsOn(d, rules, k) <==> (rules[0].key == k && !RuleHolds(d, rules[0])) || FailsOn(d, rules[1..], k)
  {
    if FailsOn(d, rules, k) && !(rules[0].key == k && !RuleHolds(d, rules[0])) {
      var i :| 0 <= i < |rules| && rules[i].key == k && !RuleHolds(d, rules[i]);
      assert rules[1..][i - 1] == rules[i];
    }
    if FailsOn(d, rules[1..], k) {
      var i :| 0 <= i < |rules[1..]| && rules[1..][i].key == k && !RuleHolds(d, rules[1..][i]);
      assert rules[i + 1] == rules[1..][i];
    }
  }

  function RuleErrors(d: Details, rules: seq<Rule>): (r: set<Attr>)
    ensures forall a :: a in r ==> a.Detail?
    ensures forall k :: Detail(k) in r <==> FailsOn(d, rules, k)
  {
    if rules == [] then {}
    else
      var rest := RuleErrors(d, rules[1..]);
      forall k ensures FailsOn(d, rules, k) <==> (rules[0].key == k && !RuleHolds(d, rules[0])) || FailsOn(d, rules[1..], k) {
        FailsOnCons(d, rules, k);
      }
      (if RuleHolds(d, rules[0]) then {} else {Detail(rules[0].key)}) + rest
  }

  /** The validation errors of an event checked against its variant's schema. */
  function Errors(e: Event, schema: Schema): (r: set<Attr>)
    ensures Eventable in r <==> !EventableLoads(e)
    ensures Type in r <==> Blank(e.eventType)
    ensures OccurredAt in r <==> e.occurredAt.None?
    ensures RecordedAt in r <==> e.recordedAt.None?
    ensures EventableType in r <==>
              schema.eventableTypes.Some? && !(e.eventableType.Some? && e.eventableType.value in schema.eventableTypes.value)
    ensures forall k :: Detail(k) in r <==> FailsOn(e.details, schema.rules, k)
  {
    (if !EventableLoads(e) then {Eventable} else {}) +
    (if Blank(e.eventType) then {Type} else {}) +
    (if e.occurredAt.None? then {OccurredAt} else {}) +
    (if e.recordedAt.None? then {RecordedAt} else {}) +
    (match schema.eventableTypes
     case None => {}
     case Some(kinds) => if e.eventableType.Some? && e.eventableType.value in kinds then {} else {EventableType}) +
    RuleErrors(e.details, schema.rules)
  }

  predicate Valid(e: Event, schema: Schema) {
    Errors(e, schema) == {}
  }

  /** An event is invalid when its eventable, type, occurred_at or recorded_at is missing. */
  lemma MissingCoreAttributeInvalid(e: Event, schema: Schema)
    requires !EventableLoads(e) || Blank(e.eventType) || e.occurredAt.None? || e.recordedAt.None?
    ensures !Valid(e, schema)
  {
  }

  /** An event whose `eventable_type` is missing or not among the variant's declared kinds is invalid. */
  lemma IncompatibleEventableInvalid(e: Event, schema: Schema)
    requires schema.eventableTypes.Some?
    requires e.eventableType.None? || e.eventableType.value !in schema.eventableTypes.value
    ensures !Valid(e, schema)
  {
    assert EventableType in Errors(e, schema);
  }

  /** Against the base schema, the four presence checks are the only ones. */
  lemma BaseSchemaValidity(e: Event)
    ensures Valid(e, BaseSchema) <==>
              EventableLoads(e) && !Blank(e.eventType) && e.occurredAt.Some? && e.recordedAt.Some?
  {
    if EventableLoads(e) && !Blank(e.eventType) && e.occurredAt.Some? && e.recordedAt.Some? {
      forall a ensures a !in Errors(e, BaseSchema) {
      }
    }
  }

  /** An event whose columns name an accepted kind but no existing row: only
      the presence of the eventable fails, and the inclusion check on the
      `eventable_type` column passes. */
  lemma DanglingEventableReported(e: Event, schema: Schema)
    requires e.eventableType.Some? && e.eventableId.Some? && !e.eventableFound
    requires schema.eventableTypes.None? || e.eventableType.value in schema.eventableTypes.value
    ensures Eventable in Errors(e, schema) && EventableType !in Errors(e, schema)
  {
  }

  // ---------------------------------------------------------------------------
  // A loaded event object: its generated accessors update `details` in place.

  class GenericEventRecord {
    const schema: Schema
    var event: Event

    constructor (schema: Schema, event: Event)
      ensures this.schema == schema && this.event == event
    {
      this.schema := schema;
      this.event := event;
    }

    /** A generated getter: `details[key]`. */
    function Get(key: string): (v: Value)
      reads this
      requires key in Accessors(schema)
      ensures key in event.details ==> v == event.details[key]
      ensures key !in event.details ==> v == Null
    {
      ReadDetail(event.details, key)
    }

    /** A generated setter: `details[key] = value`; nothing else changes. */
    method Set(key: string, value: Value)
      requires key in Accessors(schema)
      modifies this
      ensures event == old(event).(details := old(event).details[key := value])
      ensures Get(key) == value
      ensures forall k :: k in Accessors(schema) && k != key ==> Get(k) == old(Get(k))
    {
      event := event.(details := event.details[key := value]);
    }

    /** The default trigger does nothing: it may update the record, as the
        variants' triggers do, yet leaves it as it was. */
    method Trigger()
      modifies this
      ensures event == old(event)
    {
    }

    function Feed(supplier: Option<map<string, FeedValue>>): (feed: Option<map<string, FeedValue>>)
      reads this
      ensures feed.Some? ==> "type" in feed.value
    {
      ForFeed(event, supplier)
    }

    predicate IsValid()
      reads this
    {
      Valid(event, schema)
    }
  }

  /** A setter followed by its getter returns the written value and leaves every other key alone. */
  method SetThenGet(r: GenericEventRecord, key: string, other: string, value: Value) returns (v: Value)
    requires key in Accessors(r.schema) && other in Accessors(r.schema) && other != key
    modifies r
    ensures v == value
    ensures r.Get(other) == old(r.Get(other))
    ensures r.event.details.Keys == old(r.event.details.Keys) + {key}
  {
    r.Set(key, value);
    v := r.Get(key);
  }
}
