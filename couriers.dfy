/** The couriers table and its queries and mutations. The clock (`Date.now()`)
    and the text of `Math.random().toString(36)` are parameters. */
module Couriers {
  import opened Store
  import opened Schema
  import opened JsString

  // ---------------------------------------------------------------------
  // Tracking ids

  /** `generateTrackingId`: "CRR-", the clock in upper-case base 36, "-", and
      characters 2 to 5 of the random number's base-36 text, upper-cased. The
      timestamp part reads back as the clock. */
  function TrackingId(now: nat, randomText: string): (r: string)
    ensures exists ts, rnd ::
              && r == "CRR-" + ts + "-" + rnd
              && UpperBase36Text(ts) && ParseBase36(ts) == now
              && rnd == ToUpper(Substring(randomText, 2, 6)) && |rnd| <= 4
    ensures |r| >= 6 && r[..4] == "CRR-"
    ensures |r| <= 9 + |Base36(now)|
    ensures TimeOf(r) == now
  {
    var ts := ToUpper(Base36(now));
    var rnd := ToUpper(Substring(randomText, 2, 6));
    var r := "CRR-" + ts + "-" + rnd;
    assert r[4..] == ts + "-" + rnd;
    UpToDashAppend(ts, rnd);
    ParseBase36Upper(now);
    UpperBase36(now);
    r
  }

  /** The characters of `s` before its first '-'. */
  function UpToDash(s: string): (r: string)
    ensures '-' !in r
  {
    if s == [] || s[0] == '-' then [] else [s[0]] + UpToDash(s[1..])
  }

  lemma {:induction false} UpToDashAppend(a: string, b: string)
    requires '-' !in a
    ensures UpToDash(a + "-" + b) == a
  {
    if a != [] {
      assert (a + "-" + b)[1..] == a[1..] + "-" + b;
      UpToDashAppend(a[1..], b);
    }
  }

  /** The clock reading encoded in a tracking id. */
  function TimeOf(trackingId: string): nat {
    if |trackingId| < 4 then 0 else ParseBase36(UpToDash(trackingId[4..]))
  }

  /** Tracking ids minted at different milliseconds differ. */
  lemma DistinctTimesDistinctIds(n1: nat, n2: nat, r1: string, r2: string)
    requires n1 != n2
    ensures TrackingId(n1, r1) != TrackingId(n2, r2)
  {
  }

  /** Nothing else makes them unique: within one millisecond, any two random
      texts that agree in characters 2 to 5 give the same id. */
  lemma SameMillisecondCollision(now: nat, r1: string, r2: string)
    requires Substring(r1, 2, 6) == Substring(r2, 2, 6)
    ensures TrackingId(now, r1) == TrackingId(now, r2)
  {
  }

  /** Two different random numbers that collide. */
  lemma CollidingRandomTexts(now: nat)
    ensures "0.abcd1" != "0.abcd9"
    ensures TrackingId(now, "0.abcd1") == TrackingId(now, "0.abcd9")
  {
  }

  // ---------------------------------------------------------------------
  // Mutation arguments

  /** The arguments of `create`. */
  datatype CourierArgs = CourierArgs(
    senderName: string,
    receiverName: string,
    receiverPhone: string,
    pickupAddress: string,
    deliveryAddress: string,
    notes: Option<string>,
    expectedDeliveryDate: Option<string>)

  /** The optional arguments of `update`, each `None` when left undefined. */
  datatype CourierUpdate = CourierUpdate(
    senderName: Option<string>,
    receiverName: Option<string>,
    receiverPhone: Option<string>,
    pickupAddress: Option<string>,
    deliveryAddress: Option<string>,
    notes: Option<string>,
    expectedDeliveryDate: Option<string>)

  /** The keys `update` may patch. */
  datatype CourierField = SenderName | ReceiverName | ReceiverPhone | PickupAddress
                        | DeliveryAddress | Notes | ExpectedDeliveryDate

  /** `Object.entries(updates)`, in declaration order. */
  function UpdateEntries(u: CourierUpdate): (e: seq<(CourierField, Option<string>)>)
    ensures |e| == 7 && DistinctKeys(e)
  {
    [(SenderName, u.senderName), (ReceiverName, u.receiverName), (ReceiverPhone, u.receiverPhone),
     (PickupAddress, u.pickupAddress), (DeliveryAddress, u.deliveryAddress), (Notes, u.notes),
     (ExpectedDeliveryDate, u.expectedDeliveryDate)]
  }

  function PatchText(f: map<CourierField, string>, k: CourierField, current: string): string {
    if k in f then f[k] else current
  }

  function PatchOptional(f: map<CourierField, string>, k: CourierField, current: Option<string>): Option<string> {
    if k in f then Some(f[k]) else current
  }

  /** `ctx.db.patch(id, { ...filteredUpdates, updatedAt: now })`. */
  function ApplyPatch(c: Courier, f: map<CourierField, string>, now: nat): Courier {
    c.(senderName := PatchText(f, SenderName, c.senderName),
       receiverName := PatchText(f, ReceiverName, c.receiverName),
       receiverPhone := PatchText(f, ReceiverPhone, c.receiverPhone),
       pickupAddress := PatchText(f, PickupAddress, c.pickupAddress),
       deliveryAddress := PatchText(f, DeliveryAddress, c.deliveryAddress),
       notes := PatchOptional(f, Notes, c.notes),
       expectedDeliveryDate := PatchOptional(f, ExpectedDeliveryDate, c.expectedDeliveryDate),
       updatedAt := now)
  }

  /** The record `update` leaves behind: every defined argument replaces its
      field, every undefined one leaves it alone, `updatedAt` is the clock,
      and the tracking id, status, creation time, billing fields and
      assignment are kept. */
  function Updated(c: Courier, u: CourierUpdate, now: nat): (r: Courier)
    ensures r.senderName == u.senderName.GetOr(c.senderName)
    ensures r.receiverName == u.receiverName.GetOr(c.receiverName)
    ensures r.receiverPhone == u.receiverPhone.GetOr(c.receiverPhone)
    ensures r.pickupAddress == u.pickupAddress.GetOr(c.pickupAddress)
    ensures r.deliveryAddress == u.deliveryAddress.GetOr(c.deliveryAddress)
    ensures r.notes == (if u.notes.Some? then u.notes else c.notes)
    ensures r.expectedDeliveryDate == (if u.expectedDeliveryDate.Some? then u.expectedDeliveryDate else c.expectedDeliveryDate)
    ensures r.updatedAt == now
    ensures r.trackingId == c.trackingId && r.currentStatus == c.currentStatus && r.createdAt == c.createdAt
    ensures r.weight == c.weight && r.distance == c.distance && r.price == c.price
    ensures r.paymentStatus == c.paymentStatus && r.assignedTo == c.assignedTo
  {
    var e := UpdateEntries(u);
    DefinedEntry(e, 0); DefinedEntry(e, 1); DefinedEntry(e, 2); DefinedEntry(e, 3);
    DefinedEntry(e, 4); DefinedEntry(e, 5); DefinedEntry(e, 6);
    ApplyPatch(c, Defined(e), now)
  }

  // ---------------------------------------------------------------------
  // Queries over a collected table

  /** `c => c.currentStatus === s`. */
  function StatusIs(s: Status): Doc<Courier> -> bool {
    (d: Doc<Courier>) => d.value.currentStatus == s
  }

  /** `all.filter(c => c.currentStatus === s)`. */
  function WithStatus(all: seq<Doc<Courier>>, s: Status): (r: seq<Doc<Courier>>)
    ensures forall d :: d in r <==> d in all && d.value.currentStatus == s
  {
    Filter(all, StatusIs(s))
  }

  /** The positions in `all` holding a courier in status `s`. */
  function PositionsWith(all: seq<Doc<Courier>>, s: Status): set<nat> {
    set i: nat | i < |all| && all[i].value.currentStatus == s
  }

  /** Filtering by status keeps one courier per position holding that status. */
  lemma CountWithStatus(all: seq<Doc<Courier>>, s: Status)
    ensures |WithStatus(all, s)| == |PositionsWith(all, s)|
  {
    FilterLength(all, StatusIs(s));
    assert Passing(all, StatusIs(s)) == PositionsWith(all, s);
  }

  /** The ids of the stored couriers in status `s`. */
  function IdsWith(rows: map<nat, Courier>, s: Status): set<nat> {
    set id | id in rows && rows[id].currentStatus == s
  }

  /** Listing the table and filtering by status keeps one courier per stored
      id in that status. */
  lemma StoredWithStatus(rows: map<nat, Courier>, n: nat, s: Status)
    requires forall id :: id in rows ==> id < n
    ensures |WithStatus(Ascending(rows, n), s)| == |IdsWith(rows, s)|
  {
    AscendingFilterCount(rows, n, StatusIs(s));
    assert PassingKeys(rows, n, StatusIs(s)) == IdsWith(rows, s);
  }

  /** The dashboard counters. */
  datatype Stats = Stats(total: nat, pending: nat, pickedUp: nat, inTransit: nat,
                         outForDelivery: nat, delivered: nat, cancelled: nat)

  function StatusSum(r: Stats): nat {
    r.pending + r.pickedUp + r.inTransit + r.outForDelivery + r.delivered + r.cancelled
  }

  /** `getStats` over the collected couriers: each counter counts the
      couriers in its status, and the counts add up to the total. */
  function StatsOf(all: seq<Doc<Courier>>): (r: Stats)
    ensures r.total == |all|
    ensures r.pending == |PositionsWith(all, Pending)|
    ensures r.pickedUp == |PositionsWith(all, PickedUp)|
    ensures r.inTransit == |PositionsWith(all, InTransit)|
    ensures r.outForDelivery == |PositionsWith(all, OutForDelivery)|
    ensures r.delivered == |PositionsWith(all, Delivered)|
    ensures r.cancelled == |PositionsWith(all, Cancelled)|
    ensures StatusSum(r) == r.total
  {
    StatusCountsSum(all);
    CountWithStatus(all, Pending);
    CountWithStatus(all, PickedUp);
    CountWithStatus(all, InTransit);
    CountWithStatus(all, OutForDelivery);
    CountWithStatus(all, Delivered);
    CountWithStatus(all, Cancelled);
    Stats(|all|, |WithStatus(all, Pending)|, |WithStatus(all, PickedUp)|,
          |WithStatus(all, InTransit)|, |WithStatus(all, OutForDelivery)|,
          |WithStatus(all, Delivered)|, |WithStatus(all, Cancelled)|)
  }

  /** Every courier holds exactly one of the six statuses. */
  lemma {:induction false} StatusCountsSum(all: seq<Doc<Courier>>)
    ensures |WithStatus(all, Pending)| + |WithStatus(all, PickedUp)| + |WithStatus(all, InTransit)|
          + |WithStatus(all, OutForDelivery)| + |WithStatus(all, Delivered)| + |WithStatus(all, Cancelled)|
          == |all|
  {
    if all != [] {
      StatusCountsSum(all[1..]);
    }
  }

  /** The search condition, with `term` already lower-cased: the lower-cased
      tracking id or receiver name contains it, or the phone does as written. */
  predicate Matches(c: Courier, term: string) {
    Includes(ToLower(c.trackingId), term) || Includes(ToLower(c.receiverName), term)
    || Includes(c.receiverPhone, term)
  }

  /** The search callback, `c => ...includes(term)...`, for a lower-cased term. */
  function MatchesTerm(term: string): Doc<Courier> -> bool {
    (d: Doc<Courier>) => Matches(d.value, term)
  }

  /** `search`: the couriers matching the lower-cased term, in table order. */
  function SearchIn(all: seq<Doc<Courier>>, searchTerm: string): (r: seq<Doc<Courier>>)
    ensures forall d :: d in r <==> d in all && Matches(d.value, ToLower(searchTerm))
  {
    Filter(all, MatchesTerm(ToLower(searchTerm)))
  }

  /** The empty search term matches every courier. */
  lemma SearchEmptyTerm(all: seq<Doc<Courier>>)
    ensures SearchIn(all, "") == all
  {
    forall d | d in all ensures Matches(d.value, ToLower("")) {
      IncludesEmpty(ToLower(d.value.trackingId));
    }
    FilterKeepsAll(all, (d: Doc<Courier>) => Matches(d.value, ToLower("")));
  }

  // ---------------------------------------------------------------------
  // The table

  class CourierStore {
    var rows: map<nat, Courier>
    var nextId: nat

    ghost predicate Valid()
      reads this
    {
      forall id :: id in rows ==> id < nextId
    }

    constructor ()
      ensures Valid() && rows == map[]
    {
      rows := map[];
      nextId := 0;
    }

    /** `ctx.db.query("couriers").collect()`: oldest first. */
    function All(): (r: seq<Doc<Courier>>)
      reads this
      requires Valid()
      ensures forall d :: d in r <==> d.id in rows && rows[d.id] == d.value
      ensures forall i, j :: 0 <= i < j < |r| ==> r[i].id < r[j].id
    {
      Ascending(rows, nextId)
    }

    /** `list`: every courier, newest first. */
    function List(): (r: seq<Doc<Courier>>)
      reads this
      requires Valid()
      ensures forall d :: d in r <==> d.id in rows && rows[d.id] == d.value
      ensures forall i, j :: 0 <= i < j < |r| ==> r[i].id > r[j].id
    {
      Descending(rows, nextId)
    }

    /** `getById`: the courier, or null when there is none. */
    function GetById(id: nat): (r: Option<Courier>)
      reads this
      ensures r.Some? <==> id in rows
      ensures r.Some? ==> r.value == rows[id]
    {
      if id in rows then Some(rows[id]) else None
    }

    /** `getStats`: the total is the number of couriers, each counter is the
        number of couriers in its status, and the six counters add up to the
        total. */
    function GetStats(): (r: Stats)
      reads this
      requires Valid()
      ensures r.total == |rows|
      ensures r.pending == |IdsWith(rows, Pending)|
      ensures r.pickedUp == |IdsWith(rows, PickedUp)|
      ensures r.inTransit == |IdsWith(rows, InTransit)|
      ensures r.outForDelivery == |IdsWith(rows, OutForDelivery)|
      ensures r.delivered == |IdsWith(rows, Delivered)|
      ensures r.cancelled == |IdsWith(rows, Cancelled)|
      ensures StatusSum(r) == r.total
    {
      AscendingLength(rows, nextId);
      StoredWithStatus(rows, nextId, Pending);
      StoredWithStatus(rows, nextId, PickedUp);
      StoredWithStatus(rows, nextId, InTransit);
      StoredWithStatus(rows, nextId, OutForDelivery);
      StoredWithStatus(rows, nextId, Delivered);
      StoredWithStatus(rows, nextId, Cancelled);
      StatsOf(All())
    }

    /** `search`: exactly the stored couriers matching the term, in table order. */
    function Search(searchTerm: string): (r: seq<Doc<Courier>>)
      reads this
      requires Valid()
      ensures forall d :: d in r <==> d.id in rows && rows[d.id] == d.value && Matches(d.value, ToLower(searchTerm))
      ensures IsSubsequence(r, All())
    {
      var r := SearchIn(All(), searchTerm);
      FilterKeepsOrder(All(), (d: Doc<Courier>) => Matches(d.value, ToLower(searchTerm)));
      r
    }

    /** `filterByStatus`: exactly the stored couriers with status `s`, oldest
        first (the `by_status` index orders equal statuses by creation). */
    function FilterByStatus(s: Status): (r: seq<Doc<Courier>>)
      reads this
      requires Valid()
      ensures forall d :: d in r <==> d.id in rows && rows[d.id] == d.value && d.value.currentStatus == s
      ensures IsSubsequence(r, All())
    {
      FilterKeepsOrder(All(), StatusIs(s));
      WithStatus(All(), s)
    }

    /** `create`: one new courier under a fresh id, status pending, both
        timestamps the clock, the supplied fields stored as given and no
        billing or assignment; every other courier is untouched. The handler
        reads the clock (`now`) and then `generateTrackingId` reads it again
        (`idClock`), so the id's timestamp need not equal `createdAt`. The
        tracking id is not checked against the table. */
    method Create(args: CourierArgs, now: nat, idClock: nat, randomText: string) returns (id: nat)
      requires Valid()
      modifies this
      ensures Valid()
      ensures id !in old(rows) && rows.Keys == old(rows).Keys + {id} && |rows| == |old(rows)| + 1
      ensures forall k :: k in old(rows) ==> rows[k] == old(rows)[k]
      ensures rows[id].trackingId == TrackingId(idClock, randomText)
      ensures rows[id].currentStatus == Pending && rows[id].createdAt == now && rows[id].updatedAt == now
      ensures rows[id].senderName == args.senderName && rows[id].receiverName == args.receiverName
      ensures rows[id].receiverPhone == args.receiverPhone
      ensures rows[id].pickupAddress == args.pickupAddress && rows[id].deliveryAddress == args.deliveryAddress
      ensures rows[id].notes == args.notes && rows[id].expectedDeliveryDate == args.expectedDeliveryDate
      ensures rows[id].weight.None? && rows[id].distance.None? && rows[id].price.None?
      ensures rows[id].paymentStatus.None? && rows[id].assignedTo.None?
    {
      var trackingId := TrackingId(idClock, randomText);
      id := nextId;
      rows := rows[id := Courier(trackingId, args.senderName, args.receiverName, args.receiverPhone,
                                 args.pickupAddress, args.deliveryAddress, Pending, args.notes,
                                 args.expectedDeliveryDate, None, None, None, None, None, now, now)];
      nextId := nextId + 1;
    }

    /** `update`: a partial update of one courier, nothing else changes. */
    method Update(id: nat, u: CourierUpdate, now: nat)
      requires Valid() && id in rows
      modifies this
      ensures Valid() && nextId == old(nextId)
      ensures rows == old(rows)[id := Updated(old(rows)[id], u, now)]
    {
      var filtered := FilterDefined(UpdateEntries(u));
      rows := rows[id := ApplyPatch(rows[id], filtered, now)];
    }

    /** `updateStatus`: any of the six statuses, whatever the current one,
        and a fresh `updatedAt`; nothing else changes. */
    method UpdateStatus(id: nat, status: Status, now: nat)
      requires Valid() && id in rows
      modifies this
      ensures Valid() && nextId == old(nextId)
      ensures rows == old(rows)[id := old(rows)[id].(currentStatus := status, updatedAt := now)]
    {
      rows := rows[id := rows[id].(currentStatus := status, updatedAt := now)];
    }

    /** `remove`: a hard delete of exactly this courier. */
    method Remove(id: nat)
      requires Valid() && id in rows
      modifies this
      ensures Valid() && nextId == old(nextId)
      ensures rows == old(rows) - {id} && |rows| == |old(rows)| - 1
      ensures GetById(id) == None
      ensures forall k :: k in old(rows) && k != id ==> GetById(k) == Some(old(rows)[k])
    {
      rows := rows - {id};
    }
  }
}
