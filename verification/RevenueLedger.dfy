/**
 The revenue ledger and the reports on it: a signed event for every payment and every refund,
 bucketed by floor division from the start of the window, and split by product line.
 */
module RevenueLedger {
  import opened Prelude
  import opened ExamTables

  type OrderId = int
  type ProductId = int
  type Money = int // hundredths, as NUMERIC(12, 2) stores them

  datatype Order = Order(
    id: OrderId,
    student: StudentId,
    total: Money,
    paidAt: Option<Time>,
    cancelledAt: Option<Time>,
    cancellationReason: Option<string>)

  datatype Item = Item(order: OrderId, product: ProductId, productType: string, jumlah: Option<Money>, unitPrice: Money, qty: int)

  datatype Event = Event(order: OrderId, total: Money, at: Time, sign: int)

  // ---------- revenue_event ----------

  function PaidEvents(orders: seq<Order>): seq<Event> {
    if orders == [] then []
    else
      var o := orders[0];
      (if o.paidAt.Some? then [Event(o.id, o.total, o.paidAt.value, 1)] else []) + PaidEvents(orders[1..])
  }

  predicate IsRefunded(o: Order) {
    o.cancellationReason == Some("refunded") && o.cancelledAt.Some?
  }

  function RefundEvents(orders: seq<Order>): seq<Event> {
    if orders == [] then []
    else
      var o := orders[0];
      (if IsRefunded(o) then [Event(o.id, o.total, o.cancelledAt.value, -1)] else []) + RefundEvents(orders[1..])
  }

  /** UNION ALL of the two arms. */
  function Ledger(orders: seq<Order>): seq<Event> {
    PaidEvents(orders) + RefundEvents(orders)
  }

  predicate InWindow(at: Time, from: Time, to: Time) {
    from <= at < to
  }

  // ---------- Grouped sums ----------

  /** An amount and the group it falls in. */
  datatype Entry<K> = Entry(key: K, amount: int)

  function Total<K>(entries: seq<Entry<K>>): int {
    if entries == [] then 0 else entries[0].amount + Total(entries[1..])
  }

  /** SUM of one group; a group without rows counts as zero. */
  function SumFor<K(==)>(entries: seq<Entry<K>>, key: K): int {
    if entries == [] then 0 else (if entries[0].key == key then entries[0].amount else 0) + SumFor(entries[1..], key)
  }

  /** The sums of the listed groups, added up. */
  function SumOver<K(==)>(keys: seq<K>, entries: seq<Entry<K>>): int {
    if keys == [] then 0 else SumFor(entries, keys[0]) + SumOver(keys[1..], entries)
  }

  lemma {:induction false} NoEntriesNoSum<K>(keys: seq<K>)
    ensures SumOver(keys, []) == 0
  {
    if keys != [] {
      NoEntriesNoSum(keys[1..]);
    }
  }

  lemma {:induction false} FirstEntryCountsOnce<K>(keys: seq<K>, entries: seq<Entry<K>>)
    requires entries != [] && Distinct(keys)
    ensures SumOver(keys, entries) == (if entries[0].key in keys then entries[0].amount else 0) + SumOver(keys, entries[1..])
  {
    if keys != [] {
      assert forall i :: 0 <= i < |keys| - 1 ==> keys[1..][i] == keys[i + 1];
      FirstEntryCountsOnce(keys[1..], entries);
      assert keys == [keys[0]] + keys[1..];
    }
  }

  /** Groups that cover every entry, each listed once, add up to the total. */
  lemma {:induction false} GroupsAddUp<K>(keys: seq<K>, entries: seq<Entry<K>>)
    requires Distinct(keys) && forall i :: 0 <= i < |entries| ==> entries[i].key in keys
    ensures SumOver(keys, entries) == Total(entries)
    decreases |entries|
  {
    if entries == [] {
      NoEntriesNoSum(keys);
    } else {
      FirstEntryCountsOnce(keys, entries);
      GroupsAddUp(keys, entries[1..]);
    }
  }

  // ---------- Buckets ----------

  const SECOND: int := 1_000_000
  const JAKARTA: int := 7 * 3600 * SECOND // UTC+7, without daylight saving

  function BucketUnit(bucket: string): (unit: Option<int>)
    ensures unit.Some? <==> bucket in {"day", "week"}
  {
    if bucket == "day" then Some(86400 * SECOND)
    else if bucket == "week" then Some(7 * 86400 * SECOND)
    else None
  }

  function Local(t: Time): Time {
    t + JAKARTA
  }

  /** anchor + floor((at - anchor) / unit) * unit, in local time. */
  function BucketOf(at: Time, from: Time, unit: int): Time
    requires unit > 0
  {
    Local(from) + ((Local(at) - Local(from)) / unit) * unit
  }

  /** generate_series(start, last, unit) */
  function Steps(start: Time, last: Time, unit: int): seq<Time>
    requires unit > 0
    decreases last - start
  {
    if start > last then [] else [start] + Steps(start + unit, last, unit)
  }

  /** One bucket start for every step from `from` up to the last microsecond before `to`. */
  function Spine(from: Time, to: Time, unit: int): seq<Time>
    requires unit > 0
  {
    Steps(Local(from), Local(to - 1), unit)
  }

  lemma {:induction false} StepAt(start: Time, last: Time, unit: int, k: nat)
    requires unit > 0
    ensures k < |Steps(start, last, unit)| <==> start + k * unit <= last
    ensures k < |Steps(start, last, unit)| ==> Steps(start, last, unit)[k] == start + k * unit
    decreases k
  {
    if k > 0 {
      assert start + unit + (k - 1) * unit == start + k * unit;
      if start <= last {
        StepAt(start + unit, last, unit, k - 1);
      } else {
        assert k * unit >= 0;
      }
    }
  }

  lemma {:induction false} StepsAscend(start: Time, last: Time, unit: int)
    requires unit > 0
    ensures forall i :: 0 <= i < |Steps(start, last, unit)| ==> Steps(start, last, unit)[i] >= start
    ensures Distinct(Steps(start, last, unit))
    decreases last - start
  {
    if start <= last {
      var rest := Steps(start + unit, last, unit);
      StepsAscend(start + unit, last, unit);
      assert forall i :: 0 < i < |rest| + 1 ==> Steps(start, last, unit)[i] == rest[i - 1];
    }
  }

  /** The spine tiles the window: it starts with it, steps by the unit, and its last bucket is the one the window ends in. */
  lemma SpineTilesWindow(from: Time, to: Time, unit: int)
    requires unit > 0
    ensures var spine := Spine(from, to, unit);
            && (spine == [] <==> from >= to)
            && (forall k :: 0 <= k < |spine| ==> spine[k] == from + 25_200_000_000 + k * unit && spine[k] < to + 25_200_000_000)
            && (spine != [] ==> spine[|spine| - 1] + unit >= to + 25_200_000_000)
  {
    var spine := Spine(from, to, unit);
    forall k: nat | k < |spine| ensures spine[k] == Local(from) + k * unit && spine[k] < Local(to) {
      StepAt(Local(from), Local(to - 1), unit, k);
    }
    StepAt(Local(from), Local(to - 1), unit, 0);
    StepAt(Local(from), Local(to - 1), unit, |spine|);
    if spine != [] {
      StepAt(Local(from), Local(to - 1), unit, |spine| - 1);
      assert (|spine| - 1) * unit + unit == |spine| * unit;
    }
  }

  /** An event of the window is in the spine's bucket that starts last at or before it, and in no other. */
  lemma EventHasOneBucket(at: Time, from: Time, to: Time, unit: int)
    requires unit > 0 && InWindow(at, from, to)
    ensures BucketOf(at, from, unit) in Spine(from, to, unit) && Distinct(Spine(from, to, unit))
    ensures forall b :: b in Spine(from, to, unit) ==> (b <= Local(at) < b + unit <==> b == BucketOf(at, from, unit))
  {
    var d := at - from;
    var k := d / unit;
    assert d == unit * k + d % unit;
    assert unit * k == k * unit;
    assert k < 0 ==> (k + 1) * unit <= 0;
    StepAt(Local(from), Local(to - 1), unit, k);
    StepsAscend(Local(from), Local(to - 1), unit);
    var spine := Spine(from, to, unit);
    assert spine[k] == BucketOf(at, from, unit);
    forall b | b in spine ensures b <= Local(at) < b + unit <==> b == BucketOf(at, from, unit) {
      var j :| 0 <= j < |spine| && spine[j] == b;
      StepAt(Local(from), Local(to - 1), unit, j);
      OneMultipleBelow(d, unit, j, k);
    }
  }

  /** Among the multiples of the unit, exactly one is within a unit below `d`. */
  lemma OneMultipleBelow(d: int, unit: int, j: int, k: int)
    requires unit > 0 && k * unit <= d < k * unit + unit
    ensures j * unit <= d < j * unit + unit <==> j == k
  {
    if j < k {
      assert (j + 1) * unit <= k * unit;
    } else if j > k {
      assert (k + 1) * unit <= j * unit;
    }
  }

  // ---------- The series ----------

  /** What a report adds up: an amount at a time. */
  datatype Movement = Movement(at: Time, amount: int)

  /** The rows of the window, grouped by bucket. */
  function Bucketed(ms: seq<Movement>, from: Time, to: Time, unit: int): seq<Entry<Time>>
    requires unit > 0
  {
    if ms == [] then []
    else
      (if InWindow(ms[0].at, from, to) then [Entry(BucketOf(ms[0].at, from, unit), ms[0].amount)] else [])
      + Bucketed(ms[1..], from, to, unit)
  }

  /** SUM over the rows of the window. */
  function WindowSum(ms: seq<Movement>, from: Time, to: Time): int {
    if ms == [] then 0
    else (if from <= ms[0].at < to then ms[0].amount else 0) + WindowSum(ms[1..], from, to)
  }

  /** The column of the series: every spine bucket with its sum, buckets without rows included. */
  function Series(ms: seq<Movement>, from: Time, to: Time, unit: int): seq<int>
    requires unit > 0
  {
    Column(Spine(from, to, unit), Bucketed(ms, from, to, unit))
  }

  function Column(spine: seq<Time>, entries: seq<Entry<Time>>): seq<int> {
    if spine == [] then [] else [SumFor(entries, spine[0])] + Column(spine[1..], entries)
  }

  function Sum(xs: seq<int>): int {
    if xs == [] then 0 else xs[0] + Sum(xs[1..])
  }

  lemma {:induction false} ColumnSum(spine: seq<Time>, entries: seq<Entry<Time>>)
    ensures Sum(Column(spine, entries)) == SumOver(spine, entries)
  {
    if spine != [] {
      ColumnSum(spine[1..], entries);
      assert Column(spine, entries)[1..] == Column(spine[1..], entries);
    }
  }

  lemma {:induction false} BucketedTotal(ms: seq<Movement>, from: Time, to: Time, unit: int)
    requires unit > 0
    ensures Total(Bucketed(ms, from, to, unit)) == WindowSum(ms, from, to)
    ensures forall i :: 0 <= i < |Bucketed(ms, from, to, unit)| ==>
                          Bucketed(ms, from, to, unit)[i].key in Spine(from, to, unit)
  {
    if ms != [] {
      var rest := Bucketed(ms[1..], from, to, unit);
      BucketedTotal(ms[1..], from, to, unit);
      if InWindow(ms[0].at, from, to) {
        EventHasOneBucket(ms[0].at, from, to, unit);
        assert Bucketed(ms, from, to, unit)[1..] == rest;
      } else {
        assert Bucketed(ms, from, to, unit) == rest;
      }
    }
  }

  /** Conservation: for every window and either bucket size, the series adds up to the window. */
  lemma SeriesConserves(ms: seq<Movement>, from: Time, to: Time, bucket: string)
    requires BucketUnit(bucket).Some?
    ensures Sum(Series(ms, from, to, BucketUnit(bucket).value)) == WindowSum(ms, from, to)
  {
    var unit := BucketUnit(bucket).value;
    var spine, entries := Spine(from, to, unit), Bucketed(ms, from, to, unit);
    StepsAscend(Local(from), Local(to - 1), unit);
    BucketedTotal(ms, from, to, unit);
    GroupsAddUp(spine, entries);
    ColumnSum(spine, entries);
  }

  lemma {:induction false} ColumnAt(spine: seq<Time>, entries: seq<Entry<Time>>)
    ensures |Column(spine, entries)| == |spine|
    ensures forall k :: 0 <= k < |spine| ==> Column(spine, entries)[k] == SumFor(entries, spine[k])
  {
    if spine != [] {
      ColumnAt(spine[1..], entries);
      forall k | 1 <= k < |spine| ensures Column(spine, entries)[k] == SumFor(entries, spine[k]) {
        assert Column(spine, entries)[k] == Column(spine[1..], entries)[k - 1];
        assert spine[1..][k - 1] == spine[k];
      }
    }
  }

  function Min(x: int, y: int): int {
    if x < y then x else y
  }

  /** The bucket an event falls in is the k-th exactly if it lies within the k-th unit of the window. */
  lemma InBucketIff(at: Time, from: Time, to: Time, unit: int, k: nat)
    requires unit > 0 && InWindow(at, from, to) && k < |Spine(from, to, unit)|
    ensures BucketOf(at, from, unit) == Spine(from, to, unit)[k] <==>
            from + k * unit <= at < Min(to, from + (k + 1) * unit)
  {
    EventHasOneBucket(at, from, to, unit);
    SpineTilesWindow(from, to, unit);
    assert Spine(from, to, unit)[k] in Spine(from, to, unit);
    assert (k + 1) * unit == k * unit + unit;
  }

  lemma {:induction false} BucketSum(ms: seq<Movement>, from: Time, to: Time, unit: int, k: nat)
    requires unit > 0 && k < |Spine(from, to, unit)|
    ensures SumFor(Bucketed(ms, from, to, unit), Spine(from, to, unit)[k])
         == WindowSum(ms, from + k * unit, Min(to, from + (k + 1) * unit))
  {
    if ms != [] {
      var rest := Bucketed(ms[1..], from, to, unit);
      BucketSum(ms[1..], from, to, unit, k);
      assert k * unit >= 0;
      if InWindow(ms[0].at, from, to) {
        InBucketIff(ms[0].at, from, to, unit, k);
        assert Bucketed(ms, from, to, unit)[1..] == rest;
      } else {
        assert Bucketed(ms, from, to, unit) == rest;
      }
    }
  }

  /** The k-th value of the series is what moved within the k-th unit of the window; the last may be cut short. */
  lemma SeriesAtBucket(ms: seq<Movement>, from: Time, to: Time, unit: int)
    requires unit > 0
    ensures var series := Series(ms, from, to, unit);
            && |series| == |Spine(from, to, unit)|
            && forall k :: 0 <= k < |series| ==> series[k] == WindowSum(ms, from + k * unit, Min(to, from + (k + 1) * unit))
  {
    ColumnAt(Spine(from, to, unit), Bucketed(ms, from, to, unit));
    forall k: nat | k < |Spine(from, to, unit)|
      ensures Series(ms, from, to, unit)[k] == WindowSum(ms, from + k * unit, Min(to, from + (k + 1) * unit))
    {
      BucketSum(ms, from, to, unit, k);
    }
  }

  /** A series has one value for every unit begun. */
  lemma SeriesLength(ms: seq<Movement>, from: Time, to: Time, unit: int, n: nat)
    requires unit > 0 && to <= from + n * unit && (n > 0 ==> from + (n - 1) * unit < to)
    ensures |Series(ms, from, to, unit)| == n
  {
    SeriesAtBucket(ms, from, to, unit);
    StepAt(Local(from), Local(to - 1), unit, n);
    if n > 0 {
      StepAt(Local(from), Local(to - 1), unit, n - 1);
    }
  }

  /** A bucket of "day" is 24 hours from the start of the window, wherever in the day that is. */
  lemma DaySeries(ms: seq<Movement>, from: Time, days: nat, k: nat)
    requires k < days
    ensures var series := Series(ms, from, from + days * 86_400_000_000, BucketUnit("day").value);
            && |series| == days
            && series[k] == WindowSum(ms, from + k * 86_400_000_000, from + (k + 1) * 86_400_000_000)
  {
    var to := from + days * 86_400_000_000;
    SeriesLength(ms, from, to, 86_400_000_000, days);
    SeriesAtBucket(ms, from, to, 86_400_000_000);
  }

  /** A bucket of "week" is seven of them. */
  lemma WeekSeries(ms: seq<Movement>, from: Time, weeks: nat, k: nat)
    requires k < weeks
    ensures var series := Series(ms, from, from + weeks * 604_800_000_000, BucketUnit("week").value);
            var days := Series(ms, from, from + weeks * 604_800_000_000, BucketUnit("day").value);
            && |series| == weeks && |days| == 7 * weeks
            && series[k] == days[7 * k] + days[7 * k + 1] + days[7 * k + 2] + days[7 * k + 3] + days[7 * k + 4]
                            + days[7 * k + 5] + days[7 * k + 6]
  {
    var day, week := 86_400_000_000, 604_800_000_000;
    var to := from + weeks * week;
    SeriesLength(ms, from, to, week, weeks);
    SeriesAtBucket(ms, from, to, week);
    var at := from + k * week;
    SevenDays(ms, at, day);
    DayOfWeek(ms, from, weeks, k, 0);
    DayOfWeek(ms, from, weeks, k, 1);
    DayOfWeek(ms, from, weeks, k, 2);
    DayOfWeek(ms, from, weeks, k, 3);
    DayOfWeek(ms, from, weeks, k, 4);
    DayOfWeek(ms, from, weeks, k, 5);
    DayOfWeek(ms, from, weeks, k, 6);
  }

  lemma DayOfWeek(ms: seq<Movement>, from: Time, weeks: nat, k: nat, d: nat)
    requires k < weeks && d < 7
    ensures var days := Series(ms, from, from + weeks * 604_800_000_000, BucketUnit("day").value);
            var start := from + k * 604_800_000_000 + d * 86_400_000_000;
            |days| == 7 * weeks && days[7 * k + d] == WindowSum(ms, start, start + 86_400_000_000)
  {
    DaySeries(ms, from, 7 * weeks, 7 * k + d);
  }

  /** One end after the other, the windows in between add up. */
  lemma SevenDays(ms: seq<Movement>, at: Time, day: int)
    requires day >= 0
    ensures WindowSum(ms, at, at + 7 * day)
         == WindowSum(ms, at, at + day) + WindowSum(ms, at + day, at + 2 * day) + WindowSum(ms, at + 2 * day, at + 3 * day)
            + WindowSum(ms, at + 3 * day, at + 4 * day) + WindowSum(ms, at + 4 * day, at + 5 * day)
            + WindowSum(ms, at + 5 * day, at + 6 * day) + WindowSum(ms, at + 6 * day, at + 7 * day)
  {
    WindowSumsAdd(ms, at, at + day, at + 7 * day);
    WindowSumsAdd(ms, at + day, at + 2 * day, at + 7 * day);
    WindowSumsAdd(ms, at + 2 * day, at + 3 * day, at + 7 * day);
    WindowSumsAdd(ms, at + 3 * day, at + 4 * day, at + 7 * day);
    WindowSumsAdd(ms, at + 4 * day, at + 5 * day, at + 7 * day);
    WindowSumsAdd(ms, at + 5 * day, at + 6 * day, at + 7 * day);
  }

  lemma DayAndWeekAgree(ms: seq<Movement>, from: Time, to: Time)
    ensures Sum(Series(ms, from, to, BucketUnit("day").value)) == Sum(Series(ms, from, to, BucketUnit("week").value))
  {
    SeriesConserves(ms, from, to, "day");
    SeriesConserves(ms, from, to, "week");
  }

  lemma {:induction false} WindowSumsAdd(ms: seq<Movement>, from: Time, mid: Time, to: Time)
    requires from <= mid <= to
    ensures WindowSum(ms, from, to) == WindowSum(ms, from, mid) + WindowSum(ms, mid, to)
  {
    if ms != [] {
      WindowSumsAdd(ms[1..], from, mid, to);
    }
  }

  /** Adjacent windows add, each bucketed from its own start and with its own bucket size. */
  lemma AdjacentSeriesAdd(ms: seq<Movement>, from: Time, mid: Time, to: Time, b0: string, b1: string, b2: string)
    requires from <= mid <= to && BucketUnit(b0).Some? && BucketUnit(b1).Some? && BucketUnit(b2).Some?
    ensures Sum(Series(ms, from, to, BucketUnit(b0).value))
         == Sum(Series(ms, from, mid, BucketUnit(b1).value)) + Sum(Series(ms, mid, to, BucketUnit(b2).value))
  {
    SeriesConserves(ms, from, to, b0);
    SeriesConserves(ms, from, mid, b1);
    SeriesConserves(ms, mid, to, b2);
    WindowSumsAdd(ms, from, mid, to);
  }

  // ---------- Revenue and order count ----------

  /** revenue: SUM(sign * total) */
  function RevenueOf(events: seq<Event>): seq<Movement> {
    if events == [] then [] else [Movement(events[0].at, events[0].sign * events[0].total)] + RevenueOf(events[1..])
  }

  /** order_count: COUNT(*) FILTER (WHERE sign = 1) */
  function SalesOf(events: seq<Event>): seq<Movement> {
    if events == [] then [] else [Movement(events[0].at, if events[0].sign == 1 then 1 else 0)] + SalesOf(events[1..])
  }

  predicate PaidWithin(o: Order, from: Time, to: Time) {
    o.paidAt.Some? && from <= o.paidAt.value < to
  }

  predicate RefundedWithin(o: Order, from: Time, to: Time) {
    o.cancelledAt.Some? && from <= o.cancelledAt.value < to && o.cancellationReason == Some("refunded")
  }

  /** What an order leaves in a window: its total if it was paid in it, less its total if it was refunded in it. */
  function NetOf(o: Order, from: Time, to: Time): Money {
    (if PaidWithin(o, from, to) then o.total else 0) - (if RefundedWithin(o, from, to) then o.total else 0)
  }

  function NetOfAll(orders: seq<Order>, from: Time, to: Time): Money {
    if orders == [] then 0 else NetOf(orders[0], from, to) + NetOfAll(orders[1..], from, to)
  }

  function PaidIn(orders: seq<Order>, from: Time, to: Time): nat {
    if orders == [] then 0
    else (if PaidWithin(orders[0], from, to) then 1 else 0) + PaidIn(orders[1..], from, to)
  }

  lemma OneMoreEvent(e: Event, rest: seq<Event>, from: Time, to: Time)
    ensures WindowSum(RevenueOf([e] + rest), from, to)
         == (if InWindow(e.at, from, to) then e.sign * e.total else 0) + WindowSum(RevenueOf(rest), from, to)
    ensures WindowSum(SalesOf([e] + rest), from, to)
         == (if InWindow(e.at, from, to) && e.sign == 1 then 1 else 0) + WindowSum(SalesOf(rest), from, to)
  {
    assert ([e] + rest)[1..] == rest;
    assert RevenueOf([e] + rest)[1..] == RevenueOf(rest) && SalesOf([e] + rest)[1..] == SalesOf(rest);
  }

  lemma {:induction false} EventsConcat(a: seq<Event>, b: seq<Event>, from: Time, to: Time)
    ensures WindowSum(RevenueOf(a + b), from, to) == WindowSum(RevenueOf(a), from, to) + WindowSum(RevenueOf(b), from, to)
    ensures WindowSum(SalesOf(a + b), from, to) == WindowSum(SalesOf(a), from, to) + WindowSum(SalesOf(b), from, to)
  {
    if a == [] {
      assert a + b == b;
    } else {
      assert a == [a[0]] + a[1..] && a + b == [a[0]] + (a[1..] + b);
      EventsConcat(a[1..], b, from, to);
      OneMoreEvent(a[0], a[1..], from, to);
      OneMoreEvent(a[0], a[1..] + b, from, to);
    }
  }

  lemma {:induction false} PaidArm(orders: seq<Order>, from: Time, to: Time)
    ensures WindowSum(SalesOf(PaidEvents(orders)), from, to) == PaidIn(orders, from, to)
    ensures WindowSum(SalesOf(RefundEvents(orders)), from, to) == 0
  {
    if orders != [] {
      var o := orders[0];
      PaidArm(orders[1..], from, to);
      if o.paidAt.Some? {
        OneMoreEvent(Event(o.id, o.total, o.paidAt.value, 1), PaidEvents(orders[1..]), from, to);
      } else {
        assert PaidEvents(orders) == PaidEvents(orders[1..]);
      }
      if IsRefunded(o) {
        OneMoreEvent(Event(o.id, o.total, o.cancelledAt.value, -1), RefundEvents(orders[1..]), from, to);
      } else {
        assert RefundEvents(orders) == RefundEvents(orders[1..]);
      }
    }
  }

  lemma {:induction false} BothArms(orders: seq<Order>, from: Time, to: Time)
    ensures WindowSum(RevenueOf(PaidEvents(orders)), from, to) + WindowSum(RevenueOf(RefundEvents(orders)), from, to)
         == NetOfAll(orders, from, to)
  {
    if orders != [] {
      var o := orders[0];
      BothArms(orders[1..], from, to);
      if o.paidAt.Some? {
        OneMoreEvent(Event(o.id, o.total, o.paidAt.value, 1), PaidEvents(orders[1..]), from, to);
      } else {
        assert PaidEvents(orders) == PaidEvents(orders[1..]);
      }
      if IsRefunded(o) {
        OneMoreEvent(Event(o.id, o.total, o.cancelledAt.value, -1), RefundEvents(orders[1..]), from, to);
      } else {
        assert RefundEvents(orders) == RefundEvents(orders[1..]);
      }
    }
  }

  /** What the ledger says of a window is what its orders leave in it. */
  lemma LedgerIsTheOrders(orders: seq<Order>, from: Time, to: Time)
    ensures WindowSum(RevenueOf(Ledger(orders)), from, to) == NetOfAll(orders, from, to)
    ensures WindowSum(SalesOf(Ledger(orders)), from, to) == PaidIn(orders, from, to)
  {
    EventsConcat(PaidEvents(orders), RefundEvents(orders), from, to);
    BothArms(orders, from, to);
    PaidArm(orders, from, to);
  }

  /** The revenue series adds up to what the orders leave in the window, the count to the orders paid in it. */
  lemma SeriesIsTheOrders(orders: seq<Order>, from: Time, to: Time, bucket: string)
    requires BucketUnit(bucket).Some?
    ensures Sum(Series(RevenueOf(Ledger(orders)), from, to, BucketUnit(bucket).value)) == NetOfAll(orders, from, to)
    ensures Sum(Series(SalesOf(Ledger(orders)), from, to, BucketUnit(bucket).value)) == PaidIn(orders, from, to)
  {
    SeriesConserves(RevenueOf(Ledger(orders)), from, to, bucket);
    SeriesConserves(SalesOf(Ledger(orders)), from, to, bucket);
    LedgerIsTheOrders(orders, from, to);
  }

  /** And bucket by bucket: each shows what the orders leave in it, and how many were paid in it. */
  lemma BucketIsTheOrders(orders: seq<Order>, from: Time, to: Time, unit: int, k: nat)
    requires unit > 0 && k < |Spine(from, to, unit)|
    ensures var start, end := from + k * unit, Min(to, from + (k + 1) * unit);
            var revenue, count := Series(RevenueOf(Ledger(orders)), from, to, unit), Series(SalesOf(Ledger(orders)), from, to, unit);
            && |revenue| == |count| == |Spine(from, to, unit)|
            && revenue[k] == NetOfAll(orders, start, end) && count[k] == PaidIn(orders, start, end)
  {
    SeriesAtBucket(RevenueOf(Ledger(orders)), from, to, unit);
    SeriesAtBucket(SalesOf(Ledger(orders)), from, to, unit);
    LedgerIsTheOrders(orders, from + k * unit, Min(to, from + (k + 1) * unit));
  }

  lemma {:induction false} NetsConcat(a: seq<Order>, b: seq<Order>, from: Time, to: Time)
    ensures NetOfAll(a + b, from, to) == NetOfAll(a, from, to) + NetOfAll(b, from, to)
    ensures PaidIn(a + b, from, to) == PaidIn(a, from, to) + PaidIn(b, from, to)
  {
    if a == [] {
      assert a + b == b;
    } else {
      assert (a + b)[1..] == a[1..] + b;
      NetsConcat(a[1..], b, from, to);
    }
  }

  /** An order paid and refunded inside the window adds nothing to the revenue and one to the count. */
  lemma RefundedSaleNetsZeroAndCountsOnce(before: seq<Order>, o: Order, after: seq<Order>, from: Time, to: Time, bucket: string)
    requires BucketUnit(bucket).Some?
    requires o.paidAt.Some? && from <= o.paidAt.value < to
    requires o.cancellationReason == Some("refunded") && o.cancelledAt.Some? && from <= o.cancelledAt.value < to
    ensures var unit := BucketUnit(bucket).value;
            var with, without := Ledger(before + ([o] + after)), Ledger(before + after);
            && Sum(Series(RevenueOf(with), from, to, unit)) == Sum(Series(RevenueOf(without), from, to, unit))
            && Sum(Series(SalesOf(with), from, to, unit)) == Sum(Series(SalesOf(without), from, to, unit)) + 1
  {
    SeriesIsTheOrders(before + ([o] + after), from, to, bucket);
    SeriesIsTheOrders(before + after, from, to, bucket);
    NetsConcat(before, [o] + after, from, to);
    NetsConcat([o], after, from, to);
    NetsConcat(before, after, from, to);
    assert [o][1..] == [];
  }

  // ---------- Item lines ----------

  /** A row of revenue_event JOIN order_item. */
  datatype Line = Line(at: Time, product: ProductId, productType: string, amount: Money)

  function LineAmount(sign: int, item: Item): Money {
    sign * (if item.jumlah.Some? then item.jumlah.value else item.unitPrice * item.qty)
  }

  function LinesOf(e: Event, items: seq<Item>): seq<Line> {
    if items == [] then []
    else
      (if items[0].order == e.order then [Line(e.at, items[0].product, items[0].productType, LineAmount(e.sign, items[0]))] else [])
      + LinesOf(e, items[1..])
  }

  function Lines(events: seq<Event>, items: seq<Item>): seq<Line> {
    if events == [] then [] else LinesOf(events[0], items) + Lines(events[1..], items)
  }

  /** SUM(...) FILTER (WHERE product_type = ANY(physicalTypes)) and its complement */
  function SplitOf(lines: seq<Line>, physicalTypes: set<string>, physical: bool): seq<Movement> {
    if lines == [] then []
    else
      [Movement(lines[0].at, if (lines[0].productType in physicalTypes) == physical then lines[0].amount else 0)]
      + SplitOf(lines[1..], physicalTypes, physical)
  }

  /** The lines of the window, grouped by product. */
  function ByProduct(lines: seq<Line>, from: Time, to: Time): seq<Entry<ProductId>> {
    if lines == [] then []
    else
      (if InWindow(lines[0].at, from, to) then [Entry(lines[0].product, lines[0].amount)] else [])
      + ByProduct(lines[1..], from, to)
  }

  /** GROUP BY: every key once. */
  function Keys<K(==)>(entries: seq<Entry<K>>): seq<K> {
    if entries == [] then []
    else
      var rest := Keys(entries[1..]);
      if entries[0].key in rest then rest else [entries[0].key] + rest
  }

  lemma {:induction false} KeysCover<K>(entries: seq<Entry<K>>)
    ensures Distinct(Keys(entries))
    ensures forall i :: 0 <= i < |entries| ==> entries[i].key in Keys(entries)
    ensures forall k :: k in Keys(entries) ==> exists i :: 0 <= i < |entries| && entries[i].key == k
  {
    if entries != [] {
      KeysCover(entries[1..]);
      assert forall i :: 1 <= i < |entries| ==> entries[i] == entries[1..][i - 1];
      assert forall i :: 0 <= i < |entries| - 1 ==> entries[1..][i] == entries[i + 1];
    }
  }

  lemma {:induction false} SplitIsProducts(lines: seq<Line>, physicalTypes: set<string>, from: Time, to: Time)
    ensures WindowSum(SplitOf(lines, physicalTypes, true), from, to) + WindowSum(SplitOf(lines, physicalTypes, false), from, to)
         == Total(ByProduct(lines, from, to))
  {
    if lines != [] {
      SplitIsProducts(lines[1..], physicalTypes, from, to);
      assert SplitOf(lines, physicalTypes, true)[1..] == SplitOf(lines[1..], physicalTypes, true);
      assert SplitOf(lines, physicalTypes, false)[1..] == SplitOf(lines[1..], physicalTypes, false);
      var rest := ByProduct(lines[1..], from, to);
      if InWindow(lines[0].at, from, to) {
        assert ByProduct(lines, from, to)[1..] == rest;
      } else {
        assert ByProduct(lines, from, to) == rest;
      }
    }
  }

  // ---------- The lines are the orders' items ----------

  /** Which items a figure is about: one product, or one side of the split. */
  datatype Wanted = OfProduct(id: ProductId) | OfKind(types: set<string>, physical: bool)

  predicate Wants(w: Wanted, product: ProductId, productType: string) {
    match w
    case OfProduct(id) => product == id
    case OfKind(types, physical) => physical == (productType in types)
  }

  /** What an order's wanted items cost: the line's total, or price times quantity without one. */
  function ItemsAmount(id: OrderId, items: seq<Item>, w: Wanted): Money {
    if items == [] then 0
    else
      var i := items[0];
      (if i.order == id && Wants(w, i.product, i.productType)
       then match i.jumlah case Some(total) => total case None => i.unitPrice * i.qty
       else 0)
      + ItemsAmount(id, items[1..], w)
  }

  /** What the wanted items of an order leave in a window. */
  function ItemsNet(o: Order, items: seq<Item>, w: Wanted, from: Time, to: Time): Money {
    (if PaidWithin(o, from, to) then ItemsAmount(o.id, items, w) else 0)
    - (if RefundedWithin(o, from, to) then ItemsAmount(o.id, items, w) else 0)
  }

  function ItemsNetOfAll(orders: seq<Order>, items: seq<Item>, w: Wanted, from: Time, to: Time): Money {
    if orders == [] then 0 else ItemsNet(orders[0], items, w, from, to) + ItemsNetOfAll(orders[1..], items, w, from, to)
  }

  /** What the wanted lines of a window add up to. */
  function LineSum(lines: seq<Line>, w: Wanted, from: Time, to: Time): Money {
    if lines == [] then 0
    else
      (if from <= lines[0].at < to && Wants(w, lines[0].product, lines[0].productType) then lines[0].amount else 0)
      + LineSum(lines[1..], w, from, to)
  }

  lemma {:induction false} LinesAdd(a: seq<Line>, b: seq<Line>, w: Wanted, from: Time, to: Time)
    ensures LineSum(a + b, w, from, to) == LineSum(a, w, from, to) + LineSum(b, w, from, to)
  {
    if a == [] {
      assert a + b == b;
    } else {
      assert (a + b)[1..] == a[1..] + b;
      LinesAdd(a[1..], b, w, from, to);
    }
  }

  lemma {:induction false} LinesOfEvent(e: Event, items: seq<Item>, w: Wanted, from: Time, to: Time)
    ensures LineSum(LinesOf(e, items), w, from, to)
         == if from <= e.at < to then e.sign * ItemsAmount(e.order, items, w) else 0
  {
    if items != [] {
      var i := items[0];
      var rest := LinesOf(e, items[1..]);
      LinesOfEvent(e, items[1..], w, from, to);
      if i.order == e.order {
        assert LinesOf(e, items)[1..] == rest;
        var price := if i.jumlah.Some? then i.jumlah.value else i.unitPrice * i.qty;
        assert LineAmount(e.sign, i) == e.sign * price;
        assert e.sign * (price + ItemsAmount(e.order, items[1..], w)) == e.sign * price + e.sign * ItemsAmount(e.order, items[1..], w);
      } else {
        assert LinesOf(e, items) == rest;
      }
    }
  }

  lemma OneMoreLines(e: Event, rest: seq<Event>, items: seq<Item>, w: Wanted, from: Time, to: Time)
    ensures LineSum(Lines([e] + rest, items), w, from, to)
         == (if from <= e.at < to then e.sign * ItemsAmount(e.order, items, w) else 0) + LineSum(Lines(rest, items), w, from, to)
  {
    assert ([e] + rest)[1..] == rest;
    LinesAdd(LinesOf(e, items), Lines(rest, items), w, from, to);
    LinesOfEvent(e, items, w, from, to);
  }

  lemma {:induction false} LinesConcat(a: seq<Event>, b: seq<Event>, items: seq<Item>)
    ensures Lines(a + b, items) == Lines(a, items) + Lines(b, items)
  {
    if a == [] {
      assert a + b == b;
    } else {
      assert (a + b)[1..] == a[1..] + b;
      LinesConcat(a[1..], b, items);
    }
  }

  lemma {:induction false} ArmsOfLines(orders: seq<Order>, items: seq<Item>, w: Wanted, from: Time, to: Time)
    ensures LineSum(Lines(PaidEvents(orders), items), w, from, to) + LineSum(Lines(RefundEvents(orders), items), w, from, to)
         == ItemsNetOfAll(orders, items, w, from, to)
  {
    if orders != [] {
      var o := orders[0];
      ArmsOfLines(orders[1..], items, w, from, to);
      if o.paidAt.Some? {
        OneMoreLines(Event(o.id, o.total, o.paidAt.value, 1), PaidEvents(orders[1..]), items, w, from, to);
      } else {
        assert PaidEvents(orders) == PaidEvents(orders[1..]);
      }
      if IsRefunded(o) {
        OneMoreLines(Event(o.id, o.total, o.cancelledAt.value, -1), RefundEvents(orders[1..]), items, w, from, to);
      } else {
        assert RefundEvents(orders) == RefundEvents(orders[1..]);
      }
    }
  }

  lemma LinesAreItems(orders: seq<Order>, items: seq<Item>, w: Wanted, from: Time, to: Time)
    ensures LineSum(Lines(Ledger(orders), items), w, from, to) == ItemsNetOfAll(orders, items, w, from, to)
  {
    LinesConcat(PaidEvents(orders), RefundEvents(orders), items);
    LinesAdd(Lines(PaidEvents(orders), items), Lines(RefundEvents(orders), items), w, from, to);
    ArmsOfLines(orders, items, w, from, to);
  }

  lemma {:induction false} SplitSum(lines: seq<Line>, types: set<string>, physical: bool, from: Time, to: Time)
    ensures WindowSum(SplitOf(lines, types, physical), from, to) == LineSum(lines, OfKind(types, physical), from, to)
  {
    if lines != [] {
      SplitSum(lines[1..], types, physical, from, to);
      assert SplitOf(lines, types, physical)[1..] == SplitOf(lines[1..], types, physical);
    }
  }

  lemma {:induction false} ProductSum(lines: seq<Line>, product: ProductId, from: Time, to: Time)
    ensures SumFor(ByProduct(lines, from, to), product) == LineSum(lines, OfProduct(product), from, to)
  {
    if lines != [] {
      var rest := ByProduct(lines[1..], from, to);
      ProductSum(lines[1..], product, from, to);
      if InWindow(lines[0].at, from, to) {
        assert ByProduct(lines, from, to)[1..] == rest;
      } else {
        assert ByProduct(lines, from, to) == rest;
      }
    }
  }

  /** Each bucket of the split shows what the orders' items of that kind leave in it. */
  lemma SplitBucketIsTheItems(orders: seq<Order>, items: seq<Item>, types: set<string>, physical: bool, from: Time, to: Time,
                              unit: int, k: nat)
    requires unit > 0 && k < |Spine(from, to, unit)|
    ensures var series := Series(SplitOf(Lines(Ledger(orders), items), types, physical), from, to, unit);
            && |series| == |Spine(from, to, unit)|
            && series[k] == ItemsNetOfAll(orders, items, OfKind(types, physical), from + k * unit, Min(to, from + (k + 1) * unit))
  {
    var start, end := from + k * unit, Min(to, from + (k + 1) * unit);
    SeriesAtBucket(SplitOf(Lines(Ledger(orders), items), types, physical), from, to, unit);
    SplitSum(Lines(Ledger(orders), items), types, physical, start, end);
    LinesAreItems(orders, items, OfKind(types, physical), start, end);
  }

  /** A product's revenue is what the orders' items of that product leave in the window. */
  lemma ProductIsItsItems(orders: seq<Order>, items: seq<Item>, product: ProductId, from: Time, to: Time)
    ensures SumFor(ByProduct(Lines(Ledger(orders), items), from, to), product)
         == ItemsNetOfAll(orders, items, OfProduct(product), from, to)
  {
    ProductSum(Lines(Ledger(orders), items), product, from, to);
    LinesAreItems(orders, items, OfProduct(product), from, to);
  }

  /**
   TopProducts and the split series read the same money: over one window the product revenues, all
   products listed, add up to the digital and physical columns together, whatever the bucket size.
   */
  lemma ProductsAgreeWithSplit(orders: seq<Order>, items: seq<Item>, physicalTypes: set<string>, from: Time, to: Time, bucket: string)
    requires BucketUnit(bucket).Some?
    ensures var lines := Lines(Ledger(orders), items);
            var products := ByProduct(lines, from, to);
            var unit := BucketUnit(bucket).value;
            SumOver(Keys(products), products) ==
            Sum(Series(SplitOf(lines, physicalTypes, true), from, to, unit))
            + Sum(Series(SplitOf(lines, physicalTypes, false), from, to, unit))
  {
    var lines := Lines(Ledger(orders), items);
    var products := ByProduct(lines, from, to);
    KeysCover(products);
    GroupsAddUp(Keys(products), products);
    SplitIsProducts(lines, physicalTypes, from, to);
    SeriesConserves(SplitOf(lines, physicalTypes, true), from, to, bucket);
    SeriesConserves(SplitOf(lines, physicalTypes, false), from, to, bucket);
  }
}
