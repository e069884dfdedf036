/** The prediction timeline chart: history entries bucketed by the minute of their
    timestamp into high-risk, low-risk and total counts, the last 30 buckets shown. The
    time-zone conversion of a timestamp is not modelled: each entry carries its local hour
    and minute. The chart keys its buckets by the "HH:MM" label; since the label is
    injective (LabelIsInjective), the model keys them by the (hour, minute) slot, which
    groups and orders them identically. The `buckets` object is its keys in insertion
    order (a "HH:MM" key is not an array index, so JavaScript keeps that order) together
    with the bucket under each key. */
module Timeline {
  import opened Common

  type Hour = h: int | 0 <= h < 24
  type Minute = m: int | 0 <= m < 60

  /** One history entry as the chart reads it. */
  datatype Event = Event(hour: Hour, minute: Minute, prediction: int)

  type Slot = (Hour, Minute)

  datatype Bucket = Bucket(time: string, highRisk: nat, lowRisk: nat, total: nat)

  const MAX_BUCKETS: nat := 30

  function Digit(d: nat): char
    requires d < 10
  {
    (48 + d) as char
  }

  /** `n.toString().padStart(2, '0')` for 0 <= n < 100. */
  function Pad2(n: nat): (s: string)
    requires n < 100
    ensures |s| == 2
  {
    [Digit(n / 10), Digit(n % 10)]
  }

  /** The bucket label "HH:MM". */
  function Label(slot: Slot): (k: string)
    ensures |k| == 5 && k[2] == ':'
  {
    Pad2(slot.0) + ":" + Pad2(slot.1)
  }

  /** Two slots have the same label only if they are the same slot. */
  lemma LabelIsInjective(a: Slot, b: Slot)
    ensures Label(a) == Label(b) <==> a == b
  {
    if Label(a) == Label(b) {
      assert Label(a)[0] == Label(b)[0] && Label(a)[1] == Label(b)[1];
      assert Label(a)[3] == Label(b)[3] && Label(a)[4] == Label(b)[4];
    }
  }

  function SlotOf(e: Event): Slot { (e.hour, e.minute) }

  /** The bucket an entry lands in, counted. */
  function Counted(b: Bucket, e: Event): Bucket
  {
    if e.prediction == 1 then b.(highRisk := b.highRisk + 1, total := b.total + 1)
    else b.(lowRisk := b.lowRisk + 1, total := b.total + 1)
  }

  function EmptyBucket(slot: Slot): Bucket { Bucket(Label(slot), 0, 0, 0) }

  /** The `buckets` object: its keys in insertion order and the bucket under each key. */
  datatype Table = Table(order: seq<Slot>, entries: map<Slot, Bucket>)

  /** What holds of the object after any number of entries: each key listed once, the
      listed keys are those with a bucket, each bucket carries its own key's label, has
      counted at least one entry, and its total is its high- plus low-risk count. */
  ghost predicate Valid(t: Table)
  {
    && Distinct(t.order)
    && (forall k :: k in t.order <==> k in t.entries)
    && (forall k :: k in t.entries ==>
          && t.entries[k].time == Label(k)
          && t.entries[k].total == t.entries[k].highRisk + t.entries[k].lowRisk > 0)
  }

  /** One entry added: its key's bucket is created (and the key listed last) if missing,
      then counted. */
  function Tally(t: Table, e: Event): Table
  {
    var key := SlotOf(e);
    if key in t.entries then Table(t.order, t.entries[key := Counted(t.entries[key], e)])
    else Table(t.order + [key], t.entries[key := Counted(EmptyBucket(key), e)])
  }

  /** The object after the entries, taken in order, have been tallied. Every listed key
      has a bucket. */
  function Buckets(events: seq<Event>): (t: Table)
    ensures forall k :: k in t.order ==> k in t.entries
  {
    if events == [] then Table([], map[]) else Tally(Buckets(events[..|events| - 1]), events[|events| - 1])
  }

  lemma {:induction false} BucketsAreValid(events: seq<Event>)
    ensures Valid(Buckets(events))
  {
    if events != [] {
      var init := events[..|events| - 1];
      BucketsAreValid(init);
      var prev := Buckets(init);
      var key := SlotOf(events[|events| - 1]);
      if key !in prev.entries {
        assert Distinct(prev.order + [key]);
      }
    }
  }

  /** `Object.values(buckets)`: the buckets in key order. */
  function Rows(t: Table): (rows: seq<Bucket>)
    requires forall k :: k in t.order ==> k in t.entries
    ensures |rows| == |t.order|
    ensures forall i :: 0 <= i < |t.order| ==> rows[i] == t.entries[t.order[i]]
  {
    seq(|t.order|, i requires 0 <= i < |t.order| => t.entries[t.order[i]])
  }

  /** The chart data: nothing for a missing or empty history; otherwise the buckets in
      order of creation, of which the last 30. */
  method TimelineData(history: Option<seq<Event>>) returns (data: Option<seq<Bucket>>)
    ensures history.None? || history.value == [] ==> data.None?
    ensures history.Some? && history.value != [] ==>
              data == Some(LastN(Rows(Buckets(history.value)), MAX_BUCKETS))
  {
    if history.None? || history.value == [] {
      return None;
    }
    var events := history.value;
    var buckets := Table([], map[]);
    for i := 0 to |events|
      invariant buckets == Buckets(events[..i])
    {
      buckets := CountEvent(buckets, events[i]);
      assert events[..i + 1][..i] == events[..i];
    }
    assert events[..|events|] == events;
    data := Some(LastN(Rows(buckets), MAX_BUCKETS));
  }

  /** The loop body: the entry's bucket is created when missing, then one of its risk
      counters and its total are incremented. */
  method CountEvent(t: Table, e: Event) returns (updated: Table)
    ensures updated == Tally(t, e)
  {
    var key := SlotOf(e);
    var order, entries := t.order, t.entries;
    if key !in entries {
      entries := entries[key := EmptyBucket(key)];
      order := order + [key];
    }
    var b := entries[key];
    if e.prediction == 1 {
      b := b.(highRisk := b.highRisk + 1);
    } else {
      b := b.(lowRisk := b.lowRisk + 1);
    }
    b := b.(total := b.total + 1);
    entries := entries[key := b];
    updated := Table(order, entries);
  }

  // ----- what the buckets hold -----

  /** What to count: the entries of a slot, or only its high-risk or low-risk ones. */
  datatype Filter = InSlot(slot: Slot) | HighRiskIn(slot: Slot) | LowRiskIn(slot: Slot)

  predicate Matches(f: Filter, e: Event)
  {
    match f
    case InSlot(k) => SlotOf(e) == k
    case HighRiskIn(k) => SlotOf(e) == k && e.prediction == 1
    case LowRiskIn(k) => SlotOf(e) == k && e.prediction != 1
  }

  /** The number of entries the filter matches. */
  function Count(s: seq<Event>, p: Filter): (n: nat)
    ensures n <= |s|
  {
    if s == [] then 0 else Count(s[..|s| - 1], p) + (if Matches(p, s[|s| - 1]) then 1 else 0)
  }

  lemma {:induction false} CountConcat(a: seq<Event>, b: seq<Event>, p: Filter)
    ensures Count(a + b, p) == Count(a, p) + Count(b, p)
  {
    if b == [] {
      assert a + b == a;
    } else {
      assert (a + b)[..|a + b| - 1] == a + b[..|b| - 1];
      CountConcat(a, b[..|b| - 1], p);
    }
  }

  lemma {:induction false} CountMonotone(s: seq<Event>, p: Filter, q: Filter)
    requires forall x :: Matches(p, x) ==> Matches(q, x)
    ensures Count(s, p) <= Count(s, q)
  {
    if s != [] {
      CountMonotone(s[..|s| - 1], p, q);
    }
  }

  /** A count depends only on the elements, not on their order. */
  lemma {:induction false} CountPermutation(a: seq<Event>, b: seq<Event>, p: Filter)
    requires multiset(a) == multiset(b)
    ensures Count(a, p) == Count(b, p)
  {
    if a != [] {
      var x := a[|a| - 1];
      assert x in multiset(b);
      var i :| 0 <= i < |b| && b[i] == x;
      assert b == b[..i] + [x] + b[i + 1..];
      assert a == a[..|a| - 1] + [x];
      var rest := b[..i] + b[i + 1..];
      assert multiset(b) == multiset(b[..i]) + multiset{x} + multiset(b[i + 1..]);
      assert multiset(a) == multiset(a[..|a| - 1]) + multiset{x};
      assert multiset(rest) == multiset(b[..i]) + multiset(b[i + 1..]);
      assert multiset(a[..|a| - 1]) == multiset(a) - multiset{x};
      assert multiset(rest) == multiset(b) - multiset{x};
      CountPermutation(a[..|a| - 1], rest, p);
      CountConcat(b[..i] + [x], b[i + 1..], p);
      CountConcat(b[..i], [x], p);
      CountConcat(b[..i], b[i + 1..], p);
      CountConcat(a[..|a| - 1], [x], p);
      assert [x][..0] == [];
    } else {
      assert b == [];
    }
  }

  /** Count unfolded at the last entry. */
  lemma CountLast(s: seq<Event>, p: Filter)
    requires s != []
    ensures Count(s, p) == Count(s[..|s| - 1], p) + if Matches(p, s[|s| - 1]) then 1 else 0
  {
  }

  /** Each key's bucket counts exactly the entries with that key: the high-risk ones
      (prediction 1), the low-risk ones (any other prediction) and all of them; a key no
      entry has has no bucket. */
  lemma {:induction false} BucketCountsPerKey(events: seq<Event>, k: Slot)
    ensures k in Buckets(events).entries <==> Count(events, InSlot(k)) > 0
    ensures k in Buckets(events).entries ==>
              Buckets(events).entries[k] ==
                Bucket(Label(k), Count(events, HighRiskIn(k)), Count(events, LowRiskIn(k)), Count(events, InSlot(k)))
  {
    if events != [] {
      var init, e := events[..|events| - 1], events[|events| - 1];
      BucketCountsPerKey(init, k);
      CountMonotone(init, HighRiskIn(k), InSlot(k));
      CountMonotone(init, LowRiskIn(k), InSlot(k));
      CountLast(events, InSlot(k));
      CountLast(events, HighRiskIn(k));
      CountLast(events, LowRiskIn(k));
      TallyAt(Buckets(init), e, k);
    }
  }

  /** A tally changes only the entry's own key. */
  lemma TallyAt(t: Table, e: Event, k: Slot)
    ensures k in Tally(t, e).entries <==> k in t.entries || SlotOf(e) == k
    ensures k in Tally(t, e).entries ==>
              Tally(t, e).entries[k] ==
                if SlotOf(e) != k then t.entries[k]
                else Counted(if k in t.entries then t.entries[k] else EmptyBucket(k), e)
  {
  }

  /** Bucketing depends only on each entry's key and prediction: reordering the entries
      may reorder the keys but yields the same bucket under every key. */
  lemma OrderDoesNotChangeCounts(a: seq<Event>, b: seq<Event>)
    requires multiset(a) == multiset(b)
    ensures Buckets(a).entries == Buckets(b).entries
  {
    forall k ensures (k in Buckets(a).entries <==> k in Buckets(b).entries)
                  && (k in Buckets(a).entries ==> Buckets(a).entries[k] == Buckets(b).entries[k]) {
      BucketCountsPerKey(a, k);
      BucketCountsPerKey(b, k);
      CountPermutation(a, b, InSlot(k));
      CountPermutation(a, b, HighRiskIn(k));
      CountPermutation(a, b, LowRiskIn(k));
    }
  }

  function SumTotals(rows: seq<Bucket>): nat
  {
    if rows == [] then 0 else SumTotals(rows[..|rows| - 1]) + rows[|rows| - 1].total
  }

  lemma {:induction false} SumTotalsUpdate(rows: seq<Bucket>, i: nat, b: Bucket)
    requires i < |rows|
    ensures SumTotals(rows[i := b]) + rows[i].total == SumTotals(rows) + b.total
  {
    if i < |rows| - 1 {
      assert rows[i := b][..|rows| - 1] == rows[..|rows| - 1][i := b];
      SumTotalsUpdate(rows[..|rows| - 1], i, b);
    } else {
      assert rows[i := b][..|rows| - 1] == rows[..|rows| - 1];
    }
  }

  /** Tallying one entry adds one to the sum of the totals. */
  lemma TallyAddsOne(t: Table, e: Event)
    requires Valid(t)
    ensures SumTotals(Rows(Tally(t, e))) == SumTotals(Rows(t)) + 1
  {
    var key, cur := SlotOf(e), Tally(t, e);
    if key in t.entries {
      var i :| 0 <= i < |t.order| && t.order[i] == key;
      assert Rows(cur) == Rows(t)[i := cur.entries[key]];
      SumTotalsUpdate(Rows(t), i, cur.entries[key]);
    } else {
      assert Rows(cur) == Rows(t) + [cur.entries[key]];
      assert (Rows(t) + [cur.entries[key]])[..|t.order|] == Rows(t);
    }
  }

  /** Before the last-30 slice, the bucket totals add up to the number of entries:
      nothing is dropped or counted twice. */
  lemma {:induction false} TotalsCoverEveryEntry(events: seq<Event>)
    ensures SumTotals(Rows(Buckets(events))) == |events|
  {
    if events != [] {
      var init := events[..|events| - 1];
      TotalsCoverEveryEntry(init);
      BucketsAreValid(init);
      TallyAddsOne(Buckets(init), events[|events| - 1]);
    }
  }

  function EventSlots(events: seq<Event>): (ks: seq<Slot>)
    ensures |ks| == |events|
    ensures forall i :: 0 <= i < |events| ==> ks[i] == SlotOf(events[i])
  {
    if events == [] then [] else EventSlots(events[..|events| - 1]) + [SlotOf(events[|events| - 1])]
  }

  /** The buckets are those of the entries' keys, in the order in which each key first
      occurs; the chart does not re-sort them. */
  lemma {:induction false} BucketsInFirstOccurrenceOrder(events: seq<Event>)
    ensures forall k :: k in Buckets(events).order <==> k in EventSlots(events)
    ensures forall i, j :: 0 <= i < j < |Buckets(events).order| ==>
              IndexOf(EventSlots(events), Buckets(events).order[i]) < IndexOf(EventSlots(events), Buckets(events).order[j])
  {
    if events != [] {
      var init, e := events[..|events| - 1], events[|events| - 1];
      BucketsInFirstOccurrenceOrder(init);
      BucketsAreValid(init);
      var prev := Buckets(init).order;
      var eks := EventSlots(init);
      var key := SlotOf(e);
      assert EventSlots(events) == eks + [key];
      forall k | k in eks ensures IndexOf(eks + [key], k) == IndexOf(eks, k) < |eks| {
        IndexOfAppend(eks, key, k);
      }
      if key !in prev {
        assert IndexOf(eks + [key], key) == |eks| by {
          assert (eks + [key])[|eks|] == key;
        }
      }
    }
  }
}
