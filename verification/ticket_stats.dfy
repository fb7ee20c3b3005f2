/**
 * The `stats` action of the ticket view set: total and open counts, the mean
 * number of tickets per creation day, and the per-priority and per-category
 * breakdowns, zero-filled so that every choice is a key.
 *
 * The ticket store is a sequence of tickets; the aggregation queries become
 * functions over it, and the two `setdefault` loops become the method
 * `SetDefaults`.
 */
module TicketStats {
  import opened Tickets

  /** Number of tickets whose `key` is `k` (a `Count('id')` over one group). */
  function CountOf<K(==)>(ts: seq<Ticket>, key: Ticket -> K, k: K): (n: nat)
    ensures n <= |ts|
    ensures n == 0 <==> forall t | t in ts :: key(t) != k
  {
    if ts == [] then 0
    else (if key(ts[0]) == k then 1 else 0) + CountOf(ts[1..], key, k)
  }

  /** The distinct values of `key` that occur in the store (`values(key)` before grouping). */
  function Observed<K>(ts: seq<Ticket>, key: Ticket -> K): set<K>
  {
    set t | t in ts :: key(t)
  }

  lemma ObservedCons<K>(ts: seq<Ticket>, key: Ticket -> K)
    requires ts != []
    ensures Observed(ts, key) == {key(ts[0])} + Observed(ts[1..], key)
  {
    forall k ensures k in Observed(ts, key) <==> k in {key(ts[0])} + Observed(ts[1..], key) {
      if k in Observed(ts, key) {
        var t :| t in ts && key(t) == k;
        if t != ts[0] {
          assert t in ts[1..];
        }
      }
      if k in Observed(ts[1..], key) {
        var t :| t in ts[1..] && key(t) == k;
        assert t in ts;
      }
    }
  }

  /** One row per observed value with its count: `values(key).annotate(count=Count('id'))` as a dict. */
  function GroupCounts<K(==)>(ts: seq<Ticket>, key: Ticket -> K): (m: map<K, nat>)
    ensures m.Keys == Observed(ts, key)
    ensures forall k | k in m :: 0 < m[k] == CountOf(ts, key, k) <= |ts|
  {
    map k | k in Observed(ts, key) :: CountOf(ts, key, k)
  }

  /** Sum of `m` over `keys`. */
  function SumOver<K>(m: map<K, nat>, keys: seq<K>): nat
    requires forall k | k in keys :: k in m
  {
    if keys == [] then 0 else m[keys[0]] + SumOver(m, keys[1..])
  }

  /** Sum of the counts of `keys`. */
  function CountsOver<K(==)>(ts: seq<Ticket>, key: Ticket -> K, keys: seq<K>): nat
  {
    if keys == [] then 0 else CountOf(ts, key, keys[0]) + CountsOver(ts, key, keys[1..])
  }

  /** How many times `k` appears in `keys`. */
  function Occurrences<K(==)>(keys: seq<K>, k: K): nat
  {
    if keys == [] then 0 else (if keys[0] == k then 1 else 0) + Occurrences(keys[1..], k)
  }

  /**
   * The `setdefault` loop: every choice becomes a key, a key already present
   * keeps its count, and only an absent choice is added, with count 0.
   */
  method SetDefaults<K>(m: map<K, nat>, choices: seq<K>) returns (r: map<K, nat>)
    ensures r.Keys == m.Keys + set c | c in choices
    ensures forall k | k in m :: r[k] == m[k]
    ensures forall k | k in r && k !in m :: r[k] == 0
  {
    r := m;
    for i := 0 to |choices|
      invariant r.Keys == m.Keys + set c | c in choices[..i]
      invariant forall k | k in m :: r[k] == m[k]
      invariant forall k | k in r && k !in m :: r[k] == 0
    {
      assert choices[..i + 1] == choices[..i] + [choices[i]];
      if choices[i] !in r {
        r := r[choices[i] := 0];
      }
    }
    assert choices[..|choices|] == choices;
  }

  lemma {:induction false} OccurrencesOfDistinct<K>(keys: seq<K>, k: K)
    requires Distinct(keys)
    ensures Occurrences(keys, k) == if k in keys then 1 else 0
  {
    if keys != [] {
      assert Distinct(keys[1..]) by {
        forall i, j | 0 <= i < j < |keys[1..]| ensures keys[1..][i] != keys[1..][j] {
          assert keys[1..][i] == keys[i + 1] && keys[1..][j] == keys[j + 1];
        }
      }
      OccurrencesOfDistinct(keys[1..], k);
      if keys[0] == k {
        assert k !in keys[1..] by {
          forall i | 0 <= i < |keys[1..]| ensures keys[1..][i] != k {
            assert keys[1..][i] == keys[i + 1];
          }
        }
      } else {
        assert k in keys <==> k in keys[1..] by {
          assert keys == [keys[0]] + keys[1..];
        }
      }
    }
  }

  /** Taking one ticket off the front of the store lowers the summed counts by one indicator. */
  lemma {:induction false} CountsOverCons<K>(t: Ticket, ts: seq<Ticket>, key: Ticket -> K, keys: seq<K>)
    ensures CountsOver([t] + ts, key, keys) == Occurrences(keys, key(t)) + CountsOver(ts, key, keys)
  {
    if keys != [] {
      assert ([t] + ts)[1..] == ts;
      CountsOverCons(t, ts, key, keys[1..]);
    }
  }

  /**
   * When `keys` lists every value `key` can take, each exactly once, the
   * counts over `keys` add up to the size of the store.
   */
  lemma {:induction false} CountsSumToTotal<K>(ts: seq<Ticket>, key: Ticket -> K, keys: seq<K>)
    requires Distinct(keys)
    requires forall t | t in ts :: key(t) in keys
    ensures CountsOver(ts, key, keys) == |ts|
  {
    if ts == [] {
      CountsOfEmpty(key, keys);
    } else {
      assert ts == [ts[0]] + ts[1..];
      CountsOverCons(ts[0], ts[1..], key, keys);
      OccurrencesOfDistinct(keys, key(ts[0]));
      CountsSumToTotal(ts[1..], key, keys);
    }
  }

  lemma {:induction false} CountsOfEmpty<K>(key: Ticket -> K, keys: seq<K>)
    ensures CountsOver([], key, keys) == 0
  {
    if keys != [] {
      CountsOfEmpty(key, keys[1..]);
    }
  }

  /** A map that holds each key's count sums, over those keys, to the summed counts. */
  lemma {:induction false} SumOverCounts<K>(ts: seq<Ticket>, key: Ticket -> K, keys: seq<K>, m: map<K, nat>)
    requires forall k | k in keys :: k in m && m[k] == CountOf(ts, key, k)
    ensures SumOver(m, keys) == CountsOver(ts, key, keys)
  {
    if keys != [] {
      SumOverCounts(ts, key, keys[1..], m);
    }
  }

  /**
   * A breakdown keyed by every choice, each key holding its count, sums to
   * the number of tickets.
   */
  lemma BreakdownSumsToTotal<K>(ts: seq<Ticket>, key: Ticket -> K, choices: seq<K>, m: map<K, nat>)
    requires Distinct(choices)
    requires forall t | t in ts :: key(t) in choices
    requires forall k | k in choices :: k in m && m[k] == CountOf(ts, key, k)
    ensures SumOver(m, choices) == |ts|
  {
    SumOverCounts(ts, key, choices, m);
    CountsSumToTotal(ts, key, choices);
  }

  /** The open count never exceeds the total, and reaches it exactly when every ticket is open. */
  lemma {:induction false} OpenCountAll(ts: seq<Ticket>)
    ensures CountOf(ts, StatusOf, Open) <= |ts|
    ensures CountOf(ts, StatusOf, Open) == |ts| <==> forall t | t in ts :: t.status == Open
  {
    if ts != [] {
      OpenCountAll(ts[1..]);
      assert forall t | t in ts :: t == ts[0] || t in ts[1..];
    }
  }

  // ---------------------------------------------------------------------
  // Tickets per day
  // ---------------------------------------------------------------------

  /** One row of the per-date grouping: a creation day and its ticket count. */
  datatype DayCount = DayCount(day: int, count: nat)

  function DaysOf(rows: seq<DayCount>): set<int>
  {
    set r | r in rows :: r.day
  }

  function TotalCount(rows: seq<DayCount>): nat
  {
    if rows == [] then 0 else rows[0].count + TotalCount(rows[1..])
  }

  /** Summed count of the rows for day `e`. */
  function CountOn(rows: seq<DayCount>, e: int): nat
  {
    if rows == [] then 0 else (if rows[0].day == e then rows[0].count else 0) + CountOn(rows[1..], e)
  }

  /**
   * Records one more ticket created on `day`: the row for that day grows by
   * one, or a new row with count 1 is appended when there is none.
   */
  function Tally(rows: seq<DayCount>, day: int): (r: seq<DayCount>)
    ensures |rows| <= |r| <= |rows| + 1
  {
    if rows == [] then [DayCount(day, 1)]
    else if rows[0].day == day then [DayCount(day, rows[0].count + 1)] + rows[1..]
    else [rows[0]] + Tally(rows[1..], day)
  }

  lemma DaysOfCons(x: DayCount, rows: seq<DayCount>)
    ensures DaysOf([x] + rows) == {x.day} + DaysOf(rows)
  {
    assert forall r | r in [x] + rows :: r == x || r in rows;
  }

  /** Tallying a day adds a row exactly when the day had none, and the day is then present. */
  lemma {:induction false} TallyAddsDay(rows: seq<DayCount>, day: int)
    ensures |Tally(rows, day)| == |rows| + (if day in DaysOf(rows) then 0 else 1)
    ensures DaysOf(Tally(rows, day)) == DaysOf(rows) + {day}
  {
    if rows == [] {
      assert DaysOf([DayCount(day, 1)]) == {day};
    } else {
      DaysOfCons(rows[0], rows[1..]);
      assert rows == [rows[0]] + rows[1..];
      if rows[0].day == day {
        DaysOfCons(DayCount(day, rows[0].count + 1), rows[1..]);
      } else {
        TallyAddsDay(rows[1..], day);
        DaysOfCons(rows[0], Tally(rows[1..], day));
      }
    }
  }

  /** Tallying a day adds one to that day's count and to the total, and nothing else. */
  lemma {:induction false} TallyCounts(rows: seq<DayCount>, day: int)
    ensures TotalCount(Tally(rows, day)) == TotalCount(rows) + 1
    ensures forall e :: CountOn(Tally(rows, day), e) == CountOn(rows, e) + (if e == day then 1 else 0)
  {
    if rows != [] && rows[0].day != day {
      TallyCounts(rows[1..], day);
      var r := Tally(rows, day);
      assert r[1..] == Tally(rows[1..], day);
    } else if rows != [] {
      var r := Tally(rows, day);
      assert r[1..] == rows[1..];
    }
  }

  /** Every row of a tally has a positive count when the rows it started from had. */
  lemma {:induction false} TallyKeepsCountsPositive(rows: seq<DayCount>, day: int)
    requires forall i | 0 <= i < |rows| :: rows[i].count > 0
    ensures forall i | 0 <= i < |Tally(rows, day)| :: Tally(rows, day)[i].count > 0
  {
    if rows != [] && rows[0].day != day {
      TallyKeepsCountsPositive(rows[1..], day);
      var r := Tally(rows, day);
      assert forall i | 1 <= i < |r| :: r[i] == Tally(rows[1..], day)[i - 1];
    }
  }

  /** `annotate(date=TruncDate('created_at')).values('date').annotate(count=Count('id'))`. */
  function DailyCounts(ts: seq<Ticket>): (rows: seq<DayCount>)
    ensures |rows| <= |ts|
    ensures rows == [] <==> ts == []
  {
    if ts == [] then [] else Tally(DailyCounts(ts[1..]), ts[0].createdDay)
  }

  /** The per-date rows have one row per distinct creation day. */
  lemma {:induction false} DailyCountsOneRowPerDay(ts: seq<Ticket>)
    ensures DaysOf(DailyCounts(ts)) == Observed(ts, DayOf)
    ensures |DailyCounts(ts)| == |Observed(ts, DayOf)|
  {
    if ts == [] {
      assert Observed(ts, DayOf) == {};
    } else {
      var day := ts[0].createdDay;
      DailyCountsOneRowPerDay(ts[1..]);
      TallyAddsDay(DailyCounts(ts[1..]), day);
      ObservedCons(ts, DayOf);
      CardAddOne(Observed(ts[1..], DayOf), day);
    }
  }

  /**
   * Each day's rows hold the number of tickets created that day, and all
   * rows together hold the whole store.
   */
  lemma {:induction false} DailyCountsCountTickets(ts: seq<Ticket>)
    ensures TotalCount(DailyCounts(ts)) == |ts|
    ensures forall e :: CountOn(DailyCounts(ts), e) == CountOf(ts, DayOf, e)
  {
    if ts != [] {
      DailyCountsCountTickets(ts[1..]);
      TallyCounts(DailyCounts(ts[1..]), ts[0].createdDay);
    }
  }

  /** No per-date row is empty. */
  lemma {:induction false} DailyCountsPositive(ts: seq<Ticket>)
    ensures forall i | 0 <= i < |DailyCounts(ts)| :: DailyCounts(ts)[i].count > 0
  {
    if ts != [] {
      DailyCountsPositive(ts[1..]);
      TallyKeepsCountsPositive(DailyCounts(ts[1..]), ts[0].createdDay);
    }
  }

  lemma CardAddOne(s: set<int>, x: int)
    ensures |{x} + s| == |s| + (if x in s then 0 else 1)
  {
    if x in s {
      assert {x} + s == s;
    }
  }

  /**
   * `Avg('count')` over the per-date rows, with `or 0` for a store with no
   * tickets (the average of no rows is null). Rounding to one decimal is left out.
   */
  function AvgPerDay(ts: seq<Ticket>): (avg: real)
    ensures avg >= 0.0
    ensures avg == 0.0 <==> ts == []
  {
    DailyCountsCountTickets(ts);
    var rows := DailyCounts(ts);
    if |rows| == 0 then 0.0 else (TotalCount(rows) as real) / (|rows| as real)
  }

  lemma {:induction false} ObservedAtMost<K>(ts: seq<Ticket>, key: Ticket -> K)
    ensures |Observed(ts, key)| <= |ts|
  {
    if ts == [] {
      assert Observed(ts, key) == {};
    } else {
      ObservedAtMost(ts[1..], key);
      ObservedCons(ts, key);
    }
  }

  /**
   * The mean of the per-date counts is the number of tickets divided by the
   * number of distinct creation days; it is 0 for an empty store and at
   * least 1 otherwise.
   */
  lemma AvgIsTicketsOverDays(ts: seq<Ticket>)
    ensures ts == [] ==> AvgPerDay(ts) == 0.0
    ensures ts != [] ==> (
      && |Observed(ts, DayOf)| > 0
      && AvgPerDay(ts) == (|ts| as real) / (|Observed(ts, DayOf)| as real)
      && AvgPerDay(ts) >= 1.0)
  {
    var rows := DailyCounts(ts);
    DailyCountsOneRowPerDay(ts);
    DailyCountsCountTickets(ts);
    if ts != [] {
      assert DayOf(ts[0]) in Observed(ts, DayOf);
      ObservedAtMost(ts, DayOf);
      QuotientAtLeastOne(|ts| as real, |rows| as real);
    }
  }

  lemma QuotientAtLeastOne(x: real, y: real)
    requires 0.0 < y <= x
    ensures x / y >= 1.0
  {
    var q := x / y;
    assert q * y == x;
  }

  /**
   * The zero-filled breakdown built from the observed counts holds, for
   * every choice, the number of tickets with that value.
   */
  lemma ZeroFilledHoldsCounts<K>(ts: seq<Ticket>, key: Ticket -> K, choices: seq<K>, m: map<K, nat>)
    requires forall k | k in Observed(ts, key) :: k in m && m[k] == CountOf(ts, key, k)
    requires forall k | k in choices :: k in m
    requires forall k | k in m && k !in Observed(ts, key) :: m[k] == 0
    ensures forall k | k in choices :: m[k] == CountOf(ts, key, k)
  {
    forall k | k in choices ensures m[k] == CountOf(ts, key, k) {
      if k !in Observed(ts, key) {
        assert forall t | t in ts :: key(t) != k;
      }
    }
  }

  /**
   * One breakdown: the observed counts, then `setdefault(choice, 0)` for
   * every choice. Each choice ends up a key holding its count, and the
   * breakdown sums to the number of tickets.
   */
  method Breakdown<K(==)>(ts: seq<Ticket>, key: Ticket -> K, choices: seq<K>) returns (m: map<K, nat>)
    requires Distinct(choices)
    requires forall t | t in ts :: key(t) in choices
    ensures m.Keys == Observed(ts, key) + set c | c in choices
    ensures forall k | k in choices :: m[k] == CountOf(ts, key, k)
    ensures SumOver(m, choices) == |ts|
  {
    var observed := GroupCounts(ts, key);
    m := SetDefaults(observed, choices);
    ZeroFilledHoldsCounts(ts, key, choices, m);
    BreakdownSumsToTotal(ts, key, choices, m);
  }

  /** The response of the stats action, before rounding of the average. */
  datatype Snapshot = Snapshot(
    totalTickets: nat,
    openTickets: nat,
    avgTicketsPerDay: real,
    priorityBreakdown: map<Priority, nat>,
    categoryBreakdown: map<Category, nat>)

  /**
   * The stats action. Every priority and every category is a key of its
   * breakdown, holding the number of tickets with that value (0 for a
   * value absent from the store), and each breakdown sums to the total.
   */
  method Stats(store: seq<Ticket>) returns (s: Snapshot)
    ensures s.totalTickets == |store|
    ensures s.openTickets == CountOf(store, StatusOf, Open) <= s.totalTickets
    ensures s.avgTicketsPerDay == AvgPerDay(store)
    ensures forall p: Priority :: p in s.priorityBreakdown && s.priorityBreakdown[p] == CountOf(store, PriorityOf, p)
    ensures forall c: Category :: c in s.categoryBreakdown && s.categoryBreakdown[c] == CountOf(store, CategoryOf, c)
    ensures SumOver(s.priorityBreakdown, AllPriorities) == s.totalTickets
    ensures SumOver(s.categoryBreakdown, AllCategories) == s.totalTickets
  {
    ChoicesComplete();
    var total := |store|;
    var open := CountOf(store, StatusOf, Open);
    var avg := AvgPerDay(store);
    var priorities := Breakdown(store, PriorityOf, AllPriorities);
    var categories := Breakdown(store, CategoryOf, AllCategories);
    s := Snapshot(total, open, avg, priorities, categories);
  }
}
