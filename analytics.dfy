/**
 * The revenue analytics view: it groups the rows of the `analysis` table by day,
 * month or year, computes the headline metrics, ranks the best days, lists
 * the years present and restricts the chart to the selected year.
 */
module Analytics {
  import opened Wrappers
  import Seqs
  import Text
  import opened Dates

  /** One row of the `analysis` table; a missing `amount` counts as 0 (`parseFloat(item.amount || 0)`). */
  datatype Record = Record(date: Date, amount: Option<int>)

  /** One bar of the revenue chart: a period key, the revenue in it and the number of rows it gathers. */
  datatype Group = Group(period: string, amount: int, count: int)

  /** One entry of the top-days list. */
  datatype DayRevenue = DayRevenue(date: string, amount: int)

  /** The headline numbers; the mean and the growth rate are exact here. */
  datatype Metrics = Metrics(totalRevenue: int, avgDaily: real, totalTransactions: int, growth: real)

  function AmountOf(r: Record): int {
    r.amount.GetOr(0)
  }

  function One(r: Record): int {
    1
  }

  /** The sum of `w` over `data`, left to right, as `reduce` computes it. */
  function Sum(data: seq<Record>, w: Record -> int): int
    decreases |data|
  {
    if data == [] then 0 else Sum(data[..|data| - 1], w) + w(data[|data| - 1])
  }

  /**
   * The revenue of `data`: the sum of the amounts, a missing amount counting
   * as 0; nothing for no rows, and never negative when no amount is.
   */
  function Revenue(data: seq<Record>): (r: int)
    ensures data == [] ==> r == 0
    ensures (forall i :: 0 <= i < |data| ==> AmountOf(data[i]) >= 0) ==> r >= 0
  {
    SumNonNegative(data, AmountOf);
    Sum(data, AmountOf)
  }

  /** A sum of weights none of which is negative is not negative. */
  lemma {:induction false} SumNonNegative(data: seq<Record>, w: Record -> int)
    ensures (forall i :: 0 <= i < |data| ==> w(data[i]) >= 0) ==> Sum(data, w) >= 0
    decreases |data|
  {
    if data != [] {
      var front := data[..|data| - 1];
      SumNonNegative(front, w);
      assert forall i :: 0 <= i < |front| ==> front[i] == data[i];
    }
  }

  /** The grouping key of a row for a period. */
  function KeyOf(p: Period): Record -> string {
    (r: Record) => PeriodKey(r.date, p)
  }

  /** The ISO day of a row. */
  const DayKeyOf: Record -> string := KeyOf(DayPeriod)

  /** The weight of the rows whose key is `k`: `w` on them, 0 on the others. */
  function KeyWeight(k: string, keyOf: Record -> string, w: Record -> int): Record -> int {
    (r: Record) => if keyOf(r) == k then w(r) else 0
  }

  /** The sum of `w` over the rows of `data` whose key is `k`. */
  function KeyTotal(data: seq<Record>, k: string, keyOf: Record -> string, w: Record -> int): int {
    Sum(data, KeyWeight(k, keyOf, w))
  }

  /** The keys of the periods that contain a row. */
  function KeysOf(data: seq<Record>, keyOf: Record -> string): set<string> {
    set r | r in data :: keyOf(r)
  }

  lemma {:induction false} SumConcat(a: seq<Record>, b: seq<Record>, w: Record -> int)
    ensures Sum(a + b, w) == Sum(a, w) + Sum(b, w)
    decreases |b|
  {
    if b == [] {
      assert a + b == a;
    } else {
      SumConcat(a, b[..|b| - 1], w);
      assert (a + b)[..|a + b| - 1] == a + b[..|b| - 1];
    }
  }

  /** Counting one per row counts the rows. */
  lemma {:induction false} SumOfOnes(data: seq<Record>)
    ensures Sum(data, One) == |data|
    decreases |data|
  {
    if data != [] {
      SumOfOnes(data[..|data| - 1]);
    }
  }

  /** A sum does not depend on the order of the rows. */
  lemma {:induction false} SumPermutation(a: seq<Record>, b: seq<Record>, w: Record -> int)
    requires multiset(a) == multiset(b)
    ensures Sum(a, w) == Sum(b, w)
    decreases |a|
  {
    if a != [] {
      var x := a[|a| - 1];
      var a' := a[..|a| - 1];
      assert a == a' + [x];
      assert x in multiset(b);
      var j :| 0 <= j < |b| && b[j] == x;
      var b' := b[..j] + b[j + 1..];
      assert multiset(b') == multiset(b[..j]) + multiset(b[j + 1..]);
      assert b == b[..j] + [x] + b[j + 1..];
      assert multiset(b) == multiset(b[..j]) + multiset([x]) + multiset(b[j + 1..]);
      assert multiset(a) == multiset(a') + multiset([x]);
      assert multiset(a') == multiset(a) - multiset([x]);
      assert multiset(b') == multiset(b) - multiset([x]);
      SumPermutation(a', b', w);
      SumConcat(b[..j] + [x], b[j + 1..], w);
      SumConcat(b[..j], [x], w);
      SumConcat(b[..j], b[j + 1..], w);
      assert Sum([x], w) == w(x) by {
        assert [x][..0] == [];
      }
    }
  }

  /** Rows the filter drops weigh nothing, so the filter keeps the sum. */
  lemma {:induction false} SumFilter(s: seq<Record>, q: Record -> bool, w: Record -> int)
    requires forall i :: 0 <= i < |s| && !q(s[i]) ==> w(s[i]) == 0
    ensures Sum(Seqs.Filter(s, q), w) == Sum(s, w)
    decreases |s|
  {
    if s != [] {
      SumFilter(s[1..], q, w);
      assert s == [s[0]] + s[1..];
      SumConcat([s[0]], s[1..], w);
      assert Sum([s[0]], w) == w(s[0]) by {
        assert [s[0]][..0] == [];
      }
      if q(s[0]) {
        SumConcat([s[0]], Seqs.Filter(s[1..], q), w);
      }
    }
  }

  /** A key no row has gathers nothing. */
  lemma {:induction false} AbsentKeyTotal(data: seq<Record>, k: string, keyOf: Record -> string, w: Record -> int)
    requires k !in KeysOf(data, keyOf)
    ensures KeyTotal(data, k, keyOf, w) == 0
    decreases |data|
  {
    if data != [] {
      var init := data[..|data| - 1];
      assert KeysOf(init, keyOf) <= KeysOf(data, keyOf) by {
        forall x | x in KeysOf(init, keyOf) ensures x in KeysOf(data, keyOf) {
          var r :| r in init && keyOf(r) == x;
          assert r in data;
        }
      }
      AbsentKeyTotal(init, k, keyOf, w);
      assert keyOf(data[|data| - 1]) in KeysOf(data, keyOf);
    }
  }

  /**
   * What `processDataByPeriod` promises: one group per period that has rows,
   * in ascending key order (hence in time order), each holding the revenue
   * and the number of the rows of its period.
   */
  ghost predicate IsGrouping(g: seq<Group>, data: seq<Record>, keyOf: Record -> string) {
    && (forall i, j :: 0 <= i < j < |g| ==> Text.StrLess(g[i].period, g[j].period))
    && (set i | 0 <= i < |g| :: g[i].period) == KeysOf(data, keyOf)
    && (forall i :: 0 <= i < |g| ==>
          g[i].amount == KeyTotal(data, g[i].period, keyOf, AmountOf) && g[i].count == KeyTotal(data, g[i].period, keyOf, One))
  }

  /** The comparator `a.period.localeCompare(b.period)`, as "may come first". */
  function PeriodLe(a: Group, b: Group): bool {
    !Text.StrLess(b.period, a.period)
  }

  lemma PeriodLeIsTotalPreorder()
    ensures Seqs.TotalPreorder(PeriodLe)
  {
    forall a: Group, b: Group ensures PeriodLe(a, b) || PeriodLe(b, a) {
      Text.StrLessAsymmetric(a.period, b.period);
    }
    forall a: Group, b: Group, c: Group | PeriodLe(a, b) && PeriodLe(b, c) ensures PeriodLe(a, c) {
      Text.StrLessTotal(a.period, b.period);
      if Text.StrLess(c.period, a.period) && Text.StrLess(a.period, b.period) {
        Text.StrLessTransitive(c.period, a.period, b.period);
      }
    }
  }

  /** Sorting the per-key entries by key gives the grouping. */
  lemma SortedEntriesAreGrouping(values: seq<Group>, g: seq<Group>, data: seq<Record>, keyOf: Record -> string)
    requires forall i, j :: 0 <= i < j < |values| ==> values[i].period != values[j].period
    requires (set i | 0 <= i < |values| :: values[i].period) == KeysOf(data, keyOf)
    requires forall i :: 0 <= i < |values| ==>
      values[i].amount == KeyTotal(data, values[i].period, keyOf, AmountOf) && values[i].count == KeyTotal(data, values[i].period, keyOf, One)
    requires multiset(g) == multiset(values) && Seqs.SortedBy(g, PeriodLe)
    ensures IsGrouping(g, data, keyOf)
  {
    Seqs.PermutationKeepsKeysDistinct(values, g, (x: Group) => x.period);
    forall i | 0 <= i < |g| ensures exists j :: 0 <= j < |values| && values[j] == g[i] {
      assert g[i] in multiset(values);
    }
    forall i, j | 0 <= i < j < |g| ensures Text.StrLess(g[i].period, g[j].period) {
      Text.StrLessTotal(g[i].period, g[j].period);
    }
    forall x | x in KeysOf(data, keyOf) ensures exists i :: 0 <= i < |g| && g[i].period == x {
      var j :| 0 <= j < |values| && values[j].period == x;
      assert values[j] in multiset(g);
      var i :| 0 <= i < |g| && g[i] == values[j];
    }
  }

  /**
   * `processDataByPeriod(period)`: the rows gathered per key, the groups
   * listed by `Object.values` and sorted by key. `Object.values` lists day
   * and month keys in first-seen order but integer-like year keys in
   * ascending numeric order; `GatherGroups` yields the former, and after the
   * sort the two give the same chart (`GroupingIsUnique`).
   */
  method ProcessDataByPeriod(data: seq<Record>, p: Period) returns (g: seq<Group>)
    ensures data == [] ==> g == []
    ensures IsGrouping(g, data, KeyOf(p))
    ensures |g| == |KeysOf(data, KeyOf(p))|
  {
    if |data| == 0 {
      assert KeysOf(data, KeyOf(p)) == {};
      return [];
    }
    var grouped, order := GatherGroups(data, KeyOf(p));
    var values := seq(|order|, j requires 0 <= j < |order| => grouped[order[j]]);
    EntriesCoverKeys(order, values, data, KeyOf(p));
    PeriodLeIsTotalPreorder();
    g := Seqs.SortBy(values, PeriodLe);
    SortedEntriesAreGrouping(values, g, data, KeyOf(p));
    GroupingSize(g, data, KeyOf(p));
  }

  /** A grouping has one group per period that has rows. */
  lemma GroupingSize(g: seq<Group>, data: seq<Record>, keyOf: Record -> string)
    requires IsGrouping(g, data, keyOf)
    ensures |g| == |KeysOf(data, keyOf)|
  {
    var ks := Periods(g);
    forall i, j | 0 <= i < j < |ks| ensures ks[i] != ks[j] {
      Text.StrLessIrreflexive(g[i].period);
    }
    Seqs.DistinctCardinality(ks);
    assert (set x | x in ks) == (set i | 0 <= i < |g| :: g[i].period) by {
      forall x | x in ks ensures x in (set i | 0 <= i < |g| :: g[i].period) {
        var i :| 0 <= i < |ks| && ks[i] == x;
      }
      forall x | x in (set i | 0 <= i < |g| :: g[i].period) ensures x in ks {
        var i :| 0 <= i < |g| && g[i].period == x;
        assert ks[i] == x;
      }
    }
  }

  /** The position of the first row of `data` whose key is `k`, or `|data|` when no row has it. */
  function FirstSeen(data: seq<Record>, k: string, keyOf: Record -> string): nat
    decreases |data|
  {
    if data == [] then 0 else if keyOf(data[0]) == k then 0 else 1 + FirstSeen(data[1..], k, keyOf)
  }

  /** `FirstSeen` is the first position holding the key, and no earlier row holds it. */
  lemma {:induction false} FirstSeenSpec(data: seq<Record>, k: string, keyOf: Record -> string)
    ensures FirstSeen(data, k, keyOf) <= |data|
    ensures FirstSeen(data, k, keyOf) < |data| ==> keyOf(data[FirstSeen(data, k, keyOf)]) == k
    ensures forall j :: 0 <= j < FirstSeen(data, k, keyOf) ==> keyOf(data[j]) != k
    decreases |data|
  {
    if data != [] && keyOf(data[0]) != k {
      FirstSeenSpec(data[1..], k, keyOf);
      forall j | 1 <= j < FirstSeen(data, k, keyOf) ensures keyOf(data[j]) != k {
        assert data[j] == data[1..][j - 1];
      }
    }
  }

  /** The keys are listed in the order their first rows appear in `data`. */
  ghost predicate InFirstSeenOrder(order: seq<string>, data: seq<Record>, keyOf: Record -> string) {
    forall a, b :: 0 <= a < |order| && 0 <= b < |order| ==>
      (a < b <==> FirstSeen(data, order[a], keyOf) < FirstSeen(data, order[b], keyOf))
  }

  /** A key first met at row `i` has its first row there. */
  lemma FirstSeenAt(data: seq<Record>, i: int, keyOf: Record -> string)
    requires 0 <= i < |data| && keyOf(data[i]) !in KeysOf(data[..i], keyOf)
    ensures FirstSeen(data, keyOf(data[i]), keyOf) == i
  {
    FirstSeenSpec(data, keyOf(data[i]), keyOf);
    forall j | 0 <= j < i ensures keyOf(data[j]) != keyOf(data[i]) {
      assert data[j] == data[..i][j];
      assert data[..i][j] in data[..i];
    }
  }

  /** The distinct keys of the first `n` rows, each listed when its first row is met. */
  ghost function FirstKeys(data: seq<Record>, keyOf: Record -> string, n: nat): seq<string>
    requires n <= |data|
    decreases n
  {
    if n == 0 then []
    else
      var prev := FirstKeys(data, keyOf, n - 1);
      if keyOf(data[n - 1]) in prev then prev else prev + [keyOf(data[n - 1])]
  }

  /** The keys listed are exactly the keys of the first `n` rows. */
  lemma {:induction false} FirstKeysMembers(data: seq<Record>, keyOf: Record -> string, n: nat)
    requires n <= |data|
    ensures forall k :: k in FirstKeys(data, keyOf, n) <==> k in KeysOf(data[..n], keyOf)
    decreases n
  {
    if n == 0 {
      assert data[..0] == [];
    } else {
      FirstKeysMembers(data, keyOf, n - 1);
      assert data[..n] == data[..n - 1] + [data[n - 1]];
      KeysOfSnoc(data[..n - 1], data[n - 1], keyOf);
    }
  }

  /** The keys of the first `n` rows are listed in the order their first rows appear. */
  lemma {:induction false} FirstKeysInFirstSeenOrder(data: seq<Record>, keyOf: Record -> string, n: nat)
    requires n <= |data|
    ensures forall a :: 0 <= a < |FirstKeys(data, keyOf, n)| ==> FirstSeen(data, FirstKeys(data, keyOf, n)[a], keyOf) < n
    ensures InFirstSeenOrder(FirstKeys(data, keyOf, n), data, keyOf)
    decreases n
  {
    if n > 0 {
      var prev := FirstKeys(data, keyOf, n - 1);
      var key := keyOf(data[n - 1]);
      FirstKeysInFirstSeenOrder(data, keyOf, n - 1);
      if key !in prev {
        FirstKeysMembers(data, keyOf, n - 1);
        FirstSeenAt(data, n - 1, keyOf);
        var next := prev + [key];
        forall a, b | 0 <= a < |next| && 0 <= b < |next|
          ensures a < b <==> FirstSeen(data, next[a], keyOf) < FirstSeen(data, next[b], keyOf)
        {
          if a < |prev| && b < |prev| {
            assert next[a] == prev[a] && next[b] == prev[b];
          } else if a < |prev| {
            assert next[a] == prev[a];
          } else if b < |prev| {
            assert next[b] == prev[b];
          }
        }
      }
    }
  }

  /** Row `i` lists its key after the earlier keys unless an earlier row had it. */
  lemma FirstKeysStep(data: seq<Record>, keyOf: Record -> string, i: nat)
    requires i < |data|
    ensures FirstKeys(data, keyOf, i + 1) ==
      if keyOf(data[i]) in KeysOf(data[..i], keyOf) then FirstKeys(data, keyOf, i)
      else FirstKeys(data, keyOf, i) + [keyOf(data[i])]
  {
    FirstKeysMembers(data, keyOf, i);
  }

  /** All keys of `data`, each listed once, in the order their first rows appear. */
  lemma FirstKeysSpec(data: seq<Record>, keyOf: Record -> string)
    ensures Seqs.Distinct(FirstKeys(data, keyOf, |data|))
    ensures forall k :: k in FirstKeys(data, keyOf, |data|) <==> k in KeysOf(data, keyOf)
    ensures InFirstSeenOrder(FirstKeys(data, keyOf, |data|), data, keyOf)
  {
    var order := FirstKeys(data, keyOf, |data|);
    FirstKeysMembers(data, keyOf, |data|);
    assert data[..|data|] == data;
    FirstKeysInFirstSeenOrder(data, keyOf, |data|);
    forall a, b | 0 <= a < b < |order| ensures order[a] != order[b] {
      assert FirstSeen(data, order[a], keyOf) < FirstSeen(data, order[b], keyOf);
    }
  }

  /**
   * The `forEach` pass of `processDataByPeriod`: a dictionary from key to
   * group, each group created the first time its key appears, and the keys
   * in the order they were created, which is the order their first rows
   * appear in `data`.
   */
  method GatherGroups(data: seq<Record>, keyOf: Record -> string) returns (grouped: map<string, Group>, order: seq<string>)
    ensures Seqs.Distinct(order)
    ensures forall k :: k in order <==> k in KeysOf(data, keyOf)
    ensures InFirstSeenOrder(order, data, keyOf)
    ensures grouped.Keys == KeysOf(data, keyOf)
    ensures forall k :: k in grouped ==> grouped[k] == GroupOf(data, k, keyOf)
  {
    grouped, order := map[], [];
    var i := 0;
    while i < |data|
      invariant 0 <= i <= |data|
      invariant order == FirstKeys(data, keyOf, i)
      invariant grouped.Keys == KeysOf(data[..i], keyOf)
      invariant forall k :: k in grouped ==> grouped[k] == GroupOf(data[..i], k, keyOf)
    {
      ghost var before := grouped;
      FirstKeysStep(data, keyOf, i);
      var key := keyOf(data[i]);
      if key !in grouped {
        grouped := grouped[key := Group(key, 0, 0)];
        order := order + [key];
      }
      ghost var created := grouped;
      var entry := grouped[key];
      grouped := grouped[key := Group(key, entry.amount + AmountOf(data[i]), entry.count + 1)];
      GroupsGrow(data, i, keyOf, before, created, grouped);
      i := i + 1;
    }
    assert data[..i] == data;
    FirstKeysSpec(data, keyOf);
  }

  /**
   * One pass of the `forEach` body: the entry of row `i`'s key is created
   * empty if missing (`created`), then the row is added to it (`next`); the
   * groups of `data[..i]` become those of `data[..i + 1]`.
   */
  lemma GroupsGrow(data: seq<Record>, i: int, keyOf: Record -> string,
                   grouped: map<string, Group>, created: map<string, Group>, next: map<string, Group>)
    requires 0 <= i < |data|
    requires grouped.Keys == KeysOf(data[..i], keyOf)
    requires forall k :: k in grouped ==> grouped[k] == GroupOf(data[..i], k, keyOf)
    requires keyOf(data[i]) in grouped ==> created == grouped
    requires keyOf(data[i]) !in grouped ==> created == grouped[keyOf(data[i]) := Group(keyOf(data[i]), 0, 0)]
    requires keyOf(data[i]) in created
    requires next == created[keyOf(data[i]) := Group(keyOf(data[i]),
      created[keyOf(data[i])].amount + AmountOf(data[i]), created[keyOf(data[i])].count + 1)]
    ensures next.Keys == KeysOf(data[..i + 1], keyOf)
    ensures forall k :: k in next ==> next[k] == GroupOf(data[..i + 1], k, keyOf)
  {
    var key := keyOf(data[i]);
    if key !in grouped {
      AbsentKeyTotal(data[..i], key, keyOf, AmountOf);
      AbsentKeyTotal(data[..i], key, keyOf, One);
    }
    GroupStep(data, i, keyOf);
    forall k | k in next ensures next[k] == GroupOf(data[..i + 1], k, keyOf) {
      GroupOfSnoc(data, i, k, keyOf);
      if k != key {
        assert next[k] == grouped[k];
      }
    }
  }

  /** As `GroupsGrow`, for the day totals of `getDailyRevenue`. */
  lemma TotalsGrow(data: seq<Record>, i: int, keyOf: Record -> string,
                   daily: map<string, int>, created: map<string, int>, next: map<string, int>)
    requires 0 <= i < |data|
    requires daily.Keys == KeysOf(data[..i], keyOf)
    requires forall k :: k in daily ==> daily[k] == KeyTotal(data[..i], k, keyOf, AmountOf)
    requires keyOf(data[i]) in daily ==> created == daily
    requires keyOf(data[i]) !in daily ==> created == daily[keyOf(data[i]) := 0]
    requires keyOf(data[i]) in created
    requires next == created[keyOf(data[i]) := created[keyOf(data[i])] + AmountOf(data[i])]
    ensures next.Keys == KeysOf(data[..i + 1], keyOf)
    ensures forall k :: k in next ==> next[k] == KeyTotal(data[..i + 1], k, keyOf, AmountOf)
  {
    var date := keyOf(data[i]);
    if date !in daily {
      AbsentKeyTotal(data[..i], date, keyOf, AmountOf);
    }
    GroupStep(data, i, keyOf);
    forall k | k in next ensures next[k] == KeyTotal(data[..i + 1], k, keyOf, AmountOf) {
      KeyTotalStep(data, i, k, keyOf, AmountOf);
      if k != date {
        assert next[k] == daily[k];
      }
    }
  }

  /** The group of key `k` as the rows `data` make it. */
  function GroupOf(data: seq<Record>, k: string, keyOf: Record -> string): Group {
    Group(k, KeyTotal(data, k, keyOf, AmountOf), KeyTotal(data, k, keyOf, One))
  }

  /** One more row adds a period key. */
  lemma GroupStep(data: seq<Record>, i: int, keyOf: Record -> string)
    requires 0 <= i < |data|
    ensures KeysOf(data[..i + 1], keyOf) == KeysOf(data[..i], keyOf) + {keyOf(data[i])}
  {
    assert data[..i + 1] == data[..i] + [data[i]];
    KeysOfSnoc(data[..i], data[i], keyOf);
  }

  /** One more row adds its amount and one to the group of its own key, and nothing to the others. */
  lemma GroupOfSnoc(data: seq<Record>, i: int, k: string, keyOf: Record -> string)
    requires 0 <= i < |data|
    ensures GroupOf(data[..i + 1], k, keyOf) == if keyOf(data[i]) == k
      then Group(k, GroupOf(data[..i], k, keyOf).amount + AmountOf(data[i]), GroupOf(data[..i], k, keyOf).count + 1)
      else GroupOf(data[..i], k, keyOf)
  {
    KeyTotalStep(data, i, k, keyOf, AmountOf);
    KeyTotalStep(data, i, k, keyOf, One);
  }

  lemma KeyTotalStep(data: seq<Record>, i: int, k: string, keyOf: Record -> string, w: Record -> int)
    requires 0 <= i < |data|
    ensures KeyTotal(data[..i + 1], k, keyOf, w) == KeyTotal(data[..i], k, keyOf, w) + (if keyOf(data[i]) == k then w(data[i]) else 0)
  {
    assert data[..i + 1] == data[..i] + [data[i]];
    KeyTotalSnoc(data[..i], data[i], k, keyOf, w);
  }

  lemma KeysOfSnoc(d: seq<Record>, r: Record, keyOf: Record -> string)
    ensures KeysOf(d + [r], keyOf) == KeysOf(d, keyOf) + {keyOf(r)}
  {
    forall x | x in KeysOf(d + [r], keyOf) ensures x in KeysOf(d, keyOf) + {keyOf(r)} {
      var y :| y in d + [r] && keyOf(y) == x;
      if y != r {
        assert y in d;
      }
    }
    forall x | x in KeysOf(d, keyOf) ensures x in KeysOf(d + [r], keyOf) {
      var y :| y in d && keyOf(y) == x;
      assert y in d + [r];
    }
    assert r in d + [r];
  }

  lemma KeyTotalSnoc(d: seq<Record>, r: Record, k: string, keyOf: Record -> string, w: Record -> int)
    ensures KeyTotal(d + [r], k, keyOf, w) == KeyTotal(d, k, keyOf, w) + (if keyOf(r) == k then w(r) else 0)
  {
    assert (d + [r])[..|d|] == d;
  }

  /** The entries listed in key insertion order carry every key once, each with its totals. */
  lemma EntriesCoverKeys(order: seq<string>, values: seq<Group>, data: seq<Record>, keyOf: Record -> string)
    requires Seqs.Distinct(order) && |values| == |order|
    requires forall k :: k in order <==> k in KeysOf(data, keyOf)
    requires forall j :: 0 <= j < |order| ==> values[j] == GroupOf(data, order[j], keyOf)
    ensures forall i, j :: 0 <= i < j < |values| ==> values[i].period != values[j].period
    ensures (set i | 0 <= i < |values| :: values[i].period) == KeysOf(data, keyOf)
    ensures forall i :: 0 <= i < |values| ==>
      values[i].amount == KeyTotal(data, values[i].period, keyOf, AmountOf) && values[i].count == KeyTotal(data, values[i].period, keyOf, One)
  {
    forall x | x in KeysOf(data, keyOf) ensures x in (set i | 0 <= i < |values| :: values[i].period) {
      var j :| 0 <= j < |order| && order[j] == x;
      assert values[j].period == x;
    }
  }

  /** The groups' revenues add up to the total revenue, and their counts to the number of rows. */
  lemma GroupsAddUp(g: seq<Group>, data: seq<Record>, keyOf: Record -> string)
    requires IsGrouping(g, data, keyOf)
    ensures GroupAmounts(g) == Revenue(data)
    ensures GroupCounts(g) == |data|
  {
    var ks := Periods(g);
    GroupSumsOverKeys(g, data, keyOf);
    assert Seqs.Distinct(ks) by {
      forall i, j | 0 <= i < j < |ks| ensures ks[i] != ks[j] {
        Text.StrLessIrreflexive(g[i].period);
      }
    }
    forall x | x in KeysOf(data, keyOf) ensures x in ks {
      var i :| 0 <= i < |g| && g[i].period == x;
      assert ks[i] == x;
    }
    KeyTotalsCoverSum(ks, data, keyOf, AmountOf);
    KeyTotalsCoverSum(ks, data, keyOf, One);
    SumOfOnes(data);
  }

  function GroupAmounts(g: seq<Group>): int
    decreases |g|
  {
    if g == [] then 0 else g[0].amount + GroupAmounts(g[1..])
  }

  function GroupCounts(g: seq<Group>): int
    decreases |g|
  {
    if g == [] then 0 else g[0].count + GroupCounts(g[1..])
  }

  function Periods(g: seq<Group>): seq<string> {
    seq(|g|, i requires 0 <= i < |g| => g[i].period)
  }

  /** `KeyTotal` summed over a list of keys. */
  function KeyTotals(ks: seq<string>, data: seq<Record>, keyOf: Record -> string, w: Record -> int): int
    decreases |ks|
  {
    if ks == [] then 0 else KeyTotal(data, ks[0], keyOf, w) + KeyTotals(ks[1..], data, keyOf, w)
  }

  lemma {:induction false} GroupSumsOverKeys(g: seq<Group>, data: seq<Record>, keyOf: Record -> string)
    requires forall i :: 0 <= i < |g| ==>
      g[i].amount == KeyTotal(data, g[i].period, keyOf, AmountOf) && g[i].count == KeyTotal(data, g[i].period, keyOf, One)
    ensures GroupAmounts(g) == KeyTotals(Periods(g), data, keyOf, AmountOf)
    ensures GroupCounts(g) == KeyTotals(Periods(g), data, keyOf, One)
    decreases |g|
  {
    if g != [] {
      GroupSumsOverKeys(g[1..], data, keyOf);
      assert Periods(g)[1..] == Periods(g[1..]);
    }
  }

  lemma {:induction false} KeyTotalsOfNothing(ks: seq<string>, keyOf: Record -> string, w: Record -> int)
    ensures KeyTotals(ks, [], keyOf, w) == 0
    decreases |ks|
  {
    if ks != [] {
      KeyTotalsOfNothing(ks[1..], keyOf, w);
    }
  }

  /** One more row adds its weight when its key is listed. */
  lemma {:induction false} KeyTotalsSnoc(ks: seq<string>, data: seq<Record>, r: Record, keyOf: Record -> string, w: Record -> int)
    requires Seqs.Distinct(ks)
    ensures KeyTotals(ks, data + [r], keyOf, w) == KeyTotals(ks, data, keyOf, w) + (if keyOf(r) in ks then w(r) else 0)
    decreases |ks|
  {
    if ks != [] {
      KeyTotalsSnoc(ks[1..], data, r, keyOf, w);
      assert (data + [r])[..|data|] == data;
      assert ks[0] !in ks[1..];
      assert keyOf(r) in ks <==> keyOf(r) == ks[0] || keyOf(r) in ks[1..];
    }
  }

  /** Summing per key over keys that list every period once sums over all rows. */
  lemma {:induction false} KeyTotalsCoverSum(ks: seq<string>, data: seq<Record>, keyOf: Record -> string, w: Record -> int)
    requires Seqs.Distinct(ks)
    requires forall x :: x in KeysOf(data, keyOf) ==> x in ks
    ensures KeyTotals(ks, data, keyOf, w) == Sum(data, w)
    decreases |data|
  {
    if data == [] {
      KeyTotalsOfNothing(ks, keyOf, w);
    } else {
      var init, r := data[..|data| - 1], data[|data| - 1];
      assert data == init + [r];
      forall x | x in KeysOf(init, keyOf) ensures x in ks {
        var y :| y in init && keyOf(y) == x;
        assert y in data;
      }
      KeyTotalsCoverSum(ks, init, keyOf, w);
      KeyTotalsSnoc(ks, init, r, keyOf, w);
      assert r in data;
    }
  }

  /** The grouping sees only which rows there are, not the order the query returns them in. */
  lemma GroupingIgnoresRowOrder(g: seq<Group>, a: seq<Record>, b: seq<Record>, keyOf: Record -> string)
    requires multiset(a) == multiset(b)
    requires IsGrouping(g, a, keyOf)
    ensures IsGrouping(g, b, keyOf)
  {
    assert KeysOf(a, keyOf) == KeysOf(b, keyOf) by {
      forall r ensures r in a <==> r in b {
        assert r in a <==> r in multiset(a);
        assert r in b <==> r in multiset(b);
      }
    }
    forall k, w: Record -> int ensures KeyTotal(a, k, keyOf, w) == KeyTotal(b, k, keyOf, w) {
      SumPermutation(a, b, KeyWeight(k, keyOf, w));
    }
  }

  /** Two strictly ascending key lists with the same keys are the same list. */
  lemma {:induction false} AscendingIsUnique(s: seq<string>, t: seq<string>)
    requires forall i, j :: 0 <= i < j < |s| ==> Text.StrLess(s[i], s[j])
    requires forall i, j :: 0 <= i < j < |t| ==> Text.StrLess(t[i], t[j])
    requires forall x :: x in s <==> x in t
    ensures s == t
    decreases |s|
  {
    if s != [] {
      assert s[0] in s;
    }
    if t != [] {
      assert t[0] in t;
    }
    if s != [] && t != [] {
      assert s[0] == t[0] by {
        var i :| 0 <= i < |t| && t[i] == s[0];
        var j :| 0 <= j < |s| && s[j] == t[0];
        if i > 0 && j > 0 {
          Text.StrLessTransitive(s[0], s[j], t[i]);
          Text.StrLessIrreflexive(s[0]);
        } else if i > 0 {
          Text.StrLessIrreflexive(s[0]);
        } else if j > 0 {
          Text.StrLessIrreflexive(t[0]);
        }
      }
      forall x ensures x in s[1..] <==> x in t[1..] {
        if x in s[1..] {
          var i :| 0 <= i < |s[1..]| && s[1..][i] == x;
          assert Text.StrLess(s[0], s[i + 1]);
          Text.StrLessIrreflexive(s[0]);
          assert x in t;
          var m :| 0 <= m < |t| && t[m] == x;
          assert m != 0 && t[1..][m - 1] == x;
        }
        if x in t[1..] {
          var i :| 0 <= i < |t[1..]| && t[1..][i] == x;
          assert Text.StrLess(t[0], t[i + 1]);
          Text.StrLessIrreflexive(t[0]);
          assert x in s;
          var m :| 0 <= m < |s| && s[m] == x;
          assert m != 0 && s[1..][m - 1] == x;
        }
      }
      AscendingIsUnique(s[1..], t[1..]);
      assert s == [s[0]] + s[1..] && t == [t[0]] + t[1..];
    }
  }

  /** The groups of a grouping name exactly the periods that have rows. */
  lemma GroupingPeriods(g: seq<Group>, data: seq<Record>, keyOf: Record -> string)
    requires IsGrouping(g, data, keyOf)
    ensures forall x :: x in Periods(g) <==> x in KeysOf(data, keyOf)
  {
    var ps := Periods(g);
    forall x ensures x in ps <==> x in KeysOf(data, keyOf) {
      if x in ps {
        var i :| 0 <= i < |ps| && ps[i] == x;
        assert g[i].period in (set i | 0 <= i < |g| :: g[i].period);
      }
      if x in KeysOf(data, keyOf) {
        assert x in (set i | 0 <= i < |g| :: g[i].period);
        var i :| 0 <= i < |g| && g[i].period == x;
        assert ps[i] == x;
      }
    }
  }

  /** There is only one grouping of a set of rows: the chart is determined by the rows alone. */
  lemma GroupingIsUnique(g: seq<Group>, h: seq<Group>, data: seq<Record>, keyOf: Record -> string)
    requires IsGrouping(g, data, keyOf) && IsGrouping(h, data, keyOf)
    ensures g == h
  {
    var ps, qs := Periods(g), Periods(h);
    GroupingPeriods(g, data, keyOf);
    GroupingPeriods(h, data, keyOf);
    AscendingIsUnique(ps, qs);
    assert |g| == |ps| == |qs| == |h|;
    forall i | 0 <= i < |g| ensures g[i] == h[i] {
      assert ps[i] == qs[i];
    }
  }

  // ---- Headline metrics ----

  /** The rows on or after `now - 30 days` (`new Date(item.date) >= thirtyDaysAgo`). */
  predicate InLast30Days(r: Record, now: int) {
    Instant(r.date) >= now - 30 * MsPerDay
  }

  /** The rows from `now - 60 days` up to, not including, `now - 30 days`. */
  predicate InPrevious30Days(r: Record, now: int) {
    now - 60 * MsPerDay <= Instant(r.date) < now - 30 * MsPerDay
  }

  predicate InLast60Days(r: Record, now: int) {
    Instant(r.date) >= now - 60 * MsPerDay
  }

  function Last30Revenue(data: seq<Record>, now: int): int {
    Revenue(Seqs.Filter(data, (r: Record) => InLast30Days(r, now)))
  }

  function Previous30Revenue(data: seq<Record>, now: int): int {
    Revenue(Seqs.Filter(data, (r: Record) => InPrevious30Days(r, now)))
  }

  /** The distinct dates that have rows (the size of `new Set(... toDateString())`). */
  function UniqueDays(data: seq<Record>): set<Date> {
    set r | r in data :: r.date
  }

  /**
   * `calculateMetrics()` with the clock reading `now` (milliseconds since the
   * epoch): all zeros without rows; otherwise the total, the mean per
   * distinct date, the number of rows, and the growth of the last 30 days
   * over the 30 before them as a percentage, 0 unless the earlier window
   * earned something.
   */
  function CalculateMetrics(data: seq<Record>, now: int): (m: Metrics)
    ensures data == [] ==> m == Metrics(0, 0.0, 0, 0.0)
    ensures data != [] ==> m.totalRevenue == Revenue(data) && m.totalTransactions == |data|
    ensures data != [] ==> IsQuotient(m.avgDaily, m.totalRevenue, |UniqueDays(data)|, 1)
    ensures Previous30Revenue(data, now) <= 0 ==> m.growth == 0.0
    ensures data != [] && Previous30Revenue(data, now) > 0 ==>
      IsQuotient(m.growth, Last30Revenue(data, now) - Previous30Revenue(data, now), Previous30Revenue(data, now), 100)
  {
    if data == [] then Metrics(0, 0.0, 0, 0.0)
    else
      var totalRevenue := Revenue(data);
      var uniqueDays := |UniqueDays(data)|;
      assert data[0].date in UniqueDays(data);
      var avgDaily := if uniqueDays > 0 then Ratio(totalRevenue, uniqueDays) else 0.0;
      var last, previous := Last30Revenue(data, now), Previous30Revenue(data, now);
      var growth := if previous > 0 then Percent(last - previous, previous) else 0.0;
      Metrics(totalRevenue, avgDaily, |data|, growth)
  }

  /** `q` is `(x / y) * scale`: multiplied back by `y` it gives `x * scale`. */
  predicate IsQuotient(q: real, x: int, y: int, scale: int) {
    q * (y as real) == (x * scale) as real
  }

  /** `x / y` in exact arithmetic. */
  function Ratio(x: int, y: int): (q: real)
    requires y > 0
    ensures IsQuotient(q, x, y, 1)
  {
    x as real / y as real
  }

  /** `(x / y) * 100` in exact arithmetic. */
  function Percent(x: int, y: int): (q: real)
    requires y > 0
    ensures IsQuotient(q, x, y, 100)
  {
    Ratio(x, y) * 100.0
  }

  /** The two windows do not overlap, and together they cover the last 60 days. */
  lemma WindowsPartitionLast60Days(data: seq<Record>, now: int)
    ensures forall r :: !(InLast30Days(r, now) && InPrevious30Days(r, now))
    ensures Last30Revenue(data, now) + Previous30Revenue(data, now)
         == Revenue(Seqs.Filter(data, (r: Record) => InLast60Days(r, now)))
  {
    WindowSums(data, now);
  }

  lemma {:induction false} WindowSums(data: seq<Record>, now: int)
    ensures Last30Revenue(data, now) + Previous30Revenue(data, now)
         == Revenue(Seqs.Filter(data, (r: Record) => InLast60Days(r, now)))
    decreases |data|
  {
    if data != [] {
      var x, rest := data[0], data[1..];
      WindowSums(rest, now);
      var l30 := (r: Record) => InLast30Days(r, now);
      var p30 := (r: Record) => InPrevious30Days(r, now);
      var l60 := (r: Record) => InLast60Days(r, now);
      assert Sum([x], AmountOf) == AmountOf(x) by {
        assert [x][..0] == [];
      }
      SumConcat([x], Seqs.Filter(rest, l30), AmountOf);
      SumConcat([x], Seqs.Filter(rest, p30), AmountOf);
      SumConcat([x], Seqs.Filter(rest, l60), AmountOf);
    }
  }

  // ---- Top days ----

  /** The comparator `b.amount - a.amount`, as "may come first": larger amounts first. */
  function AmountLe(a: DayRevenue, b: DayRevenue): bool {
    a.amount >= b.amount
  }

  /** The days ranked by `sort` are ranked by the sum per day. */
  lemma SortedDaysAreRanked(values: seq<DayRevenue>, sorted: seq<DayRevenue>, data: seq<Record>, keyOf: Record -> string)
    requires forall i, j :: 0 <= i < j < |values| ==> values[i].date != values[j].date
    requires (set i | 0 <= i < |values| :: values[i].date) == KeysOf(data, keyOf)
    requires forall i :: 0 <= i < |values| ==> values[i].amount == KeyTotal(data, values[i].date, keyOf, AmountOf)
    requires multiset(sorted) == multiset(values)
    ensures |sorted| == |values|
    ensures forall i, j :: 0 <= i < j < |sorted| ==> sorted[i].date != sorted[j].date
    ensures forall i :: 0 <= i < |sorted| ==>
      sorted[i].date in KeysOf(data, keyOf) && sorted[i].amount == KeyTotal(data, sorted[i].date, keyOf, AmountOf)
    ensures forall k :: k in KeysOf(data, keyOf) ==> exists m :: 0 <= m < |sorted| && sorted[m].date == k
  {
    assert |sorted| == |multiset(sorted)| == |multiset(values)| == |values|;
    Seqs.PermutationKeepsKeysDistinct(values, sorted, (x: DayRevenue) => x.date);
    forall i | 0 <= i < |sorted|
      ensures sorted[i].date in KeysOf(data, keyOf)
      ensures sorted[i].amount == KeyTotal(data, sorted[i].date, keyOf, AmountOf)
    {
      assert sorted[i] in multiset(values);
      var j :| 0 <= j < |values| && values[j] == sorted[i];
    }
    forall k | k in KeysOf(data, keyOf) ensures exists m :: 0 <= m < |sorted| && sorted[m].date == k {
      var j :| 0 <= j < |values| && values[j].date == k;
      assert values[j] in multiset(sorted);
      var m :| 0 <= m < |sorted| && sorted[m] == values[j];
    }
  }

  /**
   * `getTopPerformingDays()`: the revenue per ISO day, the days taken in
   * insertion order (`Object.entries`), stably sorted by decreasing revenue
   * and cut to the first five.
   */
  method TopPerformingDays(data: seq<Record>) returns (top: seq<DayRevenue>)
    ensures data == [] ==> top == []
    ensures IsTopDays(top, data, DayKeyOf)
  {
    top := TopByKey(data, DayKeyOf);
  }

  /** The body of `getTopPerformingDays`, for any grouping key; the view uses the ISO day. */
  method TopByKey(data: seq<Record>, keyOf: Record -> string) returns (top: seq<DayRevenue>)
    ensures data == [] ==> top == []
    ensures IsTopDays(top, data, keyOf)
  {
    if |data| == 0 {
      assert KeysOf(data, keyOf) == {};
      return [];
    }
    var daily, order := GatherDailyRevenue(data, keyOf);
    var entries := seq(|order|, j requires 0 <= j < |order| => DayRevenue(order[j], daily[order[j]]));
    DayEntriesCoverDays(order, entries, data, keyOf);
    var sorted := Seqs.SortBy(entries, AmountLe);
    SortedDaysAreRanked(entries, sorted, data, keyOf);
    Seqs.DistinctCardinality(order);
    assert (set k | k in order) == KeysOf(data, keyOf);
    top := sorted[..if |sorted| < 5 then |sorted| else 5];
    FirstFiveAreTop(sorted, top, data, keyOf);
  }

  /**
   * What `getTopPerformingDays` promises: as many days as there are, up to
   * five; each with its revenue; no day twice; best first; and any day left
   * out earned no more than the fifth.
   */
  ghost predicate IsTopDays(top: seq<DayRevenue>, data: seq<Record>, keyOf: Record -> string) {
    && |top| == (if |KeysOf(data, keyOf)| < 5 then |KeysOf(data, keyOf)| else 5)
    && (forall i :: 0 <= i < |top| ==>
          top[i].date in KeysOf(data, keyOf) && top[i].amount == KeyTotal(data, top[i].date, keyOf, AmountOf))
    && (forall i, j :: 0 <= i < j < |top| ==> top[i].date != top[j].date && top[i].amount >= top[j].amount)
    && (forall k :: k in KeysOf(data, keyOf) && (forall i :: 0 <= i < |top| ==> top[i].date != k) ==>
          |top| == 5 && KeyTotal(data, k, keyOf, AmountOf) <= top[4].amount)
  }

  /** The first five of the ranking are the top days. */
  lemma FirstFiveAreTop(sorted: seq<DayRevenue>, top: seq<DayRevenue>, data: seq<Record>, keyOf: Record -> string)
    requires |sorted| == |KeysOf(data, keyOf)| && Seqs.SortedBy(sorted, AmountLe)
    requires forall i, j :: 0 <= i < j < |sorted| ==> sorted[i].date != sorted[j].date
    requires forall i :: 0 <= i < |sorted| ==>
      sorted[i].date in KeysOf(data, keyOf) && sorted[i].amount == KeyTotal(data, sorted[i].date, keyOf, AmountOf)
    requires forall k :: k in KeysOf(data, keyOf) ==> exists m :: 0 <= m < |sorted| && sorted[m].date == k
    requires top == sorted[..if |sorted| < 5 then |sorted| else 5]
    ensures IsTopDays(top, data, keyOf)
  {
    forall i | 0 <= i < |top|
      ensures top[i].date in KeysOf(data, keyOf) && top[i].amount == KeyTotal(data, top[i].date, keyOf, AmountOf)
    {
      assert top[i] == sorted[i];
    }
    forall i, j | 0 <= i < j < |top| ensures top[i].date != top[j].date && top[i].amount >= top[j].amount {
      assert top[i] == sorted[i] && top[j] == sorted[j];
      assert AmountLe(sorted[i], sorted[j]);
    }
    forall k | k in KeysOf(data, keyOf) && (forall i :: 0 <= i < |top| ==> top[i].date != k)
      ensures |top| == 5 && KeyTotal(data, k, keyOf, AmountOf) <= top[4].amount
    {
      var m :| 0 <= m < |sorted| && sorted[m].date == k;
      LeftOutNoBetter(sorted, top, k, m);
    }
  }

  /** A day past the first five of the ranking earned no more than the fifth. */
  lemma LeftOutNoBetter(sorted: seq<DayRevenue>, top: seq<DayRevenue>, k: string, m: int)
    requires Seqs.SortedBy(sorted, AmountLe)
    requires top == sorted[..if |sorted| < 5 then |sorted| else 5]
    requires 0 <= m < |sorted| && sorted[m].date == k
    requires forall i :: 0 <= i < |top| ==> top[i].date != k
    ensures |top| == 5 && sorted[m].amount <= top[4].amount
  {
    assert forall i :: 0 <= i < |top| ==> sorted[i].date != k;
    assert AmountLe(sorted[4], sorted[m]);
  }

  /** The entries listed in day insertion order carry every day once, each with its revenue. */
  lemma DayEntriesCoverDays(order: seq<string>, entries: seq<DayRevenue>, data: seq<Record>, keyOf: Record -> string)
    requires Seqs.Distinct(order) && |entries| == |order|
    requires forall k :: k in order <==> k in KeysOf(data, keyOf)
    requires forall j :: 0 <= j < |order| ==> entries[j] == DayRevenue(order[j], KeyTotal(data, order[j], keyOf, AmountOf))
    ensures forall i, j :: 0 <= i < j < |entries| ==> entries[i].date != entries[j].date
    ensures (set i | 0 <= i < |entries| :: entries[i].date) == KeysOf(data, keyOf)
    ensures forall i :: 0 <= i < |entries| ==> entries[i].amount == KeyTotal(data, entries[i].date, keyOf, AmountOf)
  {
    forall x | x in KeysOf(data, keyOf) ensures x in (set i | 0 <= i < |entries| :: entries[i].date) {
      var j :| 0 <= j < |order| && order[j] == x;
      assert entries[j].date == x;
    }
  }

  /**
   * The `forEach` pass of `getTopPerformingDays`: the revenue per key (the
   * ISO day, `keyOf` being `DayKeyOf`), and the keys in the order they first
   * appear, which a stable sort keeps among days of equal revenue.
   */
  method GatherDailyRevenue(data: seq<Record>, keyOf: Record -> string) returns (daily: map<string, int>, order: seq<string>)
    ensures Seqs.Distinct(order)
    ensures forall k :: k in order <==> k in KeysOf(data, keyOf)
    ensures InFirstSeenOrder(order, data, keyOf)
    ensures daily.Keys == KeysOf(data, keyOf)
    ensures forall k :: k in daily ==> daily[k] == KeyTotal(data, k, keyOf, AmountOf)
  {
    daily, order := map[], [];
    var i := 0;
    while i < |data|
      invariant 0 <= i <= |data|
      invariant order == FirstKeys(data, keyOf, i)
      invariant daily.Keys == KeysOf(data[..i], keyOf)
      invariant forall k :: k in daily ==> daily[k] == KeyTotal(data[..i], k, keyOf, AmountOf)
    {
      ghost var before := daily;
      FirstKeysStep(data, keyOf, i);
      var date := keyOf(data[i]);
      if date !in daily {
        daily := daily[date := 0];
        order := order + [date];
      }
      ghost var created := daily;
      daily := daily[date := daily[date] + AmountOf(data[i])];
      TotalsGrow(data, i, keyOf, before, created, daily);
      i := i + 1;
    }
    assert data[..i] == data;
    FirstKeysSpec(data, keyOf);
  }

  // ---- Year selector and year filter ----

  /** The years that have rows. */
  function YearsOf(data: seq<Record>): set<int> {
    set r | r in data :: r.date.year as int
  }

  function YearGe(a: int, b: int): bool {
    a >= b
  }

  /** `data.map(item => getFullYear(item.date))`. */
  function YearColumn(data: seq<Record>): (all: seq<int>)
    ensures forall y :: y in all <==> y in YearsOf(data)
  {
    var all := seq(|data|, i requires 0 <= i < |data| => data[i].date.year as int);
    assert forall y :: y in all ==> y in YearsOf(data) by {
      forall y | y in all ensures y in YearsOf(data) {
        var i :| 0 <= i < |all| && all[i] == y;
        assert data[i] in data;
      }
    }
    assert forall y :: y in YearsOf(data) ==> y in all by {
      forall y | y in YearsOf(data) ensures y in all {
        var r :| r in data && r.date.year as int == y;
        var i :| 0 <= i < |data| && data[i] == r;
        assert all[i] == y;
      }
    }
    all
  }

  /** `availableYears`: each year that has rows, once, newest first. */
  function AvailableYears(data: seq<Record>): (years: seq<int>)
    ensures forall i, j :: 0 <= i < j < |years| ==> years[i] > years[j]
    ensures forall y :: y in years <==> y in YearsOf(data)
  {
    var distinct := Seqs.Dedup(YearColumn(data));
    var sorted := Seqs.SortBy(distinct, YearGe);
    Seqs.PermutationKeepsKeysDistinct(distinct, sorted, (y: int) => y);
    Seqs.PermutationSameElements(distinct, sorted);
    sorted
  }

  /** `item.period.startsWith(selectedYear.toString())`. */
  predicate StartsWithYear(x: Group, y: int) {
    Text.IsPrefix(Text.IntToString(y), x.period)
  }

  /** The groups whose key starts with the year. */
  function YearGroups(processed: seq<Group>, y: int): seq<Group> {
    Seqs.Filter(processed, (x: Group) => StartsWithYear(x, y))
  }

  /** `yearFilteredData`: outside the yearly view, the groups whose key starts with the selected year. */
  function YearFilteredData(processed: seq<Group>, p: Period, selectedYear: int): (r: seq<Group>)
    ensures p == YearPeriod ==> r == processed
    ensures p != YearPeriod ==> Seqs.IsSubsequence(r, processed)
    ensures p != YearPeriod ==> forall i :: 0 <= i < |r| ==> StartsWithYear(r[i], selectedYear)
    ensures p != YearPeriod ==> forall x :: x in processed ==>
      multiset(r)[x] == if StartsWithYear(x, selectedYear) then multiset(processed)[x] else 0
  {
    Seqs.FilterCounts(processed, (x: Group) => StartsWithYear(x, selectedYear));
    if p != YearPeriod then YearGroups(processed, selectedYear) else processed
  }

  function RowsInYear(data: seq<Record>, y: Year): seq<Record> {
    Seqs.Filter(data, (r: Record) => r.date.year == y)
  }

  /** A row's key starts with the digits of `y` exactly when the row is in year `y`. */
  ghost predicate MarksYear(keyOf: Record -> string, y: Year) {
    forall r: Record :: Text.IsPrefix(Text.IntToString(y), keyOf(r)) <==> r.date.year == y
  }

  /** Every period key marks the year of its row. */
  lemma KeysMarkYear(p: Period, y: Year)
    ensures MarksYear(KeyOf(p), y)
  {
    assert Text.IntToString(y) == YearKey(y);
    forall r: Record ensures Text.IsPrefix(Text.IntToString(y), KeyOf(p)(r)) <==> r.date.year == y {
      KeyStartsWithYear(r.date, p, y);
    }
  }

  /**
   * Filtering the daily or monthly chart by a year gives the chart of that
   * year's rows alone; the yearly chart is shown whole.
   */
  lemma YearFilterIsGroupingOfYear(g: seq<Group>, data: seq<Record>, p: Period, y: Year)
    requires IsGrouping(g, data, KeyOf(p))
    ensures p == YearPeriod ==> YearFilteredData(g, p, y) == g
    ensures p != YearPeriod ==> IsGrouping(YearFilteredData(g, p, y), RowsInYear(data, y), KeyOf(p))
  {
    if p != YearPeriod {
      KeysMarkYear(p, y);
      YearGroupsAreGrouping(g, data, KeyOf(p), y);
    }
  }

  /** The groups of a year are the grouping of that year's rows, for any key that marks the year. */
  lemma YearGroupsAreGrouping(g: seq<Group>, data: seq<Record>, keyOf: Record -> string, y: Year)
    requires IsGrouping(g, data, keyOf) && MarksYear(keyOf, y)
    ensures IsGrouping(YearGroups(g, y), RowsInYear(data, y), keyOf)
  {
    var r := YearGroups(g, y);
    Seqs.FilterKeepsOrder(g, (x: Group) => StartsWithYear(x, y), (a: Group, b: Group) => Text.StrLess(a.period, b.period));
    YearGroupsKeys(g, data, keyOf, y);
    forall i | 0 <= i < |r|
      ensures r[i].amount == KeyTotal(RowsInYear(data, y), r[i].period, keyOf, AmountOf)
      ensures r[i].count == KeyTotal(RowsInYear(data, y), r[i].period, keyOf, One)
    {
      var j :| 0 <= j < |g| && g[j] == r[i];
      YearRowsKeepTotal(data, r[i].period, keyOf, y, AmountOf);
      YearRowsKeepTotal(data, r[i].period, keyOf, y, One);
    }
  }

  /** The kept groups name exactly the periods of the year's rows. */
  lemma YearGroupsKeys(g: seq<Group>, data: seq<Record>, keyOf: Record -> string, y: Year)
    requires IsGrouping(g, data, keyOf) && MarksYear(keyOf, y)
    ensures var r := YearGroups(g, y);
      (set i | 0 <= i < |r| :: r[i].period) == KeysOf(RowsInYear(data, y), keyOf)
  {
    var r := YearGroups(g, y);
    var rows := RowsInYear(data, y);
    GroupingPeriods(g, data, keyOf);
    forall x | x in KeysOf(rows, keyOf) ensures x in (set i | 0 <= i < |r| :: r[i].period) {
      var row :| row in rows && keyOf(row) == x;
      assert row in data && row.date.year == y;
      assert x in KeysOf(data, keyOf);
      assert x in Periods(g);
      var i :| 0 <= i < |g| && Periods(g)[i] == x;
      assert StartsWithYear(g[i], y);
      assert g[i] in r;
    }
    forall i | 0 <= i < |r| ensures r[i].period in KeysOf(rows, keyOf) {
      var k := r[i].period;
      var j :| 0 <= j < |g| && g[j] == r[i];
      assert Periods(g)[j] == k;
      assert k in KeysOf(data, keyOf);
      var row :| row in data && keyOf(row) == k;
      assert row in rows;
    }
  }

  /** A key that starts with the year gathers only rows of that year. */
  lemma YearRowsKeepTotal(data: seq<Record>, k: string, keyOf: Record -> string, y: Year, w: Record -> int)
    requires MarksYear(keyOf, y) && Text.IsPrefix(Text.IntToString(y), k)
    ensures KeyTotal(RowsInYear(data, y), k, keyOf, w) == KeyTotal(data, k, keyOf, w)
  {
    var inYear := (r: Record) => r.date.year == y;
    forall n | 0 <= n < |data| && !inYear(data[n]) ensures KeyWeight(k, keyOf, w)(data[n]) == 0 {
    }
    SumFilter(data, inYear, KeyWeight(k, keyOf, w));
  }
}
