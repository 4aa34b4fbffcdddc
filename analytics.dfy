/**
 * The LINQ aggregations the Preview and Stats pages share: the date window
 * of the click filter, "newest first, at most 50", grouping with counts, the
 * per-day chart series and the CSV export.
 *
 * Grouping keys are natural numbers: a nullable id grouped with `?? 0`, or a
 * day number (`ClickedAt.Date` as whole days since 0001-01-01).
 */
module Analytics {
  import opened Common
  import opened Entities

  // ---------------------------------------------------------------------------
  // Counting
  // ---------------------------------------------------------------------------

  /** The membership step of the unreachable base case of `CountsSumToTotal`, as a call so that branch holds no checked statement. */
  lemma FirstIsMember<T>(s: seq<T>)
    ensures s != [] ==> s[0] in s
  {
  }

  /** How many elements equal `k` (`g.Count()` of the group with key `k`). */
  function Occurrences(xs: seq<nat>, k: nat): nat
  {
    if xs == [] then 0 else (if xs[0] == k then 1 else 0) + Occurrences(xs[1..], k)
  }

  function SumOf(xs: seq<nat>): nat
  {
    if xs == [] then 0 else xs[0] + SumOf(xs[1..])
  }

  /** The elements other than `k`, in order. */
  function Without(xs: seq<nat>, k: nat): seq<nat>
  {
    if xs == [] then [] else (if xs[0] == k then [] else [xs[0]]) + Without(xs[1..], k)
  }

  predicate Distinct(keys: seq<nat>)
  {
    forall i, j | 0 <= i < j < |keys| :: keys[i] != keys[j]
  }

  /** The count of each key, in the keys' order. */
  function CountsFor(keys: seq<nat>, xs: seq<nat>): (counts: seq<nat>)
    ensures |counts| == |keys|
    ensures forall i | 0 <= i < |keys| :: counts[i] == Occurrences(xs, keys[i])
  {
    seq(|keys|, i requires 0 <= i < |keys| => Occurrences(xs, keys[i]))
  }

  lemma {:induction false} OccurrencesSplit(xs: seq<nat>, k: nat)
    ensures |xs| == Occurrences(xs, k) + |Without(xs, k)|
    ensures forall j | j != k :: Occurrences(Without(xs, k), j) == Occurrences(xs, j)
    ensures forall x | x in Without(xs, k) :: x in xs && x != k
  {
    if xs != [] {
      OccurrencesSplit(xs[1..], k);
      var w := Without(xs, k);
      var rest := Without(xs[1..], k);
      if xs[0] == k {
        assert w == rest;
      } else {
        assert w == [xs[0]] + rest;
        forall j | j != k
          ensures Occurrences(w, j) == Occurrences(xs, j)
        {
          assert w[1..] == rest;
        }
      }
    }
  }

  /**
   * Counting every element under a list of distinct keys that covers them all
   * accounts for each element exactly once: the counts sum to the total.
   */
  lemma {:induction false} CountsSumToTotal(keys: seq<nat>, xs: seq<nat>)
    requires Distinct(keys)
    requires forall x | x in xs :: x in keys
    ensures SumOf(CountsFor(keys, xs)) == |xs|
    decreases |keys|
  {
    if keys == [] {
      FirstIsMember(xs);
    } else {
      var k := keys[0];
      var rest := Without(xs, k);
      OccurrencesSplit(xs, k);
      forall x | x in rest
        ensures x in keys[1..]
      {
        var i :| 0 <= i < |keys| && keys[i] == x;
        assert i != 0;
        assert keys[1..][i - 1] == x;
      }
      forall i, j | 0 <= i < j < |keys[1..]|
        ensures keys[1..][i] != keys[1..][j]
      {
        assert keys[1..][i] == keys[i + 1] && keys[1..][j] == keys[j + 1];
      }
      CountsSumToTotal(keys[1..], rest);
      forall i | 0 <= i < |keys[1..]|
        ensures CountsFor(keys[1..], rest)[i] == CountsFor(keys, xs)[1..][i]
      {
        assert keys[1..][i] == keys[i + 1] != k;
      }
      assert CountsFor(keys[1..], rest) == CountsFor(keys, xs)[1..];
    }
  }

  // ---------------------------------------------------------------------------
  // GroupBy(key).ToDictionary(g => g.Key ?? 0, g => g.Count())
  // ---------------------------------------------------------------------------

  /** The group keys in order of first appearance. */
  function GroupKeys(xs: seq<nat>): (keys: seq<nat>)
    ensures Distinct(keys)
    ensures forall x | x in xs :: x in keys
    ensures forall k | k in keys :: k in xs
  {
    if xs == [] then []
    else
      var earlier := GroupKeys(xs[..|xs| - 1]);
      var last := xs[|xs| - 1];
      assert forall x | x in xs[..|xs| - 1] :: x in xs;
      assert forall i | 0 <= i < |xs| - 1 :: xs[i] == xs[..|xs| - 1][i];
      if last in earlier then earlier else earlier + [last]
  }

  /** The dictionary of counts per key; a null id is counted under 0. */
  function GroupCounts(xs: seq<nat>): (counts: map<nat, nat>)
    ensures forall k :: k in counts <==> k in xs
    ensures forall k | k in counts :: counts[k] == Occurrences(xs, k)
    // no group is empty, and taken group by group the counts account for every element once
    ensures forall k | k in counts :: counts[k] >= 1
    ensures forall i | 0 <= i < |GroupKeys(xs)| :: counts[GroupKeys(xs)[i]] == CountsFor(GroupKeys(xs), xs)[i]
    ensures SumOf(CountsFor(GroupKeys(xs), xs)) == |xs|
  {
    MembersOccur(xs);
    CountsSumToTotal(GroupKeys(xs), xs);
    map k | k in xs :: Occurrences(xs, k)
  }

  lemma MembersOccur(xs: seq<nat>)
    ensures forall k | k in xs :: Occurrences(xs, k) >= 1
  {
    forall k | k in xs
      ensures Occurrences(xs, k) >= 1
    {
      OccurrenceOfMember(xs, k);
    }
  }

  lemma {:induction false} OccurrenceOfMember(xs: seq<nat>, k: nat)
    requires k in xs
    ensures Occurrences(xs, k) >= 1
  {
    if xs[0] != k {
      assert k in xs[1..];
      OccurrenceOfMember(xs[1..], k);
    }
  }

  /** `c.DestinationUrlId ?? 0` for each click, in order. */
  function DestinationKeys(clicks: seq<ClickStat>): (keys: seq<nat>)
    ensures |keys| == |clicks|
    ensures forall i | 0 <= i < |clicks| :: keys[i] == (if clicks[i].destinationUrlId.Some? then clicks[i].destinationUrlId.value else 0)
  {
    seq(|clicks|, i requires 0 <= i < |clicks| =>
      if clicks[i].destinationUrlId.Some? then clicks[i].destinationUrlId.value else 0)
  }

  /** `c.OgMetadataId ?? 0` for each click, in order. */
  function OgKeys(clicks: seq<ClickStat>): (keys: seq<nat>)
    ensures |keys| == |clicks|
    ensures forall i | 0 <= i < |clicks| :: keys[i] == (if clicks[i].ogMetadataId.Some? then clicks[i].ogMetadataId.value else 0)
  {
    seq(|clicks|, i requires 0 <= i < |clicks| =>
      if clicks[i].ogMetadataId.Some? then clicks[i].ogMetadataId.value else 0)
  }

  // ---------------------------------------------------------------------------
  // The per-day chart: GroupBy(c => c.ClickedAt.Date).OrderBy(g => g.Key)
  // ---------------------------------------------------------------------------

  /** Whole days since 0001-01-01 (`DateTime.Date`). */
  function DayOf(t: nat): nat
  {
    t / TicksPerDay
  }

  predicate StrictlyAscending(xs: seq<nat>)
  {
    forall i, j | 0 <= i < j < |xs| :: xs[i] < xs[j]
  }

  /** Adds a day to an ascending list of distinct days, keeping it ascending and distinct. */
  function InsertDay(days: seq<nat>, d: nat): (r: seq<nat>)
    requires StrictlyAscending(days)
    ensures StrictlyAscending(r)
    ensures forall x :: x in r <==> x in days || x == d
  {
    if days == [] then [d]
    else if d < days[0] then [d] + days
    else if d == days[0] then days
    else
      var rest := InsertDay(days[1..], d);
      assert days == [days[0]] + days[1..];
      assert forall x | x in rest :: x > days[0] by {
        forall x | x in rest ensures x > days[0] {
          if x != d {
            var i :| 0 <= i < |days[1..]| && days[1..][i] == x;
            assert days[i + 1] == x;
          }
        }
      }
      var r := [days[0]] + rest;
      assert forall j | 1 <= j < |r| :: r[j] == rest[j - 1] && r[j] in rest;
      r
  }

  /** The distinct days of the clicks, ascending (the chart's `Dates`). */
  function ChartDates(days: seq<nat>): (dates: seq<nat>)
    ensures StrictlyAscending(dates)
    ensures forall x :: x in dates <==> x in days
  {
    if days == [] then [] else InsertDay(ChartDates(days[1..]), days[0])
  }

  lemma AscendingIsDistinct(xs: seq<nat>)
    requires StrictlyAscending(xs)
    ensures Distinct(xs)
  {
  }

  /** Each click's day, in order. */
  function DaysOf(clicks: seq<ClickStat>): (days: seq<nat>)
    ensures |days| == |clicks|
    ensures forall i | 0 <= i < |clicks| :: days[i] == DayOf(clicks[i].clickedAt)
  {
    seq(|clicks|, i requires 0 <= i < |clicks| => DayOf(clicks[i].clickedAt))
  }

  /** The chart series: ascending distinct days, and the number of clicks on each. */
  datatype Chart = Chart(dates: seq<nat>, clicks: seq<nat>)

  function ChartOf(clicks: seq<ClickStat>): (chart: Chart)
  {
    var days := DaysOf(clicks);
    var dates := ChartDates(days);
    Chart(dates, CountsFor(dates, days))
  }

  /**
   * `Dates` are distinct and ascending, each a day on which some click fell;
   * `Clicks[i]` counts the clicks on `Dates[i]`; both lists have equal length;
   * and the `Clicks` sum to the number of clicks charted.
   */
  lemma ChartProperties(clicks: seq<ClickStat>)
    ensures var chart := ChartOf(clicks);
      && StrictlyAscending(chart.dates)
      && |chart.dates| == |chart.clicks|
      && (forall i | 0 <= i < |chart.dates| :: chart.clicks[i] == Occurrences(DaysOf(clicks), chart.dates[i]))
      && (forall i | 0 <= i < |clicks| :: DayOf(clicks[i].clickedAt) in chart.dates)
      && (forall d | d in chart.dates :: exists i | 0 <= i < |clicks| :: DayOf(clicks[i].clickedAt) == d)
      && SumOf(chart.clicks) == |clicks|
  {
    var days := DaysOf(clicks);
    var dates := ChartDates(days);
    AscendingIsDistinct(dates);
    CountsSumToTotal(dates, days);
    forall i | 0 <= i < |clicks|
      ensures DayOf(clicks[i].clickedAt) in dates
    {
      assert days[i] in days;
    }
    forall d | d in dates
      ensures exists i | 0 <= i < |clicks| :: DayOf(clicks[i].clickedAt) == d
    {
      var i :| 0 <= i < |days| && days[i] == d;
      assert DayOf(clicks[i].clickedAt) == d;
    }
  }

  // ---------------------------------------------------------------------------
  // The date window: ClickedAt >= start.Date, ClickedAt <= end.Date.AddDays(1).AddTicks(-1)
  // ---------------------------------------------------------------------------

  /** Midnight of the start date. */
  function WindowStart(start: nat): nat
  {
    DayOf(start) * TicksPerDay
  }

  /** The last tick of the end date. */
  function WindowEnd(end: nat): nat
  {
    DayOf(end) * TicksPerDay + TicksPerDay - 1
  }

  /** An absent bound imposes nothing. */
  predicate InWindow(t: nat, startDate: Option<nat>, endDate: Option<nat>)
  {
    && (startDate.None? || t >= WindowStart(startDate.value))
    && (endDate.None? || t <= WindowEnd(endDate.value))
  }

  lemma DayBounds(t: nat)
    ensures DayOf(t) * TicksPerDay <= t < DayOf(t) * TicksPerDay + TicksPerDay
  {
  }

  /** The window is whole days: a click passes iff its day lies between the two dates' days. */
  lemma InWindowByDay(t: nat, startDate: Option<nat>, endDate: Option<nat>)
    ensures InWindow(t, startDate, endDate) <==>
      (startDate.None? || DayOf(t) >= DayOf(startDate.value)) && (endDate.None? || DayOf(t) <= DayOf(endDate.value))
  {
    DayBounds(t);
    if startDate.Some? {
      var s := DayOf(startDate.value);
      if DayOf(t) >= s {
        MulMonotone(s, DayOf(t), TicksPerDay);
      } else {
        MulMonotone(DayOf(t) + 1, s, TicksPerDay);
      }
    }
    if endDate.Some? {
      var e := DayOf(endDate.value);
      if DayOf(t) <= e {
        MulMonotone(DayOf(t), e, TicksPerDay);
      } else {
        MulMonotone(e + 1, DayOf(t), TicksPerDay);
      }
    }
  }

  /** One URL's clicks, in table order. */
  function ClicksOf(clicks: seq<ClickStat>, urlId: nat): (r: seq<ClickStat>)
    ensures forall i | 0 <= i < |r| :: r[i] in clicks && r[i].urlShortId == urlId
    ensures forall i | 0 <= i < |clicks| && clicks[i].urlShortId == urlId :: clicks[i] in r
  {
    Filter(clicks, (c: ClickStat) => c.urlShortId == urlId)
  }

  /** One URL's clicks that pass the window, in table order. */
  function ClicksInWindow(clicks: seq<ClickStat>, urlId: nat, startDate: Option<nat>, endDate: Option<nat>): (r: seq<ClickStat>)
    ensures forall i | 0 <= i < |r| :: r[i] in clicks && r[i].urlShortId == urlId && InWindow(r[i].clickedAt, startDate, endDate)
    ensures forall i | 0 <= i < |clicks| && clicks[i].urlShortId == urlId && InWindow(clicks[i].clickedAt, startDate, endDate) ::
      clicks[i] in r
  {
    if clicks == [] then []
    else
      var rest := ClicksInWindow(clicks[1..], urlId, startDate, endDate);
      assert forall i | 1 <= i < |clicks| :: clicks[i] == clicks[1..][i - 1];
      var c := clicks[0];
      (if c.urlShortId == urlId && InWindow(c.clickedAt, startDate, endDate) then [c] else []) + rest
  }

  // ---------------------------------------------------------------------------
  // OrderByDescending(c => c.ClickedAt).Take(50)
  // ---------------------------------------------------------------------------

  const RecentLimit: nat := 50

  predicate NewestFirstOrder(xs: seq<ClickStat>)
  {
    forall i, j | 0 <= i < j < |xs| :: xs[i].clickedAt >= xs[j].clickedAt
  }

  /** Puts a click into a newest-first list, ahead of every click that is not newer. */
  function InsertByTime(c: ClickStat, sorted: seq<ClickStat>): (r: seq<ClickStat>)
    ensures multiset(r) == multiset(sorted) + multiset{c}
  {
    if sorted == [] || c.clickedAt >= sorted[0].clickedAt then [c] + sorted
    else
      assert sorted == [sorted[0]] + sorted[1..];
      [sorted[0]] + InsertByTime(c, sorted[1..])
  }

  lemma {:induction false} InsertByTimeOrder(c: ClickStat, sorted: seq<ClickStat>)
    requires NewestFirstOrder(sorted)
    ensures NewestFirstOrder(InsertByTime(c, sorted))
  {
    if sorted != [] && c.clickedAt < sorted[0].clickedAt {
      var rest := InsertByTime(c, sorted[1..]);
      InsertByTimeOrder(c, sorted[1..]);
      forall j | 0 <= j < |rest|
        ensures rest[j].clickedAt <= sorted[0].clickedAt
      {
        assert rest[j] in multiset(rest);
        if rest[j] != c {
          assert rest[j] in multiset(sorted[1..]);
          var i :| 0 <= i < |sorted[1..]| && sorted[1..][i] == rest[j];
          assert sorted[i + 1] == rest[j];
        }
      }
      var r := [sorted[0]] + rest;
      assert forall j | 1 <= j < |r| :: r[j] == rest[j - 1];
    }
  }

  /** The clicks newest first. */
  function NewestFirst(xs: seq<ClickStat>): (r: seq<ClickStat>)
    ensures NewestFirstOrder(r)
    ensures multiset(r) == multiset(xs)
  {
    if xs == [] then []
    else
      assert xs == [xs[0]] + xs[1..];
      InsertByTimeOrder(xs[0], NewestFirst(xs[1..]));
      InsertByTime(xs[0], NewestFirst(xs[1..]))
  }

  /** The page's click list: the 50 newest clicks. */
  function Recent(xs: seq<ClickStat>): seq<ClickStat>
  {
    var sorted := NewestFirst(xs);
    if |sorted| <= RecentLimit then sorted else sorted[..RecentLimit]
  }

  /**
   * The list holds min(50, n) of the clicks, newest first, and every click
   * left out is no newer than the oldest one shown.
   */
  lemma RecentProperties(xs: seq<ClickStat>)
    ensures var r := Recent(xs);
      && |r| == (if |xs| <= RecentLimit then |xs| else RecentLimit)
      && NewestFirstOrder(r)
      && multiset(r) <= multiset(xs)
      && (forall c | c in xs :: c in r || c.clickedAt <= r[|r| - 1].clickedAt)
  {
    var sorted := NewestFirst(xs);
    assert |sorted| == |multiset(sorted)| == |xs|;
    var r := Recent(xs);
    if |sorted| > RecentLimit {
      assert sorted == r + sorted[RecentLimit..];
      assert multiset(sorted) == multiset(r) + multiset(sorted[RecentLimit..]);
      forall c | c in xs
        ensures c in r || c.clickedAt <= r[|r| - 1].clickedAt
      {
        assert c in multiset(sorted);
        var i :| 0 <= i < |sorted| && sorted[i] == c;
        if i < RecentLimit {
          assert r[i] == c;
        } else {
          assert r[|r| - 1] == sorted[RecentLimit - 1];
        }
      }
    } else {
      forall c | c in xs
        ensures c in r
      {
        assert c in multiset(sorted);
      }
    }
  }

  // ---------------------------------------------------------------------------
  // The CSV export
  // ---------------------------------------------------------------------------

  const CsvHeaders: seq<string> :=
    ["Time", "IP Address", "Country", "City", "Referrer", "Device", "Browser", "OS", "Language", "Screen Resolution"]

  /** `$"\"{value ?? ""}\""` */
  function Quoted(value: string): (field: string)
    ensures |field| == |value| + 2 && field[0] == '"' && field[|field| - 1] == '"'
    ensures field[1..|field| - 1] == value
  {
    "\"" + value + "\""
  }

  /** The values inside quoted fields, quotes removed. */
  function Unquoted(fields: seq<string>): seq<string>
    requires forall k | 0 <= k < |fields| :: |fields[k]| >= 2
  {
    seq(|fields|, k requires 0 <= k < |fields| => fields[k][1..|fields[k]| - 1])
  }

  /** The ten exported values of one click, in header order (the time as the `g` format renders it, a null as ""). */
  function ExportedValues(c: ClickStat, formatTime: nat -> string): (values: seq<string>)
    ensures |values| == |CsvHeaders|
  {
    [formatTime(c.clickedAt), OrEmpty(c.ipAddress), OrEmpty(c.country), OrEmpty(c.city), OrEmpty(c.referrer),
     OrEmpty(c.device), OrEmpty(c.browser), OrEmpty(c.operatingSystem), OrEmpty(c.language), OrEmpty(c.screenResolution)]
  }

  /** The ten fields of one click's CSV row. */
  function CsvFields(c: ClickStat, formatTime: nat -> string): (fields: seq<string>)
    ensures |fields| == |CsvHeaders|
    // every field is wrapped in double quotes, with nothing escaped inside
    ensures forall k | 0 <= k < |fields| :: |fields[k]| >= 2 && fields[k][0] == '"' && fields[k][|fields[k]| - 1] == '"'
    // inside the quotes, the click's values in header order
    ensures Unquoted(fields) == ExportedValues(c, formatTime)
    ensures c.ipAddress.None? ==> fields[1] == "\"\""
  {
    var values := ExportedValues(c, formatTime);
    seq(|values|, k requires 0 <= k < |values| => Quoted(values[k]))
  }

  function CsvRow(c: ClickStat, formatTime: nat -> string): string
  {
    Join(",", CsvFields(c, formatTime))
  }

  function CsvRows(clicks: seq<ClickStat>, formatTime: nat -> string): (rows: seq<string>)
    ensures |rows| == |clicks|
    ensures forall i | 0 <= i < |clicks| :: rows[i] == CsvRow(clicks[i], formatTime)
  {
    seq(|clicks|, i requires 0 <= i < |clicks| => CsvRow(clicks[i], formatTime))
  }

  /** `string.Join("\n", new[] { header }.Concat(rows))` */
  function Csv(clicks: seq<ClickStat>, formatTime: nat -> string): string
  {
    Join("\n", [Join(",", CsvHeaders)] + CsvRows(clicks, formatTime))
  }

  /** Splitting on a separator character: the pieces between its occurrences. */
  function SplitOn(s: string, sep: char): (parts: seq<string>)
    ensures |parts| >= 1
    decreases |s|
  {
    var head := TakeUntil(s, sep);
    if |head| == |s| then [s] else [head] + SplitOn(s[|head| + 1..], sep)
  }

  /** Joining pieces that do not contain the separator and splitting again gives the pieces back. */
  lemma {:induction false} SplitJoin(parts: seq<string>, sep: char)
    requires |parts| >= 1
    requires forall i | 0 <= i < |parts| :: sep !in parts[i]
    ensures SplitOn(Join([sep], parts), sep) == parts
    decreases |parts|
  {
    if |parts| == 1 {
      TakeUntilWhole(parts[0], sep);
    } else {
      var rest := Join([sep], parts[1..]);
      assert forall i | 0 <= i < |parts[1..]| :: parts[1..][i] == parts[i + 1];
      SplitJoin(parts[1..], sep);
      SplitOnStep(parts[0], sep, rest);
      assert parts == [parts[0]] + parts[1..];
    }
  }

  /** The first piece ends at the first separator. */
  lemma SplitOnStep(a: string, sep: char, rest: string)
    requires sep !in a
    ensures SplitOn(a + [sep] + rest, sep) == [a] + SplitOn(rest, sep)
  {
    var s := a + [sep] + rest;
    TakeUntilPrefix(a, sep, [sep] + rest);
    assert s == a + ([sep] + rest);
    assert s[|a| + 1..] == rest;
  }

  lemma TakeUntilWhole(s: string, sep: char)
    requires sep !in s
    ensures TakeUntil(s, sep) == s
  {
  }

  lemma TakeUntilPrefix(a: string, sep: char, b: string)
    requires sep !in a && |b| >= 1 && b[0] == sep
    ensures TakeUntil(a + b, sep) == a
  {
    var s := a + b;
    assert s[|a|] == sep;
    assert forall i | 0 <= i < |a| :: s[i] == a[i];
    assert s[..|a|] == a;
  }

  /**
   * The export is the header line and then exactly one line per click, in
   * the list's order, provided no exported value contains a line break.
   */
  lemma CsvLines(clicks: seq<ClickStat>, formatTime: nat -> string)
    requires forall i | 0 <= i < |clicks| :: forall f | f in CsvFields(clicks[i], formatTime) :: '\n' !in f
    ensures SplitOn(Csv(clicks, formatTime), '\n') == [Join(",", CsvHeaders)] + CsvRows(clicks, formatTime)
  {
    var rows := CsvRows(clicks, formatTime);
    var lines := [Join(",", CsvHeaders)] + rows;
    HeaderHasNoLineBreak();
    forall i | 0 <= i < |rows|
      ensures '\n' !in rows[i]
    {
      RowHasNoLineBreak(clicks[i], formatTime);
    }
    assert forall i | 1 <= i < |lines| :: lines[i] == rows[i - 1];
    SplitJoin(lines, '\n');
  }

  lemma HeaderHasNoLineBreak()
    ensures '\n' !in Join(",", CsvHeaders)
  {
    JoinKeepsOut(",", CsvHeaders, '\n');
  }

  lemma RowHasNoLineBreak(c: ClickStat, formatTime: nat -> string)
    requires forall f | f in CsvFields(c, formatTime) :: '\n' !in f
    ensures '\n' !in CsvRow(c, formatTime)
  {
    var fields := CsvFields(c, formatTime);
    assert forall i | 0 <= i < |fields| :: fields[i] in fields;
    JoinKeepsOut(",", fields, '\n');
  }

  /** A character absent from the separator and from every part is absent from the join. */
  lemma {:induction false} JoinKeepsOut(sep: string, parts: seq<string>, c: char)
    requires c !in sep && forall i | 0 <= i < |parts| :: c !in parts[i]
    ensures c !in Join(sep, parts)
    decreases |parts|
  {
    if |parts| > 1 {
      JoinKeepsOut(sep, parts[1..], c);
    }
  }
}
