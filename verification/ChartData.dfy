/**
 The numbers behind a chart: histogram bins, and rows aggregated per group of a field, a date
 field by hour, day, week, month or year. Numbers are exact reals.
 */
module ChartData {
  import opened Common
  import opened JsText

  // ---------------------------------------------------------------- sums and extremes

  function Sum(xs: seq<real>): real {
    if xs == [] then 0.0 else Sum(xs[..|xs| - 1]) + xs[|xs| - 1]
  }

  function Least(xs: seq<real>): (m: real)
    requires xs != []
    ensures m in xs && forall i :: 0 <= i < |xs| ==> m <= xs[i]
  {
    if |xs| == 1 then xs[0]
    else
      var m := Least(xs[..|xs| - 1]);
      var x := xs[|xs| - 1];
      assert forall i :: 0 <= i < |xs| - 1 ==> xs[i] == xs[..|xs| - 1][i];
      if x < m then x else m
  }

  function Greatest(xs: seq<real>): (m: real)
    requires xs != []
    ensures m in xs && forall i :: 0 <= i < |xs| ==> xs[i] <= m
  {
    if |xs| == 1 then xs[0]
    else
      var m := Greatest(xs[..|xs| - 1]);
      var x := xs[|xs| - 1];
      assert forall i :: 0 <= i < |xs| - 1 ==> xs[i] == xs[..|xs| - 1][i];
      if x > m then x else m
  }

  // ---------------------------------------------------------------- the histogram

  datatype Bin = Bin(count: nat, min: real, max: real)

  /** A bin holds what lies from its start to before its end; the last one holds its end too. */
  predicate Holds(bin: Bin, last: bool, v: real) {
    bin.min <= v && (v < bin.max || (last && v == bin.max))
  }

  /** How many of the values the bin holds. */
  function HowMany(bin: Bin, last: bool, values: seq<real>): nat {
    if values == [] then 0
    else HowMany(bin, last, values[..|values| - 1]) + if Holds(bin, last, values[|values| - 1]) then 1 else 0
  }

  /** Where the `i`-th bin of that width starts. */
  function Edge(min: real, width: real, i: int): real {
    min + i as real * width
  }

  /** The bin the values are counted into: by division, and the greatest value into the last one. */
  function Index(v: real, min: real, width: real, buckets: nat): int
    requires width > 0.0
  {
    var idx := ((v - min) / width).Floor;
    if idx >= buckets then buckets - 1 else idx
  }

  lemma DivideOut(x: real, width: real)
    requires width > 0.0
    ensures x / width * width == x
  {
  }

  lemma Scale(a: real, b: real, width: real)
    requires width > 0.0
    ensures a <= b <==> a * width <= b * width
    ensures a < b <==> a * width < b * width
  {
    assert (b - a) * width == b * width - a * width;
    if a < b {
      assert (b - a) * width > 0.0;
    } else if b < a {
      assert (a - b) * width > 0.0;
    }
  }

  /** Comparing a value with an edge is comparing its quotient with the edge's number. */
  lemma QuotientAtEdge(v: real, min: real, width: real, i: int)
    requires width > 0.0
    ensures var q := (v - min) / width;
            && (i as real <= q <==> Edge(min, width, i) <= v)
            && (q <= i as real <==> v <= Edge(min, width, i))
  {
    var q := (v - min) / width;
    DivideOut(v - min, width);
    Scale(i as real, q, width);
    Scale(q, i as real, width);
  }

  predicate Spans(min: real, max: real, width: real, buckets: nat) {
    width > 0.0 && width * buckets as real == max - min
  }

  lemma Wide(min: real, max: real, width: real, buckets: nat)
    requires Spans(min, max, width, buckets)
    ensures width > 0.0
  {
  }

  lemma WidthSpans(min: real, max: real, buckets: nat)
    requires min < max && buckets > 0
    ensures Spans(min, max, (max - min) / buckets as real, buckets)
  {
    DivideOut(max - min, buckets as real);
    Scale(0.0, (max - min) / buckets as real, buckets as real);
  }

  lemma Ends(min: real, max: real, width: real, buckets: nat)
    requires Spans(min, max, width, buckets)
    ensures Edge(min, width, 0) == min && Edge(min, width, buckets) == max
  {
  }

  /** The edges and the index agree: a value is counted in the one bin that holds it. */
  lemma IndexHolds(v: real, min: real, max: real, width: real, buckets: nat, i: nat)
    requires min <= v <= max && i < buckets && Spans(min, max, width, buckets)
    ensures 0 <= Index(v, min, width, buckets) < buckets
    ensures var bin := Bin(0, Edge(min, width, i), Edge(min, width, i + 1));
            Holds(bin, i == buckets - 1, v) <==> Index(v, min, width, buckets) == i
  {
    Ends(min, max, width, buckets);
    QuotientAtEdge(v, min, width, 0);
    QuotientAtEdge(v, min, width, buckets);
    QuotientAtEdge(v, min, width, i);
    QuotientAtEdge(v, min, width, i + 1);
    hide Edge;
    hide Spans;
  }

  lemma InRange(values: seq<real>)
    requires values != []
    ensures Least(values) <= Greatest(values)
    ensures forall i :: 0 <= i < |values| ==> Least(values) <= values[i] <= Greatest(values)
  {
    assert Greatest(values) in values;
  }

  method ComputeHistogramBins(values: seq<real>, buckets: nat) returns (bins: seq<Bin>)
    requires buckets > 0
    ensures values == [] ==> bins == []
    ensures values != [] && Least(values) == Greatest(values) ==>
              bins == [Bin(|values|, Least(values), Greatest(values))]
    ensures values != [] && Least(values) < Greatest(values) ==>
              && |bins| == buckets
              && Tiling(bins, Least(values), Greatest(values),
                        (Greatest(values) - Least(values)) / buckets as real, values)
  {
    hide Edge;
    hide Spans;
    hide Tiling;
    hide Least;
    hide Greatest;
    if |values| == 0 {
      return [];
    }
    var min, max := Least(values), Greatest(values);
    if min == max {
      return [Bin(|values|, min, max)];
    }
    var binWidth := (max - min) / buckets as real;
    WidthSpans(min, max, buckets);
    InRange(values);
    Wide(min, max, binWidth, buckets);
    var counted := new Bin[buckets](i => Bin(0, Edge(min, binWidth, i), Edge(min, binWidth, i + 1)));
    assert forall i :: 0 <= i < buckets ==>
                         counted[..][i] == Bin(0, Edge(min, binWidth, i), Edge(min, binWidth, i + 1));
    NothingCounted(counted[..], min, max, binWidth);
    CountValues(counted, values, min, max, binWidth);
    return counted[..];
  }

  /** Each value adds one to the bin at its index. */
  method CountValues(counted: array<Bin>, values: seq<real>, min: real, max: real, binWidth: real)
    requires Tiling(counted[..], min, max, binWidth, [])
    requires forall i :: 0 <= i < |values| ==> min <= values[i] <= max
    modifies counted
    ensures Tiling(counted[..], min, max, binWidth, values)
  {
    hide Edge;
    hide Spans;
    hide Tiling;
    var buckets := counted.Length;
    var k := 0;
    while k < |values|
      invariant 0 <= k <= |values|
      invariant Tiling(counted[..], min, max, binWidth, values[..k])
    {
      var v := values[k];
      CountedIn(counted[..], min, max, binWidth, values[..k], v);
      Wide(min, max, binWidth, buckets);
      var idx := ((v - min) / binWidth).Floor;
      if idx >= buckets {
        idx := buckets - 1;
      }
      ghost var before := counted[..];
      counted[idx] := counted[idx].(count := counted[idx].count + 1);
      assert counted[..] == before[idx := before[idx].(count := before[idx].count + 1)];
      assert values[..k + 1] == values[..k] + [v];
      k := k + 1;
    }
    assert values[..k] == values;
  }

  /** The `i`-th of `n` bins of one width, counting these values. */
  ghost predicate Counting(bin: Bin, i: nat, n: nat, min: real, width: real, values: seq<real>) {
    && bin.min == Edge(min, width, i) && bin.max == Edge(min, width, i + 1)
    && bin.count == HowMany(bin, i == n - 1, values)
  }

  /** Bins of one width side by side, counting these values. */
  ghost predicate Tiling(bins: seq<Bin>, min: real, max: real, width: real, values: seq<real>) {
    && |bins| > 0 && Spans(min, max, width, |bins|)
    && (forall k :: 0 <= k < |values| ==> min <= values[k] <= max)
    && forall i :: 0 <= i < |bins| ==> Counting(bins[i], i, |bins|, min, width, values)
  }

  lemma NothingCounted(bins: seq<Bin>, min: real, max: real, width: real)
    requires |bins| > 0 && Spans(min, max, width, |bins|)
    requires forall i :: 0 <= i < |bins| ==> bins[i] == Bin(0, Edge(min, width, i), Edge(min, width, i + 1))
    ensures Tiling(bins, min, max, width, [])
  {
    hide Spans;
    forall i | 0 <= i < |bins| ensures Counting(bins[i], i, |bins|, min, width, []) {
      assert bins[i] == Bin(0, Edge(min, width, i), Edge(min, width, i + 1));
      assert HowMany(bins[i], i == |bins| - 1, []) == 0;
    }
  }

  lemma CountsOn(bin: Bin, i: nat, n: nat, min: real, max: real, width: real, values: seq<real>, v: real)
    requires i < n && Spans(min, max, width, n) && min <= v <= max && Counting(bin, i, n, min, width, values)
    ensures var counted := if Index(v, min, width, n) == i then bin.(count := bin.count + 1) else bin;
            Counting(counted, i, n, min, width, values + [v])
  {
    IndexHolds(v, min, max, width, n, i);
    assert (values + [v])[..|values|] == values;
    HowManyByBounds(bin, bin.(count := bin.count + 1), i == n - 1, values + [v]);
    hide Edge;
    hide Index;
    hide Spans;
  }

  /** Counting one more value where its index says keeps every bin's count right. */
  lemma CountedIn(bins: seq<Bin>, min: real, max: real, width: real, values: seq<real>, v: real)
    requires Tiling(bins, min, max, width, values) && min <= v <= max
    ensures Spans(min, max, width, |bins|) && 0 <= Index(v, min, width, |bins|) < |bins|
    ensures var idx := Index(v, min, width, |bins|);
            Tiling(bins[idx := bins[idx].(count := bins[idx].count + 1)], min, max, width, values + [v])
  {
    hide Index;
    hide Counting;
    hide Spans;
    Wide(min, max, width, |bins|);
    IndexHolds(v, min, max, width, |bins|, 0);
    var idx := Index(v, min, width, |bins|);
    var after := bins[idx := bins[idx].(count := bins[idx].count + 1)];
    forall i | 0 <= i < |bins| ensures Counting(after[i], i, |bins|, min, width, values + [v]) {
      CountsOn(bins[i], i, |bins|, min, max, width, values, v);
    }
  }

  /** How many a bin holds depends on its bounds, not on its count. */
  lemma HowManyByBounds(a: Bin, b: Bin, last: bool, values: seq<real>)
    requires a.min == b.min && a.max == b.max
    ensures HowMany(a, last, values) == HowMany(b, last, values)
  {
  }

  // ---------------------------------------------------------------- what the bins are

  function Counts(bins: seq<Bin>): nat {
    if bins == [] then 0 else Counts(bins[..|bins| - 1]) + bins[|bins| - 1].count
  }

  /** The number of values whose index is less than `n`. */
  function Below(values: seq<real>, min: real, width: real, buckets: nat, n: int): nat
    requires width > 0.0
  {
    if values == [] then 0
    else
      Below(values[..|values| - 1], min, width, buckets, n)
      + if Index(values[|values| - 1], min, width, buckets) < n then 1 else 0
  }

  lemma {:induction false} OneMoreBin(values: seq<real>, min: real, max: real, width: real, buckets: nat, i: nat)
    requires i < buckets && Spans(min, max, width, buckets)
    requires forall k :: 0 <= k < |values| ==> min <= values[k] <= max
    ensures var bin := Bin(0, Edge(min, width, i), Edge(min, width, i + 1));
            Below(values, min, width, buckets, i + 1)
            == Below(values, min, width, buckets, i) + HowMany(bin, i == buckets - 1, values)
  {
    if values != [] {
      var before, v := values[..|values| - 1], values[|values| - 1];
      OneMoreBin(before, min, max, width, buckets, i);
      IndexHolds(v, min, max, width, buckets, i);
      hide Index;
      hide Edge;
      hide Holds;
      hide Spans;
    }
  }

  lemma AllBelow(values: seq<real>, min: real, max: real, width: real, buckets: nat)
    requires buckets > 0 && Spans(min, max, width, buckets)
    requires forall k :: 0 <= k < |values| ==> min <= values[k] <= max
    ensures Below(values, min, width, buckets, buckets) == |values|
    ensures Below(values, min, width, buckets, 0) == 0
  {
    if values != [] {
      AllBelow(values[..|values| - 1], min, max, width, buckets);
      IndexHolds(values[|values| - 1], min, max, width, buckets, 0);
      hide Index;
      hide Spans;
    }
  }

  lemma {:induction false} CountsBelow(bins: seq<Bin>, min: real, max: real, width: real, values: seq<real>, n: nat)
    requires Tiling(bins, min, max, width, values) && n <= |bins|
    ensures Counts(bins[..n]) == Below(values, min, width, |bins|, n)
  {
    if n == 0 {
      AllBelow(values, min, max, width, |bins|);
    } else {
      CountsBelow(bins, min, max, width, values, n - 1);
      OneMoreBin(values, min, max, width, |bins|, n - 1);
      HowManyByBounds(bins[n - 1], Bin(0, Edge(min, width, n - 1), Edge(min, width, n)), n == |bins|, values);
      hide HowMany;
      hide Below;
      hide Spans;
      hide Edge;
      assert bins[..n][..n - 1] == bins[..n - 1];
    }
  }

  /**
   Main result about the histogram, over exact reals: the bins lie side by side from the least
   value to the greatest, every value is held by exactly one of them, and the counts add up to
   the number of values.
   */
  lemma BinsTileAndCount(bins: seq<Bin>, min: real, max: real, width: real, values: seq<real>)
    requires Tiling(bins, min, max, width, values)
    ensures bins[0].min == min && bins[|bins| - 1].max == max
    ensures forall i :: 0 <= i < |bins| - 1 ==> bins[i].max == bins[i + 1].min
    ensures forall k :: 0 <= k < |values| ==>
              && 0 <= Index(values[k], min, width, |bins|) < |bins|
              && forall i :: 0 <= i < |bins| ==>
                   (Holds(bins[i], i == |bins| - 1, values[k]) <==> i == Index(values[k], min, width, |bins|))
    ensures Counts(bins) == |values|
  {
    CountsBelow(bins, min, max, width, values, |bins|);
    AllBelow(values, min, max, width, |bins|);
    assert bins[..|bins|] == bins;
    Ends(min, max, width, |bins|);
    hide Index;
    hide HowMany;
    hide Edge;
    hide Spans;
    assert forall i :: 0 <= i < |bins| ==> Counting(bins[i], i, |bins|, min, width, values);
    forall k, i | 0 <= k < |values| && 0 <= i < |bins|
      ensures 0 <= Index(values[k], min, width, |bins|) < |bins|
      ensures Holds(bins[i], i == |bins| - 1, values[k]) <==> i == Index(values[k], min, width, |bins|)
    {
      IndexHolds(values[k], min, max, width, |bins|, i);
    }
  }

  // ---------------------------------------------------------------- rows and their keys

  /** A cell that is not null: its text, and its number if it reads as one. */
  datatype Cell = Cell(text: string, number: Option<real>)

  type Row = map<string, Cell>

  /** The local calendar reading of an instant; the Sunday is the one that starts its week. */
  datatype Date = Date(year: string, month: nat, day: nat, hour: nat, sundayYear: string,
                       sundayMonth: nat, sundayDay: nat)

  datatype DateGrouping = Hour | Day | Week | Month | Year

  /** At least two digits. */
  function TwoDigits(n: nat): string {
    if n < 10 then "0" + Decimal(n) else Decimal(n)
  }

  function DayText(year: string, month: nat, day: nat): string {
    year + "-" + TwoDigits(month) + "-" + TwoDigits(day)
  }

  function DateText(d: Date, grouping: DateGrouping): string {
    match grouping
    case Hour => DayText(d.year, d.month, d.day) + " " + TwoDigits(d.hour) + ":00"
    case Day => DayText(d.year, d.month, d.day)
    case Week => "W" + DayText(d.sundayYear, d.sundayMonth, d.sundayDay)
    case Month => d.year + "-" + TwoDigits(d.month)
    case Year => d.year
  }

  /** What is not a date keeps its text. */
  function GroupByDate(text: string, grouping: DateGrouping, dates: map<string, Date>): string {
    if text !in dates then text else DateText(dates[text], grouping)
  }

  function LabelOf(row: Row, field: string): string {
    if field in row then row[field].text else ""
  }

  function KeyOf(row: Row, field: string, grouping: Option<DateGrouping>, dates: map<string, Date>): string {
    var text := LabelOf(row, field);
    if grouping.Some? && text != "" then GroupByDate(text, grouping.value, dates) else text
  }

  function KeysOf(rows: seq<Row>, field: string, grouping: Option<DateGrouping>,
          dates: map<string, Date>): (ks: seq<string>)
    ensures |ks| == |rows|
    ensures forall i :: 0 <= i < |rows| ==> ks[i] == KeyOf(rows[i], field, grouping, dates)
  {
    if rows == [] then []
    else KeysOf(rows[..|rows| - 1], field, grouping, dates) + [KeyOf(rows[|rows| - 1], field, grouping, dates)]
  }

  /** What does not read as a number counts as zero. */
  function NumberAt(row: Row, field: string): real {
    if field in row && row[field].number.Some? then row[field].number.value else 0.0
  }

  function ValuesOf(rows: seq<Row>, field: string): (xs: seq<real>)
    ensures |xs| == |rows|
    ensures forall i :: 0 <= i < |rows| ==> xs[i] == NumberAt(rows[i], field)
  {
    if rows == [] then [] else ValuesOf(rows[..|rows| - 1], field) + [NumberAt(rows[|rows| - 1], field)]
  }

  // ---------------------------------------------------------------- groups

  /** The distinct keys in order of first appearance. */
  function Firsts(ks: seq<string>): (keys: seq<string>)
    ensures forall k :: k in keys <==> k in ks
  {
    if ks == [] then []
    else
      var before, k := ks[..|ks| - 1], ks[|ks| - 1];
      assert ks == before + [k];
      if k in Firsts(before) then Firsts(before) else Firsts(before) + [k]
  }

  /** What stands beside a key, in order. */
  function Pick<T>(ks: seq<string>, xs: seq<T>, key: string): seq<T>
    requires |ks| == |xs|
  {
    if xs == [] then []
    else
      Pick(ks[..|ks| - 1], xs[..|xs| - 1], key)
      + if ks[|ks| - 1] == key then [xs[|xs| - 1]] else []
  }

  /** The sums beside the keys, added up. */
  function Total(ks: seq<string>, xs: seq<real>, keys: seq<string>): real
    requires |ks| == |xs|
  {
    if keys == [] then 0.0 else Total(ks, xs, keys[..|keys| - 1]) + Sum(Pick(ks, xs, keys[|keys| - 1]))
  }

  lemma PickMore<T>(ks: seq<string>, xs: seq<T>, k: string, x: T, key: string)
    requires |ks| == |xs|
    ensures Pick(ks + [k], xs + [x], key) == Pick(ks, xs, key) + if k == key then [x] else []
  {
    assert (ks + [k])[..|ks|] == ks && (xs + [x])[..|xs|] == xs;
  }

  lemma PickAbsent<T>(ks: seq<string>, xs: seq<T>, key: string)
    requires |ks| == |xs| && key !in ks
    ensures Pick(ks, xs, key) == []
  {
    if ks != [] {
      assert ks[|ks| - 1] in ks && forall k <- ks[..|ks| - 1] :: k in ks;
      PickAbsent(ks[..|ks| - 1], xs[..|xs| - 1], key);
    }
  }

  lemma SumMore(xs: seq<real>, x: real)
    ensures Sum(xs + [x]) == Sum(xs) + x
  {
    assert (xs + [x])[..|xs|] == xs;
  }

  predicate Distinct(keys: seq<string>) {
    forall i, j :: 0 <= i < j < |keys| ==> keys[i] != keys[j]
  }

  lemma FirstsDistinct(ks: seq<string>)
    ensures Distinct(Firsts(ks))
  {
    if ks != [] {
      FirstsDistinct(ks[..|ks| - 1]);
    }
  }

  /** One more value changes the total by that value, if its key is among the keys. */
  lemma {:induction false} TotalMore(ks: seq<string>, xs: seq<real>, k: string, x: real, keys: seq<string>)
    requires |ks| == |xs| && Distinct(keys)
    ensures Total(ks + [k], xs + [x], keys) == Total(ks, xs, keys) + if k in keys then x else 0.0
  {
    if keys != [] {
      var before, key := keys[..|keys| - 1], keys[|keys| - 1];
      assert keys == before + [key];
      TotalMore(ks, xs, k, x, before);
      PickMore(ks, xs, k, x, key);
      SumMore(Pick(ks, xs, key), x);
      assert Pick(ks, xs, key) + [] == Pick(ks, xs, key);
      hide Pick;
      hide Sum;
    }
  }

  // ---------------------------------------------------------------- coarser keys

  function MapKeys(f: string -> string, ks: seq<string>): (cs: seq<string>)
    ensures |cs| == |ks| && forall i :: 0 <= i < |ks| ==> cs[i] == f(ks[i])
  {
    if ks == [] then [] else MapKeys(f, ks[..|ks| - 1]) + [f(ks[|ks| - 1])]
  }

  /** The keys that `f` sends to `coarse`. */
  function Within(f: string -> string, keys: seq<string>, coarse: string): seq<string> {
    if keys == [] then []
    else
      Within(f, keys[..|keys| - 1], coarse) + if f(keys[|keys| - 1]) == coarse then [keys[|keys| - 1]] else []
  }

  lemma WithinMore(f: string -> string, keys: seq<string>, key: string, coarse: string)
    ensures Within(f, keys + [key], coarse) == Within(f, keys, coarse) + if f(key) == coarse then [key] else []
  {
    assert (keys + [key])[..|keys|] == keys;
  }

  lemma WithinHolds(f: string -> string, keys: seq<string>, coarse: string)
    ensures forall k :: k in Within(f, keys, coarse) <==> k in keys && f(k) == coarse
    ensures Distinct(keys) ==> Distinct(Within(f, keys, coarse))
  {
    if keys != [] {
      var before, key := keys[..|keys| - 1], keys[|keys| - 1];
      assert keys == before + [key];
      WithinHolds(f, before, coarse);
      assert Distinct(keys) ==> key !in before;
    }
  }

  lemma TotalAppend(ks: seq<string>, xs: seq<real>, keys: seq<string>, key: string)
    requires |ks| == |xs|
    ensures Total(ks, xs, keys + [key]) == Total(ks, xs, keys) + Sum(Pick(ks, xs, key))
  {
    assert (keys + [key])[..|keys|] == keys;
  }

  /**
   The sums of the fine groups that fall into a coarse one add up to the coarse group's sum,
   whatever the coarser key is a function of the finer one.
   */
  lemma {:induction false} FineAddsUp(ks: seq<string>, xs: seq<real>, f: string -> string, coarse: string)
    requires |ks| == |xs|
    ensures Total(ks, xs, Within(f, Firsts(ks), coarse)) == Sum(Pick(MapKeys(f, ks), xs, coarse))
    decreases |ks|
  {
    if ks != [] {
      var before, k := ks[..|ks| - 1], ks[|ks| - 1];
      var values, x := xs[..|xs| - 1], xs[|xs| - 1];
      assert ks == before + [k] && xs == values + [x];
      FineAddsUp(before, values, f, coarse);
      OneMoreKey(before, values, k, x, f, coarse);
    }
  }

  lemma FirstsMore(ks: seq<string>, k: string)
    ensures Firsts(ks + [k]) == if k in ks then Firsts(ks) else Firsts(ks) + [k]
  {
    var more := ks + [k];
    assert more[..|more| - 1] == ks && more[|more| - 1] == k;
  }

  lemma OneMoreKey(ks: seq<string>, xs: seq<real>, k: string, x: real, f: string -> string, coarse: string)
    requires |ks| == |xs| && Total(ks, xs, Within(f, Firsts(ks), coarse)) == Sum(Pick(MapKeys(f, ks), xs, coarse))
    ensures Total(ks + [k], xs + [x], Within(f, Firsts(ks + [k]), coarse))
            == Sum(Pick(MapKeys(f, ks + [k]), xs + [x], coarse))
  {
    hide *;
    TotalGrows(ks, xs, k, x, f, coarse);
    SumGrows(ks, xs, k, x, f, coarse);
  }

  lemma TotalGrows(ks: seq<string>, xs: seq<real>, k: string, x: real, f: string -> string, coarse: string)
    requires |ks| == |xs|
    ensures Total(ks + [k], xs + [x], Within(f, Firsts(ks + [k]), coarse))
            == Total(ks, xs, Within(f, Firsts(ks), coarse)) + if f(k) == coarse then x else 0.0
  {
    hide *;
    var keys := Within(f, Firsts(ks), coarse);
    FirstsDistinct(ks);
    WithinHolds(f, Firsts(ks), coarse);
    TotalMore(ks, xs, k, x, keys);
    FirstsMore(ks, k);
    if k !in ks {
      WithinMore(f, Firsts(ks), k, coarse);
      TotalAppend(ks + [k], xs + [x], keys, k);
      NewKeySum(ks, xs, k, x);
      assert keys + [] == keys;
    }
  }

  lemma NewKeySum(ks: seq<string>, xs: seq<real>, k: string, x: real)
    requires |ks| == |xs| && k !in ks
    ensures Sum(Pick(ks + [k], xs + [x], k)) == x
  {
    hide Pick;
    PickMore(ks, xs, k, x, k);
    PickAbsent(ks, xs, k);
    SumMore([], x);
  }

  lemma SumGrows(ks: seq<string>, xs: seq<real>, k: string, x: real, f: string -> string, coarse: string)
    requires |ks| == |xs|
    ensures Sum(Pick(MapKeys(f, ks + [k]), xs + [x], coarse))
            == Sum(Pick(MapKeys(f, ks), xs, coarse)) + if f(k) == coarse then x else 0.0
  {
    hide *;
    assert MapKeys(f, ks + [k]) == MapKeys(f, ks) + [f(k)];
    var before := Pick(MapKeys(f, ks), xs, coarse);
    PickMore(MapKeys(f, ks), xs, f(k), x, coarse);
    SumMore(before, x);
    assert before + [] == before;
  }

  lemma {:induction false} AllWithin(keys: seq<string>)
    ensures Within(_ => "", keys, "") == keys
  {
    if keys != [] {
      AllWithin(keys[..|keys| - 1]);
    }
  }

  lemma {:induction false} AllPicked(ks: seq<string>, xs: seq<real>)
    requires |ks| == |xs|
    ensures Pick(MapKeys(_ => "", ks), xs, "") == xs
  {
    if ks != [] {
      AllPicked(ks[..|ks| - 1], xs[..|xs| - 1]);
      assert MapKeys(_ => "", ks)[..|ks| - 1] == MapKeys(_ => "", ks[..|ks| - 1]);
    }
  }

  /** The groups' sums add up to the sum of all. */
  lemma GroupsAddUp(ks: seq<string>, xs: seq<real>)
    requires |ks| == |xs|
    ensures Total(ks, xs, Firsts(ks)) == Sum(xs)
  {
    FineAddsUp(ks, xs, _ => "", "");
    AllWithin(Firsts(ks));
    AllPicked(ks, xs);
  }

  // ---------------------------------------------------------------- aggregation

  datatype Aggregation = NoAggregation | SumOf | AvgOf | CountOf | MinOf | MaxOf

  datatype Metric = Metric(field: string, aggregation: Aggregation)

  datatype Out = Name(text: string) | Amount(value: real)

  datatype Chart = Rows(rows: seq<Row>) | Grouped(results: seq<map<string, Out>>)

  function Aggregate(values: seq<real>, aggregation: Aggregation): real
    requires values != []
  {
    match aggregation
    case SumOf => Sum(values)
    case AvgOf => Sum(values) / |values| as real
    case CountOf => |values| as real
    case MinOf => Least(values)
    case MaxOf => Greatest(values)
    case NoAggregation => values[0]
  }

  predicate AllNone(metrics: seq<Metric>) {
    forall m <- metrics :: m.aggregation == NoAggregation
  }

  /** The aggregation a field of the result ends up with: the last metric on it wins. */
  function LastOn(metrics: seq<Metric>, field: string): Option<Aggregation> {
    if metrics == [] then None
    else if metrics[|metrics| - 1].field == field then Some(metrics[|metrics| - 1].aggregation)
    else LastOn(metrics[..|metrics| - 1], field)
  }

  /** What a group's result shows: the metrics, and the key unless a metric took its field. */
  ghost predicate IsResult(result: map<string, Out>, key: string, groupByField: string, rows: seq<Row>,
          metrics: seq<Metric>)
    requires rows != []
  {
    forall field ::
      if LastOn(metrics, field).Some? then
        field in result && result[field] == Amount(Aggregate(ValuesOf(rows, field), LastOn(metrics, field).value))
      else if field == groupByField then field in result && result[field] == Name(key)
      else field !in result
  }

  method AggregateGroup(key: string, groupByField: string, rows: seq<Row>, metrics: seq<Metric>)
    returns (result: map<string, Out>)
    requires rows != []
    ensures IsResult(result, key, groupByField, rows, metrics)
  {
    result := map[groupByField := Name(key)];
    var i := 0;
    while i < |metrics|
      invariant 0 <= i <= |metrics|
      invariant IsResult(result, key, groupByField, rows, metrics[..i])
    {
      var values := ValuesOf(rows, metrics[i].field);
      assert metrics[..i + 1][..i] == metrics[..i];
      hide Aggregate;
      hide ValuesOf;
      result := result[metrics[i].field := Amount(Aggregate(values, metrics[i].aggregation))];
      i := i + 1;
    }
    assert metrics[..i] == metrics;
  }

  /** The groups as the map holds them: keys in order of insertion, rows in order of arrival. */
  ghost predicate AreGroups(keys: seq<string>, groups: map<string, seq<Row>>, ks: seq<string>, rows: seq<Row>)
    requires |ks| == |rows|
  {
    && keys == Firsts(ks)
    && (forall k :: k in groups <==> k in ks)
    && forall k :: k in groups ==> groups[k] == Pick(ks, rows, k)
  }

  lemma GroupsMore(keys: seq<string>, groups: map<string, seq<Row>>, ks: seq<string>, rows: seq<Row>, k: string,
          row: Row)
    requires |ks| == |rows| && AreGroups(keys, groups, ks, rows)
    ensures var keys' := if k in groups then keys else keys + [k];
            var groups' := groups[k := (if k in groups then groups[k] else []) + [row]];
            AreGroups(keys', groups', ks + [k], rows + [row])
  {
    FirstsMore(ks, k);
    var groups' := groups[k := (if k in groups then groups[k] else []) + [row]];
    if k !in ks {
      PickAbsent(ks, rows, k);
    }
    forall key | key in groups' ensures groups'[key] == Pick(ks + [k], rows + [row], key) {
      PickMore(ks, rows, k, row, key);
      assert key != k ==> Pick(ks, rows, key) + [] == Pick(ks, rows, key);
    }
    hide Pick;
    hide Firsts;
  }

  lemma PickPresent<T>(ks: seq<string>, xs: seq<T>, key: string)
    requires |ks| == |xs| && key in ks
    ensures Pick(ks, xs, key) != []
  {
    if ks[|ks| - 1] != key {
      assert ks == ks[..|ks| - 1] + [ks[|ks| - 1]];
      PickPresent(ks[..|ks| - 1], xs[..|xs| - 1], key);
    }
  }

  /** What the chart is: the rows themselves, or one result a key, the keys in order of appearance. */
  ghost predicate IsChart(chart: Chart, ks: seq<string>, rows: seq<Row>, groupByField: string, metrics: seq<Metric>)
    requires |ks| == |rows|
  {
    if AllNone(metrics) then chart == Rows(rows)
    else chart.Grouped? && AreResults(chart.results, ks, rows, groupByField, metrics)
  }

  /** The result of the rows with that key. */
  ghost predicate IsResultOf(result: map<string, Out>, ks: seq<string>, rows: seq<Row>, key: string,
                             groupByField: string, metrics: seq<Metric>)
    requires |ks| == |rows|
  {
    Pick(ks, rows, key) != [] && IsResult(result, key, groupByField, Pick(ks, rows, key), metrics)
  }

  ghost predicate AreResults(results: seq<map<string, Out>>, ks: seq<string>, rows: seq<Row>, groupByField: string,
          metrics: seq<Metric>)
    requires |ks| == |rows|
  {
    && |results| == |Firsts(ks)|
    && forall i :: 0 <= i < |results| ==> IsResultOf(results[i], ks, rows, Firsts(ks)[i], groupByField, metrics)
  }

  method AggregateData(rows: seq<Row>, groupByField: string, metrics: seq<Metric>,
                       dateGrouping: Option<DateGrouping>, dates: map<string, Date>)
    returns (chart: Chart)
    ensures IsChart(chart, KeysOf(rows, groupByField, dateGrouping, dates), rows, groupByField, metrics)
  {
    if AllNone(metrics) {
      return Rows(rows);
    }
    ghost var ks := KeysOf(rows, groupByField, dateGrouping, dates);
    var keys, groups := GroupRows(rows, groupByField, dateGrouping, dates);
    var results := AggregateGroups(keys, groups, groupByField, metrics, ks, rows);
    return Grouped(results);
  }

  lemma GroupAt(keys: seq<string>, groups: map<string, seq<Row>>, ks: seq<string>, rows: seq<Row>, i: nat)
    requires |ks| == |rows| && AreGroups(keys, groups, ks, rows) && i < |keys|
    ensures keys[i] in groups && groups[keys[i]] == Pick(ks, rows, keys[i]) && groups[keys[i]] != []
  {
    assert keys[i] in keys;
    PickPresent(ks, rows, keys[i]);
  }

  lemma ResultAt(result: map<string, Out>, ks: seq<string>, rows: seq<Row>, key: string, groupByField: string,
          metrics: seq<Metric>)
    requires |ks| == |rows| && Pick(ks, rows, key) != []
    requires IsResult(result, key, groupByField, Pick(ks, rows, key), metrics)
    ensures IsResultOf(result, ks, rows, key, groupByField, metrics)
  {
    hide IsResult;
    hide Pick;
  }

  method AggregateGroups(keys: seq<string>, groups: map<string, seq<Row>>, groupByField: string, metrics: seq<Metric>,
                         ghost ks: seq<string>, ghost rows: seq<Row>)
    returns (results: seq<map<string, Out>>)
    requires |ks| == |rows| && AreGroups(keys, groups, ks, rows)
    ensures AreResults(results, ks, rows, groupByField, metrics)
  {
    hide IsResult;
    hide IsResultOf;
    hide Pick;
    results := [];
    var i := 0;
    while i < |keys|
      invariant 0 <= i <= |keys| && |results| == i
      invariant forall j :: 0 <= j < i ==> IsResultOf(results[j], ks, rows, keys[j], groupByField, metrics)
    {
      GroupAt(keys, groups, ks, rows, i);
      var result := AggregateGroup(keys[i], groupByField, groups[keys[i]], metrics);
      ResultAt(result, ks, rows, keys[i], groupByField, metrics);
      results := results + [result];
      i := i + 1;
    }
  }

  lemma KeysMore(rows: seq<Row>, row: Row, field: string, grouping: Option<DateGrouping>, dates: map<string, Date>)
    ensures KeysOf(rows + [row], field, grouping, dates)
            == KeysOf(rows, field, grouping, dates) + [KeyOf(row, field, grouping, dates)]
  {
    assert (rows + [row])[..|rows|] == rows;
  }

  lemma KeyIs(row: Row, field: string, grouping: Option<DateGrouping>, dates: map<string, Date>)
    ensures var text := LabelOf(row, field);
            KeyOf(row, field, grouping, dates)
            == if grouping.Some? && text != "" then GroupByDate(text, grouping.value, dates) else text
  {
  }

  lemma NoGroups(rows: seq<Row>, field: string, grouping: Option<DateGrouping>, dates: map<string, Date>)
    ensures AreGroups([], map[], KeysOf(rows[..0], field, grouping, dates), rows[..0])
  {
  }

  method GroupRows(rows: seq<Row>, groupByField: string, dateGrouping: Option<DateGrouping>, dates: map<string, Date>)
    returns (keys: seq<string>, groups: map<string, seq<Row>>)
    ensures AreGroups(keys, groups, KeysOf(rows, groupByField, dateGrouping, dates), rows)
  {
    hide *;
    keys, groups := [], map[];
    NoGroups(rows, groupByField, dateGrouping, dates);
    var i := 0;
    while i < |rows|
      invariant 0 <= i <= |rows|
      invariant AreGroups(keys, groups, KeysOf(rows[..i], groupByField, dateGrouping, dates), rows[..i])
    {
      var row := rows[i];
      ghost var ks := KeysOf(rows[..i], groupByField, dateGrouping, dates);
      assert rows[..i + 1] == rows[..i] + [row];
      KeysMore(rows[..i], row, groupByField, dateGrouping, dates);
      var key := LabelOf(row, groupByField);
      if dateGrouping.Some? && key != "" {
        key := GroupByDate(key, dateGrouping.value, dates);
      }
      KeyIs(row, groupByField, dateGrouping, dates);
      GroupsMore(keys, groups, ks, rows[..i], key, row);
      ghost var after := groups[key := (if key in groups then groups[key] else []) + [row]];
      if key !in groups {
        keys, groups := keys + [key], groups[key := []];
      }
      groups := groups[key := groups[key] + [row]];
      assert groups == after;
      i := i + 1;
    }
    assert rows[..i] == rows;
  }

  // ---------------------------------------------------------------- what the results add up to

  lemma {:induction false} SumBetween(xs: seq<real>, low: real, high: real)
    requires forall i :: 0 <= i < |xs| ==> low <= xs[i] <= high
    ensures low * |xs| as real <= Sum(xs) <= high * |xs| as real
  {
    if xs != [] {
      var n := (|xs| - 1) as real;
      SumBetween(xs[..|xs| - 1], low, high);
      OneMore(low, n);
      OneMore(high, n);
    }
  }

  lemma OneMore(x: real, n: real)
    ensures x * (n + 1.0) == x * n + x
  {
  }

  lemma MeanBetween(sum: real, n: real, low: real, high: real)
    requires n > 0.0 && low * n <= sum <= high * n
    ensures low <= sum / n <= high
  {
    var mean := sum / n;
    DivideOut(sum, n);
    Scale(low, mean, n);
    Scale(mean, high, n);
  }

  /** In every group the least value is at most the average, and the average at most the greatest. */
  lemma AverageIsBetween(values: seq<real>)
    requires values != []
    ensures Aggregate(values, MinOf) <= Aggregate(values, AvgOf) <= Aggregate(values, MaxOf)
  {
    hide Least;
    hide Greatest;
    hide Sum;
    InRange(values);
    SumBetween(values, Least(values), Greatest(values));
    MeanBetween(Sum(values), |values| as real, Least(values), Greatest(values));
  }

  function Ones(n: nat): (xs: seq<real>)
    ensures |xs| == n
  {
    if n == 0 then [] else Ones(n - 1) + [1.0]
  }

  /** What each row adds to a sum of the field, or to a count. */
  function Weights(rows: seq<Row>, field: string, aggregation: Aggregation): (xs: seq<real>)
    ensures |xs| == |rows|
  {
    if aggregation == CountOf then Ones(|rows|) else ValuesOf(rows, field)
  }

  predicate Adds(aggregation: Aggregation) {
    aggregation == SumOf || aggregation == CountOf
  }

  lemma {:induction false} PickValues(ks: seq<string>, rows: seq<Row>, field: string, key: string)
    requires |ks| == |rows|
    ensures Pick(ks, ValuesOf(rows, field), key) == ValuesOf(Pick(ks, rows, key), field)
  {
    if rows != [] {
      var before, row := rows[..|rows| - 1], rows[|rows| - 1];
      PickValues(ks[..|ks| - 1], before, field, key);
      var picked := Pick(ks[..|ks| - 1], before, key);
      assert (picked + [row])[..|picked|] == picked;
      assert picked + [] == picked;
      assert ValuesOf(rows, field)[..|rows| - 1] == ValuesOf(before, field);
    }
  }

  lemma {:induction false} PickOnes(ks: seq<string>, rows: seq<Row>, key: string)
    requires |ks| == |rows|
    ensures Sum(Pick(ks, Ones(|rows|), key)) == |Pick(ks, rows, key)| as real
  {
    hide Sum;
    hide Pick;
    if rows == [] {
      NothingPicked<Row>(ks, rows, key);
      NothingPicked<real>(ks, Ones(0), key);
      NoSum();
    } else {
      var n := |rows| - 1;
      var before, k := ks[..n], ks[n];
      PickOnes(before, rows[..n], key);
      assert ks == before + [k] && rows == rows[..n] + [rows[n]];
      PickMore(before, Ones(n), k, 1.0, key);
      PickMore(before, rows[..n], k, rows[n], key);
      SumMore(Pick(before, Ones(n), key), 1.0);
      assert Pick(before, Ones(n), key) + [] == Pick(before, Ones(n), key);
    }
  }

  lemma NothingPicked<T>(ks: seq<string>, xs: seq<T>, key: string)
    requires ks == [] && xs == []
    ensures Pick(ks, xs, key) == []
  {
  }

  lemma NoSum()
    ensures Sum([]) == 0.0
  {
  }

  lemma AggregateAdds(ks: seq<string>, rows: seq<Row>, field: string, aggregation: Aggregation, key: string)
    requires |ks| == |rows| && Adds(aggregation) && Pick(ks, rows, key) != []
    ensures Aggregate(ValuesOf(Pick(ks, rows, key), field), aggregation)
            == Sum(Pick(ks, Weights(rows, field, aggregation), key))
  {
    PickValues(ks, rows, field, key);
    PickOnes(ks, rows, key);
    hide Sum;
    hide Pick;
    hide ValuesOf;
  }

  /** The amounts of a field over the results whose key `f` sends to `coarse`, added up. */
  function AmountsWithin(results: seq<map<string, Out>>, keys: seq<string>, f: string -> string, coarse: string,
          field: string): real
    requires |results| == |keys|
  {
    if keys == [] then 0.0
    else
      var n := |keys| - 1;
      var out := if field in results[n] then results[n][field] else Name("");
      AmountsWithin(results[..n], keys[..n], f, coarse, field)
      + if f(keys[n]) == coarse && out.Amount? then out.value else 0.0
  }

  lemma {:induction false} AmountsAre(results: seq<map<string, Out>>, keys: seq<string>, ks: seq<string>,
          rows: seq<Row>, groupByField: string, metrics: seq<Metric>, f: string -> string, coarse: string,
          field: string, aggregation: Aggregation)
    requires |results| == |keys| && |ks| == |rows|
    requires forall i :: 0 <= i < |results| ==> IsResultOf(results[i], ks, rows, keys[i], groupByField, metrics)
    requires LastOn(metrics, field) == Some(aggregation) && Adds(aggregation)
    ensures AmountsWithin(results, keys, f, coarse, field)
            == Total(ks, Weights(rows, field, aggregation), Within(f, keys, coarse))
  {
    hide IsResultOf;
    hide Weights;
    hide LastOn;
    hide Within;
    hide Total;
    if keys == [] {
      NothingWithin(ks, Weights(rows, field, aggregation), f, coarse);
    } else {
      var n := |keys| - 1;
      AmountsAre(results[..n], keys[..n], ks, rows, groupByField, metrics, f, coarse, field, aggregation);
      AmountOf(results[n], ks, rows, keys[n], groupByField, metrics, field, aggregation);
      assert keys == keys[..n] + [keys[n]];
      WithinTotal(ks, Weights(rows, field, aggregation), f, keys[..n], keys[n], coarse);
    }
  }

  lemma NothingWithin(ks: seq<string>, xs: seq<real>, f: string -> string, coarse: string)
    requires |ks| == |xs|
    ensures Total(ks, xs, Within(f, [], coarse)) == 0.0
  {
  }

  lemma WithinTotal(ks: seq<string>, xs: seq<real>, f: string -> string, keys: seq<string>, key: string, coarse: string)
    requires |ks| == |xs|
    ensures Total(ks, xs, Within(f, keys + [key], coarse))
            == Total(ks, xs, Within(f, keys, coarse)) + if f(key) == coarse then Sum(Pick(ks, xs, key)) else 0.0
  {
    hide *;
    WithinMore(f, keys, key, coarse);
    TotalAppend(ks, xs, Within(f, keys, coarse), key);
    assert Within(f, keys, coarse) + [] == Within(f, keys, coarse);
  }

  lemma AmountOf(result: map<string, Out>, ks: seq<string>, rows: seq<Row>, key: string,
      groupByField: string, metrics: seq<Metric>, field: string, aggregation: Aggregation)
    requires |ks| == |rows| && IsResultOf(result, ks, rows, key, groupByField, metrics)
    requires LastOn(metrics, field) == Some(aggregation) && Adds(aggregation)
    ensures field in result && result[field] == Amount(Sum(Pick(ks, Weights(rows, field, aggregation), key)))
  {
    AggregateAdds(ks, rows, field, aggregation, key);
    hide Aggregate;
    hide Pick;
    hide Sum;
    hide Weights;
  }

  /**
   Main result about groups. For every sum and every count, the amounts over all the results
   of a chart add up to the sum over all rows, and to their number.
   */
  lemma ResultsAddUp(chart: Chart, ks: seq<string>, rows: seq<Row>, groupByField: string, metrics: seq<Metric>,
      field: string, aggregation: Aggregation)
    requires |ks| == |rows| && IsChart(chart, ks, rows, groupByField, metrics) && chart.Grouped?
    requires LastOn(metrics, field) == Some(aggregation) && Adds(aggregation)
    ensures AmountsWithin(chart.results, Firsts(ks), _ => "", "", field)
            == if aggregation == SumOf then Sum(ValuesOf(rows, field)) else |rows| as real
  {
    AmountsAre(chart.results, Firsts(ks), ks, rows, groupByField, metrics, _ => "", "", field, aggregation);
    AllWithin(Firsts(ks));
    GroupsAddUp(ks, Weights(rows, field, aggregation));
    SumOfOnes(|rows|);
    hide Sum;
    hide Total;
    hide Within;
    hide Ones;
    hide ValuesOf;
  }

  lemma SumOfOnes(n: nat)
    ensures Sum(Ones(n)) == n as real
  {
    if n > 0 {
      SumMore(Ones(n - 1), 1.0);
    }
  }

  // ---------------------------------------------------------------- years, months, days

  predicate ValidDates(dates: map<string, Date>) {
    forall text :: text in dates ==> dates[text].month <= 12 && dates[text].day <= 31 && dates[text].hour <= 23
  }

  /** How many characters of the finer key to drop for the coarser one; weeks fit into neither. */
  function Dropped(fine: DateGrouping, coarse: DateGrouping): Option<nat> {
    match (fine, coarse)
    case (Month, Year) => Some(3)
    case (Day, Month) => Some(3)
    case (Day, Year) => Some(6)
    case (Hour, Day) => Some(6)
    case (Hour, Month) => Some(9)
    case (Hour, Year) => Some(12)
    case (_, _) => None
  }

  lemma CoarserText(d: Date, fine: DateGrouping, coarse: DateGrouping)
    requires Dropped(fine, coarse).Some? && d.month <= 12 && d.day <= 31 && d.hour <= 23
    ensures var n, text := Dropped(fine, coarse).value, DateText(d, fine);
            n <= |text| && text[..|text| - n] == DateText(d, coarse)
  {
    assert |TwoDigits(d.month)| == 2 && |TwoDigits(d.day)| == 2 && |TwoDigits(d.hour)| == 2 by {
      TwoLong(d.month);
      TwoLong(d.day);
      TwoLong(d.hour);
    }
    hide TwoDigits;
    var month := d.year + "-" + TwoDigits(d.month);
    var day := month + "-" + TwoDigits(d.day);
    var hour := day + " " + TwoDigits(d.hour) + ":00";
    assert month[..|month| - 3] == d.year;
    assert day[..|day| - 3] == month && day[..|day| - 6] == d.year;
    assert hour[..|hour| - 6] == day && hour[..|hour| - 9] == month && hour[..|hour| - 12] == d.year;
  }

  lemma TwoLong(n: nat)
    requires n < 100
    ensures |TwoDigits(n)| == 2
  {
    if n >= 10 {
      assert |Decimal(n / 10)| == 1;
    }
  }

  predicate Dated(row: Row, field: string, dates: map<string, Date>) {
    LabelOf(row, field) != "" && LabelOf(row, field) in dates
  }

  /** The texts that are not dates and so are keys themselves. */
  function Undated(rows: seq<Row>, field: string, dates: map<string, Date>): set<string> {
    set row | row in rows && !Dated(row, field, dates) :: LabelOf(row, field)
  }

  /** No text that is not a date reads like the key of a date. */
  predicate NoClash(rows: seq<Row>, field: string, fine: DateGrouping, dates: map<string, Date>) {
    forall row <- rows :: Dated(row, field, dates) ==>
      DateText(dates[LabelOf(row, field)], fine) !in Undated(rows, field, dates)
  }

  function Parent(undated: set<string>, n: nat): string -> string {
    (k: string) => if k in undated || |k| < n then k else k[..|k| - n]
  }

  lemma KeyCoarsens(rows: seq<Row>, row: Row, field: string, fine: DateGrouping, coarse: DateGrouping,
          dates: map<string, Date>)
    requires row in rows
    requires Dropped(fine, coarse).Some? && ValidDates(dates) && NoClash(rows, field, fine, dates)
    ensures var f := Parent(Undated(rows, field, dates), Dropped(fine, coarse).value);
            f(KeyOf(row, field, Some(fine), dates)) == KeyOf(row, field, Some(coarse), dates)
  {
    hide DateText;
    hide LabelOf;
    if Dated(row, field, dates) {
      hide Undated;
      CoarserText(dates[LabelOf(row, field)], fine, coarse);
    } else {
      assert LabelOf(row, field) in Undated(rows, field, dates);
    }
    hide Dropped;
  }

  lemma KeysCoarsen(rows: seq<Row>, field: string, fine: DateGrouping, coarse: DateGrouping, dates: map<string, Date>)
    requires Dropped(fine, coarse).Some? && ValidDates(dates) && NoClash(rows, field, fine, dates)
    ensures var f := Parent(Undated(rows, field, dates), Dropped(fine, coarse).value);
            MapKeys(f, KeysOf(rows, field, Some(fine), dates)) == KeysOf(rows, field, Some(coarse), dates)
  {
    hide *;
    var f := Parent(Undated(rows, field, dates), Dropped(fine, coarse).value);
    forall i | 0 <= i < |rows|
      ensures f(KeyOf(rows[i], field, Some(fine), dates)) == KeyOf(rows[i], field, Some(coarse), dates)
    {
      KeyCoarsens(rows, rows[i], field, fine, coarse, dates);
    }
  }

  /**
   Main result about dates. Grouped by year, a sum or a count is what the months of that year
   add up to, and so for every finer and coarser pair of hour, day, month and year, on all
   rows in which no text that is not a date reads like the key of a date.
   */
  lemma CoarseIsSumOfFine(rows: seq<Row>, groupByField: string, metrics: seq<Metric>, dates: map<string, Date>,
      fine: DateGrouping, coarse: DateGrouping, fineChart: Chart, coarseChart: Chart,
      field: string, aggregation: Aggregation, i: nat)
    requires Dropped(fine, coarse).Some? && ValidDates(dates) && NoClash(rows, groupByField, fine, dates)
    requires IsChart(fineChart, KeysOf(rows, groupByField, Some(fine), dates), rows, groupByField, metrics)
    requires IsChart(coarseChart, KeysOf(rows, groupByField, Some(coarse), dates), rows, groupByField, metrics)
    requires fineChart.Grouped? && coarseChart.Grouped? && i < |coarseChart.results|
    requires LastOn(metrics, field) == Some(aggregation) && Adds(aggregation)
    ensures var fineKeys := Firsts(KeysOf(rows, groupByField, Some(fine), dates));
            var coarseKeys := Firsts(KeysOf(rows, groupByField, Some(coarse), dates));
            var f := Parent(Undated(rows, groupByField, dates), Dropped(fine, coarse).value);
            && |fineKeys| == |fineChart.results| && |coarseKeys| == |coarseChart.results|
            && field in coarseChart.results[i]
            && coarseChart.results[i][field]
               == Amount(AmountsWithin(fineChart.results, fineKeys, f, coarseKeys[i], field))
  {
    hide *;
    var fineKs := KeysOf(rows, groupByField, Some(fine), dates);
    var coarseKs := KeysOf(rows, groupByField, Some(coarse), dates);
    ChartResults(fineChart, fineKs, rows, groupByField, metrics, field);
    ChartResults(coarseChart, coarseKs, rows, groupByField, metrics, field);
    var key := Firsts(coarseKs)[i];
    var f := Parent(Undated(rows, groupByField, dates), Dropped(fine, coarse).value);
    var xs := Weights(rows, field, aggregation);
    AmountOf(coarseChart.results[i], coarseKs, rows, key, groupByField, metrics, field, aggregation);
    AmountsAre(fineChart.results, Firsts(fineKs), fineKs, rows, groupByField, metrics, f, key, field, aggregation);
    FineAddsUp(fineKs, xs, f, key);
    KeysCoarsen(rows, groupByField, fine, coarse, dates);
  }

  lemma ChartResults(chart: Chart, ks: seq<string>, rows: seq<Row>, groupByField: string, metrics: seq<Metric>,
          field: string)
    requires |ks| == |rows| && IsChart(chart, ks, rows, groupByField, metrics) && chart.Grouped?
    ensures |chart.results| == |Firsts(ks)|
    ensures forall i :: 0 <= i < |chart.results| ==>
              IsResultOf(chart.results[i], ks, rows, Firsts(ks)[i], groupByField, metrics)
  {
    hide IsResultOf;
  }

  // ---------------------------------------------------------------- what the numbers and the keys are

  /** Each aggregate of one value, and what one value more makes of it. */
  lemma AggregateGrows(values: seq<real>, v: real)
    requires values != []
    ensures Aggregate([v], SumOf) == Aggregate([v], AvgOf) == Aggregate([v], MinOf) == Aggregate([v], MaxOf) == v
    ensures Aggregate([v], CountOf) == 1.0 && Aggregate([v], NoAggregation) == v
    ensures Aggregate(values + [v], SumOf) == Aggregate(values, SumOf) + v
    ensures Aggregate(values + [v], CountOf) == Aggregate(values, CountOf) + 1.0
    ensures Aggregate(values + [v], AvgOf) * (Aggregate(values, CountOf) + 1.0) == Aggregate(values, SumOf) + v
    ensures Aggregate(values + [v], MinOf) == if v < Aggregate(values, MinOf) then v else Aggregate(values, MinOf)
    ensures Aggregate(values + [v], MaxOf) == if v > Aggregate(values, MaxOf) then v else Aggregate(values, MaxOf)
    ensures Aggregate(values + [v], NoAggregation) == Aggregate(values, NoAggregation)
  {
    assert (values + [v])[..|values|] == values;
    assert [v][..0] == [];
    assert Sum([v]) == v && v / 1.0 == v;
    DivideOut(Sum(values) + v, |values| as real + 1.0);
  }

  /** A cell adds its number, and what is missing or reads as none adds nothing. */
  lemma CellAdds(rows: seq<Row>, row: Row, field: string)
    ensures var adds := field in row && row[field].number.Some?;
            Sum(ValuesOf(rows + [row], field)) == Sum(ValuesOf(rows, field)) + if adds then row[field].number.value
                else 0.0
  {
    assert (rows + [row])[..|rows|] == rows;
    var values := ValuesOf(rows, field);
    assert (values + [NumberAt(row, field)])[..|values|] == values;
  }

  lemma TwoDigitsSpell(n: nat)
    requires n < 100
    ensures |TwoDigits(n)| == 2 && Spelled(TwoDigits(n)) == n
  {
    TwoLong(n);
    DecimalReadsBack(n);
    if n < 10 {
      var s := TwoDigits(n);
      assert s[..1] == "0" && "0"[..0] == "";
      assert Spelled("0") == 0;
    }
  }

  lemma SameEnds(a: string, x: string, b: string, y: string)
    requires |x| == |y| && a + x == b + y
    ensures a == b && x == y
  {
    assert (a + x)[..|a|] == a && (b + y)[..|b|] == b;
    assert (a + x)[|a|..] == x && (b + y)[|b|..] == y;
  }

  lemma DayTextIff(year: string, month: nat, day: nat, year': string, month': nat, day': nat)
    requires month <= 12 && day <= 31 && month' <= 12 && day' <= 31
    ensures DayText(year, month, day) == DayText(year', month', day')
            <==> year == year' && month == month' && day == day'
  {
    TwoDigitsSpell(month);
    TwoDigitsSpell(day);
    TwoDigitsSpell(month');
    TwoDigitsSpell(day');
    hide TwoDigits;
    hide Spelled;
    var m, m' := year + "-" + TwoDigits(month), year' + "-" + TwoDigits(month');
    if DayText(year, month, day) == DayText(year', month', day') {
      SameEnds(m + "-", TwoDigits(day), m' + "-", TwoDigits(day'));
      SameEnds(m, "-", m', "-");
      SameEnds(year + "-", TwoDigits(month), year' + "-", TwoDigits(month'));
      SameEnds(year, "-", year', "-");
    }
  }

  /** Within the same year, month, day or hour, or in the week of the same Sunday. */
  predicate SameUnit(a: Date, b: Date, grouping: DateGrouping) {
    match grouping
    case Year => a.year == b.year
    case Month => a.year == b.year && a.month == b.month
    case Day => a.year == b.year && a.month == b.month && a.day == b.day
    case Hour => a.year == b.year && a.month == b.month && a.day == b.day && a.hour == b.hour
    case Week => a.sundayYear == b.sundayYear && a.sundayMonth == b.sundayMonth && a.sundayDay == b.sundayDay
  }

  predicate ValidDate(d: Date) {
    d.month <= 12 && d.day <= 31 && d.hour <= 23 && d.sundayMonth <= 12 && d.sundayDay <= 31
  }

  /** Two dates fall into one group exactly if they lie in the same unit. */
  lemma SameKeyIff(a: Date, b: Date, grouping: DateGrouping)
    requires ValidDate(a) && ValidDate(b)
    ensures DateText(a, grouping) == DateText(b, grouping) <==> SameUnit(a, b, grouping)
  {
    DayTextIff(a.year, a.month, a.day, b.year, b.month, b.day);
    DayTextIff(a.sundayYear, a.sundayMonth, a.sundayDay, b.sundayYear, b.sundayMonth, b.sundayDay);
    hide TwoDigits;
    hide DayText;
    if DateText(a, grouping) == DateText(b, grouping) {
      match grouping
      case Hour => HourTells(a, b);
      case Month => MonthTells(a, b);
      case Week =>
        var d := DayText(a.sundayYear, a.sundayMonth, a.sundayDay);
        var d' := DayText(b.sundayYear, b.sundayMonth, b.sundayDay);
        assert ("W" + d)[1..] == d && ("W" + d')[1..] == d';
      case _ =>
    }
  }

  lemma HourTells(a: Date, b: Date)
    requires ValidDate(a) && ValidDate(b) && DateText(a, Hour) == DateText(b, Hour)
    ensures DayText(a.year, a.month, a.day) == DayText(b.year, b.month, b.day) && a.hour == b.hour
  {
    TwoDigitsSpell(a.hour);
    TwoDigitsSpell(b.hour);
    hide TwoDigits;
    hide DayText;
    hide Spelled;
    var d, d' := DayText(a.year, a.month, a.day), DayText(b.year, b.month, b.day);
    SameEnds(d + " " + TwoDigits(a.hour), ":00", d' + " " + TwoDigits(b.hour), ":00");
    SameEnds(d + " ", TwoDigits(a.hour), d' + " ", TwoDigits(b.hour));
    SameEnds(d, " ", d', " ");
  }

  lemma MonthTells(a: Date, b: Date)
    requires ValidDate(a) && ValidDate(b) && DateText(a, Month) == DateText(b, Month)
    ensures a.year == b.year && a.month == b.month
  {
    TwoDigitsSpell(a.month);
    TwoDigitsSpell(b.month);
    hide TwoDigits;
    hide Spelled;
    SameEnds(a.year + "-", TwoDigits(a.month), b.year + "-", TwoDigits(b.month));
    SameEnds(a.year, "-", b.year, "-");
  }

  /** A row's key: nothing where the field is missing, a date's unit if dates are grouped, else its text. */
  lemma KeyReads(row: Row, field: string, grouping: Option<DateGrouping>, dates: map<string, Date>)
    ensures field !in row ==> KeyOf(row, field, grouping, dates) == ""
    ensures field in row && (grouping.None? || row[field].text == "" || row[field].text !in dates) ==>
              KeyOf(row, field, grouping, dates) == row[field].text
    ensures field in row && grouping.Some? && row[field].text != "" && row[field].text in dates ==>
              KeyOf(row, field, grouping, dates) == DateText(dates[row[field].text], grouping.value)
  {
  }
}
