/**
 The pivot table, computed twice: by the client from the rows it holds, and by the SQL it
 generates. A small evaluator gives the SQL its meaning, and the two are compared cell by cell
 over exact reals.
 */
module Pivot {
  import opened Common

  /**
   One value of a result row. A text carries what `Number` makes of it, none for NaN; a number
   carries how `String` shows it.
   */
  datatype Value = Null | Text(text: string, parsed: Option<real>) | Num(number: real, shown: string)

  /** Every row of a result holds every field of that result. */
  type Row = map<string, Value>

  datatype AggFunction = Count | Sum | Avg | Min | Max

  /** What the four controls of the panel are set to, once a row field is chosen. */
  datatype Settings = Settings(
    rowField: string,
    colField: Option<string>,
    valueField: Option<string>,
    fn: AggFunction)

  const ALL := "__all__"

  predicate Has(rows: seq<Row>, field: string) {
    forall row: Row <- rows :: field in row
  }

  /** The chosen fields are fields of the result. */
  predicate Complete(rows: seq<Row>, s: Settings) {
    && Has(rows, s.rowField)
    && (s.colField.Some? ==> Has(rows, s.colField.value))
    && (s.valueField.Some? ==> Has(rows, s.valueField.value))
  }

  // ---------------------------------------------------------------- numbers

  function Total(ns: seq<real>): real {
    if ns == [] then 0.0 else Total(ns[..|ns| - 1]) + ns[|ns| - 1]
  }

  /** The least of some numbers, or the greatest. */
  function Extreme(ns: seq<real>, least: bool): (m: real)
    requires ns != []
    ensures m in ns
    ensures forall n <- ns :: if least then m <= n else n <= m
  {
    var last := ns[|ns| - 1];
    if |ns| == 1 then last
    else
      var m := Extreme(ns[..|ns| - 1], least);
      assert ns == ns[..|ns| - 1] + [last];
      if (least && last < m) || (!least && m < last) then last else m
  }

  // ---------------------------------------------------------------- the client

  function KeyText(v: Value): string {
    match v
    case Null => "NULL"
    case Text(text, _) => text
    case Num(_, shown) => shown
  }

  function RowKey(row: Row, s: Settings): string
    requires s.rowField in row
  {
    KeyText(row[s.rowField])
  }

  function ColKey(row: Row, s: Settings): string
    requires s.colField.Some? ==> s.colField.value in row
  {
    if s.colField.None? then ALL else KeyText(row[s.colField.value])
  }

  function CellValue(row: Row, s: Settings): Value
    requires s.valueField.Some? ==> s.valueField.value in row
  {
    if s.valueField.None? then Num(1.0, "1") else row[s.valueField.value]
  }

  /** `Number(v)`, none for NaN. JavaScript reads null as zero. */
  function ToNumber(v: Value): Option<real> {
    match v
    case Null => Some(0.0)
    case Text(_, parsed) => parsed
    case Num(number, _) => Some(number)
  }

  function Numbers(vs: seq<Value>): seq<real> {
    if vs == [] then []
    else
      var last := ToNumber(vs[|vs| - 1]);
      Numbers(vs[..|vs| - 1]) + if last.Some? then [last.value] else []
  }

  /** A cell on the screen, before it is formatted: a number or the dash. */
  datatype Cell = Shown(number: real) | Dash

  function Aggregate(vs: seq<Value>, fn: AggFunction): Cell {
    var nums := Numbers(vs);
    match fn
    case Count => Shown(|vs| as real)
    case Sum => Shown(if nums != [] then Total(nums) else 0.0)
    case Avg => Shown(if nums != [] then Total(nums) / |nums| as real else 0.0)
    case Min => if nums != [] then Shown(Extreme(nums, true)) else Dash
    case Max => if nums != [] then Shown(Extreme(nums, false)) else Dash
  }

  /** The values the rows put into one cell, in row order. */
  function Bucket(rows: seq<Row>, s: Settings, rowKey: string, colKey: string): seq<Value>
    requires Complete(rows, s)
  {
    if rows == [] then []
    else
      var row := rows[|rows| - 1];
      Bucket(rows[..|rows| - 1], s, rowKey, colKey)
      + if RowKey(row, s) == rowKey && ColKey(row, s) == colKey then [CellValue(row, s)] else []
  }

  // ---------------------------------------------------------------- collation

  /** The collation both sides sort by: a total order. */
  ghost predicate Collation(le: (string, string) -> bool) {
    && (forall x, y :: le(x, y) || le(y, x))
    && (forall x, y :: le(x, y) && le(y, x) ==> x == y)
    && (forall x, y, z :: le(x, y) && le(y, z) ==> le(x, z))
  }

  ghost predicate InOrder(le: (string, string) -> bool, keys: seq<string>) {
    forall i, j :: 0 <= i < j < |keys| ==> le(keys[i], keys[j]) && keys[i] != keys[j]
  }

  function Insert(le: (string, string) -> bool, key: string, keys: seq<string>): (r: seq<string>)
    ensures forall k :: k in r <==> k == key || k in keys
  {
    if keys == [] then [key]
    else if le(key, keys[0]) then [key] + keys
    else
      assert forall k :: k in keys <==> k == keys[0] || k in keys[1..];
      [keys[0]] + Insert(le, key, keys[1..])
  }

  /** The keys a map or a set holds, without repetition, sorted. */
  function Sorted(le: (string, string) -> bool, keys: seq<string>): (r: seq<string>)
    ensures forall k :: k in r <==> k in keys
  {
    if keys == [] then []
    else
      assert forall k :: k in keys <==> k == keys[0] || k in keys[1..];
      Insert(le, keys[0], Sorted(le, keys[1..]))
  }

  lemma InsertInOrder(le: (string, string) -> bool, key: string, keys: seq<string>)
    requires Collation(le) && InOrder(le, keys) && key !in keys
    ensures InOrder(le, Insert(le, key, keys))
  {
    if keys != [] && !le(key, keys[0]) {
      InsertInOrder(le, key, keys[1..]);
      var rest := Insert(le, key, keys[1..]);
      forall j | 0 <= j < |rest| ensures le(keys[0], rest[j]) && keys[0] != rest[j] {
        assert rest[j] in rest;
        if rest[j] != key {
          var k :| 0 <= k < |keys[1..]| && keys[1..][k] == rest[j];
          assert keys[k + 1] == rest[j];
        }
      }
    }
  }

  ghost predicate Unrepeated(keys: seq<string>) {
    forall i, j :: 0 <= i < j < |keys| ==> keys[i] != keys[j]
  }

  lemma SortedInOrder(le: (string, string) -> bool, keys: seq<string>)
    requires Collation(le) && Unrepeated(keys)
    ensures InOrder(le, Sorted(le, keys))
  {
    if keys != [] {
      SortedInOrder(le, keys[1..]);
      assert forall k :: 0 <= k < |keys[1..]| ==> keys[1..][k] == keys[k + 1];
      InsertInOrder(le, keys[0], Sorted(le, keys[1..]));
    }
  }

  /** One set of keys has one sorted listing. */
  lemma {:induction false} ListingIsUnique(le: (string, string) -> bool, xs: seq<string>, ys: seq<string>)
    requires Collation(le) && InOrder(le, xs) && InOrder(le, ys)
    requires forall k :: k in xs <==> k in ys
    ensures xs == ys
    decreases |xs|
  {
    if xs == [] {
      assert forall i :: 0 <= i < |ys| ==> ys[i] in ys;
    } else {
      assert xs[0] in ys && ys[0] in xs;
      assert xs[0] == ys[0];
      forall k ensures k in xs[1..] <==> k in ys[1..] {
        TailHoldsTheRest(le, xs, k);
        TailHoldsTheRest(le, ys, k);
      }
      ListingIsUnique(le, xs[1..], ys[1..]);
      assert xs == [xs[0]] + xs[1..] && ys == [ys[0]] + ys[1..];
    }
  }

  lemma TailHoldsTheRest(le: (string, string) -> bool, xs: seq<string>, k: string)
    requires xs != [] && InOrder(le, xs)
    ensures k in xs[1..] <==> k in xs && k != xs[0]
  {
    if k in xs[1..] {
      var i :| 0 <= i < |xs[1..]| && xs[1..][i] == k;
      assert xs[i + 1] == k;
    }
  }

  // ---------------------------------------------------------------- the pivot method

  datatype PivotRow = PivotRow(rowKey: string, values: map<string, Cell>)
  datatype PivotData = PivotData(colKeys: seq<string>, pivotRows: seq<PivotRow>)

  /** What a pivot is: a row a row key, a column a column key, both sorted, and each cell its aggregate. */
  ghost predicate IsPivot(data: PivotData, rows: seq<Row>, s: Settings, le: (string, string) -> bool)
    requires Complete(rows, s)
  {
    && InOrder(le, data.colKeys)
    && (if s.colField.None? then data.colKeys == [ALL]
        else forall k :: k in data.colKeys <==> HasColumn(rows, s, k))
    && InOrder(le, RowKeys(data.pivotRows))
    && (forall k :: k in RowKeys(data.pivotRows) <==> HasRow(rows, s, k))
    && (forall r <- data.pivotRows :: IsPivotRow(r, data.colKeys, rows, s))
  }

  ghost predicate IsPivotRow(r: PivotRow, colKeys: seq<string>, rows: seq<Row>, s: Settings)
    requires Complete(rows, s)
  {
    && r.values.Keys == (set ck <- colKeys)
    && (forall ck <- colKeys :: r.values[ck] == Aggregate(Bucket(rows, s, r.rowKey, ck), s.fn))
  }

  function RowKeys(rows: seq<PivotRow>): seq<string> {
    seq(|rows|, i requires 0 <= i < |rows| => rows[i].rowKey)
  }

  type Groups = map<string, map<string, seq<Value>>>

  /** What the nested maps hold for a cell, nothing when they have no entry. */
  function Held(groups: Groups, rowKey: string, colKey: string): seq<Value> {
    if rowKey in groups && colKey in groups[rowKey] then groups[rowKey][colKey] else []
  }

  /** The nested maps hold exactly the buckets of the rows seen so far. */
  ghost predicate Grouped(groups: Groups, rows: seq<Row>, s: Settings)
    requires Complete(rows, s)
  {
    && (forall rk :: rk in groups <==> HasRow(rows, s, rk))
    && (forall rk, ck :: Held(groups, rk, ck) == Bucket(rows, s, rk, ck))
  }

  function Added(groups: Groups, rowKey: string, colKey: string, value: Value): Groups {
    var cols := if rowKey in groups then groups[rowKey] else map[];
    groups[rowKey := cols[colKey := Held(groups, rowKey, colKey) + [value]]]
  }

  lemma AddedHeld(groups: Groups, rowKey: string, colKey: string, value: Value, rk: string, ck: string)
    ensures Held(Added(groups, rowKey, colKey, value), rk, ck)
         == Held(groups, rk, ck) + if rk == rowKey && ck == colKey then [value] else []
  {
    if rk == rowKey && ck != colKey {
      assert Held(groups, rk, ck) + [] == Held(groups, rk, ck);
    }
  }

  /** Some row has the row key. */
  predicate HasRow(rows: seq<Row>, s: Settings, k: string)
    requires Complete(rows, s)
  {
    exists row: Row <- rows :: RowKey(row, s) == k
  }

  /** Some row puts its value into the column `k` of a pivot that has a column field. */
  predicate HasColumn(rows: seq<Row>, s: Settings, k: string)
    requires Complete(rows, s)
  {
    s.colField.Some? && exists row: Row <- rows :: ColKey(row, s) == k
  }

  lemma OneMoreKey(rows: seq<Row>, row: Row, s: Settings, k: string)
    requires Complete(rows + [row], s) && Complete(rows, s) && Complete([row], s) && row in [row]
    ensures HasRow(rows + [row], s, k) <==> HasRow(rows, s, k) || RowKey(row, s) == k
    ensures HasColumn(rows + [row], s, k) <==> HasColumn(rows, s, k) || (s.colField.Some? && ColKey(row, s) == k)
  {
    var all := rows + [row];
    assert forall r :: r in all <==> r == row || r in rows;
    if HasRow(rows, s, k) {
      var r: Row :| r in rows && RowKey(r, s) == k;
      assert r in all;
    }
    if HasColumn(rows, s, k) {
      var r: Row :| r in rows && ColKey(r, s) == k;
      assert r in all;
    }
    assert row in all;
  }

  lemma OneMoreRow(groups: Groups, rows: seq<Row>, row: Row, s: Settings)
    requires Complete(rows + [row], s) && Complete(rows, s) && Complete([row], s) && row in [row]
    requires Grouped(groups, rows, s)
    ensures Grouped(Added(groups, RowKey(row, s), ColKey(row, s), CellValue(row, s)), rows + [row], s)
  {
    var rowKey, colKey, value := RowKey(row, s), ColKey(row, s), CellValue(row, s);
    var after := Added(groups, rowKey, colKey, value);
    forall rk, ck ensures Held(after, rk, ck) == Bucket(rows + [row], s, rk, ck) {
      AddedHeld(groups, rowKey, colKey, value, rk, ck);
    }
    forall rk ensures rk in after <==> HasRow(rows + [row], s, rk) {
      OneMoreKey(rows, row, s, rk);
      assert rk in after <==> rk in groups || rk == rowKey;
    }
  }

  lemma CompletePrefix(rows: seq<Row>, i: nat, s: Settings)
    requires Complete(rows, s) && i < |rows|
    ensures Complete(rows[..i], s) && Complete([rows[i]], s) && rows[i] in [rows[i]]
    ensures rows[..i + 1] == rows[..i] + [rows[i]] && Complete(rows[..i + 1], s)
  {
    assert rows[i] in rows;
  }

  /** The column keys met so far, each once. */
  ghost predicate ListsColumns(order: seq<string>, rows: seq<Row>, s: Settings)
    requires Complete(rows, s)
  {
    Unrepeated(order) && forall k :: k in order <==> HasColumn(rows, s, k)
  }

  ghost predicate ListsGroups(order: seq<string>, groups: Groups) {
    Unrepeated(order) && forall k :: k in order <==> k in groups
  }

  lemma OneMoreColumn(order: seq<string>, rows: seq<Row>, row: Row, s: Settings)
    requires Complete(rows + [row], s) && Complete(rows, s) && Complete([row], s) && row in [row]
    requires ListsColumns(order, rows, s)
    ensures var ck := ColKey(row, s);
            ListsColumns(if s.colField.Some? && ck !in order then order + [ck] else order, rows + [row], s)
  {
    forall k ensures HasColumn(rows + [row], s, k)
                <==> HasColumn(rows, s, k) || (s.colField.Some? && ColKey(row, s) == k) {
      OneMoreKey(rows, row, s, k);
    }
  }

  method GroupRows(rows: seq<Row>, s: Settings)
    returns (groups: Groups, rowOrder: seq<string>, colOrder: seq<string>)
    requires Complete(rows, s)
    ensures Grouped(groups, rows, s) && ListsGroups(rowOrder, groups) && ListsColumns(colOrder, rows, s)
  {
    groups, rowOrder, colOrder := map[], [], [];
    var i := 0;
    while i < |rows|
      invariant 0 <= i <= |rows|
      invariant Complete(rows[..i], s)
      invariant Grouped(groups, rows[..i], s)
      invariant ListsGroups(rowOrder, groups)
      invariant ListsColumns(colOrder, rows[..i], s)
    {
      var row := rows[i];
      CompletePrefix(rows, i, s);
      OneMoreRow(groups, rows[..i], row, s);
      OneMoreColumn(colOrder, rows[..i], row, s);
      groups, rowOrder, colOrder := PushRow(groups, rowOrder, colOrder, row, s);
      i := i + 1;
    }
    assert rows[..i] == rows;
  }

  /** The body of the grouping loop. */
  method PushRow(groups: Groups, rowOrder: seq<string>, colOrder: seq<string>, row: Row, s: Settings)
    returns (groups': Groups, rowOrder': seq<string>, colOrder': seq<string>)
    requires Complete([row], s) && row in [row]
    requires ListsGroups(rowOrder, groups)
    ensures groups' == Added(groups, RowKey(row, s), ColKey(row, s), CellValue(row, s))
    ensures ListsGroups(rowOrder', groups')
    ensures var ck := ColKey(row, s);
            colOrder' == if s.colField.Some? && ck !in colOrder then colOrder + [ck] else colOrder
  {
    groups', rowOrder', colOrder' := groups, rowOrder, colOrder;
    var rowKey, colKey, value := RowKey(row, s), ColKey(row, s), CellValue(row, s);
    if s.colField.Some? && colKey !in colOrder {
      colOrder' := colOrder + [colKey];
    }
    if rowKey !in groups' {
      groups' := groups'[rowKey := map[]];
      rowOrder' := rowOrder' + [rowKey];
    }
    var colMap := groups'[rowKey];
    if colKey !in colMap {
      colMap := colMap[colKey := []];
    }
    assert colMap[colKey] == Held(groups, rowKey, colKey);
    colMap := colMap[colKey := colMap[colKey] + [value]];
    groups' := groups'[rowKey := colMap];
    ghost var cols := if rowKey in groups then groups[rowKey] else map[];
    assert colMap == cols[colKey := Held(groups, rowKey, colKey) + [value]];
    assert groups' == groups[rowKey := colMap];
  }

  method ComputePivot(rows: seq<Row>, s: Settings, le: (string, string) -> bool) returns (data: PivotData)
    requires Complete(rows, s) && Collation(le)
    ensures IsPivot(data, rows, s, le)
  {
    var groups, rowOrder, colOrder := GroupRows(rows, s);
    SortedInOrder(le, rowOrder);
    SortedInOrder(le, colOrder);
    var colKeys := if s.colField.Some? then Sorted(le, colOrder) else [ALL];
    var pivotRows := BuildRows(groups, Sorted(le, rowOrder), colKeys, rows, s);
    data := PivotData(colKeys, pivotRows);
  }

  function RowValues(colMap: map<string, seq<Value>>, colKeys: seq<string>, fn: AggFunction): map<string, Cell> {
    map ck | ck in colKeys :: Aggregate(if ck in colMap then colMap[ck] else [], fn)
  }

  /** The second loop of the computation: one pivot row a group. */
  method BuildRows(groups: Groups, rowKeys: seq<string>, colKeys: seq<string>, ghost rows: seq<Row>, s: Settings)
    returns (pivotRows: seq<PivotRow>)
    requires Complete(rows, s) && Grouped(groups, rows, s)
    requires forall k <- rowKeys :: k in groups
    ensures RowKeys(pivotRows) == rowKeys
    ensures forall r <- pivotRows :: IsPivotRow(r, colKeys, rows, s)
  {
    pivotRows := [];
    var i := 0;
    while i < |rowKeys|
      invariant 0 <= i <= |rowKeys| && RowKeys(pivotRows) == rowKeys[..i]
      invariant forall r <- pivotRows :: IsPivotRow(r, colKeys, rows, s)
    {
      assert rowKeys[i] in rowKeys;
      var row := PivotRow(rowKeys[i], RowValues(groups[rowKeys[i]], colKeys, s.fn));
      pivotRows := pivotRows + [row];
      i := i + 1;
    }
  }

  // ---------------------------------------------------------------- the SQL fragment

  datatype Expr =
    | Star
    | One
    | Column(name: string)
    | CaseWhen(column: string, key: string, then_: Expr)

  datatype Item = Key(name: string) | Agg(fn: AggFunction, arg: Expr, alias: string)

  /** SELECT items FROM your_table GROUP BY groupBy ORDER BY orderBy. */
  datatype Query = Query(items: seq<Item>, groupBy: seq<string>, orderBy: seq<string>)

  function AggName(fn: AggFunction): string {
    match fn
    case Count => "count"
    case Sum => "sum"
    case Avg => "avg"
    case Min => "min"
    case Max => "max"
  }

  method GenerateSQL(s: Settings, colKeys: seq<string>) returns (q: Query)
    ensures q == Generated(s, colKeys)
  {
    var select := [Key(s.rowField)];
    var groupBy := [s.rowField];
    if s.colField.Some? {
      var i := 0;
      while i < |colKeys|
        invariant 0 <= i <= |colKeys|
        invariant [Key(s.rowField)] + CaseItems(s, colKeys) == select + CaseItems(s, colKeys[i..])
      {
        var ck := colKeys[i];
        assert colKeys[i..][0] == ck && colKeys[i..][1..] == colKeys[i + 1..];
        if ck != ALL {
          var valExpr := if s.valueField.Some? then Column(s.valueField.value) else One;
          var item := Agg(s.fn, CaseWhen(s.colField.value, ck, valExpr), ck);
          assert select + ([item] + CaseItems(s, colKeys[i + 1..]))
              == (select + [item]) + CaseItems(s, colKeys[i + 1..]);
          select := select + [item];
        }
        i := i + 1;
      }
      assert colKeys[i..] == [] && select + [] == select;
    } else {
      var valExpr := if s.valueField.Some? then Column(s.valueField.value) else Star;
      select := select + [Agg(s.fn, valExpr, AggName(s.fn) + "_value")];
    }
    q := Query(select, groupBy, groupBy);
  }

  function CaseItems(s: Settings, colKeys: seq<string>): seq<Item>
    requires s.colField.Some?
  {
    if colKeys == [] then []
    else if colKeys[0] == ALL then CaseItems(s, colKeys[1..])
    else [Agg(s.fn, CaseArg(s, colKeys[0]), colKeys[0])] + CaseItems(s, colKeys[1..])
  }

  function CaseArg(s: Settings, colKey: string): Expr
    requires s.colField.Some?
  {
    CaseWhen(s.colField.value, colKey, if s.valueField.Some? then Column(s.valueField.value) else One)
  }

  function PlainArg(s: Settings): Expr {
    if s.valueField.Some? then Column(s.valueField.value) else Star
  }

  function Generated(s: Settings, colKeys: seq<string>): Query {
    Query(
      [Key(s.rowField)]
      + (if s.colField.Some? then CaseItems(s, colKeys)
         else [Agg(s.fn, PlainArg(s), AggName(s.fn) + "_value")]),
      [s.rowField], [s.rowField])
  }

  // ---------------------------------------------------------------- what the SQL means

  /** One cell of a result: NULL, a number, or no result because the engine refuses the expression. */
  datatype SqlCell = SqlNull | SqlNum(number: real) | Refused

  /** An equality with NULL is not true, and a CASE without ELSE is NULL. */
  function Eval(e: Expr, row: Row): Value {
    match e
    case Star => Null
    case One => Num(1.0, "1")
    case Column(name) => if name in row then row[name] else Null
    case CaseWhen(column, key, then_) =>
      if column in row && row[column].Text? && row[column].text == key then Eval(then_, row) else Null
  }

  /** The argument of an aggregate over the rows of one group, NULLs dropped as SQL drops them. */
  function Argument(rows: seq<Row>, groupBy: string, key: string, e: Expr): seq<Value> {
    if rows == [] then []
    else
      var row := rows[|rows| - 1];
      var v := Eval(e, row);
      Argument(rows[..|rows| - 1], groupBy, key, e)
      + if InGroup(row, groupBy, key) && v != Null then [v] else []
  }

  predicate InGroup(row: Row, groupBy: string, key: string) {
    groupBy in row && row[groupBy].Text? && row[groupBy].text == key
  }

  function GroupSize(rows: seq<Row>, groupBy: string, key: string): nat {
    if rows == [] then 0
    else
      GroupSize(rows[..|rows| - 1], groupBy, key) + if InGroup(rows[|rows| - 1], groupBy, key) then 1 else 0
  }

  function NumbersOf(vs: seq<Value>): seq<real>
    requires forall v <- vs :: v.Num?
  {
    seq(|vs|, i requires 0 <= i < |vs| => vs[i].number)
  }

  /** An aggregate of values none of which is NULL: only COUNT takes anything but numbers. */
  function AggOf(fn: AggFunction, vs: seq<Value>): SqlCell {
    if fn.Count? then SqlNum(|vs| as real)
    else if exists v <- vs :: !v.Num? then Refused
    else if vs == [] then SqlNull
    else SqlNum(Reduced(fn, NumbersOf(vs)))
  }

  function Reduced(fn: AggFunction, ns: seq<real>): real
    requires ns != []
  {
    match fn
    case Count => |ns| as real
    case Sum => Total(ns)
    case Avg => Total(ns) / |ns| as real
    case Min => Extreme(ns, true)
    case Max => Extreme(ns, false)
  }

  function EvalAgg(fn: AggFunction, e: Expr, rows: seq<Row>, groupBy: string, key: string): SqlCell {
    if !e.Star? then AggOf(fn, Argument(rows, groupBy, key, e))
    else if fn.Count? then SqlNum(GroupSize(rows, groupBy, key) as real)
    else Refused
  }

  /** How the client shows a SQL cell: NULL is its own empty-cell value. */
  function Reads(fn: AggFunction, cell: SqlCell): Option<Cell> {
    match cell
    case SqlNum(n) => Some(Shown(n))
    case SqlNull => Some(if fn.Min? || fn.Max? then Dash else Shown(0.0))
    case Refused => None
  }

  datatype ResultRow = ResultRow(key: string, cells: seq<SqlCell>)

  /** The groups of a result, in listing order. */
  function GroupsOf(result: seq<ResultRow>): seq<string> {
    seq(|result|, i requires 0 <= i < |result| => result[i].key)
  }

  /**
   `result` is what a query whose first item is its only key answers on `rows`: a row a
   group, in the order of the collation, each further item evaluated over the group.
   */
  ghost predicate Answers(q: Query, rows: seq<Row>, le: (string, string) -> bool, result: seq<ResultRow>) {
    && |q.items| > 0 && q.items[0].Key?
    && q.groupBy == [q.items[0].name] == q.orderBy
    && (forall item <- q.items[1..] :: item.Agg?)
    && InOrder(le, GroupsOf(result))
    && (forall k :: k in GroupsOf(result) <==> exists row: Row <- rows :: InGroup(row, q.groupBy[0], k))
    && (forall r <- result ::
          && |r.cells| == |q.items| - 1
          && forall i :: 0 <= i < |r.cells| ==>
               r.cells[i] == EvalAgg(q.items[i + 1].fn, q.items[i + 1].arg, rows, q.groupBy[0], r.key))
  }

  // ---------------------------------------------------------------- cells

  /** The keys are texts, as the client shows them, none of them the client's own marker. */
  predicate TextKeys(rows: seq<Row>, s: Settings)
    requires Complete(rows, s)
  {
    forall row: Row <- rows ::
      && row[s.rowField].Text?
      && (s.colField.Some? ==> row[s.colField.value].Text? && row[s.colField.value].text != ALL)
  }

  predicate Numeric(rows: seq<Row>, s: Settings, nullable: bool)
    requires Complete(rows, s)
  {
    s.valueField.Some? ==>
      forall row: Row <- rows :: row[s.valueField.value].Num? || (nullable && row[s.valueField.value].Null?)
  }

  /** The argument the query aggregates for a column key. */
  function ArgFor(s: Settings, colKey: string): Expr {
    if s.colField.Some? then CaseArg(s, colKey) else PlainArg(s)
  }

  function NonNull(vs: seq<Value>): seq<Value> {
    if vs == [] then []
    else NonNull(vs[..|vs| - 1]) + if vs[|vs| - 1].Null? then [] else [vs[|vs| - 1]]
  }

  /** On one row, the argument is what the client puts into the cell, or NULL. */
  lemma ArgumentOfRow(rows: seq<Row>, row: Row, s: Settings, ck: string)
    requires Complete(rows, s) && TextKeys(rows, s) && row in rows
    requires if s.colField.Some? then ck != ALL else ck == ALL
    ensures !ArgFor(s, ck).Star? ==>
              Eval(ArgFor(s, ck), row) == if ColKey(row, s) == ck then CellValue(row, s) else Null
    ensures ArgFor(s, ck).Star? ==> ColKey(row, s) == ck
  {
    assert row[s.rowField].Text?;
  }

  /** The query aggregates what the client put into the bucket, without its NULLs. */
  lemma {:induction false} ArgumentIsBucket(rows: seq<Row>, s: Settings, rk: string, ck: string)
    requires Complete(rows, s) && TextKeys(rows, s)
    requires if s.colField.Some? then ck != ALL else ck == ALL
    ensures !ArgFor(s, ck).Star? ==> Argument(rows, s.rowField, rk, ArgFor(s, ck)) == NonNull(Bucket(rows, s, rk, ck))
    ensures ArgFor(s, ck).Star? ==> GroupSize(rows, s.rowField, rk) == |Bucket(rows, s, rk, ck)|
    decreases |rows|
  {
    if rows != [] {
      var row, rest := rows[|rows| - 1], rows[..|rows| - 1];
      assert row in rows;
      ArgumentIsBucket(rest, s, rk, ck);
      ArgumentOfRow(rows, row, s, ck);
      var b := Bucket(rest, s, rk, ck);
      assert b + [] == b && NonNull(b) + [] == NonNull(b);
    }
  }

  lemma {:induction false} BucketIsNumeric(rows: seq<Row>, s: Settings, nullable: bool, rk: string, ck: string)
    requires Complete(rows, s) && Numeric(rows, s, nullable)
    ensures forall v <- Bucket(rows, s, rk, ck) :: v.Num? || (nullable && v.Null?)
    decreases |rows|
  {
    if rows != [] {
      assert rows[|rows| - 1] in rows;
      BucketIsNumeric(rows[..|rows| - 1], s, nullable, rk, ck);
    }
  }

  /** On numbers and NULLs, dropping the NULLs keeps the total and drops only zeros of the client's. */
  lemma {:induction false} NullsAreZeros(vs: seq<Value>)
    requires forall v <- vs :: v.Num? || v.Null?
    ensures forall v <- NonNull(vs) :: v.Num? && v in vs
    ensures |Numbers(vs)| == |vs| && |NonNull(vs)| <= |vs|
    ensures Null !in vs <==> |NonNull(vs)| == |vs|
    ensures Null !in vs ==> NumbersOf(NonNull(vs)) == Numbers(vs)
    ensures Total(NumbersOf(NonNull(vs))) == Total(Numbers(vs))
    ensures forall n :: n in Numbers(vs) <==> n in NumbersOf(NonNull(vs)) || (n == 0.0 && Null in vs)
    decreases |vs|
  {
    if vs != [] {
      var last, rest := vs[|vs| - 1], vs[..|vs| - 1];
      assert vs == rest + [last];
      NullsAreZeros(rest);
      var kept := NonNull(rest);
      var before := Numbers(rest);
      assert Numbers(vs) == before + [ToNumber(last).value];
      assert (before + [ToNumber(last).value])[..|before|] == before;
      if last.Null? {
        assert NonNull(vs) == kept;
      } else {
        assert NonNull(vs) == kept + [last];
        assert NumbersOf(kept + [last]) == NumbersOf(kept) + [last.number];
        assert (NumbersOf(kept) + [last.number])[..|kept|] == NumbersOf(kept);
      }
    }
  }

  /**
   When the client's cell is the query's although the bucket holds NULLs, which the client
   takes for zeros: a sum always, an average if it is zero, a minimum or maximum if zero does
   not beat it, a count never.
   */
  predicate NullsDoNotShow(vs: seq<Value>, fn: AggFunction) {
    Null !in vs ||
    match fn
    case Count => false
    case Sum => true
    case Avg => Total(Numbers(vs)) == 0.0
    case Min => exists v <- vs :: v.Num? && v.number <= 0.0
    case Max => exists v <- vs :: v.Num? && v.number >= 0.0
  }

  /** One cell, over a bucket of numbers and NULLs. */
  lemma CellAgreesIff(vs: seq<Value>, fn: AggFunction)
    requires forall v <- vs :: v.Num? || v.Null?
    ensures Reads(fn, AggOf(fn, NonNull(vs))) == Some(Aggregate(vs, fn)) <==> NullsDoNotShow(vs, fn)
  {
    NullsAreZeros(vs);
    if Null in vs {
      assert 0.0 in Numbers(vs);
      match fn
      case Count =>
      case Sum =>
      case Avg => AverageAmongZeros(vs);
      case Min => ExtremeAmongZeros(vs, true);
      case Max => ExtremeAmongZeros(vs, false);
    }
  }

  lemma AverageAmongZeros(vs: seq<Value>)
    requires (forall v <- vs :: v.Num? || v.Null?) && Null in vs
    ensures Reads(Avg, AggOf(Avg, NonNull(vs))) == Some(Aggregate(vs, Avg)) <==> Total(Numbers(vs)) == 0.0
  {
    NullsAreZeros(vs);
    var ns, all := NumbersOf(NonNull(vs)), Numbers(vs);
    Quotients(Total(all), |ns|, |all|);
  }

  lemma Quotients(total: real, m: nat, n: nat)
    requires m < n
    ensures total == 0.0 ==> total / n as real == 0.0
    ensures 0 < m ==> (total / m as real == total / n as real <==> total == 0.0)
  {
    var y := total / n as real;
    assert y * n as real == total;
    if 0 < m {
      var x := total / m as real;
      assert x * m as real == total;
      assert x == y ==> x * (n as real - m as real) == 0.0;
    }
  }

  lemma ExtremeAmongZeros(vs: seq<Value>, least: bool)
    requires (forall v <- vs :: v.Num? || v.Null?) && Null in vs
    requires forall v <- NonNull(vs) :: v.Num?
    requires Numbers(vs) != []
    ensures var ns := NumbersOf(NonNull(vs));
            (ns != [] && Extreme(ns, least) == Extreme(Numbers(vs), least))
            <==> exists v <- vs :: v.Num? && (if least then v.number <= 0.0 else v.number >= 0.0)
  {
    NullsAreZeros(vs);
    var ns := NumbersOf(NonNull(vs));
    var all := Numbers(vs);
    var m := Extreme(all, least);
    if ns != [] && Extreme(ns, least) == m {
      var i :| 0 <= i < |ns| && ns[i] == m;
      var v := NonNull(vs)[i];
      assert v in NonNull(vs);
      assert v in vs && v.number == m;
      assert 0.0 in all;
    }
    if v :| v in vs && v.Num? && (if least then v.number <= 0.0 else v.number >= 0.0) {
      KeptIfNum(vs, v);
      var i :| 0 <= i < |NonNull(vs)| && NonNull(vs)[i] == v;
      assert ns[i] == v.number;
      assert v.number in ns;
      var e := Extreme(ns, least);
      assert e in all;
      assert m in ns || m == 0.0;
    }
  }

  lemma {:induction false} KeptIfNum(vs: seq<Value>, v: Value)
    requires v in vs && v.Num?
    ensures v in NonNull(vs)
    decreases |vs|
  {
    var last, rest := vs[|vs| - 1], vs[..|vs| - 1];
    if v != last {
      assert vs == rest + [last];
      KeptIfNum(rest, v);
    }
  }

  /** Whether the generated query is one an engine accepts: SUM(*) and its like are not SQL. */
  predicate Accepted(s: Settings) {
    s.colField.Some? || s.valueField.Some? || s.fn.Count?
  }

  /** One cell of the table, over rows with text keys and numeric or NULL values. */
  lemma TableCellAgreesIff(rows: seq<Row>, s: Settings, rk: string, ck: string)
    requires Complete(rows, s) && TextKeys(rows, s) && Numeric(rows, s, true)
    requires if s.colField.Some? then ck != ALL else ck == ALL
    ensures Reads(s.fn, EvalAgg(s.fn, ArgFor(s, ck), rows, s.rowField, rk))
            == Some(Aggregate(Bucket(rows, s, rk, ck), s.fn))
       <==> Accepted(s) && NullsDoNotShow(Bucket(rows, s, rk, ck), s.fn)
  {
    ArgumentIsBucket(rows, s, rk, ck);
    BucketIsNumeric(rows, s, true, rk, ck);
    var vs := Bucket(rows, s, rk, ck);
    CellAgreesIff(vs, s.fn);
    if ArgFor(s, ck).Star? {
      OnesAreNotNull(rows, s, rk, ck);
    }
  }

  lemma {:induction false} OnesAreNotNull(rows: seq<Row>, s: Settings, rk: string, ck: string)
    requires Complete(rows, s) && s.valueField.None?
    ensures Null !in Bucket(rows, s, rk, ck)
    decreases |rows|
  {
    if rows != [] {
      OnesAreNotNull(rows[..|rows| - 1], s, rk, ck);
    }
  }

  // ---------------------------------------------------------------- whole tables

  lemma {:induction false} CaseItemsMatchColumns(s: Settings, colKeys: seq<string>)
    requires s.colField.Some? && ALL !in colKeys
    ensures |CaseItems(s, colKeys)| == |colKeys|
    ensures forall i :: 0 <= i < |colKeys| ==> CaseItems(s, colKeys)[i] == Agg(s.fn, CaseArg(s, colKeys[i]), colKeys[i])
    decreases |colKeys|
  {
    if colKeys != [] {
      assert colKeys[0] in colKeys;
      CaseItemsMatchColumns(s, colKeys[1..]);
    }
  }

  /**
   Main result. On rows with text keys and numeric values, whatever the settings for which
   the query is SQL at all, any answer to the generated query is the client's pivot: the same
   rows in the same order, a column a column key, and every cell equal.
   */
  lemma PivotMeansItsQuery(rows: seq<Row>, s: Settings, le: (string, string) -> bool, data: PivotData,
                           result: seq<ResultRow>)
    requires Complete(rows, s) && Collation(le) && TextKeys(rows, s) && Numeric(rows, s, false) && Accepted(s)
    requires IsPivot(data, rows, s, le) && Answers(Generated(s, data.colKeys), rows, le, result)
    ensures |result| == |data.pivotRows|
    ensures forall r :: 0 <= r < |result| ==>
              && result[r].key == data.pivotRows[r].rowKey
              && |result[r].cells| == |data.colKeys|
              && forall c :: 0 <= c < |data.colKeys| ==>
                   data.colKeys[c] in data.pivotRows[r].values
                   && Reads(s.fn, result[r].cells[c]) == Some(data.pivotRows[r].values[data.colKeys[c]])
  {
    var q := Generated(s, data.colKeys);
    SameRows(rows, s, le, data, result);
    ColumnsMatch(rows, s, le, data);
    forall r, c | 0 <= r < |result| && 0 <= c < |data.colKeys|
      ensures data.colKeys[c] in data.pivotRows[r].values
      ensures |result[r].cells| == |data.colKeys|
      ensures Reads(s.fn, result[r].cells[c]) == Some(data.pivotRows[r].values[data.colKeys[c]])
    {
      var rk, ck := result[r].key, data.colKeys[c];
      assert result[r] in result && data.pivotRows[r] in data.pivotRows && ck in data.colKeys;
      BucketIsNumeric(rows, s, false, rk, ck);
      TableCellAgreesIff(rows, s, rk, ck);
    }
    assert forall r :: 0 <= r < |result| ==> result[r] in result;
  }

  lemma SameRows(rows: seq<Row>, s: Settings, le: (string, string) -> bool, data: PivotData, result: seq<ResultRow>)
    requires Complete(rows, s) && Collation(le) && TextKeys(rows, s)
    requires IsPivot(data, rows, s, le) && Answers(Generated(s, data.colKeys), rows, le, result)
    ensures |result| == |data.pivotRows|
    ensures forall r :: 0 <= r < |result| ==> result[r].key == data.pivotRows[r].rowKey
  {
    var keys := RowKeys(data.pivotRows);
    forall k ensures k in GroupsOf(result) <==> k in keys {
      assert forall row: Row <- rows :: RowKey(row, s) == k <==> InGroup(row, s.rowField, k);
    }
    ListingIsUnique(le, GroupsOf(result), keys);
    forall r | 0 <= r < |result| ensures result[r].key == data.pivotRows[r].rowKey {
      assert GroupsOf(result)[r] == keys[r];
    }
  }

  /** The query selects the key and then one aggregate a column of the pivot, in its order. */
  lemma ColumnsMatch(rows: seq<Row>, s: Settings, le: (string, string) -> bool, data: PivotData)
    requires Complete(rows, s) && TextKeys(rows, s) && IsPivot(data, rows, s, le)
    ensures var items := Generated(s, data.colKeys).items;
            && |items| == |data.colKeys| + 1
            && forall c :: 0 <= c < |data.colKeys| ==>
                 && items[c + 1].Agg? && items[c + 1].fn == s.fn && items[c + 1].arg == ArgFor(s, data.colKeys[c])
                 && (if s.colField.Some? then data.colKeys[c] != ALL else data.colKeys[c] == ALL)
  {
    if s.colField.Some? {
      assert !HasColumn(rows, s, ALL);
      CaseItemsMatchColumns(s, data.colKeys);
      assert forall c :: 0 <= c < |data.colKeys| ==> data.colKeys[c] in data.colKeys;
    }
  }

  /**
   Why a column key may not be the marker: the generator leaves that column out, so the query
   has a column less than the pivot. It has them all exactly when the marker is not a key.
   */
  lemma {:induction false} NoColumnLostIff(s: Settings, colKeys: seq<string>)
    requires s.colField.Some?
    ensures |CaseItems(s, colKeys)| <= |colKeys|
    ensures |Generated(s, colKeys).items| == |colKeys| + 1 <==> ALL !in colKeys
    decreases |colKeys|
  {
    if colKeys != [] {
      NoColumnLostIff(s, colKeys[1..]);
      assert forall k :: k in colKeys <==> k == colKeys[0] || k in colKeys[1..];
    }
  }

  // ---------------------------------------------------------------- the table adds up

  /** A total is the sum: of nothing nothing, of one number itself, of two lists both. */
  lemma {:induction false} TotalIsTheSum(a: seq<real>, b: seq<real>, n: real)
    ensures Total([]) == 0.0 && Total([n]) == n && Total(a + b) == Total(a) + Total(b)
    decreases |b|
  {
    assert [n][..0] == [];
    if b == [] {
      assert a + b == a;
    } else {
      assert (a + b)[..|a + b| - 1] == a + b[..|b| - 1];
      TotalIsTheSum(a, b[..|b| - 1], n);
    }
  }

  /** Every row puts its value into the one cell of its two keys. */
  lemma EachRowIsInOneCell(rows: seq<Row>, row: Row, s: Settings, rk: string, ck: string)
    requires Complete(rows + [row], s) && Complete(rows, s) && Complete([row], s) && row in [row]
    ensures var rowText := (match row[s.rowField] case Null => "NULL" case Text(t, _) => t case Num(_, t) => t);
            var colText := if s.colField.None? then "__all__"
                           else (match row[s.colField.value] case Null => "NULL" case Text(t, _) => t case Num(_,
                               t) => t);
            var value := if s.valueField.None? then Num(1.0, "1") else row[s.valueField.value];
            Bucket(rows + [row], s, rk, ck)
            == Bucket(rows, s, rk, ck) + if rowText == rk && colText == ck then [value] else []
  {
    assert (rows + [row])[..|rows|] == rows;
  }

  /** What the values of a cell come to when they are counted, or summed. */
  function Amount(vs: seq<Value>, fn: AggFunction): real {
    if fn == Count then |vs| as real else Total(Numbers(vs))
  }

  lemma OneMoreAmount(vs: seq<Value>, v: Value, fn: AggFunction)
    ensures Amount(vs + [v], fn) == Amount(vs, fn) + Amount([v], fn)
  {
    assert (vs + [v])[..|vs|] == vs && [v][..0] == [];
    var n := if ToNumber(v).Some? then [ToNumber(v).value] else [];
    assert Numbers([v]) == [] + n == n;
    TotalIsTheSum(Numbers(vs), n, 0.0);
  }

  /** The amounts of one row of the table, and of all its rows. */
  function RowAmount(rows: seq<Row>, s: Settings, rk: string, cks: seq<string>): real
    requires Complete(rows, s)
  {
    if cks == [] then 0.0 else Amount(Bucket(rows, s, rk, cks[0]), s.fn) + RowAmount(rows, s, rk, cks[1..])
  }

  function TableAmount(rows: seq<Row>, s: Settings, rks: seq<string>, cks: seq<string>): real
    requires Complete(rows, s)
  {
    if rks == [] then 0.0 else RowAmount(rows, s, rks[0], cks) + TableAmount(rows, s, rks[1..], cks)
  }

  function Values(rows: seq<Row>, s: Settings): seq<Value>
    requires Complete(rows, s)
  {
    if rows == [] then [] else Values(rows[..|rows| - 1], s) + [CellValue(rows[|rows| - 1], s)]
  }

  lemma InRest(xs: seq<string>, k: string)
    requires xs != [] && Unrepeated(xs)
    ensures Unrepeated(xs[1..]) && xs[0] !in xs[1..] && (k in xs <==> k == xs[0] || k in xs[1..])
  {
  }

  lemma {:induction false} RowGrows(rows: seq<Row>, row: Row, s: Settings, rk: string, cks: seq<string>)
    requires Complete(rows + [row], s) && Complete(rows, s) && Complete([row], s) && row in [row] && Unrepeated(cks)
    ensures RowAmount(rows + [row], s, rk, cks)
         == RowAmount(rows, s, rk, cks)
            + if RowKey(row, s) == rk && ColKey(row, s) in cks then Amount([CellValue(row, s)], s.fn) else 0.0
    decreases |cks|
  {
    hide Amount;
    hide Bucket;
    hide KeyText;
    if cks != [] {
      InRest(cks, ColKey(row, s));
      RowGrows(rows, row, s, rk, cks[1..]);
      BucketGrows(rows, row, s, rk, cks[0]);
      OneMoreAmount(Bucket(rows, s, rk, cks[0]), CellValue(row, s), s.fn);
    }
  }

  lemma BucketGrows(rows: seq<Row>, row: Row, s: Settings, rk: string, ck: string)
    requires Complete(rows + [row], s) && Complete(rows, s) && Complete([row], s) && row in [row]
    ensures Bucket(rows + [row], s, rk, ck)
         == if RowKey(row, s) == rk && ColKey(row, s) == ck then Bucket(rows, s, rk, ck) + [CellValue(row, s)]
            else Bucket(rows, s, rk, ck)
  {
    assert (rows + [row])[..|rows|] == rows;
  }

  lemma {:induction false} TableGrows(rows: seq<Row>, row: Row, s: Settings, rks: seq<string>, cks: seq<string>)
    requires Complete(rows + [row], s) && Complete(rows, s) && Complete([row], s) && row in [row]
    requires Unrepeated(rks) && Unrepeated(cks)
    ensures TableAmount(rows + [row], s, rks, cks)
         == TableAmount(rows, s, rks, cks)
            + if RowKey(row, s) in rks && ColKey(row, s) in cks then Amount([CellValue(row, s)], s.fn) else 0.0
    decreases |rks|
  {
    hide Amount;
    hide KeyText;
    hide RowAmount;
    if rks != [] {
      InRest(rks, RowKey(row, s));
      RowGrows(rows, row, s, rks[0], cks);
      TableGrows(rows, row, s, rks[1..], cks);
    }
  }

  lemma {:induction false} EmptyTable(s: Settings, rks: seq<string>, cks: seq<string>)
    ensures Complete([], s) && TableAmount([], s, rks, cks) == 0.0
    decreases |rks|
  {
    if rks != [] {
      EmptyTable(s, rks[1..], cks);
      EmptyRow(s, rks[0], cks);
    }
  }

  lemma {:induction false} EmptyRow(s: Settings, rk: string, cks: seq<string>)
    ensures Complete([], s) && RowAmount([], s, rk, cks) == 0.0
    decreases |cks|
  {
    if cks != [] {
      EmptyRow(s, rk, cks[1..]);
    }
  }

  lemma {:induction false} TableIsAll(rows: seq<Row>, s: Settings, rks: seq<string>, cks: seq<string>)
    requires Complete(rows, s) && Unrepeated(rks) && Unrepeated(cks)
    requires forall row: Row <- rows :: RowKey(row, s) in rks && ColKey(row, s) in cks
    ensures TableAmount(rows, s, rks, cks) == Amount(Values(rows, s), s.fn)
    decreases |rows|
  {
    hide Amount;
    hide TableAmount;
    if rows == [] {
      EmptyTable(s, rks, cks);
      NothingAmounts(s.fn);
    } else {
      var k := |rows| - 1;
      var before, row := rows[..k], rows[k];
      assert row in rows && forall r: Row <- before :: r in rows;
      CompletePrefix(rows, k, s);
      assert rows == rows[..k + 1] == before + [row];
      TableIsAll(before, s, rks, cks);
      TableGrows(before, row, s, rks, cks);
      OneMoreAmount(Values(before, s), CellValue(row, s), s.fn);
    }
  }

  lemma NothingAmounts(fn: AggFunction)
    ensures Amount([], fn) == 0.0
  {
  }

  /** What the cells of a table show, added up: a dash, which no count or sum is, adds nothing. */
  function ShownInRow(r: PivotRow, cks: seq<string>): real {
    if cks == [] then 0.0
    else
      (if cks[0] in r.values && r.values[cks[0]].Shown? then r.values[cks[0]].number else 0.0) + ShownInRow(r, cks[1..])
  }

  function ShownInAll(pivotRows: seq<PivotRow>, cks: seq<string>): real {
    if pivotRows == [] then 0.0 else ShownInRow(pivotRows[0], cks) + ShownInAll(pivotRows[1..], cks)
  }

  lemma {:induction false} RowShows(r: PivotRow, all: seq<string>, cks: seq<string>, rows: seq<Row>, s: Settings)
    requires Complete(rows, s) && IsPivotRow(r, all, rows, s) && forall ck <- cks :: ck in all
    requires s.fn == Count || s.fn == Sum
    ensures ShownInRow(r, cks) == RowAmount(rows, s, r.rowKey, cks)
    decreases |cks|
  {
    if cks != [] {
      RowShows(r, all, cks[1..], rows, s);
      assert cks[0] in all && cks[0] in r.values.Keys;
      NothingAmounts(s.fn);
    }
  }

  lemma {:induction false} RowsShow(pivotRows: seq<PivotRow>, cks: seq<string>, rows: seq<Row>, s: Settings)
    requires Complete(rows, s) && forall r <- pivotRows :: IsPivotRow(r, cks, rows, s)
    requires s.fn == Count || s.fn == Sum
    ensures ShownInAll(pivotRows, cks) == TableAmount(rows, s, RowKeys(pivotRows), cks)
    decreases |pivotRows|
  {
    hide IsPivotRow;
    if pivotRows != [] {
      assert pivotRows[0] in pivotRows && forall r <- pivotRows[1..] :: r in pivotRows;
      RowShows(pivotRows[0], cks, cks, rows, s);
      RowsShow(pivotRows[1..], cks, rows, s);
      assert RowKeys(pivotRows)[1..] == RowKeys(pivotRows[1..]);
    } else {
      assert RowKeys(pivotRows) == [];
    }
  }

  /**
   Nothing is lost or counted twice: the counts, or the sums, over all cells of a pivot add up to
   the count, or the sum, over all rows.
   */
  lemma PivotAddsUp(data: PivotData, rows: seq<Row>, s: Settings, le: (string, string) -> bool)
    requires Complete(rows, s) && IsPivot(data, rows, s, le) && (s.fn == Count || s.fn == Sum)
    ensures ShownInAll(data.pivotRows, data.colKeys) == Amount(Values(rows, s), s.fn)
    ensures s.fn == Count ==> ShownInAll(data.pivotRows, data.colKeys) == |rows| as real
  {
    hide Amount;
    hide IsPivotRow;
    hide TableAmount;
    var rks := RowKeys(data.pivotRows);
    forall row: Row | row in rows ensures RowKey(row, s) in rks && ColKey(row, s) in data.colKeys {
      assert HasRow(rows, s, RowKey(row, s));
      if s.colField.Some? {
        assert HasColumn(rows, s, ColKey(row, s));
      }
    }
    RowsShow(data.pivotRows, data.colKeys, rows, s);
    TableIsAll(rows, s, rks, data.colKeys);
    CountsAll(rows, s);
  }

  lemma {:induction false} CountsAll(rows: seq<Row>, s: Settings)
    requires Complete(rows, s)
    ensures |Values(rows, s)| == |rows|
    ensures s.fn == Count ==> Amount(Values(rows, s), s.fn) == |rows| as real
    decreases |rows|
  {
    if rows != [] {
      var k := |rows| - 1;
      CompletePrefix(rows, k, s);
      CountsAll(rows[..k], s);
    }
  }

  /** Without a column field the one aggregate is named after its function. */
  lemma PlainItemIsNamed(s: Settings, colKeys: seq<string>)
    requires s.colField.None?
    ensures var items := Generated(s, colKeys).items;
            && |items| == 2 && items[0] == Key(s.rowField)
            && (s.fn == Count ==> items[1] == Agg(Count, PlainArg(s), "count_value"))
            && (s.fn == Sum ==> items[1] == Agg(Sum, PlainArg(s), "sum_value"))
            && (s.fn == Avg ==> items[1] == Agg(Avg, PlainArg(s), "avg_value"))
            && (s.fn == Min ==> items[1] == Agg(Min, PlainArg(s), "min_value"))
            && (s.fn == Max ==> items[1] == Agg(Max, PlainArg(s), "max_value"))
  {
  }
}
