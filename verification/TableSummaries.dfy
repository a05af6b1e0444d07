/** Table summaries: merging two of them is summarising both tables one behind the other. */
module TableSummaries {
  import opened Basics
  import opened Statistics

  datatype ColumnSummary = ColumnSummary(name: string, ctype: ColumnType, stats: StatValues)

  // ---------------------------------------------------------------------------------------------
  // Summaries
  // ---------------------------------------------------------------------------------------------

  /** The column of that name, the first one if there are several. */
  function Find(cols: seq<ColumnSummary>, name: string): (r: Option<ColumnSummary>)
    ensures r.Some? ==> r.value in cols && r.value.name == name
    ensures r.None? <==> forall c <- cols :: c.name != name
  {
    if cols == [] then None else if cols[0].name == name then Some(cols[0]) else Find(cols[1..], name)
  }

  /** The number of rows, taken from the first column. */
  function TotalCount(cols: seq<ColumnSummary>): nat {
    if cols == [] then 0 else cols[0].stats.totalCount
  }

  predicate NamesDiffer(cols: seq<ColumnSummary>) {
    forall j, k :: 0 <= j < k < |cols| ==> cols[j].name != cols[k].name
  }

  /** Column names differ and all columns have the same number of rows. */
  predicate Consistent(cols: seq<ColumnSummary>) {
    NamesDiffer(cols) && forall c <- cols :: c.stats.totalCount == TotalCount(cols)
  }

  /** A column both have is of one type. */
  predicate TypesMatch(a: seq<ColumnSummary>, b: seq<ColumnSummary>) {
    forall c <- a, d <- b :: c.name == d.name ==> c.ctype == d.ctype
  }

  /** Filled up with nulls to `total` rows. */
  function ToTotalCount(c: ColumnSummary, total: nat): ColumnSummary {
    c.(stats := UpdateForNulls(c.stats, if c.stats.totalCount <= total then total - c.stats.totalCount else 0))
  }

  function UpdateColumn(c: ColumnSummary, other: seq<ColumnSummary>, total: nat): ColumnSummary {
    match Find(other, c.name)
    case Some(o) => c.(stats := UpdateStats(c.stats, o.stats))
    case None => ToTotalCount(c, total)
  }

  function Updated(a: seq<ColumnSummary>, b: seq<ColumnSummary>, total: nat): (r: seq<ColumnSummary>)
    ensures |r| == |a| && forall k :: 0 <= k < |a| ==> r[k] == UpdateColumn(a[k], b, total)
  {
    seq(|a|, k requires 0 <= k < |a| => UpdateColumn(a[k], b, total))
  }

  /** Neither `a` nor a column before it has the name of column `k` of `b`. */
  predicate IsNew(a: seq<ColumnSummary>, b: seq<ColumnSummary>, k: nat)
    requires k < |b|
  {
    Find(a, b[k].name).None? && Find(b[..k], b[k].name).None?
  }

  /** The columns of `b` that `a` does not have, the first of each name. */
  function Added(b: seq<ColumnSummary>, a: seq<ColumnSummary>, total: nat): seq<ColumnSummary> {
    if b == [] then []
    else
      var k := |b| - 1;
      Added(b[..k], a, total) + if IsNew(a, b, k) then [ToTotalCount(b[k], total)] else []
  }

  function Merged(a: seq<ColumnSummary>, b: seq<ColumnSummary>): seq<ColumnSummary> {
    var total := TotalCount(a) + TotalCount(b);
    Updated(a, b, total) + Added(b, a, total)
  }

  predicate ColumnCanUpdate(c: ColumnSummary, other: seq<ColumnSummary>, total: nat) {
    match Find(other, c.name)
    case Some(o) => c.ctype == o.ctype
    case None => c.stats.totalCount <= total
  }

  /** What the source asserts on the way: columns both have are of one type, and a column only one side has does not
      have more rows than the total. */
  predicate CanUpdate(a: seq<ColumnSummary>, b: seq<ColumnSummary>) {
    var total := TotalCount(a) + TotalCount(b);
    && (forall c <- a :: ColumnCanUpdate(c, b, total))
    && (forall k :: 0 <= k < |b| && IsNew(a, b, k) ==> b[k].stats.totalCount <= total)
  }

  /** Summaries of tables always meet that, if the types agree. */
  lemma ConsistentCanUpdate(a: seq<ColumnSummary>, b: seq<ColumnSummary>)
    requires Consistent(a) && Consistent(b) && TypesMatch(a, b)
    ensures CanUpdate(a, b)
  {
    forall k | 0 <= k < |b| ensures b[k].stats.totalCount <= TotalCount(a) + TotalCount(b) {
      assert b[k] in b;
    }
  }

  class TableSummary {
    var columns: seq<ColumnSummary>

    constructor (columns: seq<ColumnSummary>)
      ensures this.columns == columns
    {
      this.columns := columns;
    }

    /** Updates the columns it has, then takes over the others. */
    method UpdateFrom(other: TableSummary)
      requires other != this && CanUpdate(columns, other.columns)
      modifies this
      ensures columns == Merged(old(columns), other.columns)
    {
      hide UpdateColumn, ColumnCanUpdate, Added, Find, IsNew;
      var total := TotalCount(columns) + TotalCount(other.columns);
      UpdateColumns(other.columns, total);
      AddColumns(other.columns, total, old(columns));
    }

    method UpdateColumns(other: seq<ColumnSummary>, total: nat)
      requires forall c <- columns :: ColumnCanUpdate(c, other, total)
      modifies this
      ensures columns == Updated(old(columns), other, total)
    {
      hide Find;
      ghost var before := columns;
      for k := 0 to |columns|
        invariant |columns| == |before| && forall j :: k <= j < |before| ==> columns[j] == before[j]
        invariant forall j :: 0 <= j < k ==> columns[j] == UpdateColumn(before[j], other, total)
      {
        var col := columns[k];
        assert before[k] in before;
        match Find(other, col.name) {
          case Some(o) =>
            assert col.ctype == o.ctype;
            col := col.(stats := UpdateStats(col.stats, o.stats));
          case None =>
            assert col.stats.totalCount <= total;
            col := ToTotalCount(col, total);
        }
        columns := columns[k := col];
      }
    }

    method AddColumns(other: seq<ColumnSummary>, total: nat, ghost before: seq<ColumnSummary>)
      requires columns == Updated(before, other, total)
      requires forall k :: 0 <= k < |other| && IsNew(before, other, k) ==> other[k].stats.totalCount <= total
      modifies this
      ensures columns == Updated(before, other, total) + Added(other, before, total)
    {
      hide Added, Updated, UpdateColumn, ToTotalCount, Find, IsNew;
      AddedSoFar(other, 0, before, total);
      for k := 0 to |other|
        invariant columns == Updated(before, other, total) + Added(other[..k], before, total)
      {
        TurnOf(before, other, total, k);
        AddedSoFar(other, k + 1, before, total);
        if Find(columns, other[k].name).None? {
          assert other[k].stats.totalCount <= total;
          columns := columns + [ToTotalCount(other[k], total)];
        }
      }
      assert other[..|other|] == other;
    }
  }

  /** One more column has been looked at. */
  lemma AddedSoFar(b: seq<ColumnSummary>, n: nat, a: seq<ColumnSummary>, total: nat)
    requires n <= |b|
    ensures Added(b[..n], a, total) == if n == 0 then [] else
              Added(b[..n - 1], a, total) + if IsNew(a, b, n - 1) then [ToTotalCount(b[n - 1], total)] else []
  {
    hide Find, ToTotalCount;
    if n > 0 {
      assert b[..n][..n - 1] == b[..n - 1];
    }
  }

  /** When the turn of a column comes, it is not found exactly if it is new. */
  lemma TurnOf(a: seq<ColumnSummary>, b: seq<ColumnSummary>, total: nat, k: nat)
    requires k < |b|
    ensures Find(Updated(a, b, total) + Added(b[..k], a, total), b[k].name).None? <==> IsNew(a, b, k)
  {
    hide Find, Updated, Added, UpdateColumn;
    FindAppend(Updated(a, b, total), Added(b[..k], a, total), b[k].name);
    FindUpdated(a, b, total, b[k].name);
    FindAdded(b[..k], a, total, b[k].name);
  }

  // ---------------------------------------------------------------------------------------------
  // Column by column
  // ---------------------------------------------------------------------------------------------

  /** The statistics of a column; a column a table does not have is null in all its rows. */
  function StatsFor(cols: seq<ColumnSummary>, name: string): StatValues {
    match Find(cols, name)
    case Some(c) => c.stats
    case None => AllNull(TotalCount(cols))
  }

  function TypeFor(a: seq<ColumnSummary>, b: seq<ColumnSummary>, name: string): Option<ColumnType> {
    match Find(a, name)
    case Some(c) => Some(c.ctype)
    case None => if Find(b, name).Some? then Some(Find(b, name).value.ctype) else None
  }

  /** The merged column of a name, if either side has it. */
  function ColumnOf(a: seq<ColumnSummary>, b: seq<ColumnSummary>, name: string): Option<ColumnSummary> {
    match TypeFor(a, b, name)
    case None => None
    case Some(ctype) => Some(ColumnSummary(name, ctype, UpdateStats(StatsFor(a, name), StatsFor(b, name))))
  }

  lemma {:induction false} FindAppend(x: seq<ColumnSummary>, y: seq<ColumnSummary>, name: string)
    ensures Find(x + y, name) == if Find(x, name).Some? then Find(x, name) else Find(y, name)
  {
    if x == [] {
      assert x + y == y;
    } else {
      assert (x + y)[0] == x[0] && (x + y)[1..] == x[1..] + y;
      FindAppend(x[1..], y, name);
    }
  }

  lemma {:induction false} FindUpdated(a: seq<ColumnSummary>, b: seq<ColumnSummary>, total: nat, name: string)
    ensures Find(Updated(a, b, total), name) ==
            match Find(a, name) { case None => None case Some(c) => Some(UpdateColumn(c, b, total)) }
  {
    hide UpdateStats, UpdateForNulls;
    if a != [] {
      assert Updated(a, b, total)[1..] == Updated(a[1..], b, total);
      FindUpdated(a[1..], b, total, name);
    }
  }

  lemma FindOne(c: ColumnSummary, name: string)
    ensures Find([c], name) == if c.name == name then Some(c) else None
  {
  }

  /** Among the added columns are the first ones of the names that `a` does not have. */
  lemma {:induction false} FindAdded(b: seq<ColumnSummary>, a: seq<ColumnSummary>, total: nat, name: string)
    ensures Find(Added(b, a, total), name) ==
            match Find(b, name) {
              case None => None
              case Some(c) => if Find(a, name).None? then Some(ToTotalCount(c, total)) else None }
  {
    hide UpdateForNulls, Find;
    if b == [] {
      FindNothing(name);
    } else {
      var k := |b| - 1;
      FindAdded(b[..k], a, total, name);
      var added := if IsNew(a, b, k) then [ToTotalCount(b[k], total)] else [];
      FindAppend(Added(b[..k], a, total), added, name);
      FindAppend(b[..k], [b[k]], name);
      assert b == b[..k] + [b[k]];
      FindOne(b[k], name);
      FindOne(ToTotalCount(b[k], total), name);
      FindNothing(name);
    }
  }

  lemma FindNothing(name: string)
    ensures Find([], name) == None
  {
  }

  lemma FoundCount(cols: seq<ColumnSummary>, name: string)
    requires Consistent(cols) && Find(cols, name).Some?
    ensures Find(cols, name).value.stats.totalCount == TotalCount(cols)
  {
  }

  /** A column that `a` has. */
  lemma UpdatedStats(a: seq<ColumnSummary>, b: seq<ColumnSummary>, name: string)
    requires Consistent(a) && Find(a, name).Some?
    ensures var c := Find(a, name).value;
            UpdateColumn(c, b, TotalCount(a) + TotalCount(b)) == c.(stats := UpdateStats(c.stats, StatsFor(b, name)))
  {
    hide UpdateStats, UpdateForNulls, Find;
    FoundCount(a, name);
    PaddingIsNulls(Find(a, name).value.stats, TotalCount(b));
  }

  /** A column that only `b` has. */
  lemma AddedStats(a: seq<ColumnSummary>, b: seq<ColumnSummary>, name: string)
    requires Consistent(b) && Find(b, name).Some?
    ensures var c := Find(b, name).value;
            ToTotalCount(c, TotalCount(a) + TotalCount(b)) == c.(stats := UpdateStats(AllNull(TotalCount(a)), c.stats))
  {
    hide UpdateStats, UpdateForNulls, Find;
    var c := Find(b, name).value;
    FoundCount(b, name);
    PaddingIsNulls(c.stats, TotalCount(a));
    UpdateIsCommutative(c.stats, AllNull(TotalCount(a)));
  }

  /** Where the column of a name in a merged summary comes from, for any two summaries. */
  lemma FindMerged(a: seq<ColumnSummary>, b: seq<ColumnSummary>, name: string)
    ensures var total := TotalCount(a) + TotalCount(b);
            Find(Merged(a, b), name) ==
            match (Find(a, name), Find(b, name))
            case (Some(c), _) => Some(UpdateColumn(c, b, total))
            case (None, Some(d)) => Some(ToTotalCount(d, total))
            case (None, None) => None
  {
    hide Added, Updated, Find, UpdateColumn, ToTotalCount;
    var total := TotalCount(a) + TotalCount(b);
    FindAppend(Updated(a, b, total), Added(b, a, total), name);
    FindUpdated(a, b, total, name);
    FindAdded(b, a, total, name);
  }

  /** Column by column, merging adds up what both sides say, nulls where a side lacks the column. */
  lemma MergedColumn(a: seq<ColumnSummary>, b: seq<ColumnSummary>, name: string)
    requires Consistent(a) && Consistent(b)
    ensures Find(Merged(a, b), name) == ColumnOf(a, b, name)
  {
    hide Merged, UpdateStats, Find, UpdateColumn, ToTotalCount, Consistent;
    FindMerged(a, b, name);
    if Find(a, name).Some? {
      UpdatedStats(a, b, name);
    } else if Find(b, name).Some? {
      AddedStats(a, b, name);
    }
  }

  /** Every column of a summary is found under its name. */
  lemma AddedFromB(b: seq<ColumnSummary>, a: seq<ColumnSummary>, total: nat, d: ColumnSummary)
    requires d in Added(b, a, total)
    ensures Find(a, d.name).None? && Find(b, d.name).Some?
  {
    hide Added, ToTotalCount;
    FindAdded(b, a, total, d.name);
  }

  lemma {:induction false} AddedIsFine(b: seq<ColumnSummary>, a: seq<ColumnSummary>, total: nat)
    requires forall c <- b :: c.stats.totalCount <= total
    ensures NamesDiffer(Added(b, a, total))
    ensures forall d <- Added(b, a, total) :: d.stats.totalCount == total
  {
    hide Find;
    if b != [] {
      var k := |b| - 1;
      var init := Added(b[..k], a, total);
      AddedIsFine(b[..k], a, total);
      assert b[k] in b;
      if IsNew(a, b, k) {
        forall c | c in init ensures c.name != b[k].name {
          AddedFromB(b[..k], a, total, c);
        }
        AppendedNames(init, [ToTotalCount(b[k], total)]);
      } else {
        assert Added(b, a, total) == init + [] == init;
      }
    }
  }

  lemma UpdatedIsFine(a: seq<ColumnSummary>, b: seq<ColumnSummary>, total: nat)
    requires Consistent(a) && Consistent(b) && total == TotalCount(a) + TotalCount(b)
    ensures NamesDiffer(Updated(a, b, total)) && forall d <- Updated(a, b, total) :: d.stats.totalCount == total
  {
    var u := Updated(a, b, total);
    forall k | 0 <= k < |u| ensures u[k].stats.totalCount == total && u[k].name == a[k].name {
      assert a[k] in a;
    }
  }

  lemma AppendedNames(u: seq<ColumnSummary>, v: seq<ColumnSummary>)
    requires NamesDiffer(u) && NamesDiffer(v) && forall c <- u, d <- v :: c.name != d.name
    ensures NamesDiffer(u + v)
  {
    var all: seq<ColumnSummary> := u + v;
    forall j, k | 0 <= j < k < |all| ensures all[j].name != all[k].name {
      assert j < |u| ==> all[j] == u[j] && u[j] in u;
      assert k >= |u| ==> all[k] == v[k - |u|] && v[k - |u|] in v;
    }
  }

  /** All columns of a merged summary have the rows of both sides. */
  lemma MergedIsConsistent(a: seq<ColumnSummary>, b: seq<ColumnSummary>)
    requires Consistent(a) && Consistent(b)
    ensures Consistent(Merged(a, b)) && TotalCount(Merged(a, b)) == TotalCount(a) + TotalCount(b)
  {
    hide UpdateColumn, ToTotalCount, Find, NamesDiffer, Added;
    var total := TotalCount(a) + TotalCount(b);
    var u, v := Updated(a, b, total), Added(b, a, total);
    UpdatedIsFine(a, b, total);
    AddedIsFine(b, a, total);
    forall c, d | c in u && d in v ensures c.name != d.name {
      var j :| 0 <= j < |a| && u[j] == c;
      UpdatedName(a, b, total, j);
      AddedFromB(b, a, total, d);
      assert a[j] in a;
    }
    AppendedNames(u, v);
    MergedTotal(a, b);
  }

  lemma UpdatedName(a: seq<ColumnSummary>, b: seq<ColumnSummary>, total: nat, k: nat)
    requires k < |a|
    ensures Updated(a, b, total)[k].name == a[k].name
  {
  }

  lemma MergedTotal(a: seq<ColumnSummary>, b: seq<ColumnSummary>)
    requires Consistent(a) && Consistent(b)
    ensures TotalCount(Merged(a, b)) == TotalCount(a) + TotalCount(b)
  {
    var total := TotalCount(a) + TotalCount(b);
    if a == [] {
      AddedIsFine(b, a, total);
      if b != [] {
        FindAdded(b, a, total, b[0].name);
        assert Added(b, a, total)[0] in Added(b, a, total);
      }
    } else {
      assert a[0] in a && Merged(a, b)[0] == UpdateColumn(a[0], b, total);
    }
  }

  /** The order of merging does not matter, up to the order of the columns. */
  lemma MergeIsCommutative(a: seq<ColumnSummary>, b: seq<ColumnSummary>, name: string)
    requires Consistent(a) && Consistent(b) && TypesMatch(a, b)
    ensures Find(Merged(a, b), name) == Find(Merged(b, a), name)
  {
    hide UpdateStats, Merged;
    MergedColumn(a, b, name);
    MergedColumn(b, a, name);
    UpdateIsCommutative(StatsFor(a, name), StatsFor(b, name));
  }

  lemma AllNullAdds(m: nat, n: nat)
    ensures UpdateStats(AllNull(m), AllNull(n)) == AllNull(m + n)
  {
  }

  lemma MergedStats(a: seq<ColumnSummary>, b: seq<ColumnSummary>, name: string)
    requires Consistent(a) && Consistent(b)
    ensures Consistent(Merged(a, b))
            && StatsFor(Merged(a, b), name) == UpdateStats(StatsFor(a, name), StatsFor(b, name))
  {
    hide UpdateStats, Merged, Consistent;
    MergedIsConsistent(a, b);
    MergedColumn(a, b, name);
    AllNullAdds(TotalCount(a), TotalCount(b));
  }

  lemma MergeIsAssociative(a: seq<ColumnSummary>, b: seq<ColumnSummary>, c: seq<ColumnSummary>, name: string)
    requires Consistent(a) && Consistent(b) && Consistent(c)
    ensures Consistent(Merged(a, b)) && Consistent(Merged(b, c))
    ensures Find(Merged(Merged(a, b), c), name) == Find(Merged(a, Merged(b, c)), name)
  {
    hide UpdateStats, Merged, Consistent, Find;
    MergedStats(a, b, name);
    MergedStats(b, c, name);
    MergedColumn(a, b, name);
    MergedColumn(b, c, name);
    MergedColumn(Merged(a, b), c, name);
    MergedColumn(a, Merged(b, c), name);
    UpdateIsAssociative(StatsFor(a, name), StatsFor(b, name), StatsFor(c, name));
  }

  // ---------------------------------------------------------------------------------------------
  // Tables
  // ---------------------------------------------------------------------------------------------

  datatype Column = Column(name: string, ctype: ColumnType, cells: seq<Cell>)

  datatype Table = Table(rows: nat, columns: seq<Column>) {
    predicate Valid() {
      && (forall j, k :: 0 <= j < k < |columns| ==> columns[j].name != columns[k].name)
      && (forall c <- columns :: |c.cells| == rows)
      && (columns == [] ==> rows == 0)
    }
  }

  function FindColumn(cols: seq<Column>, name: string): (r: Option<Column>)
    ensures r.Some? ==> r.value in cols && r.value.name == name
    ensures r.None? <==> forall c <- cols :: c.name != name
  {
    if cols == [] then None else if cols[0].name == name then Some(cols[0]) else FindColumn(cols[1..], name)
  }

  function SummaryOf(c: Column): ColumnSummary {
    ColumnSummary(c.name, c.ctype, StatsOf(c.cells))
  }

  function Summaries(cols: seq<Column>): (r: seq<ColumnSummary>)
    ensures |r| == |cols| && forall k :: 0 <= k < |cols| ==> r[k] == SummaryOf(cols[k])
  {
    seq(|cols|, k requires 0 <= k < |cols| => SummaryOf(cols[k]))
  }

  /** The rows of `u` behind the rows of `t`, null where a table lacks the column. */
  function ExtendColumn(c: Column, u: Table): Column {
    match FindColumn(u.columns, c.name)
    case Some(d) => c.(cells := c.cells + d.cells)
    case None => c.(cells := c.cells + Nulls(u.rows))
  }

  function NewColumns(cols: seq<Column>, t: Table): seq<Column> {
    if cols == [] then []
    else
      var c := cols[|cols| - 1];
      NewColumns(cols[..|cols| - 1], t)
      + if FindColumn(t.columns, c.name).None? then [c.(cells := Nulls(t.rows) + c.cells)] else []
  }

  function Concat(t: Table, u: Table): Table {
    Table(t.rows + u.rows, seq(|t.columns|, k requires 0 <= k < |t.columns| => ExtendColumn(t.columns[k], u))
        + NewColumns(u.columns, t))
  }

  lemma {:induction false} FindSummary(cols: seq<Column>, name: string)
    ensures Find(Summaries(cols), name) ==
            match FindColumn(cols, name) { case None => None case Some(c) => Some(SummaryOf(c)) }
  {
    hide StatsOf;
    if cols != [] {
      assert Summaries(cols)[1..] == Summaries(cols[1..]);
      FindSummary(cols[1..], name);
    }
  }

  lemma SummaryCounts(t: Table)
    requires t.Valid()
    ensures Consistent(Summaries(t.columns)) && TotalCount(Summaries(t.columns)) == t.rows
  {
    hide StatsOf;
    forall k | 0 <= k < |t.columns| ensures Summaries(t.columns)[k].stats.totalCount == t.rows {
      assert t.columns[k] in t.columns;
      StatsAreExact(t.columns[k].cells);
    }
  }

  lemma ExtendedSummary(c: Column, t: Table, u: Table)
    requires t.Valid() && u.Valid() && c in t.columns
    ensures UpdateColumn(SummaryOf(c), Summaries(u.columns), t.rows + u.rows) == SummaryOf(ExtendColumn(c, u))
  {
    hide StatsOf, UpdateStats, UpdateForNulls;
    StatsAreExact(c.cells);
    FindSummary(u.columns, c.name);
    match FindColumn(u.columns, c.name)
    case Some(d) => MergeIsConcatenation(c.cells, d.cells);
    case None => PaddedStats(c.cells, u.rows);
  }

  /** A column that only the second table has. */
  lemma NewSummary(c: Column, t: Table)
    requires t.Valid()
    ensures SummaryOf(c).name == c.name && SummaryOf(c).stats.totalCount == |c.cells|
    ensures ToTotalCount(SummaryOf(c), t.rows + |c.cells|) == SummaryOf(c.(cells := Nulls(t.rows) + c.cells))
    ensures Find(Summaries(t.columns), c.name).None? <==> FindColumn(t.columns, c.name).None?
  {
    hide StatsOf, UpdateForNulls, Find, FindColumn;
    StatsAreExact(c.cells);
    PaddedStats(c.cells, t.rows);
    FindSummary(t.columns, c.name);
  }

  lemma {:induction false} NewSummaries(cols: seq<Column>, t: Table, rows: nat)
    requires t.Valid() && (forall c <- cols :: |c.cells| == rows)
    requires forall j, k :: 0 <= j < k < |cols| ==> cols[j].name != cols[k].name
    ensures Added(Summaries(cols), Summaries(t.columns), t.rows + rows) == Summaries(NewColumns(cols, t))
  {
    hide SummaryOf, ToTotalCount, Find, FindColumn;
    if cols != [] {
      var c, init := cols[|cols| - 1], cols[..|cols| - 1];
      assert c in cols;
      NewSummaries(init, t, rows);
      assert Summaries(cols)[..|cols| - 1] == Summaries(init);
      NewSummary(c, t);
      FindSummary(init, c.name);
      assert FindColumn(init, c.name).None?;
      var added := if FindColumn(t.columns, c.name).None? then [c.(cells := Nulls(t.rows) + c.cells)] else [];
      SummariesConcat(NewColumns(init, t), added);
    }
  }

  /** Merging the summaries of two tables is the summary of both, one behind the other. */
  lemma MergeSummarisesConcat(t: Table, u: Table)
    requires t.Valid() && u.Valid()
    ensures Consistent(Summaries(t.columns)) && Consistent(Summaries(u.columns))
    ensures Merged(Summaries(t.columns), Summaries(u.columns)) == Summaries(Concat(t, u).columns)
  {
    hide UpdateColumn, SummaryOf, Added, NewColumns, ExtendColumn, Consistent;
    SummaryCounts(t);
    SummaryCounts(u);
    NewSummaries(u.columns, t, u.rows);
    UpdatedSummaries(t, u);
    var extended := seq(|t.columns|, k requires 0 <= k < |t.columns| => ExtendColumn(t.columns[k], u));
    SummariesConcat(extended, NewColumns(u.columns, t));
  }

  lemma SummariesConcat(a: seq<Column>, b: seq<Column>)
    ensures Summaries(a + b) == Summaries(a) + Summaries(b)
  {
    hide SummaryOf;
  }

  lemma UpdatedSummaries(t: Table, u: Table)
    requires t.Valid() && u.Valid()
    ensures var a, b := Summaries(t.columns), Summaries(u.columns);
            Updated(a, b, t.rows + u.rows)
            == Summaries(seq(|t.columns|, k requires 0 <= k < |t.columns| => ExtendColumn(t.columns[k], u)))
  {
    hide UpdateColumn, SummaryOf, ExtendColumn;
    var a, b := Summaries(t.columns), Summaries(u.columns);
    forall k | 0 <= k < |a|
      ensures UpdateColumn(a[k], b, t.rows + u.rows) == SummaryOf(ExtendColumn(t.columns[k], u))
    {
      ExtendedSummary(t.columns[k], t, u);
    }
  }

  /** The concatenation is again a table: distinct columns, all with the rows of both. */
  lemma ConcatIsValid(t: Table, u: Table)
    requires t.Valid() && u.Valid()
    ensures Concat(t, u).Valid()
  {
    hide Merged, NewColumns, ExtendColumn, StatsOf;
    var c := Concat(t, u);
    SummaryCounts(t);
    SummaryCounts(u);
    MergeSummarisesConcat(t, u);
    MergedIsConsistent(Summaries(t.columns), Summaries(u.columns));
    var summaries := Summaries(c.columns);
    forall j, k | 0 <= j < k < |c.columns| ensures c.columns[j].name != c.columns[k].name {
      assert summaries[j].name != summaries[k].name;
    }
    forall d | d in c.columns ensures |d.cells| == c.rows {
      var k :| 0 <= k < |c.columns| && c.columns[k] == d;
      assert summaries[k] in summaries;
      StatsAreExact(d.cells);
    }
  }
}
