/** Mergeable column statistics: merging summaries is summarising the concatenation. */
module Statistics {
  import opened Basics
  import opened TextOrder

  datatype ColumnType = F64 | I64 | U64 | Bool | Text

  datatype Value = Number(r: real) | Integer(i: int) | Boolean(b: bool) | String(s: string)

  /** A null, a value, or a floating point NaN, which is counted but is neither minimum nor maximum. */
  datatype Cell = Null | NaN | Val(v: Value)

  // ---------------------------------------------------------------------------------------------
  // Order of values
  // ---------------------------------------------------------------------------------------------

  function Rank(v: Value): nat {
    match v
    case Number(_) => 0
    case Integer(_) => 1
    case Boolean(_) => 2
    case String(_) => 3
  }

  /** The order within a type; values of different types, which never meet in a column, are ranked by type. */
  predicate Lt(a: Value, b: Value) {
    match (a, b)
    case (Number(x), Number(y)) => x < y
    case (Integer(x), Integer(y)) => x < y
    case (Boolean(x), Boolean(y)) => !x && y
    case (String(x), String(y)) => Less(x, y)
    case _ => Rank(a) < Rank(b)
  }

  lemma LtIsTotal(a: Value, b: Value)
    ensures Lt(a, b) || Lt(b, a) || a == b
    ensures !(Lt(a, b) && Lt(b, a)) && (a == b ==> !Lt(a, b))
  {
    if a.String? && b.String? {
      LessIsTotal(a.s, b.s);
    }
  }

  lemma LtIsTransitive(a: Value, b: Value, c: Value)
    requires Lt(a, b) && Lt(b, c)
    ensures Lt(a, c)
  {
    if a.String? && b.String? && c.String? {
      LessIsTransitive(a.s, b.s, c.s);
    }
  }

  // ---------------------------------------------------------------------------------------------
  // Statistics of a column
  // ---------------------------------------------------------------------------------------------

  datatype StatValues = StatValues(min: Option<Value>, max: Option<Value>, totalCount: nat, nullCount: Option<nat>)

  const EMPTY := StatValues(None, None, 0, Some(0))

  /** The minimum after `other` was seen. */
  function MinOf(min: Option<Value>, other: Option<Value>): Option<Value> {
    match (min, other)
    case (_, None) => min
    case (None, Some(_)) => other
    case (Some(s), Some(o)) => if Lt(o, s) then other else min
  }

  function MaxOf(max: Option<Value>, other: Option<Value>): Option<Value> {
    match (max, other)
    case (_, None) => max
    case (None, Some(_)) => other
    case (Some(s), Some(o)) => if Lt(s, o) then other else max
  }

  function AddCounts(a: Option<nat>, b: Option<nat>): Option<nat> {
    if a.Some? && b.Some? then Some(a.value + b.value) else None
  }

  /** Merging the statistics of another column into these. */
  function UpdateStats(s: StatValues, o: StatValues): StatValues {
    StatValues(MinOf(s.min, o.min), MaxOf(s.max, o.max),
               s.totalCount + o.totalCount, AddCounts(s.nullCount, o.nullCount))
  }

  function UpdateForNulls(s: StatValues, n: nat): StatValues {
    s.(totalCount := s.totalCount + n, nullCount := if s.nullCount.Some? then Some(s.nullCount.value + n) else None)
  }

  /** One more cell. */
  function UpdateCell(s: StatValues, c: Cell): StatValues {
    match c
    case Null => UpdateForNulls(s, 1)
    case NaN => s.(totalCount := s.totalCount + 1)
    case Val(v) => s.(totalCount := s.totalCount + 1, min := MinOf(s.min, Some(v)), max := MaxOf(s.max, Some(v)))
  }

  function StatsOf(cells: seq<Cell>): StatValues {
    if cells == [] then EMPTY else UpdateCell(StatsOf(cells[..|cells| - 1]), cells[|cells| - 1])
  }

  function NullsIn(cells: seq<Cell>): nat {
    if cells == [] then 0 else NullsIn(cells[..|cells| - 1]) + if cells[|cells| - 1].Null? then 1 else 0
  }

  ghost predicate IsMin(m: Option<Value>, cells: seq<Cell>) {
    match m
    case None => forall v :: Val(v) !in cells
    case Some(x) => Val(x) in cells && forall v :: Val(v) in cells ==> !Lt(v, x)
  }

  ghost predicate IsMax(m: Option<Value>, cells: seq<Cell>) {
    match m
    case None => forall v :: Val(v) !in cells
    case Some(x) => Val(x) in cells && forall v :: Val(v) in cells ==> !Lt(x, v)
  }

  lemma MinWithOneMore(m: Option<Value>, cells: seq<Cell>, v: Value)
    requires IsMin(m, cells)
    ensures IsMin(MinOf(m, Some(v)), cells + [Val(v)])
  {
    hide Lt;
    LtIsTotal(v, v);
    if m.Some? {
      LtIsTotal(m.value, v);
      forall w | Val(w) in cells && Lt(v, m.value) ensures !Lt(w, v) {
        if Lt(w, v) {
          LtIsTransitive(w, v, m.value);
        }
      }
    }
  }

  lemma MaxWithOneMore(m: Option<Value>, cells: seq<Cell>, v: Value)
    requires IsMax(m, cells)
    ensures IsMax(MaxOf(m, Some(v)), cells + [Val(v)])
  {
    hide Lt;
    LtIsTotal(v, v);
    if m.Some? {
      LtIsTotal(m.value, v);
      forall w | Val(w) in cells && Lt(m.value, v) ensures !Lt(v, w) {
        if Lt(v, w) {
          LtIsTransitive(m.value, v, w);
        }
      }
    }
  }

  /** What the statistics of a column say: the least and the greatest value, all cells and the nulls. */
  lemma {:induction false} StatsAreExact(cells: seq<Cell>)
    ensures var s := StatsOf(cells);
            && IsMin(s.min, cells) && IsMax(s.max, cells)
            && s.totalCount == |cells| && s.nullCount == Some(NullsIn(cells))
  {
    hide Lt;
    if cells != [] {
      var init, last := cells[..|cells| - 1], cells[|cells| - 1];
      StatsAreExact(init);
      assert cells == init + [last];
      if last.Val? {
        MinWithOneMore(StatsOf(init).min, init, last.v);
        MaxWithOneMore(StatsOf(init).max, init, last.v);
      }
    }
  }

  // ---------------------------------------------------------------------------------------------
  // Merging is concatenation
  // ---------------------------------------------------------------------------------------------

  lemma MinIsAssociative(a: Option<Value>, b: Option<Value>, c: Option<Value>)
    ensures MinOf(MinOf(a, b), c) == MinOf(a, MinOf(b, c))
    ensures MaxOf(MaxOf(a, b), c) == MaxOf(a, MaxOf(b, c))
  {
    if a.Some? && b.Some? && c.Some? {
      var x, y, z := a.value, b.value, c.value;
      ThreeValues(x, y, z);
    }
  }

  lemma ThreeValues(x: Value, y: Value, z: Value)
    ensures Lt(x, y) && Lt(y, z) ==> Lt(x, z)
    ensures !Lt(x, y) && !Lt(y, z) ==> !Lt(x, z)
    ensures Lt(z, y) && Lt(y, x) ==> Lt(z, x)
    ensures !Lt(z, y) && !Lt(y, x) ==> !Lt(z, x)
  {
    hide Lt;
    LtIsTotal(x, y);
    LtIsTotal(y, z);
    LtIsTotal(x, z);
    if Lt(x, y) && Lt(y, z) { LtIsTransitive(x, y, z); }
    if Lt(z, y) && Lt(y, x) { LtIsTransitive(z, y, x); }
  }

  lemma UpdateIsAssociative(a: StatValues, b: StatValues, c: StatValues)
    ensures UpdateStats(UpdateStats(a, b), c) == UpdateStats(a, UpdateStats(b, c))
  {
    MinIsAssociative(a.min, b.min, c.min);
    MinIsAssociative(a.max, b.max, c.max);
  }

  lemma UpdateIsCommutative(a: StatValues, b: StatValues)
    ensures UpdateStats(a, b) == UpdateStats(b, a)
  {
    if a.min.Some? && b.min.Some? { LtIsTotal(a.min.value, b.min.value); }
    if a.max.Some? && b.max.Some? { LtIsTotal(a.max.value, b.max.value); }
  }

  function AllNull(n: nat): StatValues {
    StatValues(None, None, n, Some(n))
  }

  /** A cell counts as a column of one. */
  function Single(c: Cell): StatValues {
    match c
    case Null => AllNull(1)
    case NaN => StatValues(None, None, 1, Some(0))
    case Val(v) => StatValues(Some(v), Some(v), 1, Some(0))
  }

  lemma CellIsSingle(s: StatValues, c: Cell)
    requires s.nullCount.Some?
    ensures UpdateCell(s, c) == UpdateStats(s, Single(c))
  {
  }

  lemma PaddingIsNulls(s: StatValues, n: nat)
    ensures UpdateForNulls(s, n) == UpdateStats(s, AllNull(n))
  {
  }

  lemma {:induction false} CountsAreKnown(cells: seq<Cell>)
    ensures StatsOf(cells).nullCount.Some?
  {
    if cells != [] {
      CountsAreKnown(cells[..|cells| - 1]);
    }
  }

  /** Merging the statistics of two columns gives the statistics of one behind the other. */
  lemma {:induction false} MergeIsConcatenation(a: seq<Cell>, b: seq<Cell>)
    ensures UpdateStats(StatsOf(a), StatsOf(b)) == StatsOf(a + b)
    decreases |b|
  {
    CountsAreKnown(a);
    hide MinOf, MaxOf;
    if b == [] {
      assert a + b == a;
      NothingMerged(StatsOf(a));
    } else {
      var init, last := b[..|b| - 1], b[|b| - 1];
      assert (a + b)[..|a + b| - 1] == a + init;
      MergeIsConcatenation(a, init);
      CountsAreKnown(init);
      CountsAreKnown(a + init);
      CellIsSingle(StatsOf(init), last);
      CellIsSingle(StatsOf(a + init), last);
      UpdateIsAssociative(StatsOf(a), StatsOf(init), Single(last));
    }
  }

  lemma NothingMerged(s: StatValues)
    requires s.nullCount.Some?
    ensures UpdateStats(s, EMPTY) == s && UpdateStats(EMPTY, s) == s
  {
  }

  function Nulls(n: nat): seq<Cell> {
    seq(n, _ => Null)
  }

  lemma {:induction false} NullsAreNull(n: nat)
    ensures StatsOf(Nulls(n)) == AllNull(n)
  {
    if n > 0 {
      assert Nulls(n)[..n - 1] == Nulls(n - 1);
      NullsAreNull(n - 1);
    }
  }

  /** A column filled with nulls, behind or in front, has the padded statistics. */
  lemma PaddedStats(cells: seq<Cell>, n: nat)
    ensures StatsOf(cells + Nulls(n)) == UpdateForNulls(StatsOf(cells), n) == StatsOf(Nulls(n) + cells)
  {
    hide StatsOf, UpdateStats, UpdateForNulls;
    MergeIsConcatenation(cells, Nulls(n));
    MergeIsConcatenation(Nulls(n), cells);
    NullsAreNull(n);
    PaddingIsNulls(StatsOf(cells), n);
    UpdateIsCommutative(StatsOf(cells), AllNull(n));
  }

  /** The statistics as they are gathered, cell by cell. */
  method Gather(cells: seq<Cell>) returns (s: StatValues)
    ensures s == StatsOf(cells)
  {
    s := EMPTY;
    for i := 0 to |cells|
      invariant s == StatsOf(cells[..i])
    {
      assert cells[..i + 1][..i] == cells[..i];
      s := UpdateCell(s, cells[i]);
    }
    assert cells[..|cells|] == cells;
  }
}
