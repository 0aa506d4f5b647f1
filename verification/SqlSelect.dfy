/** Sorting and selecting rows. */
module SqlSelect {
  import opened Bytes
  import opened SqlSyntax
  import opened SqlTables
  import opened Doubles

  // ------------------------------------------------------------------
  // The order of data of one type
  // ------------------------------------------------------------------

  lemma {:induction false} TextTransitive(a: string, b: string, c: string)
    requires LessText(a, b) && LessText(b, c)
    ensures LessText(a, c)
  {
    if a != [] && a[0] == b[0] == c[0] {
      TextTransitive(a[1..], b[1..], c[1..]);
    }
  }

  lemma {:induction false} TextTotal(a: string, b: string)
    ensures LessText(a, b) || a == b || LessText(b, a)
    ensures !(LessText(a, b) && LessText(b, a))
    ensures !LessText(a, a)
  {
    if a != [] {
      TextTotal(a[1..], a[1..]);
      if b != [] && a[0] == b[0] {
        TextTotal(a[1..], b[1..]);
        assert a == [a[0]] + a[1..] && b == [b[0]] + b[1..];
      }
    }
  }

  /** Whether a sorts before b; data of one type never fail to compare. */
  predicate Below(w: Widen, a: Datum, b: Datum) {
    LessForSort(w, a, b) == Ok(true)
  }

  lemma {:induction false} SameTypeCompares(w: Widen, t: ColumnType, a: Datum, b: Datum)
    requires HasType(a, t) && HasType(b, t)
    ensures LessForSort(w, a, b).Ok?
    ensures a.Null? ==> !Below(w, a, b)
    ensures !a.Null? && b.Null? ==> Below(w, a, b)
    ensures a.Text? && b.Text? ==> (Below(w, a, b) <==> LessText(a.s, b.s))
  {
  }

  /** The three facts that make a strict weak order. */
  predicate Weak(a: bool, ab: bool, bc: bool, ac: bool) {
    !a && (ab && bc ==> ac) && (ac ==> ab || bc)
  }

  /** NULL last, then by value: a strict weak order on every column. */
  lemma {:induction false} BelowIsWeakOrder(w: Widen, t: ColumnType, a: Datum, b: Datum, c: Datum)
    requires HasType(a, t) && HasType(b, t) && HasType(c, t)
    ensures Weak(Below(w, a, a), Below(w, a, b), Below(w, b, c), Below(w, a, c))
  {
    if t == TextType && a.Text? && b.Text? && c.Text? {
      TextTotal(a.s, b.s);
      TextTotal(b.s, c.s);
      TextTotal(a.s, c.s);
      if LessText(a.s, b.s) && LessText(b.s, c.s) {
        TextTransitive(a.s, b.s, c.s);
      }
      if LessText(b.s, a.s) && LessText(a.s, c.s) {
        TextTransitive(b.s, a.s, c.s);
      }
    } else if a.Text? {
      TextTotal(a.s, a.s);
    }
  }

  // ------------------------------------------------------------------
  // Stable sorting
  // ------------------------------------------------------------------

  type Order = (Row, Row) -> bool

  /** Where a row goes among rows that came after it: before the first that does not sort below it. */
  function InsertIndex(less: Order, rows: seq<Row>, x: nat, order: seq<nat>): (r: seq<nat>)
    requires x < |rows| && forall i | 0 <= i < |order| :: order[i] < |rows|
    ensures |r| == |order| + 1 && forall i | 0 <= i < |r| :: r[i] < |rows|
    ensures forall y: nat :: y in r <==> y == x || y in order
    decreases |order|
  {
    if order == [] || !less(rows[order[0]], rows[x]) then [x] + order
    else
      assert order == [order[0]] + order[1..];
      [order[0]] + InsertIndex(less, rows, x, order[1..])
  }

  /** The places of the rows from k on, in sorted order. */
  function SortFrom(less: Order, rows: seq<Row>, k: nat): (r: seq<nat>)
    requires k <= |rows|
    ensures |r| == |rows| - k && forall i | 0 <= i < |r| :: k <= r[i] < |rows|
    ensures forall y: nat :: y in r <==> k <= y < |rows|
    decreases |rows| - k
  {
    if k == |rows| then []
    else
      var r := InsertIndex(less, rows, k, SortFrom(less, rows, k + 1));
      assert forall i | 0 <= i < |r| :: r[i] in r;
      r
  }

  /** x goes before y: it sorts below it, or they are equivalent and x came first. */
  predicate Precedes(less: Order, rows: seq<Row>, x: nat, y: nat)
    requires x < |rows| && y < |rows|
  {
    less(rows[x], rows[y]) || (!less(rows[y], rows[x]) && x < y)
  }

  /** A stable sorted order: all places, each once, every earlier one preceding every later one. */
  ghost predicate StablySorted(less: Order, rows: seq<Row>, order: seq<nat>) {
    && (forall i | 0 <= i < |order| :: order[i] < |rows|)
    && (forall i, j | 0 <= i < j < |order| :: Precedes(less, rows, order[i], order[j]))
  }

  predicate WeakAt(less: Order, rows: seq<Row>, i: nat, j: nat, k: nat)
    requires i < |rows| && j < |rows| && k < |rows|
  {
    Weak(less(rows[i], rows[i]), less(rows[i], rows[j]), less(rows[j], rows[k]), less(rows[i], rows[k]))
  }

  ghost predicate WeakOrder(less: Order, rows: seq<Row>) {
    forall i: nat, j: nat, k: nat {:trigger WeakAt(less, rows, i, j, k)}
      | i < |rows| && j < |rows| && k < |rows| :: WeakAt(less, rows, i, j, k)
  }

  lemma {:induction false} PrecedesTransitive(less: Order, rows: seq<Row>, x: nat, y: nat, z: nat)
    requires WeakOrder(less, rows) && x < |rows| && y < |rows| && z < |rows|
    requires Precedes(less, rows, x, y) && Precedes(less, rows, y, z)
    ensures Precedes(less, rows, x, z)
  {
    assert WeakAt(less, rows, x, y, z) && WeakAt(less, rows, z, y, x) && WeakAt(less, rows, y, z, x) && WeakAt(less, rows, z, x, y);
    assert WeakAt(less, rows, x, z, y) && WeakAt(less, rows, y, x, z);
  }

  lemma {:induction false} InsertSorted(less: Order, rows: seq<Row>, x: nat, order: seq<nat>)
    requires WeakOrder(less, rows) && StablySorted(less, rows, order) && x < |rows|
    requires forall i | 0 <= i < |order| :: x < order[i]
    ensures StablySorted(less, rows, InsertIndex(less, rows, x, order))
    decreases |order|
  {
    if order != [] {
      if !less(rows[order[0]], rows[x]) {
        forall j | 0 <= j < |order|
          ensures Precedes(less, rows, x, order[j])
        {
          if j > 0 {
            PrecedesTransitive(less, rows, x, order[0], order[j]);
          }
        }
      } else {
        var rest := InsertIndex(less, rows, x, order[1..]);
        InsertSorted(less, rows, x, order[1..]);
        forall j | 0 <= j < |rest|
          ensures Precedes(less, rows, order[0], rest[j])
        {
          assert rest[j] in rest;
          if rest[j] != x {
            var i :| 0 <= i < |order| - 1 && order[1..][i] == rest[j];
            assert order[i + 1] == rest[j];
          }
        }
      }
    }
  }

  lemma {:induction false} SortFromSorted(less: Order, rows: seq<Row>, k: nat)
    requires WeakOrder(less, rows) && k <= |rows|
    ensures StablySorted(less, rows, SortFrom(less, rows, k))
    decreases |rows| - k
  {
    if k < |rows| {
      SortFromSorted(less, rows, k + 1);
      InsertSorted(less, rows, k, SortFrom(less, rows, k + 1));
    }
  }

  lemma {:induction false} HeadIn(order: seq<nat>)
    requires order != []
    ensures order[0] in order
  {
  }

  /** There is only one stable sorted order of all rows. */
  lemma {:induction false} StableOrderUnique(less: Order, rows: seq<Row>, a: seq<nat>, b: seq<nat>)
    requires WeakOrder(less, rows) && StablySorted(less, rows, a) && StablySorted(less, rows, b)
    requires forall y: nat :: y in a <==> y in b
    ensures a == b
    decreases |a|
  {
    if a == [] {
      if b != [] {
        HeadIn(b);
        assert false;
      }
    } else {
      assert a[0] in a && a[0] in b;
      FirstAgrees(less, rows, a, b);
      TailAgrees(less, rows, a, b);
      StableOrderUnique(less, rows, a[1..], b[1..]);
      assert a == [a[0]] + a[1..] && b == [b[0]] + b[1..];
    }
  }

  lemma {:induction false} NotBothWays(less: Order, rows: seq<Row>, x: nat, y: nat)
    requires WeakOrder(less, rows) && x < |rows| && y < |rows| && Precedes(less, rows, x, y)
    ensures !Precedes(less, rows, y, x) && x != y
  {
    assert WeakAt(less, rows, x, y, x) && WeakAt(less, rows, y, x, y);
  }

  lemma {:induction false} FirstAgrees(less: Order, rows: seq<Row>, a: seq<nat>, b: seq<nat>)
    requires WeakOrder(less, rows) && StablySorted(less, rows, a) && StablySorted(less, rows, b)
    requires a != [] && b != [] && forall y: nat :: y in a <==> y in b
    ensures a[0] == b[0]
  {
    assert a[0] in b && b[0] in a;
    var i :| 0 <= i < |b| && b[i] == a[0];
    var j :| 0 <= j < |a| && a[j] == b[0];
    if i > 0 && j > 0 {
      NotBothWays(less, rows, a[0], b[0]);
    }
  }

  lemma {:induction false} TailAgrees(less: Order, rows: seq<Row>, a: seq<nat>, b: seq<nat>)
    requires WeakOrder(less, rows) && StablySorted(less, rows, a) && StablySorted(less, rows, b)
    requires a != [] && b != [] && a[0] == b[0] && forall y: nat :: y in a <==> y in b
    ensures StablySorted(less, rows, a[1..]) && StablySorted(less, rows, b[1..])
    ensures forall y: nat :: y in a[1..] <==> y in b[1..]
  {
    HeadLeaves(less, rows, a);
    HeadLeaves(less, rows, b);
  }

  lemma {:induction false} HeadLeaves(less: Order, rows: seq<Row>, a: seq<nat>)
    requires WeakOrder(less, rows) && StablySorted(less, rows, a) && a != []
    ensures StablySorted(less, rows, a[1..])
    ensures forall y: nat :: y in a[1..] <==> y in a && y != a[0]
  {
    forall i | 0 < i < |a|
      ensures a[i] != a[0]
    {
      NotBothWays(less, rows, a[0], a[i]);
    }
    assert a == [a[0]] + a[1..];
  }

  function Permuted(rows: seq<Row>, order: seq<nat>): (r: seq<Row>)
    requires forall i | 0 <= i < |order| :: order[i] < |rows|
    ensures |r| == |order| && forall i | 0 <= i < |order| :: r[i] == rows[order[i]]
  {
    seq(|order|, i requires 0 <= i < |order| => rows[order[i]])
  }

  // ------------------------------------------------------------------
  // SELECT
  // ------------------------------------------------------------------

  function DatumAt(row: Row, key: string): Datum {
    if key in row then row[key] else Null
  }

  /** The comparison the sort uses; descending order swaps its sides. */
  function OrderBy(w: Widen, key: string, descending: bool): Order {
    (a: Row, b: Row) =>
      if descending then Below(w, DatumAt(b, key), DatumAt(a, key)) else Below(w, DatumAt(a, key), DatumAt(b, key))
  }

  /** Comparing any two of the rows succeeds. */
  predicate Comparable(w: Widen, rows: seq<Row>, key: string) {
    forall i, j | 0 <= i < |rows| && 0 <= j < |rows| :: LessForSort(w, DatumAt(rows[i], key), DatumAt(rows[j], key)).Ok?
  }

  datatype Sorting = Unsorted | By(key: string, descending: bool)

  function Sorted(w: Widen, rows: seq<Row>, sorting: Sorting): Result<seq<Row>> {
    if sorting.Unsorted? then Ok(rows)
    else if !Comparable(w, rows, sorting.key) then Err(Malformed)
    else Ok(Permuted(rows, SortFrom(OrderBy(w, sorting.key, sorting.descending), rows, 0)))
  }

  /** A negative limit, or one that is not smaller than the number of rows, cuts nothing. */
  function Cut(rows: seq<Row>, limit: Option<int>): seq<Row> {
    if limit.Some? && 0 <= limit.value < |rows| then rows[..limit.value] else rows
  }

  function SelectRows(w: Widen, t: Table, filter: Option<Expr>, sorting: Sorting, limit: Option<int>): Result<seq<Row>> {
    if sorting.By? && sorting.key !in NamesOf(t.columns) then Err(Malformed) else
    var matched :- Filtered(w, t.rows, filter, true);
    var sorted :- Sorted(w, matched, sorting);
    Ok(Cut(sorted, limit))
  }

  /** The columns a SELECT shows: those it lists, or all of the table's. */
  function Shown(t: Table, columns: seq<string>): seq<string> {
    if columns == [] then NamesOf(t.columns) else columns
  }

  function Line(row: Row, names: seq<string>): (line: seq<Literal>)
    ensures |line| == |names|
  {
    seq(|names|, i requires 0 <= i < |names| => ToLiteral(DatumAt(row, names[i])))
  }

  function Lines(rows: seq<Row>, names: seq<string>): (lines: seq<seq<Literal>>)
    ensures |lines| == |rows|
  {
    seq(|rows|, i requires 0 <= i < |rows| => Line(rows[i], names))
  }

  function SelectLines(w: Widen, t: Table, columns: seq<string>, filter: Option<Expr>, sorting: Sorting, limit: Option<int>)
    : Result<seq<seq<Literal>>>
  {
    if !AllNamed(t.columns, Shown(t, columns)) then Err(Malformed) else
    var rows :- SelectRows(w, t, filter, sorting, limit);
    Ok(Lines(rows, Shown(t, columns)))
  }

  lemma {:induction false} ColumnCompares(w: Widen, columns: seq<Column>, rows: seq<Row>, key: string)
    requires RowsTyped(columns, rows) && key in NamesOf(columns)
    ensures Comparable(w, rows, key)
  {
    var t := TypeOf(columns, key).value;
    forall i, j | 0 <= i < |rows| && 0 <= j < |rows|
      ensures LessForSort(w, DatumAt(rows[i], key), DatumAt(rows[j], key)).Ok?
    {
      assert RowTyped(columns, rows[i]) && RowTyped(columns, rows[j]);
      SameTypeCompares(w, t, rows[i][key], rows[j][key]);
    }
  }

  lemma {:induction false} ColumnWeak(w: Widen, columns: seq<Column>, rows: seq<Row>, key: string, descending: bool)
    requires RowsTyped(columns, rows) && key in NamesOf(columns)
    ensures WeakOrder(OrderBy(w, key, descending), rows)
  {
    var t, less := TypeOf(columns, key).value, OrderBy(w, key, descending);
    forall i: nat, j: nat, k: nat | i < |rows| && j < |rows| && k < |rows|
      ensures WeakAt(less, rows, i, j, k)
    {
      assert RowTyped(columns, rows[i]) && RowTyped(columns, rows[j]) && RowTyped(columns, rows[k]);
      BelowIsWeakOrder(w, t, rows[i][key], rows[j][key], rows[k][key]);
      BelowIsWeakOrder(w, t, rows[k][key], rows[j][key], rows[i][key]);
    }
  }

  function CutSize(size: nat, limit: Option<int>): nat {
    if limit.Some? && 0 <= limit.value < size then limit.value else size
  }

  lemma {:induction false} SortedRows(w: Widen, t: Table, filter: Option<Expr>, sorting: Sorting, limit: Option<int>)
    requires TableTyped(t) && sorting.By? && sorting.key in NamesOf(t.columns) && Filtered(w, t.rows, filter, true).Ok?
    ensures var matched := Filtered(w, t.rows, filter, true).value;
            var less := OrderBy(w, sorting.key, sorting.descending);
            var order := SortFrom(less, matched, 0);
            && StablySorted(less, matched, order)
            && |order| == |matched| && (forall y: nat :: y in order <==> y < |matched|)
            && SelectRows(w, t, filter, sorting, limit) == Ok(Cut(Permuted(matched, order), limit))
  {
    var matched := Filtered(w, t.rows, filter, true).value;
    FilteredTyped(w, t.columns, t.rows, filter, true);
    ColumnCompares(w, t.columns, matched, sorting.key);
    ColumnWeak(w, t.columns, matched, sorting.key, sorting.descending);
    SortFromSorted(OrderBy(w, sorting.key, sorting.descending), matched, 0);
  }

  /** A SELECT's result: its lines are the shown columns of the first of these rows, as many as the limit lets through. */
  ghost predicate Lists(r: Result<seq<seq<Literal>>>, rows: seq<Row>, order: seq<nat>, names: seq<string>, limit: Option<int>)
    requires forall i | 0 <= i < |order| :: order[i] < |rows|
  {
    && r.Ok? && |r.value| == CutSize(|order|, limit)
    && forall i | 0 <= i < |r.value| :: r.value[i] == Line(rows[order[i]], names)
  }

  /** On a typed table ORDER BY never fails on types, whatever the columns shown and the limit: the
      lines are those of the rows that match, in the one stable order, cut at the limit. */
  lemma {:induction false} SelectSorts(w: Widen, t: Table, columns: seq<string>, filter: Option<Expr>, sorting: Sorting, limit: Option<int>)
    requires TableTyped(t) && sorting.By? && sorting.key in NamesOf(t.columns) && Filtered(w, t.rows, filter, true).Ok?
    requires AllNamed(t.columns, Shown(t, columns))
    ensures var matched := Filtered(w, t.rows, filter, true).value;
            var less := OrderBy(w, sorting.key, sorting.descending);
            var order := SortFrom(less, matched, 0);
            && StablySorted(less, matched, order)
            && |order| == |matched| && (forall y: nat :: y in order <==> y < |matched|)
            && Lists(SelectLines(w, t, columns, filter, sorting, limit), matched, order, Shown(t, columns), limit)
  {
    SortedRows(w, t, filter, sorting, limit);
  }

  // ------------------------------------------------------------------
  // Where NULLs go
  // ------------------------------------------------------------------

  predicate NullAt(rows: seq<Row>, key: string, x: nat)
    requires x < |rows|
  {
    DatumAt(rows[x], key).Null?
  }

  /** No NULL comes before a value. */
  ghost predicate NullsLast(rows: seq<Row>, key: string, order: seq<nat>)
    requires forall i | 0 <= i < |order| :: order[i] < |rows|
  {
    forall i, j | 0 <= i < j < |order| :: NullAt(rows, key, order[i]) ==> NullAt(rows, key, order[j])
  }

  ghost predicate Mixed(rows: seq<Row>, key: string) {
    exists x: nat, y: nat :: x < |rows| && y < |rows| && NullAt(rows, key, x) && !NullAt(rows, key, y)
  }

  lemma {:induction false} NullOrder(w: Widen, columns: seq<Column>, rows: seq<Row>, key: string, x: nat, y: nat)
    requires RowsTyped(columns, rows) && key in NamesOf(columns) && x < |rows| && y < |rows|
    requires NullAt(rows, key, x) && !NullAt(rows, key, y)
    ensures OrderBy(w, key, false)(rows[y], rows[x]) && !OrderBy(w, key, false)(rows[x], rows[y])
    ensures OrderBy(w, key, true)(rows[x], rows[y]) && !OrderBy(w, key, true)(rows[y], rows[x])
  {
    assert RowTyped(columns, rows[x]) && RowTyped(columns, rows[y]);
    SameTypeCompares(w, TypeOf(columns, key).value, rows[x][key], rows[y][key]);
    SameTypeCompares(w, TypeOf(columns, key).value, rows[y][key], rows[x][key]);
  }

  /** NULLs come last exactly if the order is ascending or there are not both NULLs and values. */
  lemma {:induction false} NullsLastIff(w: Widen, columns: seq<Column>, rows: seq<Row>, key: string, descending: bool, order: seq<nat>)
    requires RowsTyped(columns, rows) && key in NamesOf(columns)
    requires StablySorted(OrderBy(w, key, descending), rows, order) && forall y: nat :: y in order <==> y < |rows|
    ensures NullsLast(rows, key, order) <==> !descending || !Mixed(rows, key)
  {
    var less := OrderBy(w, key, descending);
    if !descending {
      forall i, j | 0 <= i < j < |order| && NullAt(rows, key, order[i])
        ensures NullAt(rows, key, order[j])
      {
        if !NullAt(rows, key, order[j]) {
          NullOrder(w, columns, rows, key, order[i], order[j]);
        }
      }
    } else if Mixed(rows, key) {
      MixedShows(w, columns, rows, key, order);
    }
  }

  lemma {:induction false} MixedShows(w: Widen, columns: seq<Column>, rows: seq<Row>, key: string, order: seq<nat>)
    requires RowsTyped(columns, rows) && key in NamesOf(columns) && Mixed(rows, key)
    requires StablySorted(OrderBy(w, key, true), rows, order) && forall y: nat :: y in order <==> y < |rows|
    ensures !NullsLast(rows, key, order)
  {
    var x: nat, y: nat :| x < |rows| && y < |rows| && NullAt(rows, key, x) && !NullAt(rows, key, y);
    NullOrder(w, columns, rows, key, x, y);
    assert x in order && y in order;
    var i :| 0 <= i < |order| && order[i] == x;
    var j :| 0 <= j < |order| && order[j] == y;
    assert !Precedes(OrderBy(w, key, true), rows, order[j], order[i]);
  }

  // ------------------------------------------------------------------
  // Integers as doubles
  // ------------------------------------------------------------------

  /** Integers in this range are compared as integers. */
  ghost predicate ComparesByValue(w: Widen, bound: nat) {
    forall i: int, j: int | -i <= bound && i <= bound && -j <= bound && j <= bound :: Below(w, Int(i), Int(j)) <==> i < j
  }

  /** Integers are compared as doubles: they are compared by value within a bound if and only if the
      bound is at most 2^53. */
  lemma {:induction false} ComparesByValueIff(w: Widen, bound: nat)
    requires RoundsLikeDoubles(w)
    ensures ComparesByValue(w, bound) <==> bound <= EXACT
  {
    if bound > EXACT {
      assert !Below(w, Int(EXACT), Int(EXACT + 1));
    }
  }

  /** The integers of a column lie within 2^53. */
  ghost predicate SmallColumn(rows: seq<Row>, key: string) {
    forall i | 0 <= i < |rows| :: DatumAt(rows[i], key).Int? ==> -EXACT <= DatumAt(rows[i], key).i <= EXACT
  }

  /** The integers at a place of the lines come in their own order. */
  ghost predicate InOrder(lines: seq<seq<Literal>>, c: nat, descending: bool) {
    forall i, j | 0 <= i < j < |lines| ::
      c < |lines[i]| && c < |lines[j]| && lines[i][c].IntLiteral? && lines[j][c].IntLiteral?
      ==> if descending then lines[j][c].i <= lines[i][c].i else lines[i][c].i <= lines[j][c].i
  }

  lemma {:induction false} FilteredSmall(w: Widen, rows: seq<Row>, filter: Option<Expr>, key: string)
    requires SmallColumn(rows, key) && Filtered(w, rows, filter, true).Ok?
    ensures SmallColumn(Filtered(w, rows, filter, true).value, key)
    decreases |rows|
  {
    if rows != [] {
      FilteredSmall(w, rows[1..], filter, key);
      assert DatumAt(rows[0], key).Int? ==> -EXACT <= DatumAt(rows[0], key).i <= EXACT;
    }
  }

  lemma {:induction false} StableInOrder(w: Widen, rows: seq<Row>, key: string, descending: bool, x: nat, y: nat)
    requires RoundsLikeDoubles(w) && SmallColumn(rows, key) && x < |rows| && y < |rows|
    requires Precedes(OrderBy(w, key, descending), rows, x, y)
    requires DatumAt(rows[x], key).Int? && DatumAt(rows[y], key).Int?
    ensures if descending then DatumAt(rows[y], key).i <= DatumAt(rows[x], key).i
            else DatumAt(rows[x], key).i <= DatumAt(rows[y], key).i
  {
    ComparesByValueIff(w, EXACT);
    assert Below(w, Int(DatumAt(rows[x], key).i), Int(DatumAt(rows[y], key).i)) <==> DatumAt(rows[x], key).i < DatumAt(rows[y], key).i;
    assert Below(w, Int(DatumAt(rows[y], key).i), Int(DatumAt(rows[x], key).i)) <==> DatumAt(rows[y], key).i < DatumAt(rows[x], key).i;
  }

  lemma {:induction false} ListedInOrder(w: Widen, rows: seq<Row>, key: string, descending: bool, order: seq<nat>, names: seq<string>,
                                         lines: Result<seq<seq<Literal>>>, limit: Option<int>, c: nat)
    requires RoundsLikeDoubles(w) && SmallColumn(rows, key) && StablySorted(OrderBy(w, key, descending), rows, order)
    requires Lists(lines, rows, order, names, limit) && c < |names| && names[c] == key
    ensures InOrder(lines.value, c, descending)
  {
    forall i, j | 0 <= i < j < |lines.value| && lines.value[i][c].IntLiteral? && lines.value[j][c].IntLiteral?
      ensures if descending then lines.value[j][c].i <= lines.value[i][c].i else lines.value[i][c].i <= lines.value[j][c].i
    {
      LineAt(rows[order[i]], names, c);
      LineAt(rows[order[j]], names, c);
      StableInOrder(w, rows, key, descending, order[i], order[j]);
    }
  }

  lemma {:induction false} LineAt(row: Row, names: seq<string>, c: nat)
    requires c < |names|
    ensures Line(row, names)[c] == ToLiteral(DatumAt(row, names[c]))
    ensures Line(row, names)[c].IntLiteral? ==> DatumAt(row, names[c]).Int? && DatumAt(row, names[c]).i == Line(row, names)[c].i
  {
  }

  /** A column whose integers lie within 2^53 comes out of ORDER BY sorted by value. */
  lemma {:induction false} SmallColumnSorted(w: Widen, t: Table, columns: seq<string>, filter: Option<Expr>, sorting: Sorting, limit: Option<int>,
                                             c: nat)
    requires RoundsLikeDoubles(w) && sorting.By? && SmallColumn(t.rows, sorting.key)
    requires TableTyped(t) && sorting.key in NamesOf(t.columns) && Filtered(w, t.rows, filter, true).Ok?
    requires AllNamed(t.columns, Shown(t, columns)) && c < |Shown(t, columns)| && Shown(t, columns)[c] == sorting.key
    ensures SelectLines(w, t, columns, filter, sorting, limit).Ok?
    ensures InOrder(SelectLines(w, t, columns, filter, sorting, limit).value, c, sorting.descending)
  {
    var matched := Filtered(w, t.rows, filter, true).value;
    var order := SortFrom(OrderBy(w, sorting.key, sorting.descending), matched, 0);
    SelectSorts(w, t, columns, filter, sorting, limit);
    FilteredSmall(w, t.rows, filter, sorting.key);
    ListedInOrder(w, matched, sorting.key, sorting.descending, order, Shown(t, columns),
                  SelectLines(w, t, columns, filter, sorting, limit), limit, c);
  }

  const KEY: string := "k"

  /** Two rows, 2^53 + 1 before 2^53. */
  function LargeTable(): Table {
    Table([Column(KEY, IntegerType)], [map[KEY := Int(EXACT + 1)], map[KEY := Int(EXACT)]])
  }

  lemma {:induction false} LargeTableTyped()
    ensures TableTyped(LargeTable()) && NamesOf(LargeTable().columns) == [KEY]
  {
    var t := LargeTable();
    assert NamesOf(t.columns) == [KEY];
    assert TypeOf(t.columns, KEY) == Some(IntegerType);
  }

  lemma {:induction false} LargeOrder(w: Widen, rows: seq<Row>)
    requires RoundsLikeDoubles(w) && rows == LargeTable().rows
    ensures SortFrom(OrderBy(w, KEY, false), rows, 0) == [0, 1]
  {
    var less := OrderBy(w, KEY, false);
    assert !less(rows[1], rows[0]);
    var two: nat := 2;
    assert SortFrom(less, rows, two) == [];
    assert SortFrom(less, rows, 1) == [1] + [];
    assert SortFrom(less, rows, 0) == [0] + [1];
  }

  /** Beyond 2^53 it may not: these two rows come out of ORDER BY as they went in, the larger first. */
  lemma {:induction false} LargeColumnUnsorted(w: Widen)
    requires RoundsLikeDoubles(w)
    ensures TableTyped(LargeTable())
    ensures SelectLines(w, LargeTable(), [], None, By(KEY, false), None) == Ok([[IntLiteral(EXACT + 1)], [IntLiteral(EXACT)]])
    ensures !InOrder(SelectLines(w, LargeTable(), [], None, By(KEY, false), None).value, 0, false)
  {
    var t := LargeTable();
    LargeTableTyped();
    AllMatch(w, t.rows);
    LargeOrder(w, t.rows);
    SelectSorts(w, t, [], None, By(KEY, false), None);
    var lines := SelectLines(w, t, [], None, By(KEY, false), None).value;
    LargeLines(lines, t.rows);
  }

  lemma {:induction false} LargeLines(lines: seq<seq<Literal>>, rows: seq<Row>)
    requires rows == LargeTable().rows && |lines| == 2 && lines[0] == Line(rows[0], [KEY]) && lines[1] == Line(rows[1], [KEY])
    ensures lines == [[IntLiteral(EXACT + 1)], [IntLiteral(EXACT)]]
  {
    assert Line(rows[0], [KEY]) == [IntLiteral(EXACT + 1)];
    assert Line(rows[1], [KEY]) == [IntLiteral(EXACT)];
  }

  lemma {:induction false} AllMatch(w: Widen, rows: seq<Row>)
    ensures Filtered(w, rows, None, true) == Ok(rows)
    decreases |rows|
  {
    if rows != [] {
      AllMatch(w, rows[1..]);
      assert rows == [rows[0]] + rows[1..];
    }
  }
}

/** The interpreter: statements as loops over the rows of a table. */
module SqlInterpreter {
  import opened Bytes
  import opened SqlSyntax
  import opened SqlTables
  import opened SqlSelect

  ghost function Onto(done: seq<Row>, r: Result<seq<Row>>): Result<seq<Row>> {
    match r
    case Ok(more) => Ok(done + more)
    case Err(e) => Err(e)
  }

  lemma {:induction false} OntoNone(r: Result<seq<Row>>)
    ensures Onto([], r) == r
  {
    if r.Ok? {
      assert [] + r.value == r.value;
    }
  }

  lemma {:induction false} OntoNext(done: seq<Row>, row: Row, r: Result<seq<Row>>)
    ensures Onto(done, Onto([row], r)) == Onto(done + [row], r)
  {
    if r.Ok? {
      ConcatAssoc(done, [row], r.value);
    }
  }

  method AssignAll(w: Widen, columns: seq<Column>, start: Row, names: seq<string>, values: seq<Literal>) returns (r: Result<Row>)
    requires |names| == |values|
    ensures r == Assign(w, columns, start, names, values)
  {
    var row := start;
    for i := 0 to |names|
      invariant Assign(w, columns, row, names[i..], values[i..]) == Assign(w, columns, start, names, values)
    {
      assert names[i..][1..] == names[i + 1..] && values[i..][1..] == values[i + 1..];
      var t := TypeOf(columns, names[i]);
      if t.None? {
        return Err(Malformed);
      }
      var coerced :- Coerce(w, values[i], t.value);
      row := row[names[i] := FromLiteral(coerced)];
    }
    r := Ok(row);
  }

  method MakeRows(w: Widen, columns: seq<Column>, targets: seq<string>, tuples: seq<seq<Literal>>) returns (r: Result<seq<Row>>)
    ensures r == NewRows(w, columns, targets, tuples)
  {
    var rows: seq<Row> := [];
    OntoNone(NewRows(w, columns, targets, tuples));
    assert tuples[0..] == tuples;
    for i := 0 to |tuples|
      invariant Onto(rows, NewRows(w, columns, targets, tuples[i..])) == NewRows(w, columns, targets, tuples)
    {
      assert tuples[i..][1..] == tuples[i + 1..];
      if |tuples[i]| != |targets| {
        return Err(Malformed);
      }
      var row :- AssignAll(w, columns, Blank(columns), targets, tuples[i]);
      OntoNext(rows, row, NewRows(w, columns, targets, tuples[i + 1..]));
      rows := rows + [row];
    }
    assert rows + [] == rows;
    r := Ok(rows);
  }

  lemma {:induction false} UpdatedStep(w: Widen, columns: seq<Column>, rows: seq<Row>, i: nat, assignments: seq<(string, Literal)>, filter: Option<Expr>)
    requires i < |rows| && Selected(w, filter, rows[i]).Ok?
    ensures var row := if Selected(w, filter, rows[i]).value then Assign(w, columns, rows[i], FirstsOf(assignments), SecondsOf(assignments))
                       else Ok(rows[i]);
            UpdatedRows(w, columns, rows[i..], assignments, filter)
            == if row.Ok? then Onto([row.value], UpdatedRows(w, columns, rows[i + 1..], assignments, filter)) else Err(row.error)
  {
    assert rows[i..][1..] == rows[i + 1..];
  }

  /** Changes the rows that the filter selects, one after another. */
  method UpdateRows(w: Widen, columns: seq<Column>, rows: seq<Row>, assignments: seq<(string, Literal)>, filter: Option<Expr>)
    returns (r: Result<seq<Row>>)
    ensures r == UpdatedRows(w, columns, rows, assignments, filter)
  {
    var done: seq<Row> := [];
    OntoNone(UpdatedRows(w, columns, rows, assignments, filter));
    assert rows[0..] == rows;
    for i := 0 to |rows|
      invariant Onto(done, UpdatedRows(w, columns, rows[i..], assignments, filter)) == UpdatedRows(w, columns, rows, assignments, filter)
    {
      var hit :- Selected(w, filter, rows[i]);
      UpdatedStep(w, columns, rows, i, assignments, filter);
      var row := rows[i];
      if hit {
        row :- AssignAll(w, columns, rows[i], FirstsOf(assignments), SecondsOf(assignments));
      }
      OntoNext(done, row, UpdatedRows(w, columns, rows[i + 1..], assignments, filter));
      done := done + [row];
    }
    assert done + [] == done;
    r := Ok(done);
  }

  lemma {:induction false} FilteredStep(w: Widen, rows: seq<Row>, i: nat, filter: Option<Expr>, keep: bool)
    requires i < |rows| && Selected(w, filter, rows[i]).Ok?
    ensures Filtered(w, rows[i..], filter, keep)
            == Onto(if Selected(w, filter, rows[i]).value == keep then [rows[i]] else [], Filtered(w, rows[i + 1..], filter, keep))
  {
    assert rows[i..][1..] == rows[i + 1..];
    OntoNone(Filtered(w, rows[i + 1..], filter, keep));
  }

  method MatchRows(w: Widen, rows: seq<Row>, filter: Option<Expr>) returns (r: Result<seq<Row>>)
    ensures r == Filtered(w, rows, filter, true)
  {
    var matched: seq<Row> := [];
    OntoNone(Filtered(w, rows, filter, true));
    assert rows[0..] == rows;
    for i := 0 to |rows|
      invariant Onto(matched, Filtered(w, rows[i..], filter, true)) == Filtered(w, rows, filter, true)
    {
      var hit :- Selected(w, filter, rows[i]);
      FilteredStep(w, rows, i, filter, true);
      if hit {
        OntoNext(matched, rows[i], Filtered(w, rows[i + 1..], filter, true));
        matched := matched + [rows[i]];
      } else {
        OntoNone(Filtered(w, rows[i + 1..], filter, true));
      }
    }
    assert matched + [] == matched;
    r := Ok(matched);
  }

  /** Erases the rows that the filter selects while walking over them. */
  method EraseRows(w: Widen, rows: seq<Row>, filter: Option<Expr>) returns (r: Result<seq<Row>>)
    ensures r == Filtered(w, rows, filter, false)
  {
    var left, i := rows, 0;
    OntoNone(Filtered(w, rows, filter, false));
    assert left[0..] == rows && left[..0] == [];
    while i < |left|
      invariant 0 <= i <= |left|
      invariant Onto(left[..i], Filtered(w, left[i..], filter, false)) == Filtered(w, rows, filter, false)
      decreases |left| - i
    {
      var hit :- Selected(w, filter, left[i]);
      FilteredStep(w, left, i, filter, false);
      OntoNone(Filtered(w, left[i + 1..], filter, false));
      if hit {
        var shorter := left[..i] + left[i + 1..];
        assert shorter[..i] == left[..i] && shorter[i..] == left[i + 1..];
        left := shorter;
      } else {
        OntoNext(left[..i], left[i], Filtered(w, left[i + 1..], filter, false));
        assert left[..i] + [left[i]] == left[..i + 1];
        i := i + 1;
      }
    }
    assert left[..i] == left && left + [] == left;
    r := Ok(left);
  }

  method ProjectRow(row: Row, names: seq<string>) returns (line: seq<Literal>)
    ensures line == Line(row, names)
  {
    line := [];
    for i := 0 to |names|
      invariant |line| == i && forall j | 0 <= j < i :: line[j] == ToLiteral(DatumAt(row, names[j]))
    {
      line := line + [ToLiteral(DatumAt(row, names[i]))];
    }
  }

  /** The shown columns of the rows. */
  method ProjectRows(rows: seq<Row>, names: seq<string>) returns (lines: seq<seq<Literal>>)
    ensures lines == Lines(rows, names)
  {
    lines := [];
    for i := 0 to |rows|
      invariant |lines| == i && forall j | 0 <= j < i :: lines[j] == Line(rows[j], names)
    {
      var line := ProjectRow(rows[i], names);
      lines := lines + [line];
    }
  }

  class Interpreter {
    const w: Widen
    var db: Database

    constructor (w: Widen)
      ensures this.w == w && db == map[]
    {
      this.w, db := w, map[];
    }

    /** Runs a statement that changes a table; if it fails nothing is committed. */
    method Run(s: Statement) returns (r: Result<()>)
      modifies this
      ensures match Execute(w, old(db), s)
              case Ok(after) => r == Ok(()) && db == after
              case Err(e) => r == Err(e) && db == old(db)
    {
      r := Ok(());
      match s
      case CreateTable(table, columns) =>
        if table in db {
          return Err(Malformed);
        }
        db := db[table := Table(columns, [])];
      case InsertInto(table, targets, tuples) =>
        if table !in db {
          return Err(Malformed);
        }
        var t := db[table];
        var names := if targets == [] then NamesOf(t.columns) else targets;
        if !AllNamed(t.columns, names) {
          return Err(Malformed);
        }
        var rows :- MakeRows(w, t.columns, names, tuples);
        db := db[table := t.(rows := t.rows + rows)];
      case UpdateSet(table, assignments, filter) =>
        if table !in db || !AllNamed(db[table].columns, FirstsOf(assignments)) {
          return Err(Malformed);
        }
        var rows :- UpdateRows(w, db[table].columns, db[table].rows, assignments, filter);
        db := db[table := db[table].(rows := rows)];
      case DeleteFrom(table, filter) =>
        if table !in db {
          return Err(Malformed);
        }
        var rows :- EraseRows(w, db[table].rows, filter);
        db := db[table := db[table].(rows := rows)];
    }

    /** The lines a SELECT returns. */
    method Select(table: string, columns: seq<string>, filter: Option<Expr>, sorting: Sorting, limit: Option<int>)
      returns (r: Result<seq<seq<Literal>>>)
      ensures r == if table in db then SelectLines(w, db[table], columns, filter, sorting, limit) else Err(Malformed)
    {
      if table !in db {
        return Err(Malformed);
      }
      var projection := if columns == [] then NamesOf(db[table].columns) else columns;
      if !AllNamed(db[table].columns, projection) || (sorting.By? && sorting.key !in NamesOf(db[table].columns)) {
        return Err(Malformed);
      }
      var matched :- MatchRows(w, db[table].rows, filter);
      matched :- Sorted(w, matched, sorting);
      if limit.Some? && limit.value >= 0 && limit.value < |matched| {
        matched := matched[..limit.value];
      }
      var lines := ProjectRows(matched, projection);
      r := Ok(lines);
    }
  }
}
