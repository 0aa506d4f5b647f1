/** What WHERE, SELECT, INSERT, UPDATE and DELETE mean, said apart from how they are evaluated. */
module SqlMeaning {
  import opened Bytes
  import opened SqlSyntax
  import opened SqlTables
  import opened SqlSelect
  import opened Doubles

  // ------------------------------------------------------------------
  // Values and their order
  // ------------------------------------------------------------------

  /** What a datum or a literal is worth: numbers of both kinds are doubles. */
  datatype Worth = Nothing | Truth(b: bool) | Amount(r: real) | Words(s: string)

  function WorthOf(w: Widen, d: Datum): Worth {
    match d
    case Null => Nothing
    case Bool(b) => Truth(b)
    case Int(i) => Amount(w(i))
    case Double(r) => Amount(r)
    case Text(s) => Words(s)
  }

  function WorthOfLiteral(w: Widen, l: Literal): Worth {
    match l
    case NullLiteral => Nothing
    case BoolLiteral(b) => Truth(b)
    case IntLiteral(i) => Amount(w(i))
    case DoubleLiteral(r) => Amount(r)
    case TextLiteral(s) => Words(s)
  }

  /** The texts agree before place k, and there the first one ends or has the smaller character. */
  predicate BeforeAt(a: string, b: string, k: nat) {
    && k <= |a| && k < |b| && a[..k] == b[..k]
    && (k < |a| ==> a[k] < b[k])
  }

  ghost predicate Alphabetical(a: string, b: string) {
    exists k: nat :: BeforeAt(a, b, k)
  }

  /** The order of each type: FALSE before TRUE, numbers by size, texts by the first place where they differ. */
  ghost predicate Smaller(a: Worth, b: Worth) {
    match a
    case Nothing => false
    case Truth(x) => b.Truth? && !x && b.b
    case Amount(x) => b.Amount? && x < b.r
    case Words(x) => b.Words? && Alphabetical(x, b.s)
  }

  predicate Kindred(a: Worth, b: Worth) {
    (a.Truth? && b.Truth?) || (a.Amount? && b.Amount?) || (a.Words? && b.Words?)
  }

  lemma {:induction false} BeforeNext(c: char, a: string, b: string, k: nat)
    requires BeforeAt(a, b, k)
    ensures BeforeAt([c] + a, [c] + b, k + 1)
  {
    assert ([c] + a)[..k + 1] == [c] + a[..k] && ([c] + b)[..k + 1] == [c] + b[..k];
  }

  lemma {:induction false} BeforeLess(a: string, b: string, k: nat)
    requires BeforeAt(a, b, k)
    ensures LessText(a, b)
    decreases k
  {
    if k > 0 {
      assert a[..k][0] == b[..k][0];
      assert a[1..][..k - 1] == a[..k][1..] && b[1..][..k - 1] == b[..k][1..];
      BeforeLess(a[1..], b[1..], k - 1);
    }
  }

  lemma {:induction false} LessBefore(a: string, b: string) returns (k: nat)
    requires LessText(a, b)
    ensures BeforeAt(a, b, k)
    decreases |a|
  {
    k := 0;
    if a != [] && a[0] == b[0] {
      var j := LessBefore(a[1..], b[1..]);
      BeforeNext(a[0], a[1..], b[1..], j);
      assert a == [a[0]] + a[1..] && b == [b[0]] + b[1..];
      k := j + 1;
    }
  }

  /** Texts are ordered by the first place where they differ. */
  lemma {:induction false} LessTextIff(a: string, b: string)
    ensures LessText(a, b) <==> Alphabetical(a, b)
  {
    if LessText(a, b) {
      var k := LessBefore(a, b);
    }
    if Alphabetical(a, b) {
      var k: nat :| BeforeAt(a, b, k);
      BeforeLess(a, b, k);
    }
  }

  // ------------------------------------------------------------------
  // WHERE
  // ------------------------------------------------------------------

  ghost predicate Stands(v: Worth, op: Comparator, x: Worth) {
    match op
    case Eq => v == x
    case Neq => v != x
    case Lt => Smaller(v, x)
    case Lte => Smaller(v, x) || v == x
    case Gt => Smaller(x, v)
    case Gte => Smaller(x, v) || v == x
  }

  /** Whether a row meets a condition. Nothing compares with NULL. */
  ghost predicate Means(w: Widen, e: Expr, row: Row) {
    match e
    case Compare(column, op, value) =>
      column in row && !row[column].Null? && !value.NullLiteral? && Stands(WorthOf(w, row[column]), op, WorthOfLiteral(w, value))
    case And(l, r) => Means(w, l, row) && Means(w, r, row)
    case Or(l, r) => Means(w, l, row) || Means(w, r, row)
    case Not(x) => !Means(w, x, row)
  }

  /** Whether the condition has an answer: its columns exist, and what it compares is of one kind.
      The right side of AND is only asked if the left side holds, that of OR only if it does not. */
  ghost predicate Answers(w: Widen, e: Expr, row: Row) {
    match e
    case Compare(column, op, value) =>
      column in row && (row[column].Null? || value.NullLiteral? || Kindred(WorthOf(w, row[column]), WorthOfLiteral(w, value)))
    case And(l, r) => Answers(w, l, row) && (Means(w, l, row) ==> Answers(w, r, row))
    case Or(l, r) => Answers(w, l, row) && (!Means(w, l, row) ==> Answers(w, r, row))
    case Not(x) => Answers(w, x, row)
  }

  lemma {:induction false} ComparisonMeans(w: Widen, v: Datum, op: Comparator, l: Literal)
    ensures var c := CompareLiteral(w, v, l);
            var a, b := WorthOf(w, v), WorthOfLiteral(w, l);
            && (c.Ok? <==> v.Null? || l.NullLiteral? || Kindred(a, b)) && (c.Err? ==> c.error == Malformed)
            && (c.Ok? ==> (c.value.Some? <==> !v.Null? && !l.NullLiteral?))
            && (c.Ok? && c.value.Some? ==> (Holds(op, c.value.value) <==> Stands(a, op, b)))
  {
    if v.Text? && l.TextLiteral? {
      LessTextIff(v.s, l.s);
      LessTextIff(l.s, v.s);
      TextTotal(v.s, l.s);
    }
  }

  /** A condition evaluates to whether the row meets it, or fails if it has no answer. */
  lemma {:induction false} EvaluateMeans(w: Widen, e: Expr, row: Row)
    ensures Evaluate(w, e, row) == if Answers(w, e, row) then Ok(Means(w, e, row)) else Err(Malformed)
    decreases e
  {
    match e
    case Compare(column, op, value) =>
      if column in row {
        ComparisonMeans(w, row[column], op, value);
      }
    case And(l, r) =>
      EvaluateMeans(w, l, row);
      EvaluateMeans(w, r, row);
    case Or(l, r) =>
      EvaluateMeans(w, l, row);
      EvaluateMeans(w, r, row);
    case Not(x) => EvaluateMeans(w, x, row);
  }

  /** Columns that exist, each compared with NULL or with a literal of its kind. */
  predicate FitsColumns(columns: seq<Column>, e: Expr) {
    match e
    case Compare(column, _, value) => column in NamesOf(columns) && FitsType(TypeOf(columns, column).value, value)
    case And(l, r) => FitsColumns(columns, l) && FitsColumns(columns, r)
    case Or(l, r) => FitsColumns(columns, l) && FitsColumns(columns, r)
    case Not(x) => FitsColumns(columns, x)
  }

  predicate FitsType(t: ColumnType, l: Literal) {
    match l
    case NullLiteral => true
    case BoolLiteral(_) => t == BooleanType
    case TextLiteral(_) => t == TextType
    case _ => t == IntegerType || t == RealType
  }

  /** On a typed row such a condition has an answer. */
  lemma {:induction false} FittingAnswers(w: Widen, columns: seq<Column>, e: Expr, row: Row)
    requires RowTyped(columns, row) && FitsColumns(columns, e)
    ensures Answers(w, e, row)
    decreases e
  {
    match e
    case Compare(column, _, value) => assert column in row;
    case And(l, r) =>
      FittingAnswers(w, columns, l, row);
      FittingAnswers(w, columns, r, row);
    case Or(l, r) =>
      FittingAnswers(w, columns, l, row);
      FittingAnswers(w, columns, r, row);
    case Not(x) => FittingAnswers(w, columns, x, row);
  }

  // Integers within 2^53 are compared as themselves.

  function Itself(i: int): real {
    i as real
  }

  predicate SmallInt(i: int) {
    -EXACT <= i <= EXACT
  }

  predicate SmallIn(e: Expr, row: Row) {
    match e
    case Compare(column, _, value) =>
      (column in row && row[column].Int? ==> SmallInt(row[column].i)) && (value.IntLiteral? ==> SmallInt(value.i))
    case And(l, r) => SmallIn(l, row) && SmallIn(r, row)
    case Or(l, r) => SmallIn(l, row) && SmallIn(r, row)
    case Not(x) => SmallIn(x, row)
  }

  lemma {:induction false} MeansItself(w: Widen, e: Expr, row: Row)
    requires RoundsLikeDoubles(w) && SmallIn(e, row)
    ensures Means(w, e, row) <==> Means(Itself, e, row)
    ensures Answers(w, e, row) <==> Answers(Itself, e, row)
    decreases e
  {
    match e
    case Compare(column, _, value) =>
    case And(l, r) =>
      MeansItself(w, l, row);
      MeansItself(w, r, row);
    case Or(l, r) =>
      MeansItself(w, l, row);
      MeansItself(w, r, row);
    case Not(x) => MeansItself(w, x, row);
  }

  // ------------------------------------------------------------------
  // The rows a statement is about
  // ------------------------------------------------------------------

  ghost predicate Matches(w: Widen, filter: Option<Expr>, row: Row) {
    filter.Some? ==> Means(w, filter.value, row)
  }

  ghost predicate AnswersAll(w: Widen, filter: Option<Expr>, rows: seq<Row>) {
    filter.Some? ==> forall i | 0 <= i < |rows| :: Answers(w, filter.value, rows[i])
  }

  lemma {:induction false} SelectedMeans(w: Widen, filter: Option<Expr>, row: Row)
    ensures Selected(w, filter, row) == if filter.Some? && !Answers(w, filter.value, row) then Err(Malformed) else Ok(Matches(w, filter, row))
  {
    if filter.Some? {
      EvaluateMeans(w, filter.value, row);
    }
  }

  /** The places, from the first to the last, of the rows that match, or of those that do not. */
  ghost predicate PlacesOf(w: Widen, rows: seq<Row>, filter: Option<Expr>, keep: bool, places: seq<nat>) {
    && (forall i | 0 <= i < |places| :: places[i] < |rows|)
    && (forall i, j | 0 <= i < j < |places| :: places[i] < places[j])
    && (forall x: nat :: x in places <==> x < |rows| && Matches(w, filter, rows[x]) == keep)
  }

  function Up(places: seq<nat>): (r: seq<nat>)
    ensures |r| == |places|
    ensures forall i | 0 <= i < |places| :: r[i] == places[i] + 1
  {
    seq(|places|, i requires 0 <= i < |places| => places[i] + 1)
  }

  lemma {:induction false} UpIn(places: seq<nat>, x: nat)
    ensures x in Up(places) <==> x > 0 && (x - 1) in places
  {
    if x > 0 && x - 1 in places {
      var i :| 0 <= i < |places| && places[i] == x - 1;
      assert Up(places)[i] == x;
    }
  }

  /** The places, from the first to the last, of the flags that are set. */
  predicate Marks(flags: seq<bool>, places: seq<nat>) {
    && (forall i | 0 <= i < |places| :: places[i] < |flags|)
    && (forall i, j | 0 <= i < j < |places| :: places[i] < places[j])
    && (forall x: nat | x < |flags| :: x in places <==> flags[x])
  }

  lemma {:induction false} MarksNext(flags: seq<bool>, rest: seq<nat>)
    requires flags != [] && Marks(flags[1..], rest)
    ensures Marks(flags, if flags[0] then [0] + Up(rest) else Up(rest))
  {
    var places := if flags[0] then [0] + Up(rest) else Up(rest);
    forall x: nat | x < |flags|
      ensures x in places <==> flags[x]
    {
      UpIn(rest, x);
      assert x > 0 ==> flags[x] == flags[1..][x - 1];
    }
  }

  ghost function Flags(w: Widen, rows: seq<Row>, filter: Option<Expr>, keep: bool): (flags: seq<bool>)
    ensures |flags| == |rows|
  {
    seq(|rows|, i requires 0 <= i < |rows| => Matches(w, filter, rows[i]) == keep)
  }

  lemma {:induction false} MarksPlaces(w: Widen, rows: seq<Row>, filter: Option<Expr>, keep: bool, places: seq<nat>)
    requires Marks(Flags(w, rows, filter, keep), places)
    ensures PlacesOf(w, rows, filter, keep, places)
  {
    forall x: nat
      ensures x in places <==> x < |rows| && Matches(w, filter, rows[x]) == keep
    {
      assert x in places ==> x < |rows|;
    }
  }

  lemma {:induction false} PermutedUp(rows: seq<Row>, rest: seq<nat>)
    requires rows != [] && forall i | 0 <= i < |rest| :: rest[i] < |rows| - 1
    ensures Permuted(rows, Up(rest)) == Permuted(rows[1..], rest)
    ensures Permuted(rows, [0] + Up(rest)) == [rows[0]] + Permuted(rows[1..], rest)
  {
  }

  lemma {:induction false} FilteredMarks(w: Widen, rows: seq<Row>, filter: Option<Expr>, keep: bool) returns (places: seq<nat>)
    ensures Marks(Flags(w, rows, filter, keep), places)
    ensures Filtered(w, rows, filter, keep) == if AnswersAll(w, filter, rows) then Ok(Permuted(rows, places)) else Err(Malformed)
    decreases |rows|
  {
    if rows == [] {
      places := [];
    } else {
      var rest := FilteredMarks(w, rows[1..], filter, keep);
      var flags := Flags(w, rows, filter, keep);
      SelectedMeans(w, filter, rows[0]);
      assert flags[1..] == Flags(w, rows[1..], filter, keep);
      MarksNext(flags, rest);
      places := if flags[0] then [0] + Up(rest) else Up(rest);
      PermutedUp(rows, rest);
      AnswersNext(w, filter, rows);
    }
  }

  /** Filtering keeps exactly the rows that match (or do not), each once and in order; it fails
      exactly if the condition has no answer on some row. */
  lemma {:induction false} FilteredPlaces(w: Widen, rows: seq<Row>, filter: Option<Expr>, keep: bool) returns (places: seq<nat>)
    ensures PlacesOf(w, rows, filter, keep, places)
    ensures Filtered(w, rows, filter, keep) == if AnswersAll(w, filter, rows) then Ok(Permuted(rows, places)) else Err(Malformed)
  {
    places := FilteredMarks(w, rows, filter, keep);
    MarksPlaces(w, rows, filter, keep, places);
  }

  lemma {:induction false} AnswersNext(w: Widen, filter: Option<Expr>, rows: seq<Row>)
    requires rows != []
    ensures AnswersAll(w, filter, rows) <==> (filter.Some? ==> Answers(w, filter.value, rows[0])) && AnswersAll(w, filter, rows[1..])
  {
    assert forall i | 0 < i < |rows| :: rows[i] == rows[1..][i - 1];
    assert forall i | 0 <= i < |rows| - 1 :: rows[1..][i] == rows[i + 1];
  }

  // ------------------------------------------------------------------
  // SELECT
  // ------------------------------------------------------------------

  predicate Shows(l: Literal, d: Datum) {
    match d
    case Null => l == NullLiteral
    case Bool(b) => l == BoolLiteral(b)
    case Int(i) => l == IntLiteral(i)
    case Double(r) => l == DoubleLiteral(r)
    case Text(s) => l == TextLiteral(s)
  }

  /** NULL comes after every value; values come by their order. */
  ghost predicate Earlier(w: Widen, a: Datum, b: Datum) {
    !a.Null? && (b.Null? || Smaller(WorthOf(w, a), WorthOf(w, b)))
  }

  lemma {:induction false} BelowMeans(w: Widen, t: ColumnType, a: Datum, b: Datum)
    requires HasType(a, t) && HasType(b, t)
    ensures Below(w, a, b) <==> Earlier(w, a, b)
  {
    if a.Text? && b.Text? {
      LessTextIff(a.s, b.s);
    }
  }

  /** Whether the row at place x comes before that at place y: by the sort column, descending if asked
      for, and otherwise in the order of the table. */
  ghost predicate Leads(w: Widen, rows: seq<Row>, sorting: Sorting, x: nat, y: nat)
    requires x < |rows| && y < |rows|
  {
    if sorting.Unsorted? then x < y
    else
      && sorting.key in rows[x] && sorting.key in rows[y]
      && var a, b := rows[x][sorting.key], rows[y][sorting.key];
         if sorting.descending then Earlier(w, b, a) || (!Earlier(w, a, b) && x < y)
         else Earlier(w, a, b) || (!Earlier(w, b, a) && x < y)
  }

  /** The matching rows, each once, in the order asked for. */
  ghost predicate Listed(w: Widen, rows: seq<Row>, filter: Option<Expr>, sorting: Sorting, listed: seq<nat>) {
    && (forall i | 0 <= i < |listed| :: listed[i] < |rows|)
    && (forall x: nat :: x in listed <==> x < |rows| && Matches(w, filter, rows[x]))
    && (forall i, j | 0 <= i < j < |listed| :: Leads(w, rows, sorting, listed[i], listed[j]))
  }

  /** As many of the listed rows as the limit lets through, each showing the data of the columns asked for. */
  ghost predicate ShowsRows(rows: seq<Row>, listed: seq<nat>, names: seq<string>, limit: Option<int>, lines: seq<seq<Literal>>)
  {
    && |lines| == CutSize(|listed|, limit)
    && forall i | 0 <= i < |lines| :: listed[i] < |rows| && |lines[i]| == |names| && ShowsRow(rows[listed[i]], names, lines[i])
  }

  predicate ShowsRow(row: Row, names: seq<string>, line: seq<Literal>)
    requires |line| == |names|
  {
    forall c | 0 <= c < |names| :: names[c] in row && Shows(line[c], row[names[c]])
  }

  lemma {:induction false} LineShows(columns: seq<Column>, row: Row, names: seq<string>)
    requires RowTyped(columns, row) && AllNamed(columns, names)
    ensures ShowsRow(row, names, Line(row, names))
  {
  }

  function Through(places: seq<nat>, order: seq<nat>): (r: seq<nat>)
    requires forall i | 0 <= i < |order| :: order[i] < |places|
    ensures |r| == |order| && forall i | 0 <= i < |order| :: r[i] == places[order[i]]
  {
    seq(|order|, i requires 0 <= i < |order| => places[order[i]])
  }

  lemma {:induction false} ThroughIn(places: seq<nat>, order: seq<nat>, x: nat)
    requires forall i | 0 <= i < |order| :: order[i] < |places|
    requires forall y: nat :: y in order <==> y < |places|
    ensures x in Through(places, order) <==> x in places
  {
    if x in places {
      var k: nat :| k < |places| && places[k] == x;
      assert k in order;
      var i :| 0 <= i < |order| && order[i] == k;
      assert Through(places, order)[i] == x;
    }
  }

  lemma {:induction false} PrecedesLeads(w: Widen, t: Table, key: string, descending: bool, places: seq<nat>, i: nat, j: nat)
    requires TableTyped(t) && key in NamesOf(t.columns) && i < |places| && j < |places|
    requires forall k | 0 <= k < |places| :: places[k] < |t.rows|
    requires forall k, l | 0 <= k < l < |places| :: places[k] < places[l]
    requires Precedes(OrderBy(w, key, descending), Permuted(t.rows, places), i, j)
    ensures Leads(w, t.rows, By(key, descending), places[i], places[j])
  {
    var x, y := t.rows[places[i]], t.rows[places[j]];
    assert RowTyped(t.columns, x) && RowTyped(t.columns, y);
    BelowMeans(w, TypeOf(t.columns, key).value, x[key], y[key]);
    BelowMeans(w, TypeOf(t.columns, key).value, y[key], x[key]);
    assert i < j ==> places[i] < places[j];
  }

  lemma {:induction false} SortedListed(w: Widen, t: Table, filter: Option<Expr>, key: string, descending: bool, places: seq<nat>, order: seq<nat>)
    requires TableTyped(t) && key in NamesOf(t.columns) && PlacesOf(w, t.rows, filter, true, places)
    requires StablySorted(OrderBy(w, key, descending), Permuted(t.rows, places), order)
    requires forall y: nat :: y in order <==> y < |places|
    ensures Listed(w, t.rows, filter, By(key, descending), Through(places, order))
  {
    var listed := Through(places, order);
    forall i, j | 0 <= i < j < |listed|
      ensures Leads(w, t.rows, By(key, descending), listed[i], listed[j])
    {
      PrecedesLeads(w, t, key, descending, places, order[i], order[j]);
    }
    forall x: nat
      ensures x in listed <==> x < |t.rows| && Matches(w, filter, t.rows[x])
    {
      ThroughIn(places, order, x);
    }
  }

  /** Whether a SELECT can be answered: the columns exist and the condition has an answer on every row. */
  ghost predicate Selectable(w: Widen, t: Table, columns: seq<string>, filter: Option<Expr>, sorting: Sorting) {
    && (forall c | 0 <= c < |columns| :: columns[c] in NamesOf(t.columns))
    && (sorting.By? ==> sorting.key in NamesOf(t.columns)) && AnswersAll(w, filter, t.rows)
  }

  lemma {:induction false} SortedRowsShow(t: Table, rows: seq<Row>, places: seq<nat>, order: seq<nat>, names: seq<string>, limit: Option<int>)
    requires TableTyped(t) && AllNamed(t.columns, names) && (forall k | 0 <= k < |places| :: places[k] < |t.rows|)
    requires rows == Permuted(t.rows, places) && forall i | 0 <= i < |order| :: order[i] < |places|
    ensures ShowsRows(t.rows, Through(places, order), names, limit, Lines(Cut(Permuted(rows, order), limit), names))
  {
    var lines := Lines(Cut(Permuted(rows, order), limit), names);
    forall i | 0 <= i < |lines|
      ensures |lines[i]| == |names| && ShowsRow(t.rows[places[order[i]]], names, lines[i])
    {
      assert RowTyped(t.columns, t.rows[places[order[i]]]);
      LineShows(t.columns, t.rows[places[order[i]]], names);
    }
  }

  lemma {:induction false} RowsShow(t: Table, places: seq<nat>, names: seq<string>, limit: Option<int>)
    requires TableTyped(t) && AllNamed(t.columns, names) && forall k | 0 <= k < |places| :: places[k] < |t.rows|
    ensures ShowsRows(t.rows, places, names, limit, Lines(Cut(Permuted(t.rows, places), limit), names))
  {
    var lines := Lines(Cut(Permuted(t.rows, places), limit), names);
    forall i | 0 <= i < |lines|
      ensures |lines[i]| == |names| && ShowsRow(t.rows[places[i]], names, lines[i])
    {
      assert RowTyped(t.columns, t.rows[places[i]]);
      LineShows(t.columns, t.rows[places[i]], names);
    }
  }

  lemma {:induction false} ShownNamed(t: Table, columns: seq<string>)
    ensures AllNamed(t.columns, Shown(t, columns)) <==> forall c | 0 <= c < |columns| :: columns[c] in NamesOf(t.columns)
  {
  }

  lemma {:induction false} SelectableIff(w: Widen, t: Table, columns: seq<string>, filter: Option<Expr>, sorting: Sorting, limit: Option<int>)
    returns (places: seq<nat>)
    requires TableTyped(t)
    ensures PlacesOf(w, t.rows, filter, true, places)
    ensures SelectLines(w, t, columns, filter, sorting, limit).Ok? <==> Selectable(w, t, columns, filter, sorting)
    ensures Selectable(w, t, columns, filter, sorting) ==>
              AllNamed(t.columns, Shown(t, columns)) && Filtered(w, t.rows, filter, true) == Ok(Permuted(t.rows, places))
  {
    places := FilteredPlaces(w, t.rows, filter, true);
    ShownNamed(t, columns);
    if Filtered(w, t.rows, filter, true).Ok? && sorting.By? && sorting.key in NamesOf(t.columns) {
      SortedRows(w, t, filter, sorting, limit);
    }
  }

  lemma {:induction false} SortedMeans(w: Widen, t: Table, columns: seq<string>, filter: Option<Expr>, sorting: Sorting, limit: Option<int>,
                                       places: seq<nat>) returns (listed: seq<nat>)
    requires TableTyped(t) && sorting.By? && sorting.key in NamesOf(t.columns) && AllNamed(t.columns, Shown(t, columns))
    requires PlacesOf(w, t.rows, filter, true, places) && Filtered(w, t.rows, filter, true) == Ok(Permuted(t.rows, places))
    requires SelectLines(w, t, columns, filter, sorting, limit).Ok?
    ensures Listed(w, t.rows, filter, sorting, listed)
    ensures ShowsRows(t.rows, listed, Shown(t, columns), limit, SelectLines(w, t, columns, filter, sorting, limit).value)
  {
    var order := SortFrom(OrderBy(w, sorting.key, sorting.descending), Permuted(t.rows, places), 0);
    SortedRows(w, t, filter, sorting, limit);
    SortedListed(w, t, filter, sorting.key, sorting.descending, places, order);
    SortedRowsShow(t, Permuted(t.rows, places), places, order, Shown(t, columns), limit);
    listed := Through(places, order);
  }

  lemma {:induction false} UnsortedMeans(w: Widen, t: Table, columns: seq<string>, filter: Option<Expr>, limit: Option<int>, places: seq<nat>)
    requires TableTyped(t) && AllNamed(t.columns, Shown(t, columns))
    requires PlacesOf(w, t.rows, filter, true, places) && Filtered(w, t.rows, filter, true) == Ok(Permuted(t.rows, places))
    ensures Listed(w, t.rows, filter, Unsorted, places)
    ensures SelectLines(w, t, columns, filter, Unsorted, limit).Ok?
    ensures ShowsRows(t.rows, places, Shown(t, columns), limit, SelectLines(w, t, columns, filter, Unsorted, limit).value)
  {
    RowsShow(t, places, Shown(t, columns), limit);
  }

  /** A SELECT on a typed table is answered if and only if it can be, and then it shows exactly the
      matching rows: in the order of the table, or sorted by the values of the sort column. */
  lemma {:induction false} SelectMeans(w: Widen, t: Table, columns: seq<string>, filter: Option<Expr>, sorting: Sorting, limit: Option<int>)
    returns (listed: seq<nat>)
    requires TableTyped(t)
    ensures Selectable(w, t, columns, filter, sorting) ==> Listed(w, t.rows, filter, sorting, listed)
    ensures var r := SelectLines(w, t, columns, filter, sorting, limit);
            && (r.Ok? <==> Selectable(w, t, columns, filter, sorting))
            && (r.Ok? ==> ShowsRows(t.rows, listed, Shown(t, columns), limit, r.value))
    ensures columns != [] ==> Shown(t, columns) == columns
    ensures columns == [] ==> |Shown(t, columns)| == |t.columns| && forall i | 0 <= i < |t.columns| :: Shown(t, columns)[i] == t.columns[i].name
  {
    listed := SelectableIff(w, t, columns, filter, sorting, limit);
    if Selectable(w, t, columns, filter, sorting) {
      if sorting.By? {
        listed := SortedMeans(w, t, columns, filter, sorting, limit, listed);
      } else {
        UnsortedMeans(w, t, columns, filter, limit, listed);
      }
    }
  }

  lemma {:induction false} EarlierOneWay(w: Widen, a: Datum, b: Datum)
    requires Earlier(w, a, b)
    ensures !Earlier(w, b, a)
  {
    if a.Text? && b.Text? {
      LessTextIff(a.s, b.s);
      LessTextIff(b.s, a.s);
      TextTotal(a.s, b.s);
    }
  }

  /** Two lines in the order of a sort column's values. NULLs are last, or first if descending. */
  ghost predicate InValueOrder(w: Widen, a: Literal, b: Literal, descending: bool) {
    if descending then (b.NullLiteral? ==> a.NullLiteral?) && !Smaller(WorthOfLiteral(w, a), WorthOfLiteral(w, b))
    else (a.NullLiteral? ==> b.NullLiteral?) && !Smaller(WorthOfLiteral(w, b), WorthOfLiteral(w, a))
  }

  lemma {:induction false} LeadsShow(w: Widen, rows: seq<Row>, key: string, descending: bool, x: nat, y: nat, a: Literal, b: Literal)
    requires x < |rows| && y < |rows| && Leads(w, rows, By(key, descending), x, y)
    requires Shows(a, rows[x][key]) && Shows(b, rows[y][key])
    ensures InValueOrder(w, a, b, descending)
  {
    var d, e := rows[x][key], rows[y][key];
    if Earlier(w, d, e) {
      EarlierOneWay(w, d, e);
    }
    if Earlier(w, e, d) {
      EarlierOneWay(w, e, d);
    }
  }

  /** A sort column, of any type, comes out sorted by its values. */
  lemma {:induction false} LinesSorted(w: Widen, t: Table, columns: seq<string>, filter: Option<Expr>, sorting: Sorting, limit: Option<int>, c: nat)
    requires TableTyped(t) && sorting.By? && Selectable(w, t, columns, filter, sorting)
    requires c < |Shown(t, columns)| && Shown(t, columns)[c] == sorting.key
    ensures SelectLines(w, t, columns, filter, sorting, limit).Ok?
    ensures var lines := SelectLines(w, t, columns, filter, sorting, limit).value;
            forall i, j | 0 <= i < j < |lines| :: c < |lines[i]| && c < |lines[j]| && InValueOrder(w, lines[i][c], lines[j][c], sorting.descending)
  {
    var listed := SelectMeans(w, t, columns, filter, sorting, limit);
    var lines := SelectLines(w, t, columns, filter, sorting, limit).value;
    forall i, j | 0 <= i < j < |lines|
      ensures c < |lines[i]| && c < |lines[j]| && InValueOrder(w, lines[i][c], lines[j][c], sorting.descending)
    {
      assert ShowsRow(t.rows[listed[i]], Shown(t, columns), lines[i]) && ShowsRow(t.rows[listed[j]], Shown(t, columns), lines[j]);
      LeadsShow(w, t.rows, sorting.key, sorting.descending, listed[i], listed[j], lines[i][c], lines[j][c]);
    }
  }

  // ------------------------------------------------------------------
  // Stored data
  // ------------------------------------------------------------------

  /** The type of a column is that of the first column declared with its name. */
  ghost predicate FirstDeclared(columns: seq<Column>, name: string, t: ColumnType) {
    exists k :: 0 <= k < |columns| && columns[k] == Column(name, t) && forall j | 0 <= j < k :: columns[j].name != name
  }

  lemma {:induction false} DeclaredLater(columns: seq<Column>, name: string, t: ColumnType)
    requires columns != [] && columns[0].name != name
    ensures FirstDeclared(columns, name, t) ==> FirstDeclared(columns[1..], name, t)
  {
    if FirstDeclared(columns, name, t) {
      var rest := columns[1..];
      var k :| 0 <= k < |columns| && columns[k] == Column(name, t) && forall j | 0 <= j < k :: columns[j].name != name;
      assert rest[k - 1] == Column(name, t) && forall j | 0 <= j < k - 1 :: rest[j].name == columns[j + 1].name;
    }
  }

  lemma {:induction false} DeclaredStill(columns: seq<Column>, name: string, t: ColumnType)
    requires columns != [] && columns[0].name != name && FirstDeclared(columns[1..], name, t)
    ensures FirstDeclared(columns, name, t)
  {
    var rest := columns[1..];
    var k :| 0 <= k < |rest| && rest[k] == Column(name, t) && forall j | 0 <= j < k :: rest[j].name != name;
    assert columns[k + 1] == Column(name, t) && forall j | 0 < j < k + 1 :: columns[j].name == rest[j - 1].name;
  }

  lemma {:induction false} TypeOfFirst(columns: seq<Column>, name: string, t: ColumnType)
    ensures TypeOf(columns, name) == Some(t) <==> FirstDeclared(columns, name, t)
    decreases |columns|
  {
    if columns != [] && columns[0].name != name {
      TypeOfFirst(columns[1..], name, t);
      DeclaredLater(columns, name, t);
      if FirstDeclared(columns[1..], name, t) {
        DeclaredStill(columns, name, t);
      }
    }
  }

  /** What a column of a type holds once the literal is stored there. */
  predicate Stores(w: Widen, t: ColumnType, l: Literal, d: Datum) {
    match l
    case NullLiteral => d == Null
    case BoolLiteral(b) => t == BooleanType && d == Bool(b)
    case IntLiteral(i) => (t == IntegerType && d == Int(i)) || (t == RealType && d == Double(w(i)))
    case DoubleLiteral(r) => t == RealType && d == Double(r)
    case TextLiteral(s) => t == TextType && d == Text(s)
  }

  predicate CanStore(t: ColumnType, l: Literal) {
    match l
    case NullLiteral => true
    case BoolLiteral(_) => t == BooleanType
    case IntLiteral(_) => t == IntegerType || t == RealType
    case DoubleLiteral(_) => t == RealType
    case TextLiteral(_) => t == TextType
  }

  lemma {:induction false} CoerceStores(w: Widen, l: Literal, t: ColumnType)
    ensures Coerce(w, l, t).Ok? <==> CanStore(t, l)
    ensures Coerce(w, l, t).Ok? ==> Stores(w, t, l, FromLiteral(Coerce(w, l, t).value))
  {
  }

  ghost predicate CanStoreIn(columns: seq<Column>, name: string, l: Literal) {
    exists t :: FirstDeclared(columns, name, t) && CanStore(t, l)
  }

  ghost predicate StoresIn(w: Widen, columns: seq<Column>, name: string, l: Literal, d: Datum) {
    exists t :: FirstDeclared(columns, name, t) && Stores(w, t, l, d)
  }

  ghost predicate CanAssign(columns: seq<Column>, names: seq<string>, values: seq<Literal>)
    requires |names| == |values|
  {
    forall k | 0 <= k < |names| :: CanStoreIn(columns, names[k], values[k])
  }

  /** What assigning literals to columns makes of a row: a column named holds what the last value
      given for it is stored as, and every other column what it held. */
  ghost predicate Assigned(w: Widen, columns: seq<Column>, names: seq<string>, values: seq<Literal>, row: Row, row': Row)
    requires |names| == |values|
  {
    && (forall name :: name in row' <==> name in row || name in names)
    && (forall name | name in row && name !in names :: row'[name] == row[name])
    && (forall k | 0 <= k < |names| && names[k] !in names[k + 1..] :: StoresIn(w, columns, names[k], values[k], row'[names[k]]))
  }

  lemma {:induction false} CanStoreFirst(w: Widen, columns: seq<Column>, name: string, l: Literal)
    ensures CanStoreIn(columns, name, l) <==> TypeOf(columns, name).Some? && Coerce(w, l, TypeOf(columns, name).value).Ok?
    ensures CanStoreIn(columns, name, l) ==>
              StoresIn(w, columns, name, l, FromLiteral(Coerce(w, l, TypeOf(columns, name).value).value))
  {
    forall t
      ensures TypeOf(columns, name) == Some(t) <==> FirstDeclared(columns, name, t)
    {
      TypeOfFirst(columns, name, t);
    }
    if TypeOf(columns, name).Some? {
      CoerceStores(w, l, TypeOf(columns, name).value);
    }
  }

  lemma {:induction false} AssignedNext(w: Widen, columns: seq<Column>, names: seq<string>, values: seq<Literal>, row: Row, d: Datum, row': Row)
    requires |names| == |values| && names != [] && StoresIn(w, columns, names[0], values[0], d)
    requires Assigned(w, columns, names[1..], values[1..], row[names[0] := d], row')
    ensures Assigned(w, columns, names, values, row, row')
  {
    forall k | 0 <= k < |names| && names[k] !in names[k + 1..]
      ensures StoresIn(w, columns, names[k], values[k], row'[names[k]])
    {
      if k > 0 {
        assert names[1..][k - 1] == names[k] && values[1..][k - 1] == values[k] && names[1..][k..] == names[k + 1..];
      }
    }
    assert forall name :: name in names <==> name == names[0] || name in names[1..];
  }

  lemma {:induction false} AssignMeans(w: Widen, columns: seq<Column>, row: Row, names: seq<string>, values: seq<Literal>)
    requires |names| == |values|
    ensures var r := Assign(w, columns, row, names, values);
            && (r.Ok? <==> CanAssign(columns, names, values)) && (r.Ok? ==> Assigned(w, columns, names, values, row, r.value))
    decreases |names|
  {
    if names != [] {
      CanStoreFirst(w, columns, names[0], values[0]);
      CanAssignNext(columns, names, values);
      if CanStoreIn(columns, names[0], values[0]) {
        var d := FromLiteral(Coerce(w, values[0], TypeOf(columns, names[0]).value).value);
        AssignMeans(w, columns, row[names[0] := d], names[1..], values[1..]);
        if CanAssign(columns, names, values) {
          AssignedNext(w, columns, names, values, row, d, Assign(w, columns, row, names, values).value);
        }
      }
    }
  }

  lemma {:induction false} CanAssignNext(columns: seq<Column>, names: seq<string>, values: seq<Literal>)
    requires |names| == |values| && names != []
    ensures CanAssign(columns, names, values) <==> CanStoreIn(columns, names[0], values[0]) && CanAssign(columns, names[1..], values[1..])
  {
    assert forall k | 0 < k < |names| :: names[k] == names[1..][k - 1] && values[k] == values[1..][k - 1];
    assert forall k | 0 <= k < |names| - 1 :: names[1..][k] == names[k + 1] && values[1..][k] == values[k + 1];
  }

  // ------------------------------------------------------------------
  // Statements
  // ------------------------------------------------------------------

  ghost predicate UpdatedRow(w: Widen, columns: seq<Column>, names: seq<string>, values: seq<Literal>, filter: Option<Expr>, row: Row, row': Row)
    requires |names| == |values|
  {
    if Matches(w, filter, row) then Assigned(w, columns, names, values, row, row') else row' == row
  }

  ghost predicate CanUpdate(w: Widen, columns: seq<Column>, names: seq<string>, values: seq<Literal>, filter: Option<Expr>, rows: seq<Row>)
    requires |names| == |values|
  {
    AnswersAll(w, filter, rows) && forall i | 0 <= i < |rows| && Matches(w, filter, rows[i]) :: CanAssign(columns, names, values)
  }

  ghost predicate RowsUpdated(w: Widen, columns: seq<Column>, names: seq<string>, values: seq<Literal>, filter: Option<Expr>,
                              rows: seq<Row>, rows': seq<Row>)
    requires |names| == |values|
  {
    |rows'| == |rows| && forall i | 0 <= i < |rows| :: UpdatedRow(w, columns, names, values, filter, rows[i], rows'[i])
  }

  lemma {:induction false} UpdatedMeans(w: Widen, columns: seq<Column>, rows: seq<Row>, assignments: seq<(string, Literal)>, filter: Option<Expr>)
    ensures var names, values := FirstsOf(assignments), SecondsOf(assignments);
            var r := UpdatedRows(w, columns, rows, assignments, filter);
            && (r.Ok? <==> CanUpdate(w, columns, names, values, filter, rows))
            && (r.Ok? ==> RowsUpdated(w, columns, names, values, filter, rows, r.value))
    decreases |rows|
  {
    if rows != [] {
      var names, values := FirstsOf(assignments), SecondsOf(assignments);
      UpdatedMeans(w, columns, rows[1..], assignments, filter);
      SelectedMeans(w, filter, rows[0]);
      AssignMeans(w, columns, rows[0], names, values);
      CanUpdateNext(w, columns, names, values, filter, rows);
      if UpdatedRows(w, columns, rows, assignments, filter).Ok? {
        var row := UpdatedRows(w, columns, rows, assignments, filter).value[0];
        UpdatedNext(w, columns, names, values, filter, rows, row, UpdatedRows(w, columns, rows[1..], assignments, filter).value);
      }
    }
  }

  lemma {:induction false} UpdatedNext(w: Widen, columns: seq<Column>, names: seq<string>, values: seq<Literal>, filter: Option<Expr>,
                                       rows: seq<Row>, row: Row, rest: seq<Row>)
    requires |names| == |values| && rows != [] && UpdatedRow(w, columns, names, values, filter, rows[0], row)
    requires RowsUpdated(w, columns, names, values, filter, rows[1..], rest)
    ensures RowsUpdated(w, columns, names, values, filter, rows, [row] + rest)
  {
    forall i | 0 < i < |rows|
      ensures UpdatedRow(w, columns, names, values, filter, rows[i], rest[i - 1])
    {
      assert rows[i] == rows[1..][i - 1];
    }
  }

  lemma {:induction false} CanUpdateNext(w: Widen, columns: seq<Column>, names: seq<string>, values: seq<Literal>, filter: Option<Expr>, rows: seq<Row>)
    requires |names| == |values| && rows != []
    ensures CanUpdate(w, columns, names, values, filter, rows)
            <==> (filter.Some? ==> Answers(w, filter.value, rows[0])) && (Matches(w, filter, rows[0]) ==> CanAssign(columns, names, values))
                 && CanUpdate(w, columns, names, values, filter, rows[1..])
  {
    AnswersNext(w, filter, rows);
    assert forall i | 0 < i < |rows| :: rows[i] == rows[1..][i - 1];
    assert forall i | 0 <= i < |rows| - 1 :: rows[1..][i] == rows[i + 1];
  }

  ghost predicate CanInsert(columns: seq<Column>, targets: seq<string>, tuples: seq<seq<Literal>>) {
    forall j | 0 <= j < |tuples| :: |tuples[j]| == |targets| && CanAssign(columns, targets, tuples[j])
  }

  /** A new row has the table's columns: those targeted hold what was given for them, the others NULL. */
  ghost predicate InsertedRow(w: Widen, columns: seq<Column>, targets: seq<string>, tuple: seq<Literal>, row: Row)
    requires |tuple| == |targets|
  {
    && (forall name :: name in row <==> name in NamesOf(columns) || name in targets)
    && (forall name | name in row && name !in targets :: row[name] == Null)
    && (forall k | 0 <= k < |targets| && targets[k] !in targets[k + 1..] :: StoresIn(w, columns, targets[k], tuple[k], row[targets[k]]))
  }

  ghost predicate RowsInserted(w: Widen, columns: seq<Column>, targets: seq<string>, tuples: seq<seq<Literal>>, rows: seq<Row>) {
    |rows| == |tuples| && forall j | 0 <= j < |rows| :: |tuples[j]| == |targets| && InsertedRow(w, columns, targets, tuples[j], rows[j])
  }

  lemma {:induction false} NewRowMeans(w: Widen, columns: seq<Column>, targets: seq<string>, tuple: seq<Literal>)
    ensures var r := NewRow(w, columns, targets, tuple);
            && (r.Ok? <==> |tuple| == |targets| && CanAssign(columns, targets, tuple))
            && (r.Ok? ==> InsertedRow(w, columns, targets, tuple, r.value))
  {
    if |tuple| == |targets| {
      AssignMeans(w, columns, Blank(columns), targets, tuple);
    }
  }

  lemma {:induction false} CanInsertNext(columns: seq<Column>, targets: seq<string>, tuples: seq<seq<Literal>>)
    requires tuples != []
    ensures CanInsert(columns, targets, tuples)
            <==> |tuples[0]| == |targets| && CanAssign(columns, targets, tuples[0]) && CanInsert(columns, targets, tuples[1..])
  {
    assert forall j | 0 < j < |tuples| :: tuples[j] == tuples[1..][j - 1];
    assert forall j | 0 <= j < |tuples| - 1 :: tuples[1..][j] == tuples[j + 1];
  }

  lemma {:induction false} InsertedNext(w: Widen, columns: seq<Column>, targets: seq<string>, tuples: seq<seq<Literal>>, row: Row, rest: seq<Row>)
    requires tuples != [] && |tuples[0]| == |targets| && InsertedRow(w, columns, targets, tuples[0], row)
    requires RowsInserted(w, columns, targets, tuples[1..], rest)
    ensures RowsInserted(w, columns, targets, tuples, [row] + rest)
  {
    forall j | 0 < j < |tuples|
      ensures |tuples[j]| == |targets| && InsertedRow(w, columns, targets, tuples[j], rest[j - 1])
    {
      assert tuples[j] == tuples[1..][j - 1];
    }
  }

  lemma {:induction false} NewRowsMean(w: Widen, columns: seq<Column>, targets: seq<string>, tuples: seq<seq<Literal>>)
    ensures var r := NewRows(w, columns, targets, tuples);
            && (r.Ok? <==> CanInsert(columns, targets, tuples)) && (r.Ok? ==> RowsInserted(w, columns, targets, tuples, r.value))
    decreases |tuples|
  {
    if tuples != [] {
      var row, rest := NewRow(w, columns, targets, tuples[0]), NewRows(w, columns, targets, tuples[1..]);
      NewRowMeans(w, columns, targets, tuples[0]);
      NewRowsMean(w, columns, targets, tuples[1..]);
      CanInsertNext(columns, targets, tuples);
      if row.Ok? && rest.Ok? {
        InsertedNext(w, columns, targets, tuples, row.value, rest.value);
      }
    }
  }

  /** Whether a statement can be carried out. */
  ghost predicate Allowed(w: Widen, db: Database, s: Statement) {
    match s
    case CreateTable(table, _) => table !in db
    case InsertInto(table, targets, tuples) =>
      && table in db && (forall k | 0 <= k < |targets| :: targets[k] in NamesOf(db[table].columns))
      && CanInsert(db[table].columns, if targets == [] then NamesOf(db[table].columns) else targets, tuples)
    case UpdateSet(table, assignments, filter) =>
      && table in db && (forall k | 0 <= k < |assignments| :: assignments[k].0 in NamesOf(db[table].columns))
      && CanUpdate(w, db[table].columns, FirstsOf(assignments), SecondsOf(assignments), filter, db[table].rows)
    case DeleteFrom(table, filter) => table in db && AnswersAll(w, filter, db[table].rows)
  }

  /** The rows of the statement's table afterwards. */
  ghost predicate Leaves(w: Widen, db: Database, s: Statement, rows: seq<Row>)
    requires Allowed(w, db, s)
  {
    match s
    case CreateTable(_, _) => rows == []
    case InsertInto(table, targets, tuples) =>
      var before := db[table].rows;
      && |rows| >= |before| && rows[..|before|] == before
      && RowsInserted(w, db[table].columns, if targets == [] then NamesOf(db[table].columns) else targets, tuples, rows[|before|..])
    case UpdateSet(table, assignments, filter) =>
      RowsUpdated(w, db[table].columns, FirstsOf(assignments), SecondsOf(assignments), filter, db[table].rows, rows)
    case DeleteFrom(table, filter) =>
      exists places :: PlacesOf(w, db[table].rows, filter, false, places) && rows == Permuted(db[table].rows, places)
  }

  function ColumnsOf(db: Database, s: Statement): seq<Column> {
    if s.CreateTable? then s.columns else if s.table in db then db[s.table].columns else []
  }

  lemma {:induction false} InsertMeans(w: Widen, db: Database, table: string, targets: seq<string>, tuples: seq<seq<Literal>>)
    requires table in db
    ensures var s := InsertInto(table, targets, tuples);
            var r := Execute(w, db, s);
            && (r.Ok? <==> Allowed(w, db, s))
            && (r.Ok? ==> && table in r.value && r.value == db[table := Table(db[table].columns, r.value[table].rows)]
                          && Leaves(w, db, s, r.value[table].rows))
  {
    var t := db[table];
    var names := if targets == [] then NamesOf(t.columns) else targets;
    NewRowsMean(w, t.columns, names, tuples);
    if NewRows(w, t.columns, names, tuples).Ok? {
      ConcatParts(t.rows, NewRows(w, t.columns, names, tuples).value);
    }
  }

  lemma {:induction false} UpdateMeans(w: Widen, db: Database, table: string, assignments: seq<(string, Literal)>, filter: Option<Expr>)
    requires table in db
    ensures var s := UpdateSet(table, assignments, filter);
            var r := Execute(w, db, s);
            && (r.Ok? <==> Allowed(w, db, s))
            && (r.Ok? ==> && table in r.value && r.value == db[table := Table(db[table].columns, r.value[table].rows)]
                          && Leaves(w, db, s, r.value[table].rows))
  {
    var t := db[table];
    UpdatedMeans(w, t.columns, t.rows, assignments, filter);
    FirstsNamed(t.columns, assignments);
  }

  lemma {:induction false} FirstsNamed(columns: seq<Column>, assignments: seq<(string, Literal)>)
    ensures AllNamed(columns, FirstsOf(assignments)) <==> forall k | 0 <= k < |assignments| :: assignments[k].0 in NamesOf(columns)
  {
    assert forall k | 0 <= k < |assignments| :: FirstsOf(assignments)[k] == assignments[k].0;
  }

  lemma {:induction false} DeleteMeans(w: Widen, db: Database, table: string, filter: Option<Expr>)
    requires table in db
    ensures var s := DeleteFrom(table, filter);
            var r := Execute(w, db, s);
            && (r.Ok? <==> Allowed(w, db, s))
            && (r.Ok? ==> && table in r.value && r.value == db[table := Table(db[table].columns, r.value[table].rows)]
                          && Leaves(w, db, s, r.value[table].rows))
  {
    var places := FilteredPlaces(w, db[table].rows, filter, false);
  }

  /** A statement succeeds if and only if it can be carried out. It changes its own table alone, keeps
      the columns, and leaves exactly the rows it should. */
  lemma {:induction false} ExecuteMeans(w: Widen, db: Database, s: Statement)
    ensures var r := Execute(w, db, s);
            && (r.Ok? <==> Allowed(w, db, s))
            && (r.Ok? ==> && s.table in r.value && r.value == db[s.table := Table(ColumnsOf(db, s), r.value[s.table].rows)]
                          && Leaves(w, db, s, r.value[s.table].rows))
  {
    if s.table in db {
      match s
      case CreateTable(_, _) =>
      case InsertInto(table, targets, tuples) => InsertMeans(w, db, table, targets, tuples);
      case UpdateSet(table, assignments, filter) => UpdateMeans(w, db, table, assignments, filter);
      case DeleteFrom(table, filter) => DeleteMeans(w, db, table, filter);
    }
  }
}
