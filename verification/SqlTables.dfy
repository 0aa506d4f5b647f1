/** Tables, typed rows, and the statements that read and change them. */
module SqlTables {
  import opened Bytes
  import opened SqlSyntax

  datatype ColumnType = IntegerType | RealType | TextType | BooleanType

  datatype Column = Column(name: string, kind: ColumnType)

  datatype Datum = Null | Bool(b: bool) | Int(i: int) | Double(r: real) | Text(s: string)

  type Row = map<string, Datum>

  datatype Table = Table(columns: seq<Column>, rows: seq<Row>)

  type Database = map<string, Table>

  /** How a 64-bit integer becomes a double. */
  type Widen = int -> real

  // ------------------------------------------------------------------
  // Literals and comparison
  // ------------------------------------------------------------------

  function ToLiteral(d: Datum): Literal {
    match d
    case Null => NullLiteral
    case Bool(b) => BoolLiteral(b)
    case Int(i) => IntLiteral(i)
    case Double(r) => DoubleLiteral(r)
    case Text(s) => TextLiteral(s)
  }

  function FromLiteral(l: Literal): Datum {
    match l
    case NullLiteral => Null
    case BoolLiteral(b) => Bool(b)
    case IntLiteral(i) => Int(i)
    case DoubleLiteral(r) => Double(r)
    case TextLiteral(s) => Text(s)
  }

  predicate LessText(a: string, b: string) {
    if b == [] then false
    else if a == [] then true
    else if a[0] != b[0] then a[0] < b[0]
    else LessText(a[1..], b[1..])
  }

  function Sign(less: bool, greater: bool): int {
    if less then -1 else if greater then 1 else 0
  }

  /** Integers take part as doubles. */
  function Number(w: Widen, d: Datum): Option<real> {
    match d
    case Int(i) => Some(w(i))
    case Double(r) => Some(r)
    case _ => None
  }

  /** -1, 0 or 1; nothing if either side is NULL; an error if the types cannot be compared. */
  function CompareLiteral(w: Widen, v: Datum, l: Literal): Result<Option<int>> {
    var other := FromLiteral(l);
    if v.Null? || other.Null? then Ok(None)
    else if v.Text? && other.Text? then Ok(Some(Sign(LessText(v.s, other.s), LessText(other.s, v.s))))
    else if v.Bool? && other.Bool? then Ok(Some(Sign(!v.b && other.b, v.b && !other.b)))
    else if Number(w, v).Some? && Number(w, other).Some?
    then Ok(Some(Sign(Number(w, v).value < Number(w, other).value, Number(w, v).value > Number(w, other).value)))
    else Err(Malformed)
  }

  function LessForSort(w: Widen, a: Datum, b: Datum): Result<bool> {
    if a.Null? then Ok(false)
    else if b.Null? then Ok(true)
    else match CompareLiteral(w, a, ToLiteral(b))
      case Ok(Some(c)) => Ok(c < 0)
      case Ok(None) => Err(Malformed)
      case Err(e) => Err(e)
  }

  /** NULL goes everywhere; an integer goes into a REAL column as a double. */
  function Coerce(w: Widen, l: Literal, t: ColumnType): Result<Literal> {
    if l.NullLiteral? then Ok(l)
    else match t
      case IntegerType => if l.IntLiteral? then Ok(l) else Err(Malformed)
      case RealType =>
        if l.IntLiteral? then Ok(DoubleLiteral(w(l.i))) else if l.DoubleLiteral? then Ok(l) else Err(Malformed)
      case TextType => if l.TextLiteral? then Ok(l) else Err(Malformed)
      case BooleanType => if l.BoolLiteral? then Ok(l) else Err(Malformed)
  }

  // ------------------------------------------------------------------
  // WHERE
  // ------------------------------------------------------------------

  function Holds(op: Comparator, c: int): bool {
    match op
    case Eq => c == 0
    case Neq => c != 0
    case Lt => c < 0
    case Lte => c <= 0
    case Gt => c > 0
    case Gte => c >= 0
  }

  /** A comparison with NULL is false; AND and OR look at the right side only if they must. */
  function Evaluate(w: Widen, e: Expr, row: Row): Result<bool> {
    match e
    case Compare(column, op, value) =>
      if column !in row then Err(Malformed) else
      var c :- CompareLiteral(w, row[column], value);
      Ok(c.Some? && Holds(op, c.value))
    case And(l, r) =>
      var left :- Evaluate(w, l, row);
      if left then Evaluate(w, r, row) else Ok(false)
    case Or(l, r) =>
      var left :- Evaluate(w, l, row);
      if left then Ok(true) else Evaluate(w, r, row)
    case Not(x) =>
      var b :- Evaluate(w, x, row);
      Ok(!b)
  }

  function Selected(w: Widen, filter: Option<Expr>, row: Row): Result<bool> {
    if filter.None? then Ok(true) else Evaluate(w, filter.value, row)
  }

  // ------------------------------------------------------------------
  // Columns and types
  // ------------------------------------------------------------------

  function NamesOf(columns: seq<Column>): (r: seq<string>)
    ensures |r| == |columns|
  {
    seq(|columns|, i requires 0 <= i < |columns| => columns[i].name)
  }

  /** The type of the first column of that name. */
  function TypeOf(columns: seq<Column>, name: string): (r: Option<ColumnType>)
    ensures r.Some? <==> name in NamesOf(columns)
    decreases |columns|
  {
    if columns == [] then None
    else
      assert NamesOf(columns) == [columns[0].name] + NamesOf(columns[1..]);
      if columns[0].name == name then Some(columns[0].kind) else TypeOf(columns[1..], name)
  }

  predicate HasType(d: Datum, t: ColumnType) {
    match t
    case IntegerType => d.Null? || d.Int?
    case RealType => d.Null? || d.Double?
    case TextType => d.Null? || d.Text?
    case BooleanType => d.Null? || d.Bool?
  }

  /** A row has exactly its table's columns, each NULL or of the first declared type. */
  ghost predicate RowTyped(columns: seq<Column>, row: Row) {
    && (forall name :: name in row <==> name in NamesOf(columns))
    && (forall name | name in row :: TypeOf(columns, name).Some? && HasType(row[name], TypeOf(columns, name).value))
  }

  ghost predicate TableTyped(t: Table) {
    forall i | 0 <= i < |t.rows| :: RowTyped(t.columns, t.rows[i])
  }

  ghost predicate Typed(db: Database) {
    forall name | name in db :: TableTyped(db[name])
  }

  // ------------------------------------------------------------------
  // Statements
  // ------------------------------------------------------------------

  datatype Statement =
    | CreateTable(table: string, columns: seq<Column>)
    | InsertInto(table: string, targets: seq<string>, tuples: seq<seq<Literal>>)
    | UpdateSet(table: string, assignments: seq<(string, Literal)>, filter: Option<Expr>)
    | DeleteFrom(table: string, filter: Option<Expr>)

  function Blank(columns: seq<Column>): Row {
    map name | name in NamesOf(columns) :: Null
  }

  /** Assigns literals to columns, in order. */
  function Assign(w: Widen, columns: seq<Column>, row: Row, names: seq<string>, values: seq<Literal>): Result<Row>
    requires |names| == |values|
    decreases |names|
  {
    if names == [] then Ok(row) else
    match TypeOf(columns, names[0])
    case None => Err(Malformed)
    case Some(t) =>
      var l :- Coerce(w, values[0], t);
      Assign(w, columns, row[names[0] := FromLiteral(l)], names[1..], values[1..])
  }

  predicate AllNamed(columns: seq<Column>, names: seq<string>) {
    forall i | 0 <= i < |names| :: names[i] in NamesOf(columns)
  }

  function NewRow(w: Widen, columns: seq<Column>, targets: seq<string>, tuple: seq<Literal>): Result<Row> {
    if |tuple| != |targets| then Err(Malformed) else Assign(w, columns, Blank(columns), targets, tuple)
  }

  function NewRows(w: Widen, columns: seq<Column>, targets: seq<string>, tuples: seq<seq<Literal>>): Result<seq<Row>>
    decreases |tuples|
  {
    if tuples == [] then Ok([]) else
    var row :- NewRow(w, columns, targets, tuples[0]);
    var rest :- NewRows(w, columns, targets, tuples[1..]);
    Ok([row] + rest)
  }

  function FirstsOf(assignments: seq<(string, Literal)>): (r: seq<string>)
    ensures |r| == |assignments|
  {
    seq(|assignments|, i requires 0 <= i < |assignments| => assignments[i].0)
  }

  function SecondsOf(assignments: seq<(string, Literal)>): (r: seq<Literal>)
    ensures |r| == |assignments|
  {
    seq(|assignments|, i requires 0 <= i < |assignments| => assignments[i].1)
  }

  function UpdatedRows(w: Widen, columns: seq<Column>, rows: seq<Row>, assignments: seq<(string, Literal)>, filter: Option<Expr>): Result<seq<Row>>
    decreases |rows|
  {
    if rows == [] then Ok([]) else
    var hit :- Selected(w, filter, rows[0]);
    var row :- if hit then Assign(w, columns, rows[0], FirstsOf(assignments), SecondsOf(assignments)) else Ok(rows[0]);
    var rest :- UpdatedRows(w, columns, rows[1..], assignments, filter);
    Ok([row] + rest)
  }

  /** The rows for which the filter says `keep`, in order. */
  function Filtered(w: Widen, rows: seq<Row>, filter: Option<Expr>, keep: bool): Result<seq<Row>>
    decreases |rows|
  {
    if rows == [] then Ok([]) else
    var hit :- Selected(w, filter, rows[0]);
    var rest :- Filtered(w, rows[1..], filter, keep);
    Ok(if hit == keep then [rows[0]] + rest else rest)
  }

  /** The database after a statement; a statement that fails changes nothing. */
  function Execute(w: Widen, db: Database, s: Statement): Result<Database> {
    match s
    case CreateTable(table, columns) => if table in db then Err(Malformed) else Ok(db[table := Table(columns, [])])
    case InsertInto(table, targets, tuples) =>
      if table !in db then Err(Malformed) else
      var t := db[table];
      var names := if targets == [] then NamesOf(t.columns) else targets;
      if !AllNamed(t.columns, names) then Err(Malformed) else
      var rows :- NewRows(w, t.columns, names, tuples);
      Ok(db[table := t.(rows := t.rows + rows)])
    case UpdateSet(table, assignments, filter) =>
      if table !in db then Err(Malformed) else
      var t := db[table];
      if !AllNamed(t.columns, FirstsOf(assignments)) then Err(Malformed) else
      var rows :- UpdatedRows(w, t.columns, t.rows, assignments, filter);
      Ok(db[table := t.(rows := rows)])
    case DeleteFrom(table, filter) =>
      if table !in db then Err(Malformed) else
      var rows :- Filtered(w, db[table].rows, filter, false);
      Ok(db[table := db[table].(rows := rows)])
  }

  // ------------------------------------------------------------------
  // Every statement keeps the tables typed
  // ------------------------------------------------------------------

  lemma {:induction false} CoerceTypes(w: Widen, l: Literal, t: ColumnType)
    requires Coerce(w, l, t).Ok?
    ensures HasType(FromLiteral(Coerce(w, l, t).value), t)
  {
  }

  lemma {:induction false} BlankTyped(columns: seq<Column>)
    ensures RowTyped(columns, Blank(columns))
  {
  }

  lemma {:induction false} AssignOneTyped(w: Widen, columns: seq<Column>, row: Row, name: string, l: Literal)
    requires RowTyped(columns, row) && TypeOf(columns, name).Some? && Coerce(w, l, TypeOf(columns, name).value).Ok?
    ensures RowTyped(columns, row[name := FromLiteral(Coerce(w, l, TypeOf(columns, name).value).value)])
  {
    CoerceTypes(w, l, TypeOf(columns, name).value);
  }

  lemma {:induction false} AssignTyped(w: Widen, columns: seq<Column>, row: Row, names: seq<string>, values: seq<Literal>)
    requires |names| == |values| && RowTyped(columns, row) && Assign(w, columns, row, names, values).Ok?
    ensures RowTyped(columns, Assign(w, columns, row, names, values).value)
    decreases |names|
  {
    if names != [] {
      AssignOneTyped(w, columns, row, names[0], values[0]);
      var l := Coerce(w, values[0], TypeOf(columns, names[0]).value).value;
      AssignTyped(w, columns, row[names[0] := FromLiteral(l)], names[1..], values[1..]);
    }
  }

  ghost predicate RowsTyped(columns: seq<Column>, rows: seq<Row>) {
    forall i | 0 <= i < |rows| :: RowTyped(columns, rows[i])
  }

  lemma {:induction false} ConsTyped(columns: seq<Column>, row: Row, rest: seq<Row>)
    requires RowTyped(columns, row) && RowsTyped(columns, rest)
    ensures RowsTyped(columns, [row] + rest)
  {
  }

  lemma {:induction false} NewRowsTyped(w: Widen, columns: seq<Column>, targets: seq<string>, tuples: seq<seq<Literal>>)
    requires NewRows(w, columns, targets, tuples).Ok?
    ensures RowsTyped(columns, NewRows(w, columns, targets, tuples).value) && |NewRows(w, columns, targets, tuples).value| == |tuples|
    decreases |tuples|
  {
    if tuples != [] {
      BlankTyped(columns);
      AssignTyped(w, columns, Blank(columns), targets, tuples[0]);
      NewRowsTyped(w, columns, targets, tuples[1..]);
      ConsTyped(columns, NewRow(w, columns, targets, tuples[0]).value, NewRows(w, columns, targets, tuples[1..]).value);
    }
  }

  lemma {:induction false} UpdatedRowsTyped(w: Widen, columns: seq<Column>, rows: seq<Row>, assignments: seq<(string, Literal)>, filter: Option<Expr>)
    requires RowsTyped(columns, rows) && UpdatedRows(w, columns, rows, assignments, filter).Ok?
    ensures RowsTyped(columns, UpdatedRows(w, columns, rows, assignments, filter).value)
    ensures |UpdatedRows(w, columns, rows, assignments, filter).value| == |rows|
    decreases |rows|
  {
    if rows != [] {
      UpdatedRowsTyped(w, columns, rows[1..], assignments, filter);
      var rest := UpdatedRows(w, columns, rows[1..], assignments, filter).value;
      if Selected(w, filter, rows[0]).value {
        AssignTyped(w, columns, rows[0], FirstsOf(assignments), SecondsOf(assignments));
        ConsTyped(columns, Assign(w, columns, rows[0], FirstsOf(assignments), SecondsOf(assignments)).value, rest);
      } else {
        ConsTyped(columns, rows[0], rest);
      }
    }
  }

  lemma {:induction false} FilteredTyped(w: Widen, columns: seq<Column>, rows: seq<Row>, filter: Option<Expr>, keep: bool)
    requires RowsTyped(columns, rows) && Filtered(w, rows, filter, keep).Ok?
    ensures RowsTyped(columns, Filtered(w, rows, filter, keep).value)
    decreases |rows|
  {
    if rows != [] {
      FilteredTyped(w, columns, rows[1..], filter, keep);
      ConsTyped(columns, rows[0], Filtered(w, rows[1..], filter, keep).value);
    }
  }

  lemma {:induction false} TablePut(db: Database, name: string, t: Table)
    requires Typed(db) && TableTyped(t)
    ensures Typed(db[name := t])
  {
  }

  lemma {:induction false} ConcatTyped(columns: seq<Column>, a: seq<Row>, b: seq<Row>)
    requires RowsTyped(columns, a) && RowsTyped(columns, b)
    ensures RowsTyped(columns, a + b)
  {
  }

  /** Every statement leaves every row with exactly its table's columns, each NULL or of the first
      declared type. */
  lemma {:induction false} ExecuteTyped(w: Widen, db: Database, s: Statement)
    requires Typed(db) && Execute(w, db, s).Ok?
    ensures Typed(Execute(w, db, s).value)
  {
    match s
    case CreateTable(table, columns) => TablePut(db, table, Table(columns, []));
    case InsertInto(table, targets, tuples) =>
      var t := db[table];
      var names := if targets == [] then NamesOf(t.columns) else targets;
      NewRowsTyped(w, t.columns, names, tuples);
      ConcatTyped(t.columns, t.rows, NewRows(w, t.columns, names, tuples).value);
      TablePut(db, table, Execute(w, db, s).value[table]);
    case UpdateSet(table, assignments, filter) =>
      UpdatedRowsTyped(w, db[table].columns, db[table].rows, assignments, filter);
      TablePut(db, table, Execute(w, db, s).value[table]);
    case DeleteFrom(table, filter) =>
      FilteredTyped(w, db[table].columns, db[table].rows, filter, false);
      TablePut(db, table, Execute(w, db, s).value[table]);
  }

  /** The database after a run of statements, failed ones skipped. */
  function RunAll(w: Widen, db: Database, statements: seq<Statement>): Database
    decreases |statements|
  {
    if statements == [] then db
    else RunAll(w, if Execute(w, db, statements[0]).Ok? then Execute(w, db, statements[0]).value else db, statements[1..])
  }

  lemma {:induction false} RunTyped(w: Widen, db: Database, statements: seq<Statement>)
    requires Typed(db)
    ensures Typed(RunAll(w, db, statements))
    decreases |statements|
  {
    if statements != [] {
      if Execute(w, db, statements[0]).Ok? {
        ExecuteTyped(w, db, statements[0]);
      }
      RunTyped(w, if Execute(w, db, statements[0]).Ok? then Execute(w, db, statements[0]).value else db, statements[1..]);
    }
  }
}
