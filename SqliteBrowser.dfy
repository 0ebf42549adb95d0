/** The SQLite browser: the SQL text its database manager builds for inserts,
    updates, deletes and table creation, the filter on the table list, the
    page state of the data view, and the conversion of the record form into
    the values of an insert. Executing SQL is outside the model. */
module SqliteBrowser {
  import opened Text

  /** A value bound to a `?` placeholder. */
  datatype SqlValue = Null | Int(i: int) | Text(s: string) | Bool(b: bool)

  /** A column of a new table, as `create_table_from_schema` receives it. */
  datatype ColumnSpec = ColumnSpec(name: string, sqlType: string, primaryKey: bool, notNull: bool, default: SqlValue)

  /** A query with its parameters. */
  datatype Statement = Statement(query: string, params: seq<SqlValue>)

  function Keys(data: seq<(string, SqlValue)>): (r: seq<string>)
    ensures |r| == |data| && forall i :: 0 <= i < |data| ==> r[i] == data[i].0
  {
    if data == [] then [] else [data[0].0] + Keys(data[1..])
  }

  function Values(data: seq<(string, SqlValue)>): (r: seq<SqlValue>)
    ensures |r| == |data| && forall i :: 0 <= i < |data| ==> r[i] == data[i].1
  {
    if data == [] then [] else [data[0].1] + Values(data[1..])
  }

  function Repeat(s: string, n: nat): (r: seq<string>)
    ensures |r| == n && forall i :: 0 <= i < n ==> r[i] == s
  {
    seq(n, _ => s)
  }

  /** `f"{col} = ?"` for each column. */
  function Assignments(cols: seq<string>): (r: seq<string>)
    ensures |r| == |cols| && forall i :: 0 <= i < |cols| ==> r[i] == cols[i] + " = ?"
  {
    if cols == [] then [] else [cols[0] + " = ?"] + Assignments(cols[1..])
  }

  /** `insert_record`: the columns in the order of the record, as many `?`
      as columns, and the values in the same order. */
  function InsertRecord(table: string, data: seq<(string, SqlValue)>): (st: Statement)
    ensures st.params == Values(data)
  {
    Statement("INSERT INTO " + table + " (" + Join(Keys(data), ", ") + ") VALUES ("
              + Join(Repeat("?", |data|), ", ") + ")", Values(data))
  }

  /** `update_record`: one `col = ?` per column; the record's values, then
      the parameters of the WHERE clause. */
  function UpdateRecord(table: string, data: seq<(string, SqlValue)>, whereClause: string,
                        whereParams: seq<SqlValue>): (st: Statement)
    ensures st.params == Values(data) + whereParams
    ensures |st.params| == |data| + |whereParams|
  {
    Statement("UPDATE " + table + " SET " + Join(Assignments(Keys(data)), ", ") + " WHERE " + whereClause,
              Values(data) + whereParams)
  }

  /** `delete_record` */
  function DeleteRecord(table: string, whereClause: string, whereParams: seq<SqlValue>): (st: Statement)
    ensures st.params == whereParams && EndsWith(st.query, " WHERE " + whereClause)
  {
    var q := "DELETE FROM " + table + " WHERE " + whereClause;
    assert q[|q| - |" WHERE " + whereClause|..] == " WHERE " + whereClause;
    Statement(q, whereParams)
  }

  /** Python truthiness of a default value. */
  predicate Truthy(v: SqlValue)
  {
    match v
    case Null => false
    case Int(i) => i != 0
    case Text(s) => s != ""
    case Bool(b) => b
  }

  /** `str()` of a default value. */
  function Render(v: SqlValue): (r: string)
    ensures v.Int? ==> ParseInt(r) == Some(v.i)
    ensures v.Text? ==> r == v.s
    ensures v.Bool? ==> (r == "True" <==> v.b)
  {
    if v.Int? then ParseIntDecimalInt(v.i); DecimalInt(v.i)
    else match v
    case Null => "None"
    case Int(i) => DecimalInt(i)
    case Text(s) => s
    case Bool(b) => if b then "True" else "False"
  }

  /** One column definition: name and type, then " PRIMARY KEY", " NOT NULL"
      and " DEFAULT d" when they apply, in that order. */
  function ColumnDefinition(c: ColumnSpec): (d: string)
    ensures StartsWith(d, c.name + " " + c.sqlType)
    ensures Truthy(c.default) ==> EndsWith(d, " DEFAULT " + Render(c.default))
    ensures !c.primaryKey && !c.notNull && !Truthy(c.default) ==> d == c.name + " " + c.sqlType
    ensures |d| == |c.name| + 1 + |c.sqlType| + (if c.primaryKey then 12 else 0) + (if c.notNull then 9 else 0)
      + (if Truthy(c.default) then 9 + |Render(c.default)| else 0)
    ensures var h := |c.name| + 1 + |c.sqlType|;
      c.primaryKey ==> d[h..h + 12] == " PRIMARY KEY"
    ensures var h := |c.name| + 1 + |c.sqlType| + (if c.primaryKey then 12 else 0);
      c.notNull ==> d[h..h + 9] == " NOT NULL"
  {
    var head := c.name + " " + c.sqlType;
    var pk := if c.primaryKey then " PRIMARY KEY" else "";
    var nn := if c.notNull then " NOT NULL" else "";
    var df := if Truthy(c.default) then " DEFAULT " + Render(c.default) else "";
    var d := head + pk + nn + df;
    assert d[..|head|] == head;
    assert d[|d| - |df|..] == df;
    assert d[|head|..|head| + |pk|] == pk;
    assert d[|head| + |pk|..|head| + |pk| + |nn|] == nn;
    d
  }

  function ColumnDefinitions(schema: seq<ColumnSpec>): (r: seq<string>)
    ensures |r| == |schema| && forall i :: 0 <= i < |schema| ==> r[i] == ColumnDefinition(schema[i])
  {
    if schema == [] then [] else [ColumnDefinition(schema[0])] + ColumnDefinitions(schema[1..])
  }

  /** The body of `create_table_from_schema`'s loop: one column's definition,
      built clause by clause. */
  method BuildDefinition(c: ColumnSpec) returns (definition: string)
    ensures definition == ColumnDefinition(c)
  {
    definition := c.name + " " + c.sqlType;
    if c.primaryKey {
      definition := definition + " PRIMARY KEY";
    }
    if c.notNull {
      definition := definition + " NOT NULL";
    }
    if Truthy(c.default) {
      definition := definition + " DEFAULT " + Render(c.default);
    }
  }

  /** `create_table_from_schema`: the definitions are built one column at a
      time and joined with ", ". */
  method CreateTableFromSchema(table: string, schema: seq<ColumnSpec>) returns (query: string)
    ensures query == "CREATE TABLE " + table + " (" + Join(ColumnDefinitions(schema), ", ") + ")"
  {
    var definitions: seq<string> := [];
    for i := 0 to |schema|
      invariant |definitions| == i
      invariant forall k :: 0 <= k < i ==> definitions[k] == ColumnDefinition(schema[k])
    {
      var definition := BuildDefinition(schema[i]);
      definitions := definitions + [definition];
    }
    assert definitions == ColumnDefinitions(schema);
    query := "CREATE TABLE " + table + " (" + Join(definitions, ", ") + ")";
  }

  // ---------------------------------------------------------------- placeholders

  /** The number of `?` placeholders in a query. */
  function CountMarks(s: string): nat
  {
    if s == [] then 0 else (if s[0] == '?' then 1 else 0) + CountMarks(s[1..])
  }

  /** The placeholders of the pieces of a list. */
  function MarksOfAll(xs: seq<string>): nat
  {
    if xs == [] then 0 else CountMarks(xs[0]) + MarksOfAll(xs[1..])
  }

  /** Joining with ", " adds no placeholder. */
  lemma {:induction false} CountMarksJoin(xs: seq<string>)
    ensures CountMarks(Join(xs, ", ")) == MarksOfAll(xs)
  {
    if |xs| > 1 {
      CountMarksJoin(xs[1..]);
      assert Join(xs, ", ") == xs[0] + ", " + Join(xs[1..], ", ");
      var comma := ", ";
      MarksAround(comma, xs[0], comma);
      MarksConcat(xs[0] + comma, Join(xs[1..], comma));
    }
  }

  lemma {:induction false} MarksOfQuestions(n: nat)
    ensures MarksOfAll(Repeat("?", n)) == n
  {
    if n > 0 {
      assert Repeat("?", n)[1..] == Repeat("?", n - 1);
      MarksOfQuestions(n - 1);
    }
  }

  lemma {:induction false} MarksOfNames(names: seq<string>)
    requires forall i :: 0 <= i < |names| ==> '?' !in names[i]
    ensures MarksOfAll(names) == 0
  {
    if names != [] {
      NoMarks(names[0]);
      MarksOfNames(names[1..]);
    }
  }

  lemma {:induction false} MarksOfAssignments(names: seq<string>)
    requires forall i :: 0 <= i < |names| ==> '?' !in names[i]
    ensures MarksOfAll(Assignments(names)) == |names|
  {
    if names != [] {
      assert Assignments(names)[1..] == Assignments(names[1..]);
      MarksOfAssignments(names[1..]);
      assert names[0] + " = ?" == names[0] + " = " + "?";
      NoMarks(names[0]);
      NoMarks(" = ");
      MarksConcat(names[0], " = ");
      MarksConcat(names[0] + " = ", "?");
    }
  }

  /** Concatenation adds up the placeholders. */
  lemma {:induction false} MarksConcat(a: string, b: string)
    ensures CountMarks(a + b) == CountMarks(a) + CountMarks(b)
  {
    if a == [] {
      assert a + b == b;
    } else {
      assert (a + b)[1..] == a[1..] + b;
      MarksConcat(a[1..], b);
    }
  }

  lemma {:induction false} NoMarks(s: string)
    requires '?' !in s
    ensures CountMarks(s) == 0
  {
    if s != [] {
      assert s == [s[0]] + s[1..];
      NoMarks(s[1..]);
    }
  }

  /** A mark-free text before or after `x` adds no placeholder. */
  lemma MarksAround(a: string, x: string, b: string)
    requires '?' !in a && '?' !in b
    ensures CountMarks(a + x) == CountMarks(x)
    ensures CountMarks(x + b) == CountMarks(x)
  {
    NoMarks(a);
    NoMarks(b);
    MarksConcat(a, x);
    MarksConcat(x, b);
  }

  lemma InsertMarks(table: string, cols: string, marks: string)
    requires '?' !in table
    ensures CountMarks("INSERT INTO " + table + " (" + cols + ") VALUES (" + marks + ")") == CountMarks(cols) + CountMarks(marks)
  {
    var head, middle, tail := "INSERT INTO " + table + " (", ") VALUES (", ")";
    MarksAround(head, cols, middle);
    MarksConcat(head + cols + middle, marks);
    MarksAround(head, head + cols, middle);
    MarksAround(head, head + cols + middle + marks, tail);
  }

  /** The INSERT has exactly one placeholder per parameter, when neither the
      table nor a column name holds a question mark. */
  lemma InsertPlaceholders(table: string, data: seq<(string, SqlValue)>)
    requires '?' !in table && forall i :: 0 <= i < |data| ==> '?' !in data[i].0
    ensures CountMarks(InsertRecord(table, data).query) == |InsertRecord(table, data).params|
  {
    CountMarksJoin(Keys(data));
    MarksOfNames(Keys(data));
    CountMarksJoin(Repeat("?", |data|));
    MarksOfQuestions(|data|);
    InsertMarks(table, Join(Keys(data), ", "), Join(Repeat("?", |data|), ", "));
  }

  lemma UpdateMarks(table: string, sets: string, whereClause: string)
    requires '?' !in table
    ensures CountMarks("UPDATE " + table + " SET " + sets + " WHERE " + whereClause) == CountMarks(sets) + CountMarks(whereClause)
  {
    var head, middle := "UPDATE " + table + " SET ", " WHERE ";
    MarksAround(head, sets, middle);
    MarksAround(head, head + sets, middle);
    MarksConcat(head + sets + middle, whereClause);
  }

  /** The UPDATE has one placeholder per column plus those of the WHERE
      clause, so it matches its parameters when the WHERE clause has one
      per WHERE parameter. */
  lemma UpdatePlaceholders(table: string, data: seq<(string, SqlValue)>, whereClause: string, whereParams: seq<SqlValue>)
    requires '?' !in table && forall i :: 0 <= i < |data| ==> '?' !in data[i].0
    requires CountMarks(whereClause) == |whereParams|
    ensures CountMarks(UpdateRecord(table, data, whereClause, whereParams).query) ==
      |UpdateRecord(table, data, whereClause, whereParams).params|
  {
    var sets := Join(Assignments(Keys(data)), ", ");
    assert CountMarks(sets) == |data| by {
      CountMarksJoin(Assignments(Keys(data)));
      MarksOfAssignments(Keys(data));
    }
    UpdateMarks(table, sets, whereClause);
  }

  /** The DELETE's only placeholders are those of its WHERE clause. */
  lemma DeletePlaceholders(table: string, whereClause: string, whereParams: seq<SqlValue>)
    requires '?' !in table && CountMarks(whereClause) == |whereParams|
    ensures CountMarks(DeleteRecord(table, whereClause, whereParams).query) == |whereParams|
  {
    var head := "DELETE FROM " + table + " WHERE ";
    MarksAround(head, whereClause, head);
  }

  // ---------------------------------------------------------------- table list

  /** `get_tables`: the table names without SQLite's own `sqlite_` tables. */
  function UserTables(names: seq<string>): (r: seq<string>)
    ensures |r| <= |names|
    ensures forall i :: 0 <= i < |r| ==> !StartsWith(r[i], "sqlite_")
  {
    if names == [] then []
    else if StartsWith(names[0], "sqlite_") then UserTables(names[1..])
    else [names[0]] + UserTables(names[1..])
  }

  /** The filter keeps the order: it works piece by piece. */
  lemma {:induction false} UserTablesAppend(a: seq<string>, b: seq<string>)
    ensures UserTables(a + b) == UserTables(a) + UserTables(b)
  {
    if a == [] {
      assert a + b == b;
    } else {
      assert (a + b)[0] == a[0] && (a + b)[1..] == a[1..] + b;
      UserTablesAppend(a[1..], b);
    }
  }

  /** A name is listed exactly when it is a table name without the prefix. */
  lemma {:induction false} UserTablesMembers(names: seq<string>, x: string)
    ensures x in UserTables(names) <==> x in names && !StartsWith(x, "sqlite_")
  {
    if names != [] {
      UserTablesMembers(names[1..], x);
      assert names == [names[0]] + names[1..];
    }
  }

  // ---------------------------------------------------------------- pages

  /** The OFFSET of a page, `current_page * page_size`: the rows of the pages before it. */
  function Offset(page: nat, pageSize: nat): (o: nat)
    ensures o == 0 <==> page == 0 || pageSize == 0
  {
    page * pageSize
  }

  /** Each page starts where the page before it ends. */
  lemma OffsetStep(page: nat, pageSize: nat)
    ensures Offset(page + 1, pageSize) == Offset(page, pageSize) + pageSize
  {
    assert (page + 1) * pageSize == page * pageSize + pageSize;
  }


  /** `(total_rows + page_size - 1) // page_size` */
  function TotalPages(rows: nat, pageSize: nat): (n: nat)
    requires pageSize > 0
    ensures n * pageSize >= rows
    ensures n > 0 ==> (n - 1) * pageSize < rows
  {
    var n := (rows + pageSize - 1) / pageSize;
    assert n * pageSize <= rows + pageSize - 1 < (n + 1) * pageSize;
    n
  }

  /** The page count shown: never less than 1. */
  function PagesShown(rows: nat, pageSize: nat): (n: nat)
    requires pageSize > 0
    ensures n >= 1
    ensures rows == 0 ==> n == 1
    ensures rows > 0 ==> n == TotalPages(rows, pageSize)
  {
    var t := TotalPages(rows, pageSize);
    if t > 1 then t else 1
  }

  /** Every page before the count starts inside the table, and the pages
      after it start past its end. */
  lemma PageStarts(rows: nat, pageSize: nat, page: nat)
    requires pageSize > 0
    ensures page < TotalPages(rows, pageSize) <==> Offset(page, pageSize) < rows
  {
    var n := TotalPages(rows, pageSize);
    if page < n {
      assert page * pageSize <= (n - 1) * pageSize;
    } else {
      assert page * pageSize >= n * pageSize;
    }
  }

  /** What `load_table_data` puts in the page box. */
  datatype PageView = PageView(offset: nat, limit: nat, shown: nat, pages: nat)

  class DataView {
    var currentPage: nat
    var pageSize: nat
    var currentTable: Option<string>

    ghost predicate Valid()
      reads this
    {
      pageSize > 0
    }

    constructor ()
      ensures Valid()
      ensures currentPage == 0 && pageSize == 50 && currentTable == None
    {
      currentPage, pageSize, currentTable := 0, 50, None;
    }

    /** `load_table_data`: `loaded` is false when the table has no columns
        or a query raised; only a load that gets through remembers the
        table. `rows` is what the count query returned. */
    method Load(table: string, loaded: bool, rows: nat) returns (view: Option<PageView>)
      requires Valid()
      modifies this`currentTable
      ensures Valid()
      ensures currentTable == if loaded then Some(table) else old(currentTable)
      ensures view == if loaded then
        Some(PageView(Offset(currentPage, pageSize), pageSize, currentPage + 1, PagesShown(rows, pageSize)))
        else None
    {
      if !loaded {
        return None;
      }
      view := Some(PageView(Offset(currentPage, pageSize), pageSize, currentPage + 1, PagesShown(rows, pageSize)));
      currentTable := Some(table);
    }

    /** A click in the table list: back to the first page, then load. */
    method SelectTable(table: string, loaded: bool, rows: nat) returns (view: Option<PageView>)
      requires Valid()
      modifies this`currentPage, this`currentTable
      ensures Valid() && currentPage == 0 && pageSize == old(pageSize)
      ensures currentTable == if loaded then Some(table) else old(currentTable)
      ensures loaded ==> view == Some(PageView(0, pageSize, 1, PagesShown(rows, pageSize)))
    {
      currentPage := 0;
      view := Load(table, loaded, rows);
    }

    /** A new page size: back to the first page only when a table is shown. */
    method SetPageSize(size: nat, loaded: bool, rows: nat) returns (view: Option<PageView>)
      requires Valid() && size > 0
      modifies this
      ensures Valid() && pageSize == size
      ensures old(currentTable).None? ==> currentPage == old(currentPage) && currentTable == None && view == None
      ensures old(currentTable).Some? ==> currentPage == 0 && currentTable == old(currentTable)
    {
      pageSize := size;
      view := None;
      if currentTable.Some? {
        currentPage := 0;
        view := Load(currentTable.value, loaded, rows);
      }
    }

    /** 'Suivant': one page on, with no upper bound, when a table is shown. */
    method NextPage(loaded: bool, rows: nat) returns (view: Option<PageView>)
      requires Valid()
      modifies this`currentPage, this`currentTable
      ensures Valid() && currentTable == old(currentTable)
      ensures currentPage == if old(currentTable).Some? then old(currentPage) + 1 else old(currentPage)
    {
      view := None;
      if currentTable.Some? {
        currentPage := currentPage + 1;
        view := Load(currentTable.value, loaded, rows);
      }
    }

    /** 'Actualiser': the same page again, when a table is shown. */
    method Refresh(loaded: bool, rows: nat) returns (view: Option<PageView>)
      requires Valid()
      modifies this`currentTable
      ensures Valid() && currentTable == old(currentTable)
      ensures old(currentTable).None? ==> view == None
      ensures old(currentTable).Some? && loaded ==>
        view == Some(PageView(Offset(currentPage, pageSize), pageSize, currentPage + 1, PagesShown(rows, pageSize)))
    {
      view := None;
      if currentTable.Some? {
        view := Load(currentTable.value, loaded, rows);
      }
    }

    /** 'Précédent': one page back, never below the first, when a table is shown. */
    method PreviousPage(loaded: bool, rows: nat) returns (view: Option<PageView>)
      requires Valid()
      modifies this`currentPage, this`currentTable
      ensures Valid() && currentTable == old(currentTable)
      ensures currentPage == if old(currentTable).Some? && old(currentPage) > 0 then old(currentPage) - 1 else old(currentPage)
    {
      view := None;
      if currentTable.Some? && currentPage > 0 {
        currentPage := currentPage - 1;
        view := Load(currentTable.value, loaded, rows);
      }
    }
  }

  // ---------------------------------------------------------------- record form

  /** A column as `get_table_info` describes it (name and declared type). */
  datatype ColumnInfo = ColumnInfo(name: string, sqlType: string)

  /** What a form element holds: a check box for BOOLEAN columns, text otherwise. */
  datatype FormValue = Checked(on: bool) | Entered(text: string)

  /** The value stored for one form element: BOOLEAN columns store 1 or 0,
      an empty text stores NULL, anything else is stored as it is. */
  function Convert(c: ColumnInfo, v: FormValue): (r: SqlValue)
    ensures Upper(c.sqlType) == "BOOLEAN" ==> r == Int(1) || r == Int(0)
    ensures Upper(c.sqlType) == "BOOLEAN" ==> (r == Int(1) <==> (v.Checked? && v.on) || (v.Entered? && v.text != ""))
    ensures Upper(c.sqlType) != "BOOLEAN" && v == Entered("") ==> r == Null
    ensures Upper(c.sqlType) != "BOOLEAN" && v.Entered? && v.text != "" ==> r == Text(v.text)
    ensures Upper(c.sqlType) != "BOOLEAN" && v.Checked? ==> r == Bool(v.on)
  {
    if Upper(c.sqlType) == "BOOLEAN" then
      Int(if (match v case Checked(b) => b case Entered(s) => s != "") then 1 else 0)
    else
      match v
      case Entered(s) => if s == "" then Null else Text(s)
      case Checked(b) => Bool(b)
  }

  function FieldKey(name: string): string
  {
    "COL_" + name
  }

  /** The record built from the form: the columns in table order, only
      those whose element is in the form. */
  function Record(columns: seq<ColumnInfo>, values: map<string, FormValue>): (r: seq<(string, SqlValue)>)
    ensures |r| <= |columns|
  {
    if columns == [] then []
    else
      var rest := Record(columns[..|columns| - 1], values);
      var c := columns[|columns| - 1];
      if FieldKey(c.name) in values then rest + [(c.name, Convert(c, values[FieldKey(c.name)]))]
      else rest
  }

  /** The loop of the 'SAVE_RECORD' handler. */
  method RecordFromForm(columns: seq<ColumnInfo>, values: map<string, FormValue>) returns (data: seq<(string, SqlValue)>)
    ensures data == Record(columns, values)
  {
    data := [];
    for i := 0 to |columns|
      invariant data == Record(columns[..i], values)
    {
      assert columns[..i + 1][..i] == columns[..i];
      var c := columns[i];
      var key := "COL_" + c.name;
      if key in values {
        var value := Convert(c, values[key]);
        data := data + [(c.name, value)];
      }
    }
    assert columns[..|columns|] == columns;
  }

  /** `entry` is column `c` with its converted form element. */
  predicate EntryOf(c: ColumnInfo, values: map<string, FormValue>, entry: (string, SqlValue))
  {
    FieldKey(c.name) in values && entry == (c.name, Convert(c, values[FieldKey(c.name)]))
  }

  /** Each entry of the record comes from one column present in the form,
      converted. */
  lemma {:induction false} RecordEntriesFromForm(columns: seq<ColumnInfo>, values: map<string, FormValue>, k: nat)
    requires k < |Record(columns, values)|
    ensures exists i :: 0 <= i < |columns| && EntryOf(columns[i], values, Record(columns, values)[k])
  {
    var init := columns[..|columns| - 1];
    var rest := Record(init, values);
    if k < |rest| {
      RecordEntriesFromForm(init, values, k);
      var i :| 0 <= i < |init| && EntryOf(init[i], values, rest[k]);
      assert init[i] == columns[i];
    } else {
      assert k == |rest|;
    }
  }

  /** Every column present in the form has an entry. */
  lemma {:induction false} RecordHasPresentColumns(columns: seq<ColumnInfo>, values: map<string, FormValue>, i: nat)
    requires i < |columns| && FieldKey(columns[i].name) in values
    ensures (columns[i].name, Convert(columns[i], values[FieldKey(columns[i].name)])) in Record(columns, values)
  {
    var init := columns[..|columns| - 1];
    if i < |init| {
      RecordHasPresentColumns(init, values, i);
      assert init[i] == columns[i];
    }
  }

  /** An empty form gives an empty record. */
  lemma {:induction false} RecordOfEmptyForm(columns: seq<ColumnInfo>)
    ensures Record(columns, map[]) == []
  {
    if columns != [] {
      RecordOfEmptyForm(columns[..|columns| - 1]);
    }
  }
}
