/**
 The form that designs a table, and the statements it prints for the connected engine.
 */
module CreateTableForm {
  import opened Common
  import opened JsText

  // ---------------------------------------------------------------- engines

  datatype Engine = Postgres | Mysql | Mssql | Oracle | Sqlite | Libsql | Duckdb | Trino | Unlisted(name: string)

  /**
   `autoIncrement` is everything after the name of an auto-increment key; `numbersBySequence`
   says the key then defaults from a sequence that has to exist first.
   */
  datatype Dialect = Dialect(
    autoIncrement: Option<string>,
    numbersBySequence: bool,
    supportsConstraints: bool,
    keyType: string,
    types: seq<string>)

  /** The plain key type is on the list, and only an engine with keys numbers them. */
  predicate Sound(d: Dialect) {
    d.types != [] && d.keyType in d.types && (d.autoIncrement.Some? ==> d.supportsConstraints)
  }

  /** A type name: one word, and not the sentinel. */
  predicate Word(s: string) {
    s != "" && s[0] != '_' && forall i :: 0 <= i < |s| ==> s[i] != ' '
  }

  predicate Words(d: Dialect) {
    forall i :: 0 <= i < |d.types| ==> Word(d.types[i])
  }

  /** A key clause has a space within its first eight characters and goes on for twelve more or so. */
  predicate ClauseFits(d: Dialect) {
    d.autoIncrement.Some? ==>
      var clause := d.autoIncrement.value;
      && |clause| >= 8 && (clause[3] == ' ' || clause[6] == ' ' || clause[7] == ' ')
      && (!d.numbersBySequence ==> |clause| >= 20 && clause[|clause| - 1] in {'Y', 'T'})
  }

  lemma CommonWords()
    ensures Word("VARCHAR(255)") && Word("VARCHAR") && Word("TEXT") && Word("INTEGER") && Word("BIGINT")
            && Word("BOOLEAN")
    ensures Word("TIMESTAMP") && Word("DATE") && Word("JSON") && Word("UUID") && Word("DECIMAL(10,2)") && Word("JSONB")
  {
  }

  lemma OtherWords()
    ensures Word("REAL") && Word("BLOB") && Word("NUMERIC") && Word("INT") && Word("CHAR(36)") && Word("NVARCHAR(MAX)")
    ensures Word("BIT") && Word("DATETIME2") && Word("UNIQUEIDENTIFIER") && Word("VARCHAR2(255)") && Word("CLOB")
    ensures Word("NUMBER(19)") && Word("NUMBER(1)") && Word("RAW(16)") && Word("NUMBER(10,2)")
  {
  }

  /** What a column holds for its type while it numbers itself: the type of no engine. */
  const AUTO_INCREMENT := "__auto_increment__"

  function SqliteDialect(): (d: Dialect)
    ensures Sound(d) && Words(d) && ClauseFits(d)
  {
    CommonWords();
    OtherWords();
    var d := Dialect(Some("INTEGER PRIMARY KEY AUTOINCREMENT"), false, true, "INTEGER",
                     ["TEXT", "INTEGER", "REAL", "BLOB", "NUMERIC"]);
    assert d.types[1] == d.keyType;
    hide Word;
    d
  }

  function PostgresDialect(): (d: Dialect)
    ensures Sound(d) && Words(d) && ClauseFits(d)
  {
    CommonWords();
    OtherWords();
    var d := Dialect(Some("INTEGER " + "GENERATED BY DEFAULT AS IDENTITY PRIMARY KEY"), false, true, "INTEGER",
                     ["VARCHAR(255)", "TEXT", "INTEGER", "BIGINT", "BOOLEAN", "TIMESTAMP", "DATE", "JSONB", "UUID",
                      "DECIMAL(10,2)"]);
    assert d.types[2] == d.keyType;
    assert d.autoIncrement.value[7] == ' ';
    assert d.autoIncrement.value[|d.autoIncrement.value| - 1] == 'Y';
    hide Word;
    d
  }

  function MysqlDialect(): (d: Dialect)
    ensures Sound(d) && Words(d) && ClauseFits(d)
  {
    CommonWords();
    OtherWords();
    var d := Dialect(Some("INT AUTO_INCREMENT PRIMARY KEY"), false, true, "INT",
                     ["VARCHAR(255)", "TEXT", "INT", "BIGINT", "BOOLEAN", "TIMESTAMP", "DATE", "JSON", "CHAR(36)",
                      "DECIMAL(10,2)"]);
    assert d.types[2] == d.keyType;
    hide Word;
    d
  }

  function MssqlDialect(): (d: Dialect)
    ensures Sound(d) && Words(d) && ClauseFits(d)
  {
    CommonWords();
    OtherWords();
    var d := Dialect(Some("INT IDENTITY(1,1) PRIMARY KEY"), false, true, "INT",
                     ["VARCHAR(255)", "NVARCHAR(MAX)", "INT", "BIGINT", "BIT", "DATETIME2", "DATE",
                      "UNIQUEIDENTIFIER", "DECIMAL(10,2)"]);
    assert d.types[2] == d.keyType;
    hide Word;
    d
  }

  function OracleDialect(): (d: Dialect)
    ensures Sound(d) && Words(d) && ClauseFits(d)
  {
    CommonWords();
    OtherWords();
    var d := Dialect(Some("NUMBER " + "GENERATED BY DEFAULT AS IDENTITY PRIMARY KEY"), false, true, "INTEGER",
                     ["VARCHAR2(255)", "CLOB", "INTEGER", "NUMBER(19)", "NUMBER(1)", "TIMESTAMP", "DATE", "RAW(16)",
                      "NUMBER(10,2)"]);
    assert d.types[2] == d.keyType;
    assert d.autoIncrement.value[6] == ' ';
    assert d.autoIncrement.value[|d.autoIncrement.value| - 1] == 'Y';
    hide Word;
    d
  }

  function DuckdbDialect(): (d: Dialect)
    ensures Sound(d) && Words(d) && ClauseFits(d)
  {
    CommonWords();
    OtherWords();
    var d := Dialect(Some("INTEGER PRIMARY KEY"), true, true, "INTEGER",
                     ["VARCHAR(255)", "TEXT", "INTEGER", "BIGINT", "BOOLEAN", "TIMESTAMP", "DATE", "JSON", "UUID",
                      "DECIMAL(10,2)"]);
    assert d.types[2] == d.keyType;
    hide Word;
    d
  }

  function TrinoDialect(): (d: Dialect)
    ensures Sound(d) && Words(d) && ClauseFits(d)
  {
    CommonWords();
    OtherWords();
    var d := Dialect(None, false, false, "INTEGER",
                     ["VARCHAR(255)", "VARCHAR", "INTEGER", "BIGINT", "BOOLEAN", "TIMESTAMP", "DATE", "JSON", "UUID",
                      "DECIMAL(10,2)"]);
    assert d.types[2] == d.keyType;
    hide Word;
    d
  }

  function Resolve(dbType: Option<Engine>): (d: Dialect)
    ensures Sound(d) && Words(d) && ClauseFits(d)
  {
    hide *;
    match dbType
    case None => PostgresDialect()
    case Some(engine) =>
      match engine
      case Postgres => PostgresDialect()
      case Mysql => MysqlDialect()
      case Mssql => MssqlDialect()
      case Oracle => OracleDialect()
      case Sqlite => SqliteDialect()
      case Libsql => SqliteDialect()
      case Duckdb => DuckdbDialect()
      case Trino => TrinoDialect()
      case Unlisted(_) => PostgresDialect()
  }

  // ---------------------------------------------------------------- the form

  datatype Column = Column(
    name: string, typ: string, isPrimary: bool, isNullable: bool, isUnique: bool, defaultValue: string)

  datatype Form = Form(tableName: string, columns: seq<Column>, renderedFor: Option<Engine>)

  function DefaultColumns(dialect: Dialect): seq<Column> {
    [Column("id", if dialect.autoIncrement.Some? then AUTO_INCREMENT else dialect.keyType,
            dialect.supportsConstraints, false, dialect.supportsConstraints, "")]
  }

  function Start(dbType: Option<Engine>): Form {
    Form("", DefaultColumns(Resolve(dbType)), dbType)
  }

  predicate NameChar(c: char) {
    'a' <= c <= 'z' || '0' <= c <= '9' || c == '_'
  }

  /** What an input keeps of a name: lower case, with an underscore for everything else. */
  function Sanitized(text: string): (name: string)
    ensures IsName(name)
  {
    if text == "" then ""
    else
      var c := Lower(text[..1])[0];
      [if NameChar(c) then c else '_'] + Sanitized(text[1..])
  }

  predicate IsName(name: string) {
    forall i :: 0 <= i < |name| ==> NameChar(name[i])
  }

  datatype Event =
    | AddColumn
    | RemoveColumn(index: nat)
    | NameColumn(index: nat, text: string)
    | ChooseType(index: nat, typ: string)
    | CheckPrimary(index: nat, checked: bool)
    | CheckNullable(index: nat, checked: bool)
    | CheckUnique(index: nat, checked: bool)
    | NameTable(text: string)
    | Connect(dbType: Option<Engine>)
    | Create

  /** What the type dropdown of a column lists. */
  predicate Offers(dialect: Dialect, column: Column, typ: string) {
    typ in dialect.types || (column.isPrimary && dialect.autoIncrement.Some? && typ == AUTO_INCREMENT)
  }

  /** What can be clicked: rows on screen, types the dropdown lists, boxes the engine has. */
  predicate Enabled(f: Form, event: Event) {
    match event
    case AddColumn => true
    case RemoveColumn(i) => i < |f.columns|
    case NameColumn(i, _) => i < |f.columns|
    case ChooseType(i, typ) => i < |f.columns| && Offers(Resolve(f.renderedFor), f.columns[i], typ)
    case CheckPrimary(i, _) => i < |f.columns| && Resolve(f.renderedFor).supportsConstraints
    case CheckNullable(i, _) => i < |f.columns|
    case CheckUnique(i, _) => i < |f.columns| && Resolve(f.renderedFor).supportsConstraints
    case NameTable(_) => true
    case Connect(_) => true
    case Create => true
  }

  function Added(dialect: Dialect): Column
    requires dialect.types != []
  {
    Column("", dialect.types[0], false, true, false, "")
  }

  function PrimaryChecked(dialect: Dialect, column: Column, checked: bool): Column {
    column.(isPrimary := checked,
            isNullable := if checked then false else column.isNullable,
            typ := if !checked && column.typ == AUTO_INCREMENT then dialect.keyType else column.typ)
  }

  /** The form can be handed over: a table name, and a name for every column. */
  predicate Complete(f: Form) {
    !Blank(f.tableName) && forall i :: 0 <= i < |f.columns| ==> !Blank(f.columns[i].name)
  }

  function Step(f: Form, event: Event): Form
    requires Enabled(f, event)
  {
    hide Resolve;
    match event
    case AddColumn => f.(columns := f.columns + [Added(Resolve(f.renderedFor))])
    case RemoveColumn(i) => if |f.columns| == 1 then f else f.(columns := f.columns[..i] + f.columns[i + 1..])
    case NameColumn(i, text) => f.(columns := f.columns[i := f.columns[i].(name := Sanitized(text))])
    case ChooseType(i, typ) => f.(columns := f.columns[i := f.columns[i].(typ := typ)])
    case CheckPrimary(i, checked) =>
      f.(columns := f.columns[i := PrimaryChecked(Resolve(f.renderedFor), f.columns[i], checked)])
    case CheckNullable(i, checked) => f.(columns := f.columns[i := f.columns[i].(isNullable := checked)])
    case CheckUnique(i, checked) => f.(columns := f.columns[i := f.columns[i].(isUnique := checked)])
    case NameTable(text) => f.(tableName := Sanitized(text))
    case Connect(dbType) =>
      if dbType == f.renderedFor then f else Form(f.tableName, DefaultColumns(Resolve(dbType)), dbType)
    case Create => if Complete(f) then Start(f.renderedFor) else f
  }

  predicate Possible(f: Form, events: seq<Event>)
    decreases |events|
  {
    hide Resolve;
    events == [] || (Enabled(f, events[0]) && Possible(Step(f, events[0]), events[1..]))
  }

  function After(f: Form, events: seq<Event>): Form
    requires Possible(f, events)
    decreases |events|
  {
    hide Resolve;
    if events == [] then f else After(Step(f, events[0]), events[1..])
  }

  // ---------------------------------------------------------------- what every form keeps

  /** A column every engine of the form can print. */
  predicate ColumnFits(dialect: Dialect, c: Column) {
    && IsName(c.name)
    && Offers(dialect, c, c.typ)
    && (c.isPrimary || c.isUnique ==> dialect.supportsConstraints)
    && c.defaultValue == ""
  }

  ghost predicate Inv(f: Form) {
    && |f.columns| >= 1
    && IsName(f.tableName)
    && forall i :: 0 <= i < |f.columns| ==> ColumnFits(Resolve(f.renderedFor), f.columns[i])
  }

  lemma StepKeepsInv(f: Form, event: Event)
    requires Inv(f) && Enabled(f, event)
    ensures Inv(Step(f, event))
  {
    hide Resolve;
  }

  lemma {:induction false} RunKeepsInv(f: Form, events: seq<Event>)
    requires Inv(f) && Possible(f, events)
    ensures Inv(After(f, events))
    decreases |events|
  {
    hide Resolve;
    if events != [] {
      StepKeepsInv(f, events[0]);
      RunKeepsInv(Step(f, events[0]), events[1..]);
    }
  }

  /**
   Main result about the form. After any run of edits, removals, engine changes and creations
   at least one column is left, and every column's type is one its dropdown lists.
   */
  lemma TypesAreOffered(dbType: Option<Engine>, events: seq<Event>)
    requires Possible(Start(dbType), events)
    ensures var f := After(Start(dbType), events);
            && |f.columns| >= 1
            && forall i :: 0 <= i < |f.columns| ==> Offers(Resolve(f.renderedFor), f.columns[i], f.columns[i].typ)
  {
    hide Resolve;
    RunKeepsInv(Start(dbType), events);
  }

  // ---------------------------------------------------------------- the statements

  /** A column definition: the whole clause of a self-numbering key, or a type with its constraints. */
  datatype Def =
    | Auto(name: string, clause: string, sequence: Option<string>)
    | Plain(name: string, typ: string, primary: bool, notNull: bool, unique: bool, defaultValue: string)

  datatype Statement = CreateSequence(name: string) | CreateTable(name: string, defs: seq<Def>)

  function SequenceName(tableName: string, column: string): string {
    tableName + "_" + column + "_seq"
  }

  predicate NumbersItself(dialect: Dialect, c: Column) {
    c.typ == AUTO_INCREMENT && c.isPrimary && dialect.autoIncrement.Some?
  }

  function DefOf(dialect: Dialect, tableName: string, c: Column): Def {
    if NumbersItself(dialect, c) then
      Auto(c.name, dialect.autoIncrement.value,
           if dialect.numbersBySequence then Some(SequenceName(tableName, c.name)) else None)
    else
      var primary := c.isPrimary && dialect.supportsConstraints;
      Plain(c.name, if c.typ == AUTO_INCREMENT then dialect.keyType else c.typ, primary,
            !c.isNullable && !primary, c.isUnique && !primary && dialect.supportsConstraints, c.defaultValue)
  }

  function DefsOf(dialect: Dialect, tableName: string, columns: seq<Column>): (defs: seq<Def>)
    ensures |defs| == |columns|
    ensures forall i :: 0 <= i < |columns| ==> defs[i] == DefOf(dialect, tableName, columns[i])
  {
    if columns == [] then []
    else
      DefsOf(dialect, tableName, columns[..|columns| - 1]) + [DefOf(dialect, tableName, columns[|columns| - 1])]
  }

  /** The sequences the definitions default from, in order. */
  function SequencesOf(defs: seq<Def>): seq<Statement> {
    if defs == [] then []
    else SequencesOf(defs[..|defs| - 1]) + SequenceOf(defs[|defs| - 1])
  }

  function SequenceOf(def: Def): seq<Statement> {
    if def.Auto? && def.sequence.Some? then [CreateSequence(def.sequence.value)] else []
  }

  function ScriptOf(f: Form): seq<Statement> {
    var defs := DefsOf(Resolve(f.renderedFor), f.tableName, f.columns);
    SequencesOf(defs) + [CreateTable(f.tableName, defs)]
  }

  // ---------------------------------------------------------------- their text

  function Flags(def: Def): string
    requires def.Plain?
  {
    (if def.primary then " PRIMARY KEY" else "")
    + (if def.notNull then " NOT NULL" else "")
    + (if def.unique then " UNIQUE" else "")
  }

  function DefText(def: Def): string {
    match def
    case Auto(name, clause, sequence) =>
      name + " " + clause + (if sequence.Some? then " DEFAULT nextval('" + sequence.value + "')" else "")
    case Plain(name, typ, _, _, _, value) =>
      name + " " + typ + Flags(def) + (if value != "" then " DEFAULT " + value else "")
  }

  function DefTexts(defs: seq<Def>): (texts: seq<string>)
    ensures |texts| == |defs|
  {
    if defs == [] then [] else DefTexts(defs[..|defs| - 1]) + ["  " + DefText(defs[|defs| - 1])]
  }

  function JoinedBy(separator: string, parts: seq<string>): string {
    if parts == [] then ""
    else if |parts| == 1 then parts[0]
    else parts[0] + separator + JoinedBy(separator, parts[1..])
  }

  function StatementText(s: Statement): string {
    match s
    case CreateSequence(name) => "CREATE SEQUENCE IF NOT EXISTS " + name + ";"
    case CreateTable(name, defs) => "CREATE TABLE " + name + " (\n" + JoinedBy(",\n", DefTexts(defs)) + "\n);"
  }

  function Texts(statements: seq<Statement>): seq<string> {
    if statements == [] then []
    else Texts(statements[..|statements| - 1]) + [StatementText(statements[|statements| - 1])]
  }

  /** The statements in order, one after the other; nothing while the table has no name. */
  function SqlOf(f: Form): string {
    if Blank(f.tableName) then "" else Joined(Texts(ScriptOf(f)))
  }

  lemma TextsMore(statements: seq<Statement>, s: Statement)
    ensures Texts(statements + [s]) == Texts(statements) + [StatementText(s)]
  {
    assert (statements + [s])[..|statements|] == statements;
  }

  lemma DefMore(defs: seq<Def>, def: Def)
    ensures DefTexts(defs + [def]) == DefTexts(defs) + ["  " + DefText(def)]
    ensures SequencesOf(defs + [def]) == SequencesOf(defs) + SequenceOf(def)
  {
    assert (defs + [def])[..|defs|] == defs;
  }

  lemma DefsMore(dialect: Dialect, tableName: string, columns: seq<Column>, c: Column)
    ensures DefsOf(dialect, tableName, columns + [c])
            == DefsOf(dialect, tableName, columns) + [DefOf(dialect, tableName, c)]
  {
    assert (columns + [c])[..|columns|] == columns;
  }

  lemma {:induction false} JoinedLast(lines: seq<string>, last: string)
    requires lines != []
    ensures Joined(lines + [last]) == Joined(lines) + "\n" + last
  {
    if |lines| == 1 {
      assert (lines + [last])[1..] == [last];
    } else {
      assert (lines + [last])[1..] == lines[1..] + [last];
      JoinedLast(lines[1..], last);
    }
  }

  // ---------------------------------------------------------------- the component

  class CreateTableModal {
    var tableName: string
    var columns: seq<Column>
    var renderedFor: Option<Engine>

    ghost function View(): Form
      reads this
    {
      Form(tableName, columns, renderedFor)
    }

    constructor (dbType: Option<Engine>)
      ensures View() == Start(dbType)
    {
      tableName, columns, renderedFor := "", DefaultColumns(Resolve(dbType)), dbType;
    }

    /** A render for another engine starts the columns over. */
    method Render(dbType: Option<Engine>)
      modifies this
      ensures View() == Step(old(View()), Connect(dbType))
    {
      hide Resolve;
      if renderedFor != dbType {
        renderedFor := dbType;
        columns := DefaultColumns(Resolve(dbType));
      }
    }

    method AddColumnRow()
      modifies `columns
      ensures View() == Step(old(View()), AddColumn)
    {
      hide Resolve;
      columns := columns + [Added(Resolve(renderedFor))];
    }

    method RemoveColumnRow(index: nat)
      requires Enabled(View(), RemoveColumn(index))
      modifies `columns
      ensures View() == Step(old(View()), RemoveColumn(index))
    {
      hide Resolve;
      if |columns| == 1 {
        return;
      }
      columns := columns[..index] + columns[index + 1..];
    }

    method UpdateColumn(index: nat, updated: Column)
      requires index < |columns|
      modifies `columns
      ensures columns == old(columns)[index := updated]
    {
      columns := columns[index := updated];
    }

    method TypeName(index: nat, text: string)
      requires Enabled(View(), NameColumn(index, text))
      modifies `columns
      ensures View() == Step(old(View()), NameColumn(index, text))
    {
      hide Resolve;
      UpdateColumn(index, columns[index].(name := Sanitized(text)));
    }

    method SelectType(index: nat, typ: string)
      requires Enabled(View(), ChooseType(index, typ))
      modifies `columns
      ensures View() == Step(old(View()), ChooseType(index, typ))
    {
      hide Resolve;
      UpdateColumn(index, columns[index].(typ := typ));
    }

    method TogglePrimary(index: nat, checked: bool)
      requires Enabled(View(), CheckPrimary(index, checked))
      modifies `columns
      ensures View() == Step(old(View()), CheckPrimary(index, checked))
    {
      hide Resolve;
      var c := columns[index];
      UpdateColumn(index, c.(isPrimary := checked,
                             isNullable := if checked then false else c.isNullable,
                             typ := if !checked && c.typ == AUTO_INCREMENT
                                    then Resolve(renderedFor).keyType else c.typ));
    }

    method ToggleNullable(index: nat, checked: bool)
      requires Enabled(View(), CheckNullable(index, checked))
      modifies `columns
      ensures View() == Step(old(View()), CheckNullable(index, checked))
    {
      hide Resolve;
      UpdateColumn(index, columns[index].(isNullable := checked));
    }

    method ToggleUnique(index: nat, checked: bool)
      requires Enabled(View(), CheckUnique(index, checked))
      modifies `columns
      ensures View() == Step(old(View()), CheckUnique(index, checked))
    {
      hide Resolve;
      UpdateColumn(index, columns[index].(isUnique := checked));
    }

    method TypeTableName(text: string)
      modifies `tableName
      ensures View() == Step(old(View()), NameTable(text))
    {
      hide Resolve;
      tableName := Sanitized(text);
    }

    method GenerateSQL() returns (sql: string)
      ensures sql == SqlOf(View())
    {
      ghost var f := View();
      assert f == Form(tableName, columns, renderedFor);
      hide *;
      if Blank(tableName) {
        return "";
      }
      var dialect := Resolve(renderedFor);
      var prelude, colDefs := ColumnsSQL(dialect);
      ghost var defs := DefsOf(dialect, tableName, columns);
      var create := "CREATE TABLE " + tableName + " (\n" + JoinedBy(",\n", colDefs) + "\n);";
      TableText(tableName, defs);
      ScriptText(f, defs, prelude, create);
      sql := if |prelude| > 0 then Joined(prelude) + "\n" + create else create;
    }

    method ColumnsSQL(dialect: Dialect) returns (prelude: seq<string>, colDefs: seq<string>)
      ensures colDefs == DefTexts(DefsOf(dialect, tableName, columns))
      ensures prelude == Texts(SequencesOf(DefsOf(dialect, tableName, columns)))
    {
      hide *;
      prelude, colDefs := [], [];
      NothingYet(dialect, tableName, columns);
      var i := 0;
      while i < |columns|
        invariant 0 <= i <= |columns|
        invariant colDefs == DefTexts(DefsOf(dialect, tableName, columns[..i]))
        invariant prelude == Texts(SequencesOf(DefsOf(dialect, tableName, columns[..i])))
      {
        var ahead, def := ColumnSQL(columns[i], dialect);
        assert columns[..i + 1] == columns[..i] + [columns[i]];
        DefsMore(dialect, tableName, columns[..i], columns[i]);
        DefMore(DefsOf(dialect, tableName, columns[..i]), DefOf(dialect, tableName, columns[i]));
        SequenceText(SequencesOf(DefsOf(dialect, tableName, columns[..i])), DefOf(dialect, tableName, columns[i]),
                     ahead);
        prelude := prelude + ahead;
        colDefs := colDefs + ["  " + def];
        i := i + 1;
      }
      assert columns[..i] == columns;
    }

    /** One column: the statement it needs ahead, if any, and its definition. */
    method ColumnSQL(c: Column, dialect: Dialect) returns (ahead: seq<string>, def: string)
      ensures def == DefText(DefOf(dialect, tableName, c))
      ensures ahead == Texts(SequenceOf(DefOf(dialect, tableName, c)))
    {
      ahead := [];
      if c.typ == AUTO_INCREMENT && c.isPrimary && dialect.autoIncrement.Some? {
        def := c.name + " " + dialect.autoIncrement.value;
        if dialect.numbersBySequence {
          var sequence := tableName + "_" + c.name + "_seq";
          ahead := ["CREATE SEQUENCE IF NOT EXISTS " + sequence + ";"];
          def := def + (" DEFAULT nextval('" + sequence + "')");
        } else {
          assert def + "" == def;
        }
        return;
      }
      var typ := if c.typ == AUTO_INCREMENT then dialect.keyType else c.typ;
      var isPrimary := c.isPrimary && dialect.supportsConstraints;
      def := c.name + " " + typ;
      var flags := "";
      if isPrimary { flags := flags + " PRIMARY KEY"; }
      if !c.isNullable && !isPrimary { flags := flags + " NOT NULL"; }
      if c.isUnique && !isPrimary && dialect.supportsConstraints { flags := flags + " UNIQUE"; }
      assert flags == Flags(DefOf(dialect, tableName, c));
      def := def + flags;
      if c.defaultValue != "" {
        def := def + (" DEFAULT " + c.defaultValue);
      } else {
        assert def + "" == def;
      }
    }

    /** Hands the statements over and starts the form again, if every name is there. */
    method HandleCreate() returns (sql: Option<string>)
      modifies this
      ensures sql == if Complete(old(View())) then Some(SqlOf(old(View()))) else None
      ensures View() == Step(old(View()), Create)
    {
      hide Resolve;
      hide SqlOf;
      if Blank(tableName) || exists i :: 0 <= i < |columns| && Blank(columns[i].name) {
        return None;
      }
      var text := GenerateSQL();
      sql := Some(text);
      tableName := "";
      columns := DefaultColumns(Resolve(renderedFor));
    }
  }

  lemma TableText(name: string, defs: seq<Def>)
    ensures StatementText(CreateTable(name, defs))
            == "CREATE TABLE " + name + " (\n" + JoinedBy(",\n", DefTexts(defs)) + "\n);"
  {
  }

  lemma NothingYet(dialect: Dialect, tableName: string, columns: seq<Column>)
    ensures var defs := DefsOf(dialect, tableName, columns[..0]);
            DefTexts(defs) == [] && Texts(SequencesOf(defs)) == []
  {
  }

  lemma SequenceText(sequences: seq<Statement>, def: Def, ahead: seq<string>)
    requires ahead == Texts(SequenceOf(def))
    ensures Texts(sequences + SequenceOf(def)) == Texts(sequences) + ahead
  {
    if SequenceOf(def) == [] {
      assert sequences + [] == sequences && Texts(sequences) + [] == Texts(sequences);
    } else {
      var s := SequenceOf(def)[0];
      TextsMore(sequences, s);
      TextsMore([], s);
      assert [] + [s] == [s] && [] + [StatementText(s)] == [StatementText(s)];
    }
  }

  lemma ScriptText(f: Form, defs: seq<Def>, prelude: seq<string>, create: string)
    requires !Blank(f.tableName) && defs == DefsOf(Resolve(f.renderedFor), f.tableName, f.columns)
    requires prelude == Texts(SequencesOf(defs)) && create == StatementText(CreateTable(f.tableName, defs))
    ensures SqlOf(f) == if |prelude| > 0 then Joined(prelude) + "\n" + create else create
  {
    hide Resolve;
    hide StatementText;
    TextsMore(SequencesOf(defs), CreateTable(f.tableName, defs));
    if prelude == [] {
      assert [] + [create] == [create];
    } else {
      JoinedLast(prelude, create);
    }
  }

  // ---------------------------------------------------------------- running the statements

  /** The sequences there are after the statements, or none if a table defaults from a missing one. */
  function Execute(sequences: set<string>, statements: seq<Statement>): Option<set<string>>
    decreases |statements|
  {
    if statements == [] then Some(sequences)
    else
      match statements[0]
      case CreateSequence(name) => Execute(sequences + {name}, statements[1..])
      case CreateTable(_, defs) =>
        if forall i :: 0 <= i < |defs| ==> DefaultsFrom(defs[i], sequences)
        then Execute(sequences, statements[1..]) else None
  }

  predicate DefaultsFrom(def: Def, sequences: set<string>) {
    def.Auto? && def.sequence.Some? ==> def.sequence.value in sequences
  }

  predicate OnlySequences(statements: seq<Statement>) {
    forall i :: 0 <= i < |statements| ==> statements[i].CreateSequence?
  }

  lemma {:induction false} SequencesAreThere(defs: seq<Def>)
    ensures OnlySequences(SequencesOf(defs))
    ensures forall i :: 0 <= i < |defs| && defs[i].Auto? && defs[i].sequence.Some? ==>
              CreateSequence(defs[i].sequence.value) in SequencesOf(defs)
  {
    if defs != [] {
      SequencesAreThere(defs[..|defs| - 1]);
      assert SequencesOf(defs) == SequencesOf(defs[..|defs| - 1]) + SequenceOf(defs[|defs| - 1]);
    }
  }

  lemma {:induction false} SequencesThenTable(have: set<string>, statements: seq<Statement>, table: Statement)
    requires OnlySequences(statements) && table.CreateTable?
    requires forall i :: 0 <= i < |table.defs| ==>
               && table.defs[i].Auto? && table.defs[i].sequence.Some? ==>
               table.defs[i].sequence.value in have || CreateSequence(table.defs[i].sequence.value) in statements
    ensures Execute(have, statements + [table]).Some?
    decreases |statements|
  {
    var all := statements + [table];
    if statements == [] {
      assert all[0] == table && all[1..] == [];
    } else {
      assert all[0] == statements[0] && all[1..] == statements[1..] + [table];
      assert statements == [statements[0]] + statements[1..];
      SequencesThenTable(have + {statements[0].name}, statements[1..], table);
    }
  }

  /** Whatever sequences a database has, each one the table defaults from is created before it. */
  lemma SequencesComeFirst(f: Form, have: set<string>)
    ensures Execute(have, ScriptOf(f)).Some?
  {
    hide Resolve;
    var defs := DefsOf(Resolve(f.renderedFor), f.tableName, f.columns);
    SequencesAreThere(defs);
    hide SequencesOf;
    hide Execute;
    SequencesThenTable(have, SequencesOf(defs), CreateTable(f.tableName, defs));
  }

  // ---------------------------------------------------------------- reading a column back

  /** A definition read from its text: the name, then the engine's own key clause or a type and flags. */
  function ReadDef(dialect: Dialect, text: string): Option<Def> {
    var i := IndexOf(text, ' ');
    if i == |text| then None else ReadRest(dialect, text[..i], text[i + 1..])
  }

  function ReadRest(dialect: Dialect, name: string, rest: string): Option<Def> {
    if dialect.autoIncrement.Some? && IsClause(dialect, rest) then
      Some(Auto(name, dialect.autoIncrement.value, ClauseSequence(dialect, rest)))
    else
      var j := IndexOf(rest, ' ');
      ReadFlags(name, rest[..j], rest[j..])
  }

  function ClauseStart(dialect: Dialect): string
    requires dialect.autoIncrement.Some?
  {
    dialect.autoIncrement.value + " DEFAULT nextval('"
  }

  predicate IsClause(dialect: Dialect, rest: string)
    requires dialect.autoIncrement.Some?
  {
    if dialect.numbersBySequence then
      var start := ClauseStart(dialect);
      |rest| >= |start| + 2 && rest[..|start|] == start && rest[|rest| - 2..] == "')"
    else rest == dialect.autoIncrement.value
  }

  function ClauseSequence(dialect: Dialect, rest: string): Option<string>
    requires dialect.autoIncrement.Some? && IsClause(dialect, rest)
  {
    if dialect.numbersBySequence then Some(rest[|ClauseStart(dialect)|..|rest| - 2]) else None
  }

  function ReadFlags(name: string, typ: string, flags: string): Option<Def> {
    match flags
    case "" => Some(Plain(name, typ, false, false, false, ""))
    case " PRIMARY KEY" => Some(Plain(name, typ, true, false, false, ""))
    case " NOT NULL" => Some(Plain(name, typ, false, true, false, ""))
    case " UNIQUE" => Some(Plain(name, typ, false, false, true, ""))
    case " NOT NULL UNIQUE" => Some(Plain(name, typ, false, true, true, ""))
    case _ => None
  }

  /** What a definition makes of its column; no type of its own for a self-numbering key. */
  datatype Meaning = Meaning(name: string, typ: Option<string>, key: bool, notNull: bool, unique: bool)

  function MeaningOf(def: Def): Meaning {
    match def
    case Auto(name, _, _) => Meaning(name, None, true, true, true)
    case Plain(name, typ, primary, notNull, unique, _) =>
      Meaning(name, Some(typ), primary, notNull || primary, unique || primary)
  }

  /** What the form shows of a column. */
  function Shown(c: Column): Meaning {
    Meaning(c.name, if c.typ == AUTO_INCREMENT then None else Some(c.typ),
            c.isPrimary, !c.isNullable || c.isPrimary, c.isUnique || c.isPrimary)
  }

  lemma IndexAfter(before: string, c: char, rest: string)
    requires c !in before
    ensures IndexOf(before + [c] + rest, c) == |before|
  {
    if before != "" {
      assert (before + [c] + rest)[1..] == before[1..] + [c] + rest;
      assert before[0] in before && forall x <- before[1..] :: x in before;
      IndexAfter(before[1..], c, rest);
    }
  }

  lemma NoIndex(s: string, c: char)
    requires c !in s
    ensures IndexOf(s, c) == |s|
  {
    assert forall i :: 0 <= i < |s| ==> s[i] in s;
  }

  /** The flags of a column without a default, as the reader knows them. */
  predicate AreFlags(flags: string) {
    flags == "" || flags == " PRIMARY KEY" || flags == " NOT NULL" || flags == " UNIQUE" || flags == " NOT NULL UNIQUE"
  }

  lemma SpaceTells(word: string, clause: string, k: nat)
    requires (forall i :: 0 <= i < |word| ==> word[i] != ' ') && k < |clause| && clause[k] == ' '
    ensures word != clause
    ensures |word| >= |clause| ==> word[..|clause|] != clause
    ensures k < |clause| - 12 ==> word + " PRIMARY KEY" != clause
  {
    if |word| >= |clause| {
      assert word[..|clause|][k] == word[k];
    }
    if k < |clause| - 12 && |word| + 12 == |clause| {
      assert (word + " PRIMARY KEY")[k] == word[k];
    }
  }

  /** No flags end like a key clause, but PRIMARY KEY. */
  lemma FlagsEnd(word: string, flags: string)
    requires AreFlags(flags) && flags != ""
    ensures var rest := word + flags;
            && |rest| >= 7
            && rest[|rest| - 1] != ')' && rest[|rest| - 1] != 'T'
            && (rest[|rest| - 1] == 'Y' <==> flags == " PRIMARY KEY")
  {
    var rest := word + flags;
    assert rest[|rest| - 1] == flags[|flags| - 1];
  }

  lemma PlainIsNoClause(d: Dialect, word: string, flags: string)
    requires d.autoIncrement.Some? && ClauseFits(d) && Word(word) && AreFlags(flags)
    ensures !IsClause(d, word + flags)
  {
    var clause, rest := d.autoIncrement.value, word + flags;
    var k := if clause[3] == ' ' then 3 else if clause[6] == ' ' then 6 else 7;
    SpaceTells(word, clause, k);
    if flags == "" {
      assert rest == word;
    } else {
      FlagsEnd(word, flags);
    }
    if d.numbersBySequence {
      SequenceClauseTells(d, rest, flags);
    }
  }

  lemma SequenceClauseTells(d: Dialect, rest: string, flags: string)
    requires d.autoIncrement.Some? && d.numbersBySequence && |d.autoIncrement.value| >= 8
    requires var clause := d.autoIncrement.value;
             || (|rest| > 0 && rest[|rest| - 1] != ')')
             || (|rest| >= |clause| ==> rest[..|clause|] != clause)
    ensures !IsClause(d, rest)
  {
    var clause, start := d.autoIncrement.value, ClauseStart(d);
    assert start[..|clause|] == clause;
    if |rest| >= |start| + 2 {
      assert rest[|rest| - 2..][1] == rest[|rest| - 1];
      assert rest[..|start|][..|clause|] == rest[..|clause|];
    }
  }

  lemma FlagsReadBack(name: string, typ: string, primary: bool, notNull: bool, unique: bool)
    requires primary ==> !notNull && !unique
    ensures var def := Plain(name, typ, primary, notNull, unique, "");
            AreFlags(Flags(def)) && ReadFlags(name, typ, Flags(def)) == Some(def)
  {
  }

  /** The reader on a name, a space and the rest. */
  lemma ReadsRest(d: Dialect, name: string, rest: string)
    requires ' ' !in name
    ensures ReadDef(d, name + [' '] + rest) == ReadRest(d, name, rest)
  {
    hide ReadRest;
    var text := name + [' '] + rest;
    IndexAfter(name, ' ', rest);
    assert text[..|name|] == name && text[|name| + 1..] == rest;
    hide IndexOf;
  }

  /** The reader on a type and flags. */
  lemma ReadsFlags(d: Dialect, name: string, word: string, flags: string)
    requires Word(word) && AreFlags(flags) && ClauseFits(d)
    ensures ReadRest(d, name, word + flags) == ReadFlags(name, word, flags)
  {
    hide ReadFlags;
    var rest := word + flags;
    if d.autoIncrement.Some? {
      PlainIsNoClause(d, word, flags);
    }
    hide IsClause;
    hide ClauseFits;
    assert ' ' !in word;
    if flags == "" {
      NoIndex(rest, ' ');
    } else {
      assert flags == [' '] + flags[1..];
      assert rest == word + [' '] + flags[1..];
      IndexAfter(word, ' ', flags[1..]);
    }
    hide IndexOf;
    assert rest[..|word|] == word && rest[|word|..] == flags;
  }

  lemma PlainText(def: Def)
    requires def.Plain? && def.defaultValue == ""
    ensures DefText(def) == def.name + [' '] + (def.typ + Flags(def))
  {
    hide Flags;
    assert DefText(def) == def.name + " " + def.typ + Flags(def) + "";
  }

  lemma PlainReadsBack(d: Dialect, def: Def)
    requires def.Plain? && def.defaultValue == "" && (def.primary ==> !def.notNull && !def.unique)
    requires ' ' !in def.name && Word(def.typ) && ClauseFits(d)
    ensures ReadDef(d, DefText(def)) == Some(def)
  {
    hide *;
    PlainText(def);
    FlagsReadBack(def.name, def.typ, def.primary, def.notNull, def.unique);
    assert def == Plain(def.name, def.typ, def.primary, def.notNull, def.unique, "");
    ReadsRest(d, def.name, def.typ + Flags(def));
    ReadsFlags(d, def.name, def.typ, Flags(def));
  }

  lemma AutoReadsBack(d: Dialect, name: string, sequence: Option<string>)
    requires d.autoIncrement.Some? && ' ' !in name && sequence.Some? == d.numbersBySequence
    ensures var def := Auto(name, d.autoIncrement.value, sequence); ReadDef(d, DefText(def)) == Some(def)
  {
    var def := Auto(name, d.autoIncrement.value, sequence);
    hide ReadDef;
    hide ReadFlags;
    if sequence.Some? {
      var start := ClauseStart(d);
      var rest := start + sequence.value + "')";
      assert DefText(def) == name + [' '] + rest;
      ReadsRest(d, name, rest);
      assert rest[..|start|] == start && rest[|rest| - 2..] == "')" && rest[|start|..|rest| - 2] == sequence.value;
    } else {
      assert DefText(def) == name + [' '] + def.clause;
      ReadsRest(d, name, def.clause);
    }
  }

  /**
   Main result about the statements. In every reachable form, each column's definition, read
   back from its text, makes of the column exactly what the form shows: its type, never the
   sentinel; a key just where the box is ticked; null just where neither box forbids it.
   */
  lemma {:induction false} SqlSaysTheForm(dbType: Option<Engine>, events: seq<Event>, i: nat)
    requires Possible(Start(dbType), events) && i < |After(Start(dbType), events).columns|
    ensures var f := After(Start(dbType), events);
            var d := Resolve(f.renderedFor);
            var read := ReadDef(d, DefText(DefOf(d, f.tableName, f.columns[i])));
            && read.Some? && MeaningOf(read.value) == Shown(f.columns[i])
            && (read.value.Plain? ==> read.value.typ in d.types && read.value.typ != AUTO_INCREMENT)
  {
    hide Resolve;
    RunKeepsInv(Start(dbType), events);
    var f := After(Start(dbType), events);
    ColumnReadsBack(f.renderedFor, f.tableName, f.columns[i]);
  }

  lemma WordIsNoSentinel(s: string)
    requires Word(s)
    ensures s != AUTO_INCREMENT
  {
    assert AUTO_INCREMENT[0] == '_';
  }

  lemma ColumnReadsBack(dbType: Option<Engine>, tableName: string, c: Column)
    requires ColumnFits(Resolve(dbType), c)
    ensures var d := Resolve(dbType);
            var read := ReadDef(d, DefText(DefOf(d, tableName, c)));
            && read.Some? && MeaningOf(read.value) == Shown(c)
            && (read.value.Plain? ==> read.value.typ in d.types && read.value.typ != AUTO_INCREMENT)
  {
    hide Resolve;
    hide ReadDef;
    hide DefText;
    hide Sound;
    hide ClauseFits;
    hide Word;
    var d := Resolve(dbType);
    var def := DefOf(d, tableName, c);
    if def.Auto? {
      AutoReadsBack(d, c.name, def.sequence);
    } else {
      assert c.typ in d.types;
      WordIsNoSentinel(c.typ);
      PlainReadsBack(d, def);
    }
  }

  // ---------------------------------------------------------------- constraints

  function KeyCount(defs: seq<Def>): nat {
    if defs == [] then 0 else KeyCount(defs[..|defs| - 1]) + if MeaningOf(defs[|defs| - 1]).key then 1 else 0
  }

  function PrimaryCount(columns: seq<Column>): nat {
    if columns == [] then 0
    else PrimaryCount(columns[..|columns| - 1]) + if columns[|columns| - 1].isPrimary then 1 else 0
  }

  lemma KeyIsTicked(dialect: Dialect, tableName: string, c: Column)
    requires ColumnFits(dialect, c)
    ensures MeaningOf(DefOf(dialect, tableName, c)).key <==> c.isPrimary
  {
  }

  lemma KeyCountMore(defs: seq<Def>, def: Def)
    ensures KeyCount(defs + [def]) == KeyCount(defs) + if MeaningOf(def).key then 1 else 0
  {
    hide MeaningOf;
    assert (defs + [def])[..|defs|] == defs;
  }

  /** The statement names as many keys as boxes are ticked; nothing in the form holds them to one. */
  lemma {:induction false} KeysAreTheTicks(dialect: Dialect, tableName: string, columns: seq<Column>)
    requires forall i :: 0 <= i < |columns| ==> ColumnFits(dialect, columns[i])
    ensures KeyCount(DefsOf(dialect, tableName, columns)) == PrimaryCount(columns)
  {
    hide ColumnFits;
    hide MeaningOf;
    hide DefOf;
    if columns == [] {
      NoKeys(dialect, tableName);
    } else {
      var before, last := columns[..|columns| - 1], columns[|columns| - 1];
      KeysAreTheTicks(dialect, tableName, before);
      DefsMore(dialect, tableName, before, last);
      assert columns == before + [last];
      KeyIsTicked(dialect, tableName, last);
      KeyCountMore(DefsOf(dialect, tableName, before), DefOf(dialect, tableName, last));
    }
  }

  lemma NoKeys(dialect: Dialect, tableName: string)
    ensures KeyCount(DefsOf(dialect, tableName, [])) == 0 == PrimaryCount([])
  {
  }

  /** Two ticks are two clicks away, and the statement then declares two primary keys. */
  lemma TwoKeysAreReachable(dbType: Option<Engine>)
    requires Resolve(dbType).supportsConstraints
    ensures var events := [AddColumn, CheckPrimary(1, true)];
            && Possible(Start(dbType), events)
            && var f := After(Start(dbType), events);
               KeyCount(DefsOf(Resolve(f.renderedFor), f.tableName, f.columns)) == 2
  {
    hide Resolve;
    hide DefsOf;
    hide KeyCount;
    var t := Step(Start(dbType), AddColumn);
    var u := Step(t, CheckPrimary(1, true));
    TwoClicks(Start(dbType), AddColumn, CheckPrimary(1, true));
    RunKeepsInv(Start(dbType), [AddColumn, CheckPrimary(1, true)]);
    KeysAreTheTicks(Resolve(dbType), u.tableName, u.columns);
    TwoTicks(u.columns);
  }

  lemma TwoClicks(f: Form, first: Event, second: Event)
    requires Enabled(f, first) && Enabled(Step(f, first), second)
    ensures Possible(f, [first, second]) && After(f, [first, second]) == Step(Step(f, first), second)
  {
    hide Enabled;
    hide Step;
    assert [first, second][1..] == [second] && [second][1..] == [];
    var last := Step(Step(f, first), second);
    assert Possible(last, []) && After(last, []) == last;
    assert Possible(Step(f, first), [second]) && After(Step(f, first), [second]) == last;
  }

  lemma TwoTicks(columns: seq<Column>)
    requires |columns| == 2 && columns[0].isPrimary && columns[1].isPrimary
    ensures PrimaryCount(columns) == 2
  {
    assert columns[..1][..0] == [] && columns[..1][0] == columns[0];
    assert PrimaryCount(columns[..1]) == 1;
  }

  // ---------------------------------------------------------------- each engine's own words

  /** Type names of other engines that this one does not have. */
  function Lacks(dbType: Option<Engine>): seq<string> {
    match dbType
    case Some(Mysql) => ["UUID", "JSONB"]
    case Some(Mssql) => ["BOOLEAN", "UUID", "TIMESTAMP", "JSON"]
    case Some(Oracle) => ["TEXT", "BIGINT", "UUID", "BOOLEAN"]
    case Some(Sqlite) => ["JSON", "UUID", "BOOLEAN"]
    case Some(Libsql) => ["JSON", "UUID", "BOOLEAN"]
    case Some(Duckdb) => ["JSONB", "CLOB"]
    case Some(Trino) => ["TEXT", "JSONB"]
    case _ => ["CLOB", "BIT"]
  }

  /** Two words that differ in length, or in one of their first two letters or their last. */
  predicate Apart(a: string, b: string) {
    |a| != |b| || (a != "" && (a[0] != b[0] || a[|a| - 1] != b[|b| - 1] || (|a| > 1 && a[1] != b[1])))
  }

  lemma ApartDiffers(a: string, b: string)
    requires Apart(a, b)
    ensures a != b
  {
  }

  predicate AllApart(words: seq<string>, others: seq<string>) {
    forall i, j :: 0 <= i < |words| && 0 <= j < |others| ==> Apart(words[i], others[j])
  }

  lemma MysqlApart()
    ensures AllApart(MysqlDialect().types, ["UUID", "JSONB"])
  {
  }

  lemma MssqlApart()
    ensures AllApart(MssqlDialect().types, ["BOOLEAN", "UUID", "TIMESTAMP", "JSON"])
  {
  }

  lemma OracleApart()
    ensures AllApart(OracleDialect().types, ["TEXT", "BIGINT", "UUID", "BOOLEAN"])
  {
  }

  lemma SqliteApart()
    ensures AllApart(SqliteDialect().types, ["JSON", "UUID", "BOOLEAN"])
  {
  }

  lemma DuckdbApart()
    ensures AllApart(DuckdbDialect().types, ["JSONB", "CLOB"])
  {
  }

  lemma TrinoApart()
    ensures AllApart(TrinoDialect().types, ["TEXT", "JSONB"])
  {
  }

  lemma PostgresApart()
    ensures AllApart(PostgresDialect().types, ["CLOB", "BIT"])
  {
  }

  lemma TypesApart(dbType: Option<Engine>)
    ensures AllApart(Resolve(dbType).types, Lacks(dbType))
  {
    hide AllApart;
    hide MysqlDialect;
    hide MssqlDialect;
    hide OracleDialect;
    hide SqliteDialect;
    hide DuckdbDialect;
    hide TrinoDialect;
    hide PostgresDialect;
    hide Sound;
    hide Words;
    hide ClauseFits;
    MysqlApart();
    MssqlApart();
    OracleApart();
    SqliteApart();
    DuckdbApart();
    TrinoApart();
    PostgresApart();
  }

  lemma SentinelApart(dbType: Option<Engine>, j: nat)
    requires j < |Lacks(dbType)|
    ensures Apart(AUTO_INCREMENT, Lacks(dbType)[j])
  {
  }

  /** No reachable form holds a type its engine does not have, whatever engines it was shown for before. */
  lemma NoForeignTypes(dbType: Option<Engine>, events: seq<Event>, i: nat)
    requires Possible(Start(dbType), events) && i < |After(Start(dbType), events).columns|
    ensures var f := After(Start(dbType), events); f.columns[i].typ !in Lacks(f.renderedFor)
  {
    hide Resolve;
    hide Lacks;
    hide Apart;
    hide Possible;
    hide After;
    TypesAreOffered(dbType, events);
    var f := After(Start(dbType), events);
    var dialect, typ, lacks := Resolve(f.renderedFor), f.columns[i].typ, Lacks(f.renderedFor);
    TypesApart(f.renderedFor);
    assert Offers(dialect, f.columns[i], typ);
    forall j | 0 <= j < |lacks| ensures typ != lacks[j] {
      if typ == AUTO_INCREMENT {
        SentinelApart(f.renderedFor, j);
      } else {
        var k :| 0 <= k < |dialect.types| && dialect.types[k] == typ;
        assert Apart(dialect.types[k], lacks[j]);
      }
      ApartDiffers(typ, lacks[j]);
    }
  }

  /** How each engine spells a key that numbers itself, if it can. */
  function OwnKey(dbType: Option<Engine>): Option<string> {
    match dbType
    case Some(Mysql) => Some("INT AUTO_INCREMENT PRIMARY KEY")
    case Some(Mssql) => Some("INT IDENTITY(1,1) PRIMARY KEY")
    case Some(Oracle) => Some("NUMBER " + "GENERATED BY DEFAULT AS IDENTITY PRIMARY KEY")
    case Some(Sqlite) => Some("INTEGER PRIMARY KEY AUTOINCREMENT")
    case Some(Libsql) => Some("INTEGER PRIMARY KEY AUTOINCREMENT")
    case Some(Duckdb) => Some("INTEGER PRIMARY KEY")
    case Some(Trino) => None
    case _ => Some("INTEGER " + "GENERATED BY DEFAULT AS IDENTITY PRIMARY KEY")
  }

  lemma MysqlKey()
    ensures var d := MysqlDialect();
            && d.autoIncrement == OwnKey(Some(Mysql)) && !d.numbersBySequence
            && d.supportsConstraints
  {
    hide Word;
    hide Sound;
    hide Words;
    hide ClauseFits;
  }

  lemma MssqlKey()
    ensures var d := MssqlDialect();
            && d.autoIncrement == OwnKey(Some(Mssql)) && !d.numbersBySequence
            && d.supportsConstraints
  {
    hide Word;
    hide Sound;
    hide Words;
    hide ClauseFits;
  }

  lemma OracleKey()
    ensures var d := OracleDialect();
            && d.autoIncrement == OwnKey(Some(Oracle)) && !d.numbersBySequence
            && d.supportsConstraints
  {
    hide Word;
    hide Sound;
    hide Words;
    hide ClauseFits;
  }

  lemma SqliteKey()
    ensures var d := SqliteDialect();
            && d.autoIncrement == OwnKey(Some(Sqlite)) && !d.numbersBySequence
            && d.supportsConstraints
  {
    hide Word;
    hide Sound;
    hide Words;
    hide ClauseFits;
  }

  lemma DuckdbKey()
    ensures var d := DuckdbDialect();
            && d.autoIncrement == OwnKey(Some(Duckdb)) && d.numbersBySequence
            && d.supportsConstraints
  {
    hide Word;
    hide Sound;
    hide Words;
    hide ClauseFits;
  }

  lemma TrinoKey()
    ensures var d := TrinoDialect();
            && d.autoIncrement == OwnKey(Some(Trino)) && !d.numbersBySequence
            && !d.supportsConstraints && d.keyType == "INTEGER"
  {
    hide Word;
    hide Sound;
    hide Words;
    hide ClauseFits;
  }

  lemma PostgresKey()
    ensures var d := PostgresDialect();
            && d.autoIncrement == OwnKey(None) && !d.numbersBySequence
            && d.supportsConstraints
  {
    hide Word;
    hide Sound;
    hide Words;
    hide ClauseFits;
  }

  lemma OwnKeys(dbType: Option<Engine>)
    ensures OwnKey(dbType).Some? <==> dbType != Some(Trino)
    ensures OwnKey(Some(Libsql)) == OwnKey(Some(Sqlite)) && OwnKey(Some(Postgres)) == OwnKey(None)
    ensures dbType.Some? && dbType.value.Unlisted? ==> OwnKey(dbType) == OwnKey(None)
  {
  }

  lemma ResolvedKey(dbType: Option<Engine>)
    ensures var d := Resolve(dbType);
            && d.autoIncrement == OwnKey(dbType) && (d.numbersBySequence <==> dbType == Some(Duckdb))
            && (d.supportsConstraints <==> dbType != Some(Trino)) && (dbType == Some(Trino) ==> d.keyType == "INTEGER")
            && (OwnKey(dbType).Some? <==> dbType != Some(Trino))
  {
    hide MysqlDialect;
    hide MssqlDialect;
    hide OracleDialect;
    hide SqliteDialect;
    hide DuckdbDialect;
    hide TrinoDialect;
    hide PostgresDialect;
    hide Sound;
    hide Words;
    hide ClauseFits;
    hide OwnKey;
    OwnKeys(dbType);
    MysqlKey();
    MssqlKey();
    OracleKey();
    SqliteKey();
    DuckdbKey();
    TrinoKey();
    PostgresKey();
  }

  function TableWith(name: string, line: string): string {
    "CREATE TABLE " + name + " (\n  " + line + "\n);"
  }

  /**
   What an untouched form prints once the table has a name: for every engine one self-numbering
   key in that engine's own words, for DuckDB with its sequence first, and for Trino, which has
   no keys, a plain column.
   */
  lemma UntouchedFormPrints(dbType: Option<Engine>, name: string)
    requires !Blank(name)
    ensures SqlOf(Start(dbType).(tableName := name))
            == if dbType == Some(Trino) then TableWith(name, "id " + "INTEGER" + " NOT NULL")
               else if dbType == Some(Duckdb) then
                 "CREATE SEQUENCE IF NOT EXISTS " + (name + "_" + "id" + "_seq") + ";" + "\n"
                 + TableWith(name, "id " + OwnKey(dbType).value
                                   + " DEFAULT nextval('" + (name + "_" + "id" + "_seq") + "')")
               else TableWith(name, "id " + OwnKey(dbType).value)
  {
    hide *;
    ResolvedKey(dbType);
    UntouchedDefs(dbType, name);
    var d := Resolve(dbType);
    var def := DefOf(d, name, DefaultColumns(d)[0]);
    if dbType == Some(Trino) {
      PlainUntouched(d, name);
      OneStatement(name, def);
    } else {
      AutoUntouched(d, name);
      if dbType == Some(Duckdb) {
        TwoStatements(name, def, SequenceName(name, "id"));
      } else {
        OneStatement(name, def);
      }
    }
  }

  lemma UntouchedDefs(dbType: Option<Engine>, name: string)
    requires !Blank(name)
    ensures var d := Resolve(dbType);
            && |DefaultColumns(d)| == 1
            && var def := DefOf(d, name, DefaultColumns(d)[0]);
               SqlOf(Start(dbType).(tableName := name)) == Joined(Texts(SequenceOf(def) + [CreateTable(name, [def])]))
  {
    hide Resolve;
    hide Texts;
    hide Joined;
    hide DefOf;
    hide DefaultColumns;
    hide Blank;
    var d := Resolve(dbType);
    OneColumn(d);
    var columns := DefaultColumns(d);
    DefsMore(d, name, [], columns[0]);
    assert [] + [columns[0]] == columns;
    var def := DefOf(d, name, columns[0]);
    assert DefsOf(d, name, columns) == [] + [def] == [def];
    DefMore([], def);
    assert [] + [def] == [def] && SequencesOf([def]) == [] + SequenceOf(def) == SequenceOf(def);
  }

  lemma OneColumn(d: Dialect)
    ensures |DefaultColumns(d)| == 1
  {
  }

  lemma PlainUntouched(d: Dialect, name: string)
    requires d.autoIncrement.None? && !d.supportsConstraints
    ensures |DefaultColumns(d)| == 1
    ensures var def := DefOf(d, name, DefaultColumns(d)[0]);
            SequenceOf(def) == [] && DefText(def) == "id " + d.keyType + " NOT NULL"
  {
    hide Sound;
    var def := DefOf(d, name, DefaultColumns(d)[0]);
    assert def == Plain("id", d.keyType, false, true, false, "");
    assert Flags(def) == "" + " NOT NULL" + "" == " NOT NULL";
    assert "id" + " " == "id ";
  }

  lemma AutoUntouched(d: Dialect, name: string)
    requires d.autoIncrement.Some? && d.supportsConstraints
    ensures |DefaultColumns(d)| == 1
    ensures SequenceName(name, "id") == name + "_" + "id" + "_seq"
    ensures var def := DefOf(d, name, DefaultColumns(d)[0]);
            var sequence := name + "_" + "id" + "_seq";
            if d.numbersBySequence then
              && SequenceOf(def) == [CreateSequence(sequence)]
              && DefText(def) == "id " + d.autoIncrement.value + " DEFAULT nextval('" + sequence + "')"
            else SequenceOf(def) == [] && DefText(def) == "id " + d.autoIncrement.value
  {
    assert "id" + " " == "id ";
    var def := DefOf(d, name, DefaultColumns(d)[0]);
    if !d.numbersBySequence {
      assert "id " + d.autoIncrement.value + "" == "id " + d.autoIncrement.value;
    } else {
      var sequence := name + "_" + "id" + "_seq";
      assert "id " + d.autoIncrement.value + (" DEFAULT nextval('" + sequence + "')")
          == "id " + d.autoIncrement.value + " DEFAULT nextval('" + sequence + "')";
    }
  }

  lemma OneStatement(name: string, def: Def)
    requires SequenceOf(def) == []
    ensures Joined(Texts(SequenceOf(def) + [CreateTable(name, [def])])) == TableWith(name, DefText(def))
  {
    hide DefText;
    var table := CreateTable(name, [def]);
    TextsMore([], table);
    TableOf(name, def);
    assert [] + [table] == [table] && [] + [StatementText(table)] == [StatementText(table)];
  }

  lemma TableOf(name: string, def: Def)
    ensures StatementText(CreateTable(name, [def])) == TableWith(name, DefText(def))
  {
    hide DefText;
    DefMore([], def);
    assert [] + [def] == [def] && DefTexts([def]) == [] + ["  " + DefText(def)] == ["  " + DefText(def)];
    assert " (\n" + "  " == " (\n  ";
    assert "CREATE TABLE " + name + " (\n" + ("  " + DefText(def))
        == "CREATE TABLE " + name + (" (\n" + "  ") + DefText(def);
  }

  lemma TwoStatements(name: string, def: Def, sequence: string)
    requires SequenceOf(def) == [CreateSequence(sequence)]
    ensures Joined(Texts(SequenceOf(def) + [CreateTable(name, [def])]))
            == "CREATE SEQUENCE IF NOT EXISTS " + sequence + ";" + "\n" + TableWith(name, DefText(def))
  {
    hide DefText;
    hide TableWith;
    var first, table := CreateSequence(sequence), CreateTable(name, [def]);
    TextsMore([], first);
    TextsMore([first], table);
    TableOf(name, def);
    assert [] + [first] == [first] && [] + [StatementText(first)] == [StatementText(first)];
    JoinedLast([StatementText(first)], StatementText(table));
  }

  // ---------------------------------------------------------------- Trino

  /** Free of the letters that PRIMARY KEY and UNIQUE cannot be written without. */
  predicate NoKeyLetters(s: string) {
    'K' !in s && 'Q' !in s
  }

  lemma NoLettersInNames(name: string)
    requires IsName(name)
    ensures NoKeyLetters(name)
  {
  }

  lemma FreeTypes(i: nat)
    requires i < |TrinoDialect().types|
    ensures NoKeyLetters(TrinoDialect().types[i])
  {
    FreeTexts();
    FreeValues();
    hide NoKeyLetters;
  }

  lemma FreeTexts()
    ensures NoKeyLetters("VARCHAR(255)") && NoKeyLetters("VARCHAR") && NoKeyLetters("JSON") && NoKeyLetters("UUID")
  {
  }

  lemma FreeValues()
    ensures NoKeyLetters("INTEGER") && NoKeyLetters("BIGINT") && NoKeyLetters("BOOLEAN")
    ensures NoKeyLetters("TIMESTAMP") && NoKeyLetters("DATE") && NoKeyLetters("DECIMAL(10,2)")
  {
  }

  lemma FreeConcat(a: string, b: string)
    requires NoKeyLetters(a) && NoKeyLetters(b)
    ensures NoKeyLetters(a + b)
  {
  }

  lemma FreeLiterals()
    ensures NoKeyLetters("") && NoKeyLetters(" ") && NoKeyLetters("  ") && NoKeyLetters(" NOT NULL")
            && NoKeyLetters(",\n")
    ensures NoKeyLetters("CREATE TABLE ") && NoKeyLetters(" (\n") && NoKeyLetters("\n);")
  {
  }

  lemma TrinoDef(tableName: string, c: Column)
    requires ColumnFits(TrinoDialect(), c)
    ensures var def := DefOf(TrinoDialect(), tableName, c);
            SequenceOf(def) == [] && NoKeyLetters("  " + DefText(def))
  {
    var i :| 0 <= i < |TrinoDialect().types| && TrinoDialect().types[i] == c.typ;
    FreeTypes(i);
    NoLettersInNames(c.name);
    FreeLiterals();
    hide *;
    FreeConcat(c.name, " ");
    FreeConcat(c.name + " ", c.typ);
    FreeConcat(c.name + " " + c.typ, if c.isNullable then "" else " NOT NULL");
    FreeConcat("  ", DefText(DefOf(TrinoDialect(), tableName, c)));
  }

  lemma {:induction false} TrinoDefs(tableName: string, columns: seq<Column>)
    requires forall i :: 0 <= i < |columns| ==> ColumnFits(TrinoDialect(), columns[i])
    ensures var defs := DefsOf(TrinoDialect(), tableName, columns);
            && SequencesOf(defs) == []
            && forall i :: 0 <= i < |defs| ==> NoKeyLetters(DefTexts(defs)[i])
  {
    hide TrinoDialect;
    hide NoKeyLetters;
    hide DefText;
    hide DefOf;
    if columns != [] {
      var before, c := columns[..|columns| - 1], columns[|columns| - 1];
      TrinoDefs(tableName, before);
      TrinoDef(tableName, c);
      DefsMore(TrinoDialect(), tableName, before, c);
      assert columns == before + [c];
      DefMore(DefsOf(TrinoDialect(), tableName, before), DefOf(TrinoDialect(), tableName, c));
      hide DefTexts;
      hide DefsOf;
      hide SequenceOf;
      hide SequencesOf;
    }
  }

  lemma {:induction false} JoinedFree(separator: string, parts: seq<string>)
    requires NoKeyLetters(separator) && forall i :: 0 <= i < |parts| ==> NoKeyLetters(parts[i])
    ensures NoKeyLetters(JoinedBy(separator, parts))
  {
    if |parts| == 0 {
      FreeLiterals();
    } else if |parts| > 1 {
      hide NoKeyLetters;
      JoinedFree(separator, parts[1..]);
      FreeConcat(parts[0], separator);
      FreeConcat(parts[0] + separator, JoinedBy(separator, parts[1..]));
    }
  }

  /** For Trino, no reachable form prints PRIMARY KEY or UNIQUE anywhere in its text. */
  lemma TrinoHasNoKeys(dbType: Option<Engine>, events: seq<Event>)
    requires Possible(Start(dbType), events) && After(Start(dbType), events).renderedFor == Some(Trino)
    ensures NoKeyLetters(SqlOf(After(Start(dbType), events)))
    ensures !NoKeyLetters("PRIMARY KEY") && !NoKeyLetters("UNIQUE")
  {
    hide Resolve;
    RunKeepsInv(Start(dbType), events);
    TrinoText(After(Start(dbType), events));
    assert "PRIMARY KEY"[8] == 'K' && "UNIQUE"[3] == 'Q';
  }

  lemma TrinoIs()
    ensures Resolve(Some(Trino)) == TrinoDialect()
  {
    hide TrinoDialect;
  }

  lemma TrinoText(f: Form)
    requires Inv(f) && f.renderedFor == Some(Trino)
    ensures NoKeyLetters(SqlOf(f))
  {
    hide Resolve;
    hide TrinoDialect;
    hide NoKeyLetters;
    hide StatementText;
    hide SequencesOf;
    hide DefTexts;
    hide ColumnFits;
    FreeLiterals();
    TrinoIs();
    if !Blank(f.tableName) {
      var defs := DefsOf(TrinoDialect(), f.tableName, f.columns);
      TrinoDefs(f.tableName, f.columns);
      var table := CreateTable(f.tableName, defs);
      assert ScriptOf(f) == [] + [table];
      TextsMore([], table);
      assert [] + [StatementText(table)] == [StatementText(table)];
      JoinedFree(",\n", DefTexts(defs));
      NoLettersInNames(f.tableName);
      TableFree(f.tableName, defs);
    }
  }

  lemma TableFree(name: string, defs: seq<Def>)
    requires NoKeyLetters(name) && NoKeyLetters(JoinedBy(",\n", DefTexts(defs)))
    ensures NoKeyLetters(StatementText(CreateTable(name, defs)))
  {
    TableText(name, defs);
    FreeLiterals();
    hide *;
    var body := JoinedBy(",\n", DefTexts(defs));
    FreeConcat("CREATE TABLE ", name);
    FreeConcat("CREATE TABLE " + name, " (\n");
    FreeConcat("CREATE TABLE " + name + " (\n", body);
    FreeConcat("CREATE TABLE " + name + " (\n" + body, "\n);");
  }

  // ---------------------------------------------------------------- what a click changes

  /**
   Every input of a column's row reaches that column alone: what is typed becomes its name, what
   is chosen its type, each box what it was set to.
   */
  lemma EditsReachTheirColumn(f: Form, i: nat, text: string, typ: string, ticked: bool)
    requires i < |f.columns| && Enabled(f, ChooseType(i, typ)) && Enabled(f, CheckUnique(i, ticked))
    ensures var c := f.columns[i];
            && Step(f, NameColumn(i, text)) == f.(columns := f.columns[i := c.(name := Sanitized(text))])
            && Step(f, ChooseType(i, typ)) == f.(columns := f.columns[i := c.(typ := typ)])
            && Step(f, CheckNullable(i, ticked)) == f.(columns := f.columns[i := c.(isNullable := ticked)])
            && Step(f, CheckUnique(i, ticked)) == f.(columns := f.columns[i := c.(isUnique := ticked)])
            && Step(f, NameTable(text)) == f.(tableName := Sanitized(text))
  {
    hide Resolve;
  }

  /**
   Ticking the key forbids null and keeps the type; unticking keeps null as it was, and gives a
   column that numbered itself the engine's plain key type. Nothing else moves.
   */
  lemma TickingTheKey(f: Form, i: nat, ticked: bool)
    requires Enabled(f, CheckPrimary(i, ticked))
    ensures var c, after := f.columns[i], Step(f, CheckPrimary(i, ticked));
            && |after.columns| == |f.columns| && after == f.(columns := f.columns[i := after.columns[i]])
            && after.columns[i] == c.(isPrimary := ticked, isNullable := after.columns[i].isNullable,
                                      typ := after.columns[i].typ)
            && (if ticked then !after.columns[i].isNullable && after.columns[i].typ == c.typ
                else after.columns[i].isNullable == c.isNullable)
            && (!ticked && c.typ != AUTO_INCREMENT ==> after.columns[i].typ == c.typ)
            && (!ticked && c.typ == AUTO_INCREMENT ==> after.columns[i].typ == Resolve(f.renderedFor).keyType)
  {
    hide Resolve;
  }

  /** A new row is unnamed, nullable and of the engine's first type; removing takes one out, but never the last. */
  lemma RowsComeAndGo(f: Form, i: nat)
    requires Enabled(f, RemoveColumn(i))
    ensures var types := Resolve(f.renderedFor).types;
            && types != []
            && Step(f, AddColumn) == f.(columns := f.columns + [Column("", types[0], false, true, false, "")])
            && Step(f, RemoveColumn(i))
               == if |f.columns| == 1 then f else f.(columns := f.columns[..i] + f.columns[i + 1..])
  {
    hide Resolve;
  }

  /** A name keeps a letter in lower case, a digit and an underscore, and has an underscore for the rest. */
  lemma NamesAreKept(text: string, i: nat)
    requires i < |text|
    ensures |Sanitized(text)| == |text|
    ensures var c, kept := text[i], Sanitized(text)[i];
            && ('a' <= c <= 'z' || '0' <= c <= '9' || c == '_' ==> kept == c)
            && ('A' <= c <= 'Z' ==> kept as int == c as int + 32)
            && (!('a' <= c <= 'z' || 'A' <= c <= 'Z' || '0' <= c <= '9') ==> kept == '_')
  {
    assert text[..1] == [text[0]] && [text[0]][1..] == [];
    if i > 0 {
      NamesAreKept(text[1..], i - 1);
    } else if |text| > 1 {
      NamesAreKept(text[1..], 0);
    }
  }

  lemma NamesAreNotBlank(name: string)
    requires IsName(name)
    ensures Blank(name) <==> name == ""
  {
    if name != "" {
      assert name[0] in name;
    }
  }

  lemma PrintsSomething(f: Form)
    requires !Blank(f.tableName)
    ensures SqlOf(f) != ""
  {
    hide Resolve;
    hide StatementText;
    var defs := DefsOf(Resolve(f.renderedFor), f.tableName, f.columns);
    var table := CreateTable(f.tableName, defs);
    TextsMore(SequencesOf(defs), table);
    TableText(f.tableName, defs);
    var texts := Texts(SequencesOf(defs));
    if texts == [] {
      assert [] + [StatementText(table)] == [StatementText(table)];
    } else {
      JoinedLast(texts, StatementText(table));
    }
  }

  lemma NamedIs(f: Form)
    requires Inv(f)
    ensures Complete(f) <==> f.tableName != "" && forall i :: 0 <= i < |f.columns| ==> f.columns[i].name != ""
    ensures Blank(f.tableName) <==> f.tableName == ""
  {
    hide Resolve;
    hide Blank;
    NamesAreNotBlank(f.tableName);
    forall i | 0 <= i < |f.columns| ensures Blank(f.columns[i].name) <==> f.columns[i].name == "" {
      assert ColumnFits(Resolve(f.renderedFor), f.columns[i]);
      NamesAreNotBlank(f.columns[i].name);
    }
  }

  /** Without a table name nothing is printed, and with one something always is. */
  lemma PrintsIffNamed(f: Form)
    requires Inv(f)
    ensures SqlOf(f) != "" <==> f.tableName != ""
  {
    NamedIs(f);
    if f.tableName != "" {
      PrintsSomething(f);
    }
    hide Resolve;
    hide ScriptOf;
  }

  lemma StartKeepsInv(dbType: Option<Engine>)
    ensures Inv(Start(dbType))
  {
    hide Resolve;
  }

  /**
   In every reachable form the button hands over statements exactly if nothing is without a name,
   and there is a text to hand over exactly if the table has one.
   */
  lemma CreatesIff(dbType: Option<Engine>, events: seq<Event>)
    requires Possible(Start(dbType), events)
    ensures var f := After(Start(dbType), events);
            && (Complete(f) <==> f.tableName != "" && forall i :: 0 <= i < |f.columns| ==> f.columns[i].name != "")
            && (SqlOf(f) != "" <==> f.tableName != "")
  {
    hide Resolve;
    hide SqlOf;
    hide Complete;
    hide Inv;
    StartKeepsInv(dbType);
    RunKeepsInv(Start(dbType), events);
    var f := After(Start(dbType), events);
    NamedIs(f);
    PrintsIffNamed(f);
  }
}
