/** The Sequelize 6 table model (lib/Sequelize6/Model/Table.php): the value
    tree a model file is printed from, and the decision whether and how the
    file is written. The specification functions come first; the methods
    below them follow the source's loops and are proved equal to them. */
module Sequelize6Table {
  import opened PhpArrays
  import opened PhpStrings
  import opened Schema

  // ---------------------------------------------------------------- getJSObject

  /** The indentation unit handed to every JS object: `indentation` tabs
      when tabs are configured, that many spaces otherwise. */
  function Indentation(cfg: Config): (ind: string)
    ensures |ind| == cfg.indentation
    ensures forall i :: 0 <= i < |ind| ==> ind[i] == (if cfg.useTabs then '\t' else ' ')
  {
    Repeat(if cfg.useTabs then '\t' else ' ', cfg.indentation)
  }

  function GetJSObject(content: Value, multiline: bool, raw: bool, cfg: Config): Value {
    Js(content, multiline, raw, Indentation(cfg))
  }

  /** A raw JS object holding the given code, emitted verbatim. */
  predicate IsRawCode(v: Value, code: string) {
    v.Js? && v.raw && v.content == Str(code)
  }

  // ---------------------------------------------------------------- field types

  /** The type parameters appended to the converter's name. */
  function TypeSuffix(column: Column): string {
    if column.columnType == DatatypeDecimal then
      "(" + IntToString(column.precision) + ", " + IntToString(column.scale) + ")"
    else if column.length > 0 then
      "(" + IntToString(column.length) + ")"
    else
      ""
  }

  /** The code stored as a field's `type`. */
  function TypeCode(column: Column, conv: Converter): string {
    var t := conv(column) + TypeSuffix(column);
    "DataTypes." + (if Truthy(t) then t else "STRING.BINARY")
  }

  // ---------------------------------------------------------------- field descriptors

  /** The two rules a foreign key may carry, and the descriptor key each
      one is stored under. */
  datatype Rule = UpdateRule | DeleteRule

  function RuleKey(r: Rule): string {
    match r
    case UpdateRule => "onUpdate"
    case DeleteRule => "onDelete"
  }

  function RuleText(fk: ForeignKey, r: Rule): string {
    match r
    case UpdateRule => fk.updateRule
    case DeleteRule => fk.deleteRule
  }

  /** The descriptor before foreign keys: the type, then primaryKey, then
      either autoIncrement or allowNull. */
  function FlagEntries(ty: Value, primary: bool, autoIncrement: bool, notNull: bool): Entries {
    var c0 := Put([], "type", ty);
    var c1 := if primary then Put(c0, "primaryKey", Bool(true)) else c0;
    if autoIncrement then Put(c1, "autoIncrement", Bool(true))
    else if notNull then Put(c1, "allowNull", Bool(false))
    else c1
  }

  function BaseDescriptor(column: Column, cfg: Config, conv: Converter): Entries {
    FlagEntries(GetJSObject(Str(TypeCode(column, conv)), true, true, cfg),
      column.isPrimary, column.isAutoIncrement, column.isNotNull)
  }

  /** A rule that is set is stored upper-cased on the descriptor itself. */
  function SetRule(c: Entries, fk: ForeignKey, r: Rule): Entries {
    if Truthy(RuleText(fk, r)) then Put(c, RuleKey(r), Str(ToUpper(RuleText(fk, r)))) else c
  }

  /** One pass of the foreign-key loop. */
  function ForeignKeyStep(c: Entries, fk: ForeignKey): Entries {
    var c1 := PutNested(c, "references", "model", Str(fk.referencedModelName));
    var c2 := PutNested(c1, "references", "key", Str(Join(fk.foreignColumns, ';')));
    SetRule(SetRule(c2, fk, UpdateRule), fk, DeleteRule)
  }

  /** The foreign-key loop over fks, in order. */
  function ApplyForeignKeys(c: Entries, fks: seq<ForeignKey>): Entries
    decreases |fks|
  {
    if fks == [] then c
    else ForeignKeyStep(ApplyForeignKeys(c, fks[..|fks| - 1]), fks[|fks| - 1])
  }

  /** A column with foreign keys starts an empty references map and runs
      the foreign-key loop; a column without keeps its base descriptor. */
  function AddReferences(base: Entries, fks: seq<ForeignKey>): Entries {
    if |fks| > 0 then ApplyForeignKeys(Put(base, "references", Map([])), fks) else base
  }

  /** The descriptor built for one column. */
  function Descriptor(column: Column, cfg: Config, conv: Converter): Entries {
    AddReferences(BaseDescriptor(column, cfg, conv), column.foreignKeys)
  }

  /** Each column's name with its descriptor. */
  function FieldPairs(columns: seq<Column>, cfg: Config, conv: Converter): Entries {
    seq(|columns|, i requires 0 <= i < |columns| => (columns[i].name, Map(Descriptor(columns[i], cfg, conv))))
  }

  /** The field map: each column's descriptor stored under its name, in
      column order. */
  function FieldsOf(columns: seq<Column>, cfg: Config, conv: Converter): Entries {
    Assign(FieldPairs(columns, cfg, conv))
  }

  /** The type expression of `getFields`' loop: the converter's name,
      suffixed with the decimal's precision and scale or a positive length,
      falling back to a binary string when PHP reads it as false. */
  method TypeExpression(column: Column, conv: Converter) returns (code: string)
    ensures code == TypeCode(column, conv)
  {
    var t := conv(column);
    if column.columnType == DatatypeDecimal {
      t := t + ("(" + IntToString(column.precision) + ", " + IntToString(column.scale) + ")");
    } else if column.length > 0 {
      t := t + ("(" + IntToString(column.length) + ")");
    }
    code := "DataTypes." + (if Truthy(t) then t else "STRING.BINARY");
  }

  /** The body of `getFields`' loop for one column. */
  method ColumnDescriptor(column: Column, cfg: Config, conv: Converter) returns (c: Entries)
    ensures c == Descriptor(column, cfg, conv)
  {
    var code := TypeExpression(column, conv);
    c := [];
    c := Put(c, "type", GetJSObject(Str(code), true, true, cfg));
    if column.isPrimary {
      c := Put(c, "primaryKey", Bool(true));
    }
    if column.isAutoIncrement {
      c := Put(c, "autoIncrement", Bool(true));
    } else if column.isNotNull {
      c := Put(c, "allowNull", Bool(false));
    }
    assert c == BaseDescriptor(column, cfg, conv);
    if |column.foreignKeys| > 0 {
      c := Put(c, "references", Map([]));
      c := AddForeignKeys(c, column.foreignKeys);
    }
  }

  /** One more foreign key is one more step of the loop. */
  lemma ApplyForeignKeysSnoc(c0: Entries, fks: seq<ForeignKey>, j: nat)
    requires j < |fks|
    ensures ApplyForeignKeys(c0, fks[..j + 1]) == ForeignKeyStep(ApplyForeignKeys(c0, fks[..j]), fks[j])
  {
    assert fks[..j + 1][..j] == fks[..j];
  }

  /** The inner loop of `getFields` over one column's foreign keys: each key
      overwrites the references' model and key and sets the rules it
      carries. */
  method AddForeignKeys(c0: Entries, fks: seq<ForeignKey>) returns (c: Entries)
    ensures c == ApplyForeignKeys(c0, fks)
  {
    c := c0;
    var j := 0;
    while j < |fks|
      invariant 0 <= j <= |fks|
      invariant c == ApplyForeignKeys(c0, fks[..j])
    {
      var fk := fks[j];
      ApplyForeignKeysSnoc(c0, fks, j);
      ghost var before := c;
      c := PutNested(c, "references", "model", Str(fk.referencedModelName));
      c := PutNested(c, "references", "key", Str(Join(fk.foreignColumns, ';')));
      ghost var withReferences := c;
      if Truthy(fk.updateRule) {
        c := Put(c, "onUpdate", Str(ToUpper(fk.updateRule)));
      }
      assert c == SetRule(withReferences, fk, UpdateRule);
      ghost var withUpdate := c;
      if Truthy(fk.deleteRule) {
        c := Put(c, "onDelete", Str(ToUpper(fk.deleteRule)));
      }
      assert c == SetRule(withUpdate, fk, DeleteRule);
      assert c == ForeignKeyStep(before, fk);
      j := j + 1;
    }
    assert fks[..j] == fks;
  }

  /** One more column adds its descriptor under its name. */
  lemma FieldsOfSnoc(columns: seq<Column>, i: nat, cfg: Config, conv: Converter)
    requires i < |columns|
    ensures FieldsOf(columns[..i + 1], cfg, conv)
      == Put(FieldsOf(columns[..i], cfg, conv), columns[i].name, Map(Descriptor(columns[i], cfg, conv)))
  {
    var pairs := FieldPairs(columns[..i + 1], cfg, conv);
    assert pairs[..i] == FieldPairs(columns[..i], cfg, conv);
    assert pairs[i] == (columns[i].name, Map(Descriptor(columns[i], cfg, conv)));
  }

  /** `getFields`: the columns in order, each under its name. */
  method GetFields(t: Table, cfg: Config, conv: Converter) returns (result: Entries)
    ensures result == FieldsOf(t.columns, cfg, conv)
  {
    result := [];
    var i := 0;
    while i < |t.columns|
      invariant 0 <= i <= |t.columns|
      invariant result == FieldsOf(t.columns[..i], cfg, conv)
    {
      var column := t.columns[i];
      var c := ColumnDescriptor(column, cfg, conv);
      FieldsOfSnoc(t.columns, i, cfg, conv);
      result := Put(result, column.name, Map(c));
      i := i + 1;
    }
    assert t.columns[..i] == t.columns;
  }


  // ---------------------------------------------------------------- indexes

  /** Only plain and unique indices are exported. */
  predicate Qualifies(index: Index) {
    index.IsIndex() || index.IsUnique()
  }

  function Strs(xs: seq<string>): seq<Value> {
    seq(|xs|, i requires 0 <= i < |xs| => Str(xs[i]))
  }

  /** The entry exported for one index. */
  function IndexEntry(index: Index, cfg: Config): Value {
    Map([
      ("name", Str(index.name)),
      ("fields", GetJSObject(List(Strs(index.columnNames)), false, false, cfg)),
      ("unique", if index.IsUnique() then Bool(true) else Null)
    ])
  }

  function IndexesOf(indices: seq<Index>, cfg: Config): seq<Value>
    decreases |indices|
  {
    if indices == [] then []
    else
      var last := indices[|indices| - 1];
      IndexesOf(indices[..|indices| - 1], cfg) + (if Qualifies(last) then [IndexEntry(last, cfg)] else [])
  }

  /** `getIndexes`. */
  method GetIndexes(t: Table, cfg: Config) returns (result: seq<Value>)
    ensures result == IndexesOf(t.indices, cfg)
  {
    result := [];
    var i := 0;
    while i < |t.indices|
      invariant 0 <= i <= |t.indices|
      invariant result == IndexesOf(t.indices[..i], cfg)
    {
      var index := t.indices[i];
      if index.IsIndex() || index.IsUnique() {
        result := result + [IndexEntry(index, cfg)];
      }
      assert t.indices[..i + 1][..i] == t.indices[..i];
      i := i + 1;
    }
    assert t.indices[..i] == t.indices;
  }

  // ---------------------------------------------------------------- model and options

  /** `asModel`. */
  function AsModel(fields: Entries, cfg: Config): Value {
    GetJSObject(Map(fields), true, false, cfg)
  }

  /** `asOptions`, given the result of `getIndexes`. */
  function AsOptions(t: Table, cfg: Config, indexes: seq<Value>): Value {
    GetJSObject(Map([
      ("sequelize", GetJSObject(Str("sequelize"), false, true, cfg)),
      ("modelName", Str(t.modelName)),
      ("tableName", Str(t.rawTableName)),
      ("indexes", if |indexes| > 0 then List(indexes) else Null),
      ("timestamps", Bool(false)),
      ("underscored", Bool(true)),
      ("syncOnAssociation", Bool(false))
    ]), true, false, cfg)
  }

  // ---------------------------------------------------------------- writing

  /** The three results of `writeTable`. */
  datatype WriteStatus = WriteOk | WriteExternal | WriteM2M

  /** What the writer is asked to do: open a file, write the model body
      (optional comment banner, class stub and the `init` call with the
      model and options objects), close it. */
  datatype Event =
    | Opened(path: string)
    | BodyWritten(modelName: string, withComment: bool, model: Value, options: Value)
    | Closed

  /** The writer, reduced to the trace of what it was asked to do. */
  class Writer {
    var events: seq<Event>

    constructor ()
      ensures events == []
    {
      events := [];
    }

    method Open(path: string)
      modifies this
      ensures events == old(events) + [Opened(path)]
    {
      events := events + [Opened(path)];
    }

    method WriteModel(modelName: string, withComment: bool, model: Value, options: Value)
      modifies this
      ensures events == old(events) + [BodyWritten(modelName, withComment, model, options)]
    {
      events := events + [BodyWritten(modelName, withComment, model, options)];
    }

    method Close()
      modifies this
      ensures events == old(events) + [Closed]
    {
      events := events + [Closed];
    }
  }

  /** The body event `writeBody` produces for a table. */
  function Body(t: Table, cfg: Config, conv: Converter): Event {
    BodyWritten(t.modelName, cfg.addComment,
      AsModel(FieldsOf(t.columns, cfg, conv), cfg),
      AsOptions(t, cfg, IndexesOf(t.indices, cfg)))
  }

  /** What `writeTable` returns and asks of the writer. */
  function WriteOutcome(t: Table, cfg: Config, conv: Converter): (WriteStatus, seq<Event>) {
    if t.isExternal then (WriteExternal, [])
    else if cfg.skipM2MTables && t.isManyToMany then (WriteM2M, [])
    else (WriteOk, [Opened(t.tableFileName), Body(t, cfg, conv), Closed])
  }

  /** `writeBody`. */
  method WriteBody(t: Table, cfg: Config, conv: Converter, writer: Writer)
    modifies writer
    ensures writer.events == old(writer.events) + [Body(t, cfg, conv)]
  {
    var fields := GetFields(t, cfg, conv);
    var indexes := GetIndexes(t, cfg);
    writer.WriteModel(t.modelName, cfg.addComment, AsModel(fields, cfg), AsOptions(t, cfg, indexes));
  }

  /** `writeTable`. */
  method WriteTable(t: Table, cfg: Config, conv: Converter, writer: Writer) returns (status: WriteStatus)
    modifies writer
    ensures status == WriteOutcome(t, cfg, conv).0
    ensures writer.events == old(writer.events) + WriteOutcome(t, cfg, conv).1
  {
    if t.isExternal {
      status := WriteExternal;
    } else if cfg.skipM2MTables && t.isManyToMany {
      status := WriteM2M;
    } else {
      writer.Open(t.tableFileName);
      WriteBody(t, cfg, conv, writer);
      writer.Close();
      status := WriteOk;
    }
  }
}
