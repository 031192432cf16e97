/** What the Sequelize 6 table model promises: the shape of each field
    descriptor, the field map, the index list, the options object and the
    write decision. */
module Sequelize6TableProperties {
  import opened PhpArrays
  import opened PhpStrings
  import opened Schema
  import opened Sequelize6Table
  import NodeFormatter

  // ---------------------------------------------------------------- type

  /** A decimal column is suffixed with its precision and scale and never
      falls back; otherwise a positive length is suffixed (even to an empty
      converter name); otherwise the converter's name is used unless PHP
      reads it as false, in which case `STRING.BINARY` is. */
  lemma TypeCodeCases(column: Column, conv: Converter)
    ensures column.columnType == DatatypeDecimal ==>
      TypeSuffix(column) == "(" + IntToString(column.precision) + ", " + IntToString(column.scale) + ")"
    ensures column.columnType != DatatypeDecimal && column.length > 0 ==>
      TypeSuffix(column) == "(" + Digits(column.length) + ")"
      && DigitsValue(Digits(column.length)) == column.length
    ensures column.columnType != DatatypeDecimal && column.length <= 0 ==> TypeSuffix(column) == ""
    ensures TypeSuffix(column) != "" ==>
      TypeCode(column, conv) == "DataTypes." + (conv(column) + TypeSuffix(column))
    ensures TypeSuffix(column) == "" ==>
      TypeCode(column, conv) == "DataTypes." + (if Truthy(conv(column)) then conv(column) else "STRING.BINARY")
  {
    var suffix := TypeSuffix(column);
    var t := conv(column) + suffix;
    if suffix != "" {
      assert |suffix| >= 2;
      assert |t| >= 2;
      assert t != "0";
    } else {
      assert t == conv(column);
    }
    if column.length > 0 {
      DigitsRoundTrip(column.length);
    }
  }

  // ---------------------------------------------------------------- base descriptor

  /** The flag descriptor has no key twice, so each assignment appends:
      the type, then primaryKey when set, then autoIncrement or allowNull. */
  lemma FlagEntriesList(ty: Value, primary: bool, autoIncrement: bool, notNull: bool)
    ensures FlagEntries(ty, primary, autoIncrement, notNull) ==
      [("type", ty)]
      + (if primary then [("primaryKey", Bool(true))] else [])
      + (if autoIncrement then [("autoIncrement", Bool(true))] else if notNull then [("allowNull", Bool(false))] else [])
  {
    var c0: Entries := [("type", ty)];
    assert Put([], "type", ty) == c0;
    var c1 := if primary then Put(c0, "primaryKey", Bool(true)) else c0;
    if primary {
      GetNone(c0, "primaryKey");
      PutAppend(c0, "primaryKey", Bool(true));
    }
    if autoIncrement {
      GetNone(c1, "autoIncrement");
      PutAppend(c1, "autoIncrement", Bool(true));
    } else if notNull {
      GetNone(c1, "allowNull");
      PutAppend(c1, "allowNull", Bool(false));
    }
  }

  /** Only `type` and the three flags can be present. */
  lemma FlagEntriesKeys(ty: Value, primary: bool, autoIncrement: bool, notNull: bool)
    ensures var c := FlagEntries(ty, primary, autoIncrement, notNull);
      && |c| > 0 && c[0] == ("type", ty)
      && UniqueKeys(c)
      && forall i :: 0 <= i < |c| ==> c[i].0 in {"type", "primaryKey", "autoIncrement", "allowNull"}
  {
    FlagEntriesList(ty, primary, autoIncrement, notNull);
  }

  /** The foreign-key entries are not there before the foreign keys. */
  lemma FlagEntriesNoForeignKey(ty: Value, primary: bool, autoIncrement: bool, notNull: bool, k: string)
    requires ForeignKeyEntry(k)
    ensures Get(FlagEntries(ty, primary, autoIncrement, notNull), k) == None
  {
    FlagEntriesKeys(ty, primary, autoIncrement, notNull);
    GetNone(FlagEntries(ty, primary, autoIncrement, notNull), k);
  }

  /** primaryKey, autoIncrement and allowNull follow the column's flags. */
  lemma FlagEntriesFlags(ty: Value, primary: bool, autoIncrement: bool, notNull: bool)
    ensures var c := FlagEntries(ty, primary, autoIncrement, notNull);
      && Get(c, "primaryKey") == (if primary then Some(Bool(true)) else None)
      && Get(c, "autoIncrement") == (if autoIncrement then Some(Bool(true)) else None)
      && Get(c, "allowNull") == (if notNull && !autoIncrement then Some(Bool(false)) else None)
  {
    FlagEntriesList(ty, primary, autoIncrement, notNull);
    var c := FlagEntries(ty, primary, autoIncrement, notNull);
    if primary {
      GetAt(c, 1);
    } else {
      GetNone(c, "primaryKey");
    }
    if autoIncrement || notNull {
      GetAt(c, |c| - 1);
    }
    if !autoIncrement {
      GetNone(c, "autoIncrement");
    }
    if !(notNull && !autoIncrement) {
      GetNone(c, "allowNull");
    }
  }

  lemma FlagEntriesSpec(ty: Value, primary: bool, autoIncrement: bool, notNull: bool)
    ensures var c := FlagEntries(ty, primary, autoIncrement, notNull);
      && |c| > 0 && c[0] == ("type", ty)
      && UniqueKeys(c)
      && Get(c, "primaryKey") == (if primary then Some(Bool(true)) else None)
      && Get(c, "autoIncrement") == (if autoIncrement then Some(Bool(true)) else None)
      && Get(c, "allowNull") == (if notNull && !autoIncrement then Some(Bool(false)) else None)
      && Get(c, "references") == None
      && Get(c, "onUpdate") == None
      && Get(c, "onDelete") == None
  {
    FlagEntriesKeys(ty, primary, autoIncrement, notNull);
    FlagEntriesFlags(ty, primary, autoIncrement, notNull);
    FlagEntriesNoForeignKey(ty, primary, autoIncrement, notNull, "references");
    FlagEntriesNoForeignKey(ty, primary, autoIncrement, notNull, "onUpdate");
    FlagEntriesNoForeignKey(ty, primary, autoIncrement, notNull, "onDelete");
  }

  // ---------------------------------------------------------------- foreign keys

  /** The entries the foreign-key loop writes. */
  predicate ForeignKeyEntry(k: string) {
    k == "references" || k == "onUpdate" || k == "onDelete"
  }

  /** One foreign key leaves every other entry as it was. */
  lemma StepOther(c: Entries, fk: ForeignKey, k: string)
    requires !ForeignKeyEntry(k)
    ensures Get(ForeignKeyStep(c, fk), k) == Get(c, k)
  {
    var m := Map(Put(MapAt(c, "references"), "model", Str(fk.referencedModelName)));
    var c1 := Put(c, "references", m);
    var refs := Map(Put(MapAt(c1, "references"), "key", Str(Join(fk.foreignColumns, ';'))));
    var c2 := Put(c1, "references", refs);
    var c3 := SetRule(c2, fk, UpdateRule);
    assert ForeignKeyStep(c, fk) == SetRule(c3, fk, DeleteRule);
    PutOther(c, "references", m, k);
    PutOther(c1, "references", refs, k);
    PutOther(c2, "onUpdate", Str(ToUpper(fk.updateRule)), k);
    PutOther(c3, "onDelete", Str(ToUpper(fk.deleteRule)), k);
  }

  /** One foreign key keeps the first key first and the keys unique. */
  lemma StepShape(c: Entries, fk: ForeignKey)
    ensures |c| > 0 ==> |ForeignKeyStep(c, fk)| > 0 && ForeignKeyStep(c, fk)[0].0 == c[0].0
    ensures UniqueKeys(c) ==> UniqueKeys(ForeignKeyStep(c, fk))
  {
    var m := Map(Put(MapAt(c, "references"), "model", Str(fk.referencedModelName)));
    var c1 := Put(c, "references", m);
    var refs := Map(Put(MapAt(c1, "references"), "key", Str(Join(fk.foreignColumns, ';'))));
    var c2 := Put(c1, "references", refs);
    var up := Str(ToUpper(fk.updateRule));
    var c3 := SetRule(c2, fk, UpdateRule);
    var del := Str(ToUpper(fk.deleteRule));
    assert ForeignKeyStep(c, fk) == SetRule(c3, fk, DeleteRule);
    if |c| > 0 {
      PutFirst(c, "references", m);
      PutFirst(c1, "references", refs);
      PutFirst(c2, "onUpdate", up);
      PutFirst(c3, "onDelete", del);
    }
    if UniqueKeys(c) {
      PutUnique(c, "references", m);
      PutUnique(c1, "references", refs);
      PutUnique(c2, "onUpdate", up);
      PutUnique(c3, "onDelete", del);
    }
  }

  lemma {:induction false} ApplyForeignKeysOther(c: Entries, fks: seq<ForeignKey>, k: string)
    requires !ForeignKeyEntry(k)
    ensures Get(ApplyForeignKeys(c, fks), k) == Get(c, k)
    decreases |fks|
  {
    if fks != [] {
      ApplyForeignKeysOther(c, fks[..|fks| - 1], k);
      StepOther(ApplyForeignKeys(c, fks[..|fks| - 1]), fks[|fks| - 1], k);
    }
  }

  lemma {:induction false} ApplyForeignKeysShape(c: Entries, fks: seq<ForeignKey>)
    ensures |c| > 0 ==> |ApplyForeignKeys(c, fks)| > 0 && ApplyForeignKeys(c, fks)[0].0 == c[0].0
    ensures UniqueKeys(c) ==> UniqueKeys(ApplyForeignKeys(c, fks))
    decreases |fks|
  {
    if fks != [] {
      ApplyForeignKeysShape(c, fks[..|fks| - 1]);
      StepShape(ApplyForeignKeys(c, fks[..|fks| - 1]), fks[|fks| - 1]);
    }
  }

  /** The foreign-key loop touches only `references`, `onUpdate` and
      `onDelete`, keeps the first key first and keeps keys unique. */
  lemma ApplyForeignKeysFrame(c: Entries, fks: seq<ForeignKey>)
    ensures forall k :: !ForeignKeyEntry(k) ==> Get(ApplyForeignKeys(c, fks), k) == Get(c, k)
    ensures |c| > 0 ==> |ApplyForeignKeys(c, fks)| > 0 && ApplyForeignKeys(c, fks)[0].0 == c[0].0
    ensures UniqueKeys(c) ==> UniqueKeys(ApplyForeignKeys(c, fks))
  {
    forall k | !ForeignKeyEntry(k) ensures Get(ApplyForeignKeys(c, fks), k) == Get(c, k) {
      ApplyForeignKeysOther(c, fks, k);
    }
    ApplyForeignKeysShape(c, fks);
  }

  /** One foreign key sets its rule when the rule is set and leaves the
      previous value otherwise. */
  lemma StepRule(c: Entries, fk: ForeignKey, r: Rule)
    ensures Get(ForeignKeyStep(c, fk), RuleKey(r)) ==
      if Truthy(RuleText(fk, r)) then Some(Str(ToUpper(RuleText(fk, r)))) else Get(c, RuleKey(r))
  {
    var m := Map(Put(MapAt(c, "references"), "model", Str(fk.referencedModelName)));
    var c1 := Put(c, "references", m);
    var refs := Map(Put(MapAt(c1, "references"), "key", Str(Join(fk.foreignColumns, ';'))));
    var c2 := Put(c1, "references", refs);
    var up := Str(ToUpper(fk.updateRule));
    var c3 := SetRule(c2, fk, UpdateRule);
    var del := Str(ToUpper(fk.deleteRule));
    assert ForeignKeyStep(c, fk) == SetRule(c3, fk, DeleteRule);
    PutOther(c, "references", m, RuleKey(r));
    PutOther(c1, "references", refs, RuleKey(r));
    match r
    case UpdateRule =>
      PutSame(c2, "onUpdate", up);
      PutOther(c3, "onDelete", del, "onUpdate");
    case DeleteRule =>
      PutOther(c2, "onUpdate", up, "onDelete");
      PutSame(c3, "onDelete", del);
  }

  /** The references map a foreign key leaves behind. */
  function ReferencesOf(fk: ForeignKey): Value {
    Map([("model", Str(fk.referencedModelName)), ("key", Str(Join(fk.foreignColumns, ';')))])
  }

  /** The references map is empty or holds exactly a model and a key. */
  predicate ReferencesShape(refs: Entries) {
    refs == [] || (|refs| == 2 && refs[0].0 == "model" && refs[1].0 == "key")
  }

  lemma PutModelKey(refs: Entries, m: Value, k: Value)
    requires ReferencesShape(refs)
    ensures Put(Put(refs, "model", m), "key", k) == [("model", m), ("key", k)]
  {
    var r1 := Put(refs, "model", m);
    if refs == [] {
      assert r1 == [("model", m)];
      assert Put(r1, "key", k) == [r1[0]] + Put(r1[1..], "key", k);
      assert r1[1..] == [];
    } else {
      assert r1 == [("model", m)] + refs[1..];
      assert r1[1..] == [refs[1]];
      assert Put(r1, "key", k) == [r1[0]] + Put(r1[1..], "key", k);
      assert Put(r1[1..], "key", k) == [("key", k)];
    }
  }

  /** One foreign key replaces the model and key of the references map. */
  lemma StepReferences(c: Entries, fk: ForeignKey)
    requires ReferencesShape(MapAt(c, "references"))
    ensures Get(ForeignKeyStep(c, fk), "references") == Some(ReferencesOf(fk))
  {
    var m := Str(fk.referencedModelName);
    var k := Str(Join(fk.foreignColumns, ';'));
    var refs := MapAt(c, "references");
    var c1 := PutNested(c, "references", "model", m);
    PutSame(c, "references", Map(Put(refs, "model", m)));
    assert Get(c1, "references") == Some(Map(Put(refs, "model", m)));
    var c2 := PutNested(c1, "references", "key", k);
    PutSame(c1, "references", Map(Put(Put(refs, "model", m), "key", k)));
    PutModelKey(refs, m, k);
    assert Get(c2, "references") == Some(ReferencesOf(fk));
    var c3 := SetRule(c2, fk, UpdateRule);
    if Truthy(fk.updateRule) {
      PutOther(c2, "onUpdate", Str(ToUpper(fk.updateRule)), "references");
    }
    assert Get(c3, "references") == Some(ReferencesOf(fk));
    if Truthy(fk.deleteRule) {
      PutOther(c3, "onDelete", Str(ToUpper(fk.deleteRule)), "references");
    }
    assert ForeignKeyStep(c, fk) == SetRule(c3, fk, DeleteRule);
  }

  /** Starting from an empty references map, the last foreign key decides
      the model and the key. */
  lemma {:induction false} ReferencesLastWins(c: Entries, fks: seq<ForeignKey>)
    requires Get(c, "references") == Some(Map([]))
    requires |fks| > 0
    ensures Get(ApplyForeignKeys(c, fks), "references") == Some(ReferencesOf(fks[|fks| - 1]))
    decreases |fks|
  {
    var init := fks[..|fks| - 1];
    var prev := ApplyForeignKeys(c, init);
    if init == [] {
      assert prev == c;
      assert MapAt(prev, "references") == [];
    } else {
      ReferencesLastWins(c, init);
      assert MapAt(prev, "references") == ReferencesOf(init[|init| - 1]).entries;
    }
    StepReferences(prev, fks[|fks| - 1]);
  }

  /** No foreign key sets rule r. */
  predicate NoneSets(fks: seq<ForeignKey>, r: Rule) {
    forall i :: 0 <= i < |fks| ==> !Truthy(RuleText(fks[i], r))
  }

  /** fks[i] is the last foreign key that sets rule r. */
  predicate LastSets(fks: seq<ForeignKey>, r: Rule, i: int) {
    0 <= i < |fks| && Truthy(RuleText(fks[i], r)) && forall j :: i < j < |fks| ==> !Truthy(RuleText(fks[j], r))
  }

  /** A rule no foreign key sets leaves the descriptor's value untouched. */
  lemma {:induction false} RuleUnset(c: Entries, fks: seq<ForeignKey>, r: Rule)
    requires NoneSets(fks, r)
    ensures Get(ApplyForeignKeys(c, fks), RuleKey(r)) == Get(c, RuleKey(r))
    decreases |fks|
  {
    if fks != [] {
      var init := fks[..|fks| - 1];
      assert forall i :: 0 <= i < |init| ==> init[i] == fks[i];
      RuleUnset(c, init, r);
      StepRule(ApplyForeignKeys(c, init), fks[|fks| - 1], r);
    }
  }

  /** The last foreign key that sets a rule decides its value. */
  lemma {:induction false} RuleLastSet(c: Entries, fks: seq<ForeignKey>, r: Rule, i: nat)
    requires LastSets(fks, r, i)
    ensures Get(ApplyForeignKeys(c, fks), RuleKey(r)) == Some(Str(ToUpper(RuleText(fks[i], r))))
    decreases |fks|
  {
    var init := fks[..|fks| - 1];
    StepRule(ApplyForeignKeys(c, init), fks[|fks| - 1], r);
    if i < |fks| - 1 {
      assert forall j :: i < j < |init| ==> init[j] == fks[j];
      RuleLastSet(c, init, r, i);
    }
  }

  /** onUpdate and onDelete are sticky: the last foreign key whose rule is
      set decides the value, and with no such key the value is untouched. */
  lemma RuleLastSetWins(c: Entries, fks: seq<ForeignKey>, r: Rule)
    ensures NoneSets(fks, r) ==> Get(ApplyForeignKeys(c, fks), RuleKey(r)) == Get(c, RuleKey(r))
    ensures forall i :: LastSets(fks, r, i) ==>
      Get(ApplyForeignKeys(c, fks), RuleKey(r)) == Some(Str(ToUpper(RuleText(fks[i], r))))
  {
    if NoneSets(fks, r) {
      RuleUnset(c, fks, r);
    }
    forall i | LastSets(fks, r, i)
      ensures Get(ApplyForeignKeys(c, fks), RuleKey(r)) == Some(Str(ToUpper(RuleText(fks[i], r))))
    {
      RuleLastSet(c, fks, r, i);
    }
  }

  // ---------------------------------------------------------------- descriptor

  lemma AddReferencesOther(base: Entries, fks: seq<ForeignKey>, k: string)
    requires !ForeignKeyEntry(k)
    ensures Get(AddReferences(base, fks), k) == Get(base, k)
  {
    if |fks| > 0 {
      PutOther(base, "references", Map([]), k);
      ApplyForeignKeysOther(Put(base, "references", Map([])), fks, k);
    }
  }

  lemma AddReferencesShape(base: Entries, fks: seq<ForeignKey>)
    ensures |base| > 0 ==> |AddReferences(base, fks)| > 0 && AddReferences(base, fks)[0].0 == base[0].0
    ensures UniqueKeys(base) ==> UniqueKeys(AddReferences(base, fks))
  {
    if |fks| > 0 {
      if |base| > 0 {
        PutFirst(base, "references", Map([]));
      }
      if UniqueKeys(base) {
        PutUnique(base, "references", Map([]));
      }
      ApplyForeignKeysShape(Put(base, "references", Map([])), fks);
    }
  }

  /** Adding references keeps every other key and its value, keeps the
      first entry first and keeps keys unique. */
  lemma AddReferencesFrame(base: Entries, fks: seq<ForeignKey>)
    ensures var d := AddReferences(base, fks);
      && (forall k :: !ForeignKeyEntry(k) ==> Get(d, k) == Get(base, k))
      && (|base| > 0 ==> |d| > 0 && d[0].0 == base[0].0)
      && (UniqueKeys(base) ==> UniqueKeys(d))
  {
    forall k | !ForeignKeyEntry(k) ensures Get(AddReferences(base, fks), k) == Get(base, k) {
      AddReferencesOther(base, fks, k);
    }
    AddReferencesShape(base, fks);
  }

  /** `references` is there iff there is a foreign key, with the last key's
      model and columns; each rule is upper-cased from the last foreign key
      that sets it, and absent when none does. */
  lemma AddReferencesSpec(base: Entries, fks: seq<ForeignKey>, r: Rule)
    requires Get(base, "references") == None && Get(base, RuleKey(r)) == None
    ensures var d := AddReferences(base, fks);
      && Get(d, "references") == (if |fks| > 0 then Some(ReferencesOf(fks[|fks| - 1])) else None)
      && (NoneSets(fks, r) ==> Get(d, RuleKey(r)) == None)
      && (forall i :: LastSets(fks, r, i) ==> Get(d, RuleKey(r)) == Some(Str(ToUpper(RuleText(fks[i], r)))))
  {
    if |fks| > 0 {
      var c := Put(base, "references", Map([]));
      PutSame(base, "references", Map([]));
      PutOther(base, "references", Map([]), RuleKey(r));
      ReferencesLastWins(c, fks);
      RuleLastSetWins(c, fks, r);
    } else {
      RuleLastSetWins(base, fks, r);
    }
  }

  /** The flags of a descriptor survive its foreign keys. */
  lemma FlaggedDescriptor(ty: Value, primary: bool, autoIncrement: bool, notNull: bool, fks: seq<ForeignKey>)
    ensures var d := AddReferences(FlagEntries(ty, primary, autoIncrement, notNull), fks);
      && |d| > 0 && d[0].0 == "type"
      && UniqueKeys(d)
      && Get(d, "type") == Some(ty)
      && Get(d, "primaryKey") == (if primary then Some(Bool(true)) else None)
      && Get(d, "autoIncrement") == (if autoIncrement then Some(Bool(true)) else None)
      && Get(d, "allowNull") == (if notNull && !autoIncrement then Some(Bool(false)) else None)
  {
    var base := FlagEntries(ty, primary, autoIncrement, notNull);
    FlagEntriesSpec(ty, primary, autoIncrement, notNull);
    GetAt(base, 0);
    KeepsFlags(base, fks);
  }

  /** Adding references keeps the first key, unique keys, and the type and
      flag entries. */
  lemma KeepsFlags(base: Entries, fks: seq<ForeignKey>)
    requires |base| > 0 && UniqueKeys(base)
    ensures var d := AddReferences(base, fks);
      && |d| > 0 && d[0].0 == base[0].0
      && UniqueKeys(d)
      && Get(d, "type") == Get(base, "type")
      && Get(d, "primaryKey") == Get(base, "primaryKey")
      && Get(d, "autoIncrement") == Get(base, "autoIncrement")
      && Get(d, "allowNull") == Get(base, "allowNull")
  {
    AddReferencesShape(base, fks);
    AddReferencesOther(base, fks, "type");
    AddReferencesOther(base, fks, "primaryKey");
    AddReferencesOther(base, fks, "autoIncrement");
    AddReferencesOther(base, fks, "allowNull");
  }

  /** d keeps every key of e at its position, and whatever comes after them
      is an entry of the foreign-key loop. */
  predicate ExtendsWithForeignKeys(e: Entries, d: Entries) {
    |e| <= |d|
    && (forall i :: 0 <= i < |e| ==> d[i].0 == e[i].0)
    && (forall i :: |e| <= i < |d| ==> ForeignKeyEntry(d[i].0))
  }

  lemma ExtendsTransitive(a: Entries, b: Entries, c: Entries)
    requires ExtendsWithForeignKeys(a, b) && ExtendsWithForeignKeys(b, c)
    ensures ExtendsWithForeignKeys(a, c)
  {
  }

  lemma PutExtends(e: Entries, k: string, v: Value)
    requires ForeignKeyEntry(k)
    ensures ExtendsWithForeignKeys(e, Put(e, k, v))
  {
    PutKeepsPositions(e, k, v);
  }

  /** One foreign key keeps every key where it was and adds only
      foreign-key entries after them. */
  lemma StepExtends(c: Entries, fk: ForeignKey)
    ensures ExtendsWithForeignKeys(c, ForeignKeyStep(c, fk))
  {
    var m := Map(Put(MapAt(c, "references"), "model", Str(fk.referencedModelName)));
    var c1 := Put(c, "references", m);
    var refs := Map(Put(MapAt(c1, "references"), "key", Str(Join(fk.foreignColumns, ';'))));
    var c2 := Put(c1, "references", refs);
    var c3 := SetRule(c2, fk, UpdateRule);
    var c4 := SetRule(c3, fk, DeleteRule);
    assert ForeignKeyStep(c, fk) == c4;
    PutExtends(c, "references", m);
    PutExtends(c1, "references", refs);
    ExtendsTransitive(c, c1, c2);
    if Truthy(fk.updateRule) {
      PutExtends(c2, "onUpdate", Str(ToUpper(fk.updateRule)));
      ExtendsTransitive(c, c2, c3);
    }
    if Truthy(fk.deleteRule) {
      PutExtends(c3, "onDelete", Str(ToUpper(fk.deleteRule)));
      ExtendsTransitive(c, c3, c4);
    }
  }

  lemma {:induction false} ApplyForeignKeysExtends(c: Entries, fks: seq<ForeignKey>)
    ensures ExtendsWithForeignKeys(c, ApplyForeignKeys(c, fks))
    decreases |fks|
  {
    if fks != [] {
      var prev := ApplyForeignKeys(c, fks[..|fks| - 1]);
      ApplyForeignKeysExtends(c, fks[..|fks| - 1]);
      StepExtends(prev, fks[|fks| - 1]);
      ExtendsTransitive(c, prev, ApplyForeignKeys(c, fks));
    }
  }

  lemma AddReferencesExtends(base: Entries, fks: seq<ForeignKey>)
    ensures ExtendsWithForeignKeys(base, AddReferences(base, fks))
  {
    if |fks| > 0 {
      var c := Put(base, "references", Map([]));
      PutExtends(base, "references", Map([]));
      ApplyForeignKeysExtends(c, fks);
      ExtendsTransitive(base, c, AddReferences(base, fks));
    }
  }

  /** The keys of a column's flag descriptor, in assignment order. */
  function FlagKeys(column: Column): seq<string> {
    ["type"]
    + (if column.isPrimary then ["primaryKey"] else [])
    + (if column.isAutoIncrement then ["autoIncrement"] else if column.isNotNull then ["allowNull"] else [])
  }

  /** The rendered key order: `type`, then `primaryKey` when primary, then
      `autoIncrement` or `allowNull`, each where the flag assignments put it;
      every key after them is `references`, `onUpdate` or `onDelete`. */
  lemma DescriptorKeyOrder(column: Column, cfg: Config, conv: Converter)
    ensures var d := Descriptor(column, cfg, conv); var flags := FlagKeys(column);
      && |flags| <= |d|
      && (forall i :: 0 <= i < |flags| ==> d[i].0 == flags[i])
      && (forall i :: |flags| <= i < |d| ==> ForeignKeyEntry(d[i].0))
  {
    var ty := GetJSObject(Str(TypeCode(column, conv)), true, true, cfg);
    var base := BaseDescriptor(column, cfg, conv);
    FlagEntriesList(ty, column.isPrimary, column.isAutoIncrement, column.isNotNull);
    assert |base| == |FlagKeys(column)|;
    assert forall i :: 0 <= i < |base| ==> base[i].0 == FlagKeys(column)[i];
    AddReferencesExtends(base, column.foreignKeys);
  }

  /** The descriptor of a column: `type` first as raw code; `primaryKey`
      iff primary; `autoIncrement` iff auto-increment, otherwise `allowNull:
      false` iff not-null, so the two never occur together. */
  lemma DescriptorFlags(column: Column, cfg: Config, conv: Converter)
    ensures var d := Descriptor(column, cfg, conv);
      && |d| > 0 && d[0].0 == "type"
      && Get(d, "type") == Some(GetJSObject(Str(TypeCode(column, conv)), true, true, cfg))
      && IsRawCode(Get(d, "type").value, TypeCode(column, conv))
      && UniqueKeys(d)
      && Get(d, "primaryKey") == (if column.isPrimary then Some(Bool(true)) else None)
      && Get(d, "autoIncrement") == (if column.isAutoIncrement then Some(Bool(true)) else None)
      && Get(d, "allowNull") == (if column.isNotNull && !column.isAutoIncrement then Some(Bool(false)) else None)
      && !(Get(d, "autoIncrement").Some? && Get(d, "allowNull").Some?)
  {
    var ty := GetJSObject(Str(TypeCode(column, conv)), true, true, cfg);
    FlaggedDescriptor(ty, column.isPrimary, column.isAutoIncrement, column.isNotNull, column.foreignKeys);
  }

  /** `references` is there iff the column has a foreign key, and then holds
      the last key's model and its foreign columns joined with `;`; each rule
      is there iff some foreign key sets it, upper-cased from the last one
      that does, on the descriptor itself. */
  lemma DescriptorForeignKeys(column: Column, cfg: Config, conv: Converter, r: Rule)
    ensures var d := Descriptor(column, cfg, conv); var fks := column.foreignKeys;
      && Get(d, "references") == (if |fks| > 0 then Some(ReferencesOf(fks[|fks| - 1])) else None)
      && (NoneSets(fks, r) ==> Get(d, RuleKey(r)) == None)
      && (forall i :: LastSets(fks, r, i) ==> Get(d, RuleKey(r)) == Some(Str(ToUpper(RuleText(fks[i], r)))))
  {
    var ty := GetJSObject(Str(TypeCode(column, conv)), true, true, cfg);
    var base := FlagEntries(ty, column.isPrimary, column.isAutoIncrement, column.isNotNull);
    FlagEntriesSpec(ty, column.isPrimary, column.isAutoIncrement, column.isNotNull);
    assert Get(base, RuleKey(r)) == None by {
      match r
      case UpdateRule =>
      case DeleteRule =>
    }
    AddReferencesSpec(base, column.foreignKeys, r);
  }

  // ---------------------------------------------------------------- fields

  predicate DistinctNames(columns: seq<Column>) {
    forall i, j :: 0 <= i < j < |columns| ==> columns[i].name != columns[j].name
  }

  /** The field map has a key for exactly the column names, none twice. */
  lemma FieldsOfKeys(columns: seq<Column>, cfg: Config, conv: Converter)
    ensures UniqueKeys(FieldsOf(columns, cfg, conv))
    ensures forall k :: Get(FieldsOf(columns, cfg, conv), k).Some? <==>
      exists i :: 0 <= i < |columns| && columns[i].name == k
  {
    var pairs := FieldPairs(columns, cfg, conv);
    AssignKeys(pairs);
    forall k ensures Get(FieldsOf(columns, cfg, conv), k).Some? <==> exists i :: 0 <= i < |columns| && columns[i].name == k {
      if exists i :: 0 <= i < |columns| && columns[i].name == k {
        var i :| 0 <= i < |columns| && columns[i].name == k;
        assert pairs[i].0 == k;
      }
    }
  }

  /** A name holds the descriptor of the last column with that name. */
  lemma FieldsOfLastWins(columns: seq<Column>, cfg: Config, conv: Converter)
    ensures forall i :: 0 <= i < |columns| && (forall j :: i < j < |columns| ==> columns[j].name != columns[i].name) ==>
      Get(FieldsOf(columns, cfg, conv), columns[i].name) == Some(Map(Descriptor(columns[i], cfg, conv)))
  {
    var pairs := FieldPairs(columns, cfg, conv);
    AssignLastWins(pairs);
    forall i | 0 <= i < |columns| && (forall j :: i < j < |columns| ==> columns[j].name != columns[i].name)
      ensures Get(FieldsOf(columns, cfg, conv), columns[i].name) == Some(Map(Descriptor(columns[i], cfg, conv)))
    {
      assert forall j :: i < j < |pairs| ==> pairs[j].0 == columns[j].name;
      assert pairs[i] == (columns[i].name, Map(Descriptor(columns[i], cfg, conv)));
    }
  }

  /** With distinct names there is one entry per column, in column order. */
  lemma FieldsOfInOrder(columns: seq<Column>, cfg: Config, conv: Converter)
    requires DistinctNames(columns)
    ensures |FieldsOf(columns, cfg, conv)| == |columns|
    ensures forall i :: 0 <= i < |columns| ==>
      FieldsOf(columns, cfg, conv)[i] == (columns[i].name, Map(Descriptor(columns[i], cfg, conv)))
  {
    var pairs := FieldPairs(columns, cfg, conv);
    assert UniqueKeys(pairs) by {
      forall i, j | 0 <= i < j < |pairs| ensures pairs[i].0 != pairs[j].0 {
        assert pairs[i].0 == columns[i].name && pairs[j].0 == columns[j].name;
      }
    }
    AssignDistinct(pairs);
  }

  /** `asModel`: a multi-line, non-raw JS object around the field map, one
      entry per column when names are distinct, holding that column's name
      and descriptor. */
  lemma ModelObject(t: Table, cfg: Config, conv: Converter)
    requires DistinctNames(t.columns)
    ensures var m := AsModel(FieldsOf(t.columns, cfg, conv), cfg);
      && m.Js? && m.multiline && !m.raw && m.content.Map?
      && m.indentation == Indentation(cfg)
      && |m.content.entries| == |t.columns|
      && forall i :: 0 <= i < |t.columns| ==>
        m.content.entries[i] == (t.columns[i].name, Map(Descriptor(t.columns[i], cfg, conv)))
  {
    FieldsOfInOrder(t.columns, cfg, conv);
  }

  // ---------------------------------------------------------------- indexes

  /** Exporting indices commutes with concatenation, so the kept indices keep
      their relative order. */
  lemma {:induction false} IndexesAppend(a: seq<Index>, b: seq<Index>, cfg: Config)
    ensures IndexesOf(a + b, cfg) == IndexesOf(a, cfg) + IndexesOf(b, cfg)
    decreases |b|
  {
    if b != [] {
      var b' := b[..|b| - 1];
      IndexesAppend(a, b', cfg);
      assert (a + b)[..|a + b| - 1] == a + b';
      assert (a + b)[|a + b| - 1] == b[|b| - 1];
    } else {
      assert a + b == a;
    }
  }

  /** An entry is exported iff it comes from a plain or unique index. */
  lemma {:induction false} IndexesMembership(indices: seq<Index>, cfg: Config)
    ensures forall v :: v in IndexesOf(indices, cfg) <==>
      exists i :: 0 <= i < |indices| && Qualifies(indices[i]) && v == IndexEntry(indices[i], cfg)
    ensures |IndexesOf(indices, cfg)| <= |indices|
    decreases |indices|
  {
    if indices != [] {
      var n := |indices|;
      var init := indices[..n - 1];
      IndexesMembership(init, cfg);
      assert forall i :: 0 <= i < n - 1 ==> init[i] == indices[i];
      forall v | v in IndexesOf(indices, cfg)
        ensures exists i :: 0 <= i < n && Qualifies(indices[i]) && v == IndexEntry(indices[i], cfg)
      {
        if v !in IndexesOf(init, cfg) {
          assert Qualifies(indices[n - 1]) && v == IndexEntry(indices[n - 1], cfg);
        }
      }
    }
  }

  /** With only plain and unique indices, each one is exported, in order. */
  lemma {:induction false} IndexesAllQualify(indices: seq<Index>, cfg: Config)
    requires forall i :: 0 <= i < |indices| ==> Qualifies(indices[i])
    ensures |IndexesOf(indices, cfg)| == |indices|
    ensures forall i :: 0 <= i < |indices| ==> IndexesOf(indices, cfg)[i] == IndexEntry(indices[i], cfg)
    decreases |indices|
  {
    if indices != [] {
      var init := indices[..|indices| - 1];
      IndexesAllQualify(init, cfg);
      assert forall i :: 0 <= i < |init| ==> init[i] == indices[i];
    }
  }

  /** Each exported index: its name, its columns as a single-line list, and
      `unique` true for a unique index and a present null otherwise. */
  lemma IndexEntryShape(index: Index, cfg: Config)
    ensures var e := IndexEntry(index, cfg).entries;
      && |e| == 3 && e[0].0 == "name" && e[1].0 == "fields" && e[2].0 == "unique"
      && UniqueKeys(e)
      && !e[1].1.raw
      && Get(e, "name") == Some(Str(index.name))
      && Get(e, "fields").Some? && Get(e, "fields").value.Js?
      && !Get(e, "fields").value.multiline
      && Get(e, "fields").value.content == List(Strs(index.columnNames))
      && |Get(e, "fields").value.content.items| == |index.columnNames|
      && Get(e, "unique") == Some(if index.kind == UniqueIndex then Bool(true) else Null)
  {
    var e := IndexEntry(index, cfg).entries;
    GetAt(e, 1);
    GetAt(e, 2);
  }

  // ---------------------------------------------------------------- options

  /** No entry is exported exactly when no index is plain or unique. */
  lemma IndexesEmpty(indices: seq<Index>, cfg: Config)
    ensures IndexesOf(indices, cfg) == [] <==> forall i :: 0 <= i < |indices| ==> !Qualifies(indices[i])
  {
    IndexesMembership(indices, cfg);
    if exists i :: 0 <= i < |indices| && Qualifies(indices[i]) {
      var i :| 0 <= i < |indices| && Qualifies(indices[i]);
      assert IndexEntry(indices[i], cfg) in IndexesOf(indices, cfg);
    }
  }

  /** `asOptions`' `indexes` is null exactly when no index is plain or
      unique, and the exported list otherwise. */
  lemma OptionsIndexes(t: Table, cfg: Config)
    ensures var o := AsOptions(t, cfg, IndexesOf(t.indices, cfg)).content.entries;
      && (Get(o, "indexes") == Some(Null) <==> forall i :: 0 <= i < |t.indices| ==> !Qualifies(t.indices[i]))
      && ((exists i :: 0 <= i < |t.indices| && Qualifies(t.indices[i])) ==>
            Get(o, "indexes") == Some(List(IndexesOf(t.indices, cfg))))
  {
    IndexesEmpty(t.indices, cfg);
    var o := AsOptions(t, cfg, IndexesOf(t.indices, cfg)).content.entries;
    GetAt(o, 3);
  }

  /** The options object never repeats a key. */
  lemma OptionsUnique(t: Table, cfg: Config, indexes: seq<Value>)
    ensures UniqueKeys(AsOptions(t, cfg, indexes).content.entries)
  {
    var o := AsOptions(t, cfg, indexes).content.entries;
    assert o[0].0 == "sequelize" && o[1].0 == "modelName" && o[2].0 == "tableName" && o[3].0 == "indexes";
    assert o[4].0 == "timestamps" && o[5].0 == "underscored" && o[6].0 == "syncOnAssociation";
  }

  /** `asOptions`: a multi-line object whose `sequelize` is the raw variable
      name and whose `tableName` is the raw table name; its three trailing
      entries are the formatter's table property defaults, written out rather
      than taken from `getTableProp`, so the common property path has no
      effect on it. */
  lemma OptionsShape(t: Table, cfg: Config, indexes: seq<Value>, path: string)
    ensures var v := AsOptions(t, cfg, indexes); var o := v.content.entries;
      && v.Js? && v.multiline && !v.raw
      && UniqueKeys(o)
      && |o| == 7
      && o[0].0 == "sequelize" && o[1].0 == "modelName" && o[2].0 == "tableName" && o[3].0 == "indexes"
      && IsRawCode(Get(o, "sequelize").value, "sequelize")
      && !Get(o, "sequelize").value.multiline
      && Get(o, "modelName") == Some(Str(t.modelName))
      && Get(o, "tableName") == Some(Str(t.rawTableName))
      && o[4..] == NodeFormatter.Defaults()
    ensures AsOptions(t, cfg.(commonTableProp := path), indexes) == AsOptions(t, cfg, indexes)
  {
    var o := AsOptions(t, cfg, indexes).content.entries;
    OptionsUnique(t, cfg, indexes);
    GetAt(o, 0);
    GetAt(o, 1);
    GetAt(o, 2);
  }

  // ---------------------------------------------------------------- writing

  /** External tables and skipped junction tables return without touching
      the writer; any other table opens its file, writes the body once and
      closes it, in that order. */
  lemma WriteOutcomeSpec(t: Table, cfg: Config, conv: Converter)
    ensures var (status, trace) := WriteOutcome(t, cfg, conv);
      && (status == WriteExternal <==> t.isExternal)
      && (status == WriteM2M <==> !t.isExternal && cfg.skipM2MTables && t.isManyToMany)
      && (trace == [] <==> status != WriteOk)
      && (forall p :: Opened(p) in trace ==> status == WriteOk && p == t.tableFileName)
      && (status == WriteOk ==>
            |trace| == 3 && trace[0] == Opened(t.tableFileName) && trace[1].BodyWritten? && trace[2] == Closed)
  {
  }

  // ---------------------------------------------------------------- scenarios

  /** An auto-increment primary key `id`: its type, primaryKey and
      autoIncrement, and no allowNull. */
  lemma UsersIdDescriptor(cfg: Config, conv: Converter)
    requires conv(Column("id", "int", 0, 0, 0, true, true, true, [])) == "INTEGER"
    ensures Descriptor(Column("id", "int", 0, 0, 0, true, true, true, []), cfg, conv)
      == [("type", Js(Str("DataTypes.INTEGER"), true, true, Indentation(cfg))),
          ("primaryKey", Bool(true)),
          ("autoIncrement", Bool(true))]
  {
    var id := Column("id", "int", 0, 0, 0, true, true, true, []);
    var idType := Js(Str("DataTypes.INTEGER"), true, true, Indentation(cfg));
    assert TypeCode(id, conv) == "DataTypes.INTEGER";
    assert Descriptor(id, cfg, conv) == FlagEntries(idType, true, true, true);
    FlagEntriesList(idType, true, true, true);
  }

  /** A not-null `email` of length 255: its sized type and allowNull. */
  lemma UsersEmailDescriptor(cfg: Config, conv: Converter)
    requires conv(Column("email", "varchar", 255, 0, 0, false, false, true, [])) == "STRING"
    ensures Descriptor(Column("email", "varchar", 255, 0, 0, false, false, true, []), cfg, conv)
      == [("type", Js(Str("DataTypes.STRING(255)"), true, true, Indentation(cfg))),
          ("allowNull", Bool(false))]
  {
    var email := Column("email", "varchar", 255, 0, 0, false, false, true, []);
    var emailType := Js(Str("DataTypes.STRING(255)"), true, true, Indentation(cfg));
    assert Digits(255) == "255" by {
      assert Digits(2) == "2";
      assert Digits(25) == "25";
    }
    assert TypeCode(email, conv) == "DataTypes.STRING(255)";
    assert Descriptor(email, cfg, conv) == FlagEntries(emailType, false, false, true);
    FlagEntriesList(emailType, false, false, true);
  }

  /** A `users` table with an auto-increment primary key `id` and a not-null
      `email` of length 255. */
  lemma UsersScenario(cfg: Config, conv: Converter)
    requires conv(Column("id", "int", 0, 0, 0, true, true, true, [])) == "INTEGER"
    requires conv(Column("email", "varchar", 255, 0, 0, false, false, true, [])) == "STRING"
    ensures var ind := Indentation(cfg);
      FieldsOf([Column("id", "int", 0, 0, 0, true, true, true, []),
                Column("email", "varchar", 255, 0, 0, false, false, true, [])], cfg, conv)
      == [("id", Map([("type", Js(Str("DataTypes.INTEGER"), true, true, ind)),
                      ("primaryKey", Bool(true)),
                      ("autoIncrement", Bool(true))])),
          ("email", Map([("type", Js(Str("DataTypes.STRING(255)"), true, true, ind)),
                         ("allowNull", Bool(false))]))]
  {
    var id := Column("id", "int", 0, 0, 0, true, true, true, []);
    var email := Column("email", "varchar", 255, 0, 0, false, false, true, []);
    var f := FieldsOf([id, email], cfg, conv);
    FieldsOfInOrder([id, email], cfg, conv);
    UsersIdDescriptor(cfg, conv);
    UsersEmailDescriptor(cfg, conv);
    assert f == [f[0], f[1]];
  }

  /** A decimal column with precision 10 and scale 2. */
  lemma DecimalScenario(conv: Converter, column: Column)
    requires column.columnType == DatatypeDecimal && column.precision == 10 && column.scale == 2
    requires conv(column) == "DECIMAL"
    ensures TypeCode(column, conv) == "DataTypes.DECIMAL(10, 2)"
  {
    assert Digits(10) == "10";
    assert Digits(2) == "2";
    assert Truthy("DECIMAL(10, 2)");
  }
}
