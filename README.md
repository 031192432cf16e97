# Sequelize 6 model export for one table

This project models the step of the MySQL Workbench schema exporter's Node
formatter that turns one table's metadata into the value tree a Sequelize 6
model file is printed from (`lib/Sequelize6/Model/Table.php`). It also models
the Node formatter's defaults and its common table properties
(`lib/Formatter.php`). The model is written in Dafny and its properties are
proved by the verifier.

The files:

- `php_arrays.dfy` (module `PhpArrays`) holds the value tree. PHP associative
  arrays are ordered `(key, value)` sequences. The module defines the array
  operations the exporter uses: `$a[k] = v` (`Put`), `$a[o][k] = v`
  (`PutNested`), `array_merge` (`Merge`) and a loop of assignments
  (`Assign`). It proves what PHP promises about each of them.
- `php_strings.dfy` (module `PhpStrings`) holds PHP string truthiness,
  `strtoupper`, `implode`/`explode`, integer formatting and `str_repeat`.
- `schema.dfy` (module `Schema`) holds the schema records and the
  configuration that are read.
- `node_formatter.dfy` (module `NodeFormatter`) covers `init`, the file
  extension (the constant `FileExtension`, which is `"js"`) and
  `getTableProp`.
- `sequelize6_table.dfy` (module `Sequelize6Table`) covers:
  - `getJSObject` and the type expression;
  - the column descriptor and the foreign-key loop;
  - `getFields` and `getIndexes`, as methods with loops proved against
    specification functions;
  - `asModel` and `asOptions`;
  - `writeBody` and `writeTable`. The writer is a class whose state is the
    trace of what it was asked to do.
- `sequelize6_table_properties.dfy` (module `Sequelize6TableProperties`)
  holds the properties of that model.

Behaviour that the model follows from the code:

- The options keep `indexes` set to null when the table has no qualifying
  index.
- Each index entry keeps `unique` set to null when the index is not unique.
  Null entries are not dropped.
- `onUpdate` and `onDelete` are set on the field descriptor itself, not
  inside `references`.
- With several foreign keys on one column, the last one's `model` and `key`
  win.
- For the rules, the last foreign key whose rule is set wins.
- `asOptions` writes the three common properties as literals. It never
  consults `getTableProp`, so the common-property file has no effect on the
  model file.
- The `STRING.BINARY` fallback applies when the type expression is falsy in
  PHP. That covers `""` and also `"0"`. The same PHP truthiness decides
  whether an update or delete rule is set.

## Model

| member | source | states |
|---|---|---|
| PhpArrays.PutSpec | lib/Sequelize6/Model/Table.php:174 | after `$a[k] = v`, k holds v and every other key keeps its value; an existing key keeps its position, a new key is appended at the end; no key is duplicated |
| PhpArrays.PutNestedSpec | lib/Sequelize6/Model/Table.php:162-163 | after `$a[o][k] = v`, the array under o holds v at k and every other nested key as before; every other outer key keeps its value |
| PhpArrays.MergeGet | lib/Formatter.php:82 | in `array_merge` the second array wins key by key; keys it lacks keep the first array's value |
| PhpArrays.MergeKeepsPositions | lib/Formatter.php:82 | `array_merge` keeps every key of the first array at its position |
| PhpArrays.MergeUnique | lib/Formatter.php:82 | `array_merge` never duplicates a key |
| PhpArrays.AssignKeys | lib/Sequelize6/Model/Table.php:138-177 | a loop of keyed assignments yields exactly the assigned keys, each once |
| PhpArrays.AssignLastWins | lib/Sequelize6/Model/Table.php:138-177 | in such a loop, each key holds the value of the last assignment to it |
| PhpArrays.AssignDistinct | lib/Sequelize6/Model/Table.php:138-177 | with distinct keys, the loop yields the pairs in assignment order |
| PhpStrings.ToUpperProperties | lib/Sequelize6/Model/Table.php:166 | `strtoupper` keeps the length, turns each ASCII lower-case letter into its upper-case letter (code point minus 32), changes no other character and is idempotent |
| PhpStrings.SplitJoin | lib/Sequelize6/Model/Table.php:163 | the `;`-joined foreign column list splits back into the same columns when no name contains `;` |
| PhpStrings.DigitsRoundTrip | lib/Sequelize6/Model/Table.php:144-146 | the decimal text written for a length or precision reads back as the same number |
| PhpStrings.Repeat | lib/Sequelize6/Model/Table.php:51 | `str_repeat` gives n copies of the unit |
| NodeFormatter.Init | lib/Formatter.php:40-47 | indentation becomes 4 and the common table property path becomes empty; every other setting is kept |
| NodeFormatter.Defaults | lib/Formatter.php:75-79 | the three default table properties have distinct keys |
| NodeFormatter.TablePropFallsBack | lib/Formatter.php:80-86 | an unreadable file, undecodable JSON or an empty object leaves exactly the defaults |
| NodeFormatter.InitUsesDefaults | lib/Formatter.php:43-80 | with the formatter's own configuration the path is empty, so the defaults are returned whatever files exist |
| NodeFormatter.TablePropOverlay | lib/Formatter.php:80-86 | a decoded object overrides key by key; defaults it does not mention are kept; the default keys keep their order at the front; no key is duplicated |
| Sequelize6Table.Indentation | lib/Sequelize6/Model/Table.php:50-51 | the indentation unit has as many characters as the configured indentation, all tabs when tabs are used and all spaces otherwise |
| Sequelize6Table.TypeExpression | lib/Sequelize6/Model/Table.php:142-149 | the type expression computed for a column equals the specification `TypeCode` |
| Sequelize6Table.ColumnDescriptor | lib/Sequelize6/Model/Table.php:142-173 | the descriptor built for a column equals the specification `Descriptor` |
| Sequelize6Table.AddForeignKeys | lib/Sequelize6/Model/Table.php:158-173 | the foreign-key loop equals folding `ForeignKeyStep` over the keys in order |
| Sequelize6Table.GetFields | lib/Sequelize6/Model/Table.php:136-178 | the fields loop yields `FieldsOf` the columns |
| Sequelize6Table.GetIndexes | lib/Sequelize6/Model/Table.php:180-194 | the indexes loop yields `IndexesOf` the indices |
| Sequelize6Table.Writer.Open | lib/Sequelize6/Model/Table.php:70 | opening appends an `Opened(path)` event to the trace |
| Sequelize6Table.Writer.WriteModel | lib/Sequelize6/Model/Table.php:101 | writing the body appends the model name, the comment flag, the model and the options |
| Sequelize6Table.Writer.Close | lib/Sequelize6/Model/Table.php:72 | closing appends a `Closed` event |
| Sequelize6Table.WriteBody | lib/Sequelize6/Model/Table.php:83-107 | the body written carries the model name, the comment flag, the model object of the table's fields and the options with its indexes |
| Sequelize6Table.WriteTable | lib/Sequelize6/Model/Table.php:60-75 | the status and the writer's new trace are those of `WriteOutcome` |
| Sequelize6TableProperties.TypeCodeCases | lib/Sequelize6/Model/Table.php:142-149 | a decimal gets `(precision, scale)`; otherwise a positive length gets `(length)`, whose digits read back as the length; otherwise there is no suffix; the code is `DataTypes.` plus the type, or `DataTypes.STRING.BINARY` when the type text is falsy in PHP |
| Sequelize6TableProperties.FlagEntriesList | lib/Sequelize6/Model/Table.php:148-157 | every assignment of the flag descriptor appends: `type`, then `primaryKey` when primary, then `autoIncrement`, or else `allowNull` when not-null |
| Sequelize6TableProperties.FlagEntriesSpec | lib/Sequelize6/Model/Table.php:148-157 | the descriptor starts with `type`; it has `primaryKey` true iff the column is primary; `autoIncrement` true iff auto-increment; `allowNull` false iff not-null and not auto-increment |
| Sequelize6TableProperties.ApplyForeignKeysFrame | lib/Sequelize6/Model/Table.php:158-173 | the foreign-key loop touches only `references`, `onUpdate` and `onDelete`, keeps the first key and keeps keys unique |
| Sequelize6TableProperties.StepRule | lib/Sequelize6/Model/Table.php:164-171 | one step sets `onUpdate`/`onDelete` to the upper-cased rule when the rule is truthy, and otherwise leaves it as it was |
| Sequelize6TableProperties.PutModelKey | lib/Sequelize6/Model/Table.php:162-163 | writing `model` then `key` into a references map that is empty or holds exactly `model` then `key` (the only states the loop produces) leaves exactly `[model, key]` |
| Sequelize6TableProperties.StepReferences | lib/Sequelize6/Model/Table.php:161-163 | when the references map is empty or holds exactly `model` then `key`, after one step `references` is `{model: referenced model name, key: joined foreign columns}` |
| Sequelize6TableProperties.ReferencesLastWins | lib/Sequelize6/Model/Table.php:158-163 | after the loop, `references` describes the last foreign key |
| Sequelize6TableProperties.RuleLastSetWins | lib/Sequelize6/Model/Table.php:164-171 | a rule that no foreign key sets keeps its earlier value; otherwise it holds the upper-cased rule of the last key that sets it |
| Sequelize6TableProperties.AddReferencesFrame | lib/Sequelize6/Model/Table.php:158-173 | adding references changes no key other than `references`, `onUpdate` and `onDelete`, keeps the first entry first and keeps keys unique |
| Sequelize6TableProperties.AddReferencesSpec | lib/Sequelize6/Model/Table.php:158-173 | `references` is present iff there are foreign keys and then describes the last one; a rule is absent when no key sets it, and otherwise holds the upper-cased rule of the last key that sets it |
| Sequelize6TableProperties.DescriptorFlags | lib/Sequelize6/Model/Table.php:148-157 | a column's descriptor starts with a raw multiline `type` object holding the type code; it has distinct keys; primaryKey, autoIncrement and allowNull follow the column flags; autoIncrement and allowNull never appear together |
| Sequelize6TableProperties.DescriptorKeyOrder | lib/Sequelize6/Model/Table.php:148-173 | the descriptor's keys start with `type`, then `primaryKey` when primary, then `autoIncrement` or else `allowNull` when not-null, at those positions; every key after them is `references`, `onUpdate` or `onDelete` |
| Sequelize6TableProperties.DescriptorForeignKeys | lib/Sequelize6/Model/Table.php:158-171 | a column's `references` comes from its last foreign key; the rules come from the last key that sets each one; without foreign keys none of the three entries is present |
| Sequelize6TableProperties.FieldsOfKeys | lib/Sequelize6/Model/Table.php:140-177 | the fields are keyed by exactly the column names, each once |
| Sequelize6TableProperties.FieldsOfLastWins | lib/Sequelize6/Model/Table.php:140-177 | a column name maps to the descriptor of the last column with that name |
| Sequelize6TableProperties.FieldsOfInOrder | lib/Sequelize6/Model/Table.php:140-177 | with distinct column names there is one field per column, in column order, each holding its column's descriptor |
| Sequelize6TableProperties.ModelObject | lib/Sequelize6/Model/Table.php:124-129 | the model is a multiline, non-raw object with the configured indentation; with distinct column names, entry i is column i's name with its descriptor |
| Sequelize6TableProperties.IndexesAppend | lib/Sequelize6/Model/Table.php:183-191 | the index list of concatenated indices is the concatenation of the two lists |
| Sequelize6TableProperties.IndexesMembership | lib/Sequelize6/Model/Table.php:183-191 | an entry is in the list iff it comes from a plain or unique index; there are never more entries than indices |
| Sequelize6TableProperties.IndexesAllQualify | lib/Sequelize6/Model/Table.php:183-191 | when every index is plain or unique, the list has one entry per index, in order |
| Sequelize6TableProperties.IndexEntryShape | lib/Sequelize6/Model/Table.php:185-189 | an entry holds exactly three distinct keys in order: `name`, then `fields` as a single-line, non-raw list of the column names, then `unique` as true or null |
| Sequelize6TableProperties.IndexesEmpty | lib/Sequelize6/Model/Table.php:183-193 | the list is empty iff no index is plain or unique |
| Sequelize6TableProperties.OptionsIndexes | lib/Sequelize6/Model/Table.php:115 | `indexes` is null iff no index qualifies; otherwise it is the list of index entries |
| Sequelize6TableProperties.OptionsUnique | lib/Sequelize6/Model/Table.php:111-119 | the options object never repeats a key |
| Sequelize6TableProperties.OptionsShape | lib/Sequelize6/Model/Table.php:109-122 | the options hold exactly seven distinct keys in order: a raw, single-line `sequelize` reference, the model name, the raw table name, `indexes`, then exactly the formatter's default properties; the common-property path has no effect |
| Sequelize6TableProperties.WriteOutcomeSpec | lib/Sequelize6/Model/Table.php:60-75 | an external table is skipped with nothing written; a many-to-many table is skipped when configured; otherwise the file is opened, its body written and closed |
| Sequelize6TableProperties.UsersScenario | lib/Sequelize6/Model/Table.php:136-178 | a table whose columns are an auto-increment primary `id` (converter name `INTEGER`) and a not-null `email` of length 255 (converter name `STRING`) yields exactly the two expected field descriptors, in column order |
| Sequelize6TableProperties.DecimalScenario | lib/Sequelize6/Model/Table.php:142-149 | a decimal column with precision 10 and scale 2 yields `DataTypes.DECIMAL(10, 2)` |

## Left out

- The JavaScript rendering of the value tree (`MwbExporter\Object\JS`) is not part of this model. Values are kept as the tree that is handed to it, and null entries are kept as they are.
- The datatype converter's mapping table (`DatatypeConverter::getType`) is not part of this model. It is the parameter `conv`.
- The comment banner text and the literal lines of the class stub are reduced to one trace event. That event carries the model name, the comment flag, the model and the options.
- The writer's file I/O and its failures are left out. The writer is the trace of what it is asked to do.
- `is_readable`, `file_get_contents` and `json_decode` are reduced to a map from path to the decoded object, or to `None` when decoding fails.
- A JSON document that decodes to a list or a scalar is not modelled, and neither is the renumbering `array_merge` applies to integer keys.
- PHP turns integer-like string keys (a column named `"12"`) into integers. The model keeps every key a string.
- NodeFormatter.TablePropOverlay: requires the decoded object to have distinct keys. JSON objects with a repeated key are collapsed by the decoder, which is not modelled.
- The value of `DatatypeConverterInterface::DATATYPE_DECIMAL` is defined outside these files. It is the constant `DatatypeDecimal`.
- Decimal precision and scale are integers. A missing parameter, which prints as an empty string, is not modelled.
- A column length that is not an integer is not modelled either.
- The configured indentation is a natural number. `str_repeat` rejects a negative count, and that case is not modelled.
- The following are fixed or external and are not modelled:
  - `getVersion`;
  - `createDatatypeConverter`;
  - the base formatter's `init`;
  - the base table's accessors, which are the fields of `Schema.Table`;
  - `getTableFileName`, which is the input field `tableFileName`.
