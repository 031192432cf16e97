/** The read-only schema records and configuration the exporter consumes.
    Their accessors (`getColumns`, `getForeignKeys`, `getParameter`, ...) live
    in the base exporter and are modelled here as plain fields. */
module Schema {

  /** The tag the datatype converter gives decimal columns
      (`DatatypeConverterInterface::DATATYPE_DECIMAL`). */
  const DatatypeDecimal: string := "com.mysql.rdbms.mysql.datatype.decimal"

  /** One foreign key of a column; a rule that is not set reads as "". */
  datatype ForeignKey = ForeignKey(
    referencedModelName: string,
    foreignColumns: seq<string>,
    updateRule: string,
    deleteRule: string)

  datatype Column = Column(
    name: string,
    columnType: string,
    length: int,
    precision: int,
    scale: int,
    isPrimary: bool,
    isAutoIncrement: bool,
    isNotNull: bool,
    foreignKeys: seq<ForeignKey>)

  datatype IndexKind = PlainIndex | UniqueIndex | PrimaryIndex | FulltextIndex | SpatialIndex

  datatype Index = Index(name: string, columnNames: seq<string>, kind: IndexKind)
  {
    predicate IsIndex() { kind == PlainIndex }
    predicate IsUnique() { kind == UniqueIndex }
  }

  datatype Table = Table(
    modelName: string,
    rawTableName: string,
    tableFileName: string,
    columns: seq<Column>,
    indices: seq<Index>,
    isExternal: bool,
    isManyToMany: bool)

  /** The configuration entries this exporter reads. */
  datatype Config = Config(
    indentation: nat,
    useTabs: bool,
    addComment: bool,
    skipM2MTables: bool,
    commonTableProp: string)

  /** `DatatypeConverter::getType`: the mapping table is not part of this
      model, so it is a parameter wherever a type name is needed. */
  type Converter = Column -> string
}
