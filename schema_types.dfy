/**
 * The database schema in the readable form the diagram view consumes
 * (the interfaces of client/src/types/schema.ts). The TypeScript field
 * `type` is called `dataType` here, since `type` is a Dafny keyword.
 */
module SchemaTypes {
  import opened Wrappers

  /** One column; the optional `foreignTable`/`foreignColumn` become `Option`s. */
  datatype SchemaColumn = SchemaColumn(
    name: string,
    dataType: string,
    isPrimaryKey: bool,
    isForeignKey: bool,
    foreignTable: Option<string>,
    foreignColumn: Option<string>)

  datatype SchemaTable = SchemaTable(name: string, columns: seq<SchemaColumn>)

  /** A directed foreign-key edge: `fromColumn` of `fromTable` refers to `toColumn` of `toTable`. */
  datatype SchemaRelationship = SchemaRelationship(
    fromTable: string,
    fromColumn: string,
    toTable: string,
    toColumn: string)

  /** The full schema: tables and relationships, ready for diagram rendering. */
  datatype DbSchema = DbSchema(tables: seq<SchemaTable>, relationships: seq<SchemaRelationship>)
}
