/** The parts of a database schema the generator reads: a table's name and
    columns, and per column its name, its column type and whether it is
    `NOT NULL`. */
module Schema {

  /** One tag per column type class the converter distinguishes. A type of
      any other class is `Other`, carrying the name the type registry knows
      it by. */
  datatype ColumnType =
    | BigInt | Binary | Blob | Boolean
    | DateImmutable | DateInterval | DateTimeImmutable | DateTime
    | DateTimeTzImmutable | DateTimeTz | Date
    | Decimal | Float | Guid | Integer | Json | SimpleArray | SmallFloat | SmallInt
    | String | Text | TimeImmutable | Time
    | Other(lookupName: string)

  datatype Column = Column(name: string, columnType: ColumnType, notnull: bool)

  datatype Table = Table(name: string, columns: seq<Column>)
}
