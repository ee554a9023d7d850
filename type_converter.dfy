/** `TypeConverter`: the TypeScript type of a database column. */
module TypeConverter {
  import opened Wrappers
  import opened Schema

  predicate IsTypeString(t: ColumnType) {
    t.Binary? || t.Guid? || t.String? || t.Text? || t.Blob?
  }

  predicate IsTypeAny(t: ColumnType) {
    t.SimpleArray? || t.Json?
  }

  predicate IsTypeNumber(t: ColumnType) {
    t.BigInt? || t.Integer? || t.SmallInt?
  }

  predicate IsTypeDecimal(t: ColumnType) {
    t.Decimal? || t.Float? || t.SmallFloat?
  }

  predicate IsTypeBoolean(t: ColumnType) {
    t.Boolean?
  }

  predicate IsTypeDateTime(t: ColumnType) {
    t.DateImmutable? || t.DateInterval? || t.DateTimeImmutable? || t.DateTime?
    || t.DateTimeTzImmutable? || t.DateTimeTz? || t.Date? || t.TimeImmutable? || t.Time?
  }

  function LookupName(t: ColumnType): string {
    if t.Other? then t.lookupName else ""
  }

  /** The `match (true)` of `convert`: the first matching arm wins; no arm
      matching is an `UnknownTypeException`, here a `Failure`. */
  function ConvertType(t: ColumnType): (r: Result<string>)
    ensures r.Success? ==> r.value in ["string", "any", "number", "boolean", "Date"]
  {
    if IsTypeString(t) then Success("string")
    else if IsTypeAny(t) then Success("any")
    else if IsTypeNumber(t) then Success("number")
    else if IsTypeDecimal(t) then Success("number")
    else if IsTypeBoolean(t) then Success("boolean")
    else if IsTypeDateTime(t) then Success("Date")
    else Failure("Unknown type: " + LookupName(t))
  }

  /** Which type each column type becomes; only a type outside the known
      classes fails, naming the type. */
  lemma ConversionTable(t: ColumnType)
    ensures ConvertType(t) == Success("string") <==> t in {Binary, Guid, String, Text, Blob}
    ensures ConvertType(t) == Success("any") <==> t in {SimpleArray, Json}
    ensures ConvertType(t) == Success("number")
      <==> t in {BigInt, Integer, SmallInt, Decimal, Float, SmallFloat}
    ensures ConvertType(t) == Success("boolean") <==> t == Boolean
    ensures ConvertType(t) == Success("Date")
      <==> t in {DateImmutable, DateInterval, DateTimeImmutable, DateTime,
                 DateTimeTzImmutable, DateTimeTz, Date, TimeImmutable, Time}
    ensures ConvertType(t).Failure? <==> t.Other?
    ensures t.Other? ==> ConvertType(t) == Failure("Unknown type: " + t.lookupName)
  {
  }

  /** No column type satisfies two of the predicates, so the order of the arms
      only matters in principle. */
  lemma CategoriesDisjoint(t: ColumnType)
    ensures IsTypeString(t) ==> !IsTypeAny(t) && !IsTypeNumber(t) && !IsTypeDecimal(t)
                                && !IsTypeBoolean(t) && !IsTypeDateTime(t)
    ensures IsTypeAny(t) ==> !IsTypeNumber(t) && !IsTypeDecimal(t) && !IsTypeBoolean(t) && !IsTypeDateTime(t)
    ensures IsTypeNumber(t) ==> !IsTypeDecimal(t) && !IsTypeBoolean(t) && !IsTypeDateTime(t)
    ensures IsTypeDecimal(t) ==> !IsTypeBoolean(t) && !IsTypeDateTime(t)
    ensures IsTypeBoolean(t) ==> !IsTypeDateTime(t)
  {
  }

  class TypeConverter {
    /** The type of the column converted last (`null` before the first call). */
    var typ: Option<ColumnType>

    constructor ()
      ensures typ.None?
    {
      typ := None;
    }

    /** `convert`: remembers the column's type, then maps it. */
    method Convert(column: Column) returns (r: Result<string>)
      modifies this
      ensures typ == Some(column.columnType)
      ensures r == ConvertType(column.columnType)
    {
      typ := Some(column.columnType);
      r := ConvertType(typ.value);
    }
  }
}
