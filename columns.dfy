/**
 * The property records the read-method synthesizer consumes, and the table
 * from a declared Java type to the `ResultSet` accessor that reads it.
 */
module Columns {
  import opened Code

  /**
   * One property of the value type, as `ColumnProperty` presents it:
   * its human name, its declared type (as written in generated code), the
   * column key, the nullable flag, the optional adapter class, whether the
   * type can be read by the accessor table, and the accessor template.
   * `resultSetMethod` is only consulted when `supportedType` holds.
   */
  datatype ColumnProperty = ColumnProperty(
    humanName: string,
    javaType: string,
    columnName: string,
    nullable: bool,
    columnAdapter: Option<ClassName>,
    supportedType: bool,
    resultSetMethod: Template)

  /** `resultSet.<getter>($L)` */
  function Getter(getter: string): Template
  {
    Template("resultSet." + getter + "(", ")")
  }

  /**
   * The accessor table: the declared types that can be read from a
   * `ResultSet`, and how.  A boolean is an integer compared with 1.
   */
  function ResultSetMethod(javaType: string): Option<Template>
  {
    if javaType == "String" then Some(Getter("getString"))
    else if javaType in {"int", "Integer"} then Some(Getter("getInt"))
    else if javaType in {"long", "Long"} then Some(Getter("getLong"))
    else if javaType in {"short", "Short"} then Some(Getter("getShort"))
    else if javaType in {"double", "Double"} then Some(Getter("getDouble"))
    else if javaType in {"float", "Float"} then Some(Getter("getFloat"))
    else if javaType in {"boolean", "Boolean"} then Some(Template("resultSet.getInt(", ") == 1"))
    else if javaType == "byte[]" then Some(Getter("getBlob"))
    else None
  }

  /** The types the accessor table covers. */
  const SupportedTypes: set<string> :=
    {"String", "int", "Integer", "long", "Long", "short", "Short",
     "double", "Double", "float", "Float", "boolean", "Boolean", "byte[]"}

  /**
   * A property as the annotation reader builds it: the column key is the
   * `@ColumnName` override when there is one and the human name otherwise;
   * the type is supported exactly when the accessor table has it.
   */
  function Declare(humanName: string, javaType: string, columnOverride: Option<string>,
                   nullable: bool, columnAdapter: Option<ClassName>): (p: ColumnProperty)
    ensures p.humanName == humanName && p.javaType == javaType
    ensures p.nullable == nullable && p.columnAdapter == columnAdapter
    ensures columnOverride.None? ==> p.columnName == humanName
    ensures columnOverride.Some? ==> p.columnName == columnOverride.value
    ensures p.supportedType <==> javaType in SupportedTypes
    ensures p.supportedType ==> ResultSetMethod(javaType) == Some(p.resultSetMethod)
  {
    var m := ResultSetMethod(javaType);
    ColumnProperty(humanName, javaType,
                   if columnOverride.Some? then columnOverride.value else humanName,
                   nullable, columnAdapter, m.Some?,
                   if m.Some? then m.value else Template("", ""))
  }

  /** A primitive and its boxed form are read by the same accessor. */
  lemma BoxedReadLikePrimitive()
    ensures ResultSetMethod("int") == ResultSetMethod("Integer")
    ensures ResultSetMethod("long") == ResultSetMethod("Long")
    ensures ResultSetMethod("short") == ResultSetMethod("Short")
    ensures ResultSetMethod("double") == ResultSetMethod("Double")
    ensures ResultSetMethod("float") == ResultSetMethod("Float")
    ensures ResultSetMethod("boolean") == ResultSetMethod("Boolean")
  {
  }
}
