# The `createFromResultSet` synthesizer of auto-value-resultset

This project models the AutoValue extension `AutoValueResultSetExtension`.
For an `@AutoValue` class it generates a static factory
`createFromResultSet(ResultSet resultSet) throws SQLException` that reads one
row of a JDBC `ResultSet` into the final AutoValue subclass. When
`rx.functions.Func1` is on the class path it also adds a `MAPPER` field that
wraps the factory as a `Func1<ResultSet, T>`. The model and its proofs are in
Dafny.

The generated body has three parts:

1. One `X x = new X();` for every distinct column adapter, in order of first use.
2. For each property, in declaration order, exactly one of five branches:
   - an adapter call `T name = x.fromResultSet(resultSet, "column")`;
   - a direct read `T name = <accessor>(resultSet.findColumn("column"))`;
   - a nullable read that caches the index in `nameColumnIndex` and then
     guards the read with `resultSet.isNull`;
   - `T name = null; // can't be read from resultSet` for a nullable property of unsupported type;
   - a diagnostic "Property has type that can't be read from ResultSet." for an
     unsupported, non-nullable property.
3. `return new Final(name1, name2, ...)` over the human names of all properties.

Modules:

- `Code` (code.dfy) holds the generated statements as a datatype (`Stmt`). It
  has a renderer `Render` that follows the source's format strings, and
  measures of a statement list: the `findColumn` keys it looks up, the
  property locals it binds, and the adapter locals it uses.
- `Columns` (columns.dfy) holds the property record `ColumnProperty` and the
  table from declared Java type to `ResultSet` accessor. The `ColumnProperty`
  class is not part of this model, so the table follows the expected output
  of the extension's tests.
- `Adapters` (adapters.dfy) covers `toLowerCase`, `getColumnAdapters` and
  `addColumnAdaptersToMethod`, with a specification of first-seen
  deduplication (`Dedup`).
- `ReadMethod` (readmethod.dfy) covers `readProperty`,
  `readNullableProperty`, `getColumnIndex` and the per-property branch.
  `CreateReadMethod` is the source's loop, `names` array included. It is
  proved equal to the specification `ReadMethodSpec`, and the ordering,
  scoping and sharing properties are proved about that specification.
- `Mapper` (mapper.dfy) covers `getFunc1TypeName`, `createMapper`, a run-time
  meaning for the wrapper's `try`/`catch`, and `generateClass`.
- `Examples` (examples.dfy) works through the extension's own test cases.
- `Text` (text.dfy) renders statements of those example bodies and shows that
  each one is the line the test expects, for every kind of statement.

The model follows the code in these places, some of which are easy to miss:

- Adapter locals are keyed by the pair (adapter class, derived name), because
  JavaPoet compares `FieldSpec`s by their text. The name is the simple name
  with its first letter lower-cased. Nothing resolves collisions:
  `NameAllocator.toJavaIdentifier` only sanitises the name. So two adapter
  classes with the same simple name in different packages are declared under
  the same local name (`Examples.SameSimpleNameCollides`).
- No generated local is made unique either. A nullable property's index
  local is its human name followed by `ColumnIndex` (line 122), and property
  values are bound under their human names (lines 90, 117 and 130). So a nullable
  `b` beside a property named `bColumnIndex` declares that name twice
  (`Examples.IndexLocalCollides`). Likewise a property named `resultSet`
  is declared as a local beside the method's parameter of that name
  (line 76). The model keeps the names as the code writes them.
- An unreadable property does not stop generation. `error(...)` reports a
  diagnostic, the loop goes on, and the method and class are still built,
  with the property's name among the constructor arguments
  (`AutoValueResultSetExtension.java` lines 84, 104-106 and 108-111).
- The read method declares `throws SQLException`. The `MAPPER` wrapper's
  `call(ResultSet rs)` uses `try`/`catch` and rethrows through
  `Exceptions.propagate` (lines 75 and 146-151). The expected text in the
  test file shows neither the `throws` clause nor the `try`.
- The nullable test expects the index declaration without a line break after
  it (test line 109). The model follows `addStatement` at line 129, which ends
  every statement with `;\n`.

## Model

Paths are relative to the repository root. `AutoValueResultSetExtension.java` is
processor/src/main/java/in/workarounds/avrs/resultset/AutoValueResultSetExtension.java;
the test file is processor/src/test/java/in/workarounds/resultset/AutoValueResultSetExtensionTest.java.

| member | source | states |
|---|---|---|
| Columns.Declare | processor/src/test/java/in/workarounds/resultset/AutoValueResultSetExtensionTest.java:217-268 | the column key is the `@ColumnName` override if there is one, otherwise the human name (the override case is the test at lines 60-74, `Examples.ColumnNameOverride`); a type is supported exactly when it is one of the fourteen table types; a supported type reads through its table accessor (`getInt(...) == 1` for booleans) |
| Columns.BoxedReadLikePrimitive | processor/src/test/java/in/workarounds/resultset/AutoValueResultSetExtensionTest.java:256-267 | each primitive and its boxed form use the same accessor |
| Adapters.ToLowerCase | processor/src/main/java/in/workarounds/avrs/resultset/AutoValueResultSetExtension.java:181-183 | same length; every character after the first unchanged; the first lower-cased, never an upper-case ASCII letter; a name that already starts lower-case is returned unchanged |
| Adapters.AdapterField | processor/src/main/java/in/workarounds/avrs/resultset/AutoValueResultSetExtension.java:172-174 | the field has the adapter class as its type; its name is the class's simple name with only the first character lower-cased |
| Adapters.GetColumnAdapters | processor/src/main/java/in/workarounds/avrs/resultset/AutoValueResultSetExtension.java:167-179 | the map holds an entry exactly for each property with an adapter; that entry's type is the adapter class and its name is the lower-cased simple name |
| Adapters.AddColumnAdaptersToMethod | processor/src/main/java/in/workarounds/avrs/resultset/AutoValueResultSetExtension.java:185-201 | appends exactly one declaration for each distinct map entry, met in property order, to the body and nothing else; appends nothing for an empty map |
| Adapters.MapUsesAreBindings | processor/src/main/java/in/workarounds/avrs/resultset/AutoValueResultSetExtension.java:194-196 | walking the properties through the map meets exactly the adapter bindings of the properties, in order |
| Adapters.DedupSameElements | processor/src/main/java/in/workarounds/avrs/resultset/AutoValueResultSetExtension.java:196-198 | the handled adapters are exactly the adapters met: none lost, none invented |
| Adapters.DedupNoDuplicates | processor/src/main/java/in/workarounds/avrs/resultset/AutoValueResultSetExtension.java:196 | no adapter is declared twice |
| Adapters.DedupFirstSeenOrder | processor/src/main/java/in/workarounds/avrs/resultset/AutoValueResultSetExtension.java:194-199 | the declarations come in order of each adapter's first use |
| Adapters.BindingsCoverAdapters | processor/src/main/java/in/workarounds/avrs/resultset/AutoValueResultSetExtension.java:170-176 | every property with an adapter has a binding for that class; every binding comes from such a property and is named after its class |
| Adapters.NoAdaptersNoBindings | processor/src/main/java/in/workarounds/avrs/resultset/AutoValueResultSetExtension.java:171 | without adapters there are no bindings |
| Adapters.SharedAdapterOneBinding | processor/src/main/java/in/workarounds/avrs/resultset/AutoValueResultSetExtension.java:194-199 | properties that all use one adapter class give one binding after deduplication |
| ReadMethod.GetColumnIndex | processor/src/main/java/in/workarounds/avrs/resultset/AutoValueResultSetExtension.java:134-136 | a `findColumn` call whose one key is the column name as given |
| ReadMethod.ColumnIndexVar | processor/src/main/java/in/workarounds/avrs/resultset/AutoValueResultSetExtension.java:122 | the index local is the human name followed by `ColumnIndex` |
| ReadMethod.ColumnIndexVarsDistinct | processor/src/main/java/in/workarounds/avrs/resultset/AutoValueResultSetExtension.java:122 | two properties declare the same index local if and only if they share a human name |
| ReadMethod.ReadProperty | processor/src/main/java/in/workarounds/avrs/resultset/AutoValueResultSetExtension.java:114-119 | one typed read of the human name through the property's accessor, with one `findColumn` of the column name verbatim |
| ReadMethod.ReadNullableProperty | processor/src/main/java/in/workarounds/avrs/resultset/AutoValueResultSetExtension.java:121-132 | exactly two statements: `int <name>ColumnIndex` from one `findColumn(column)`, then a guarded read through that local; the column is looked up once |
| ReadMethod.Synthesize | processor/src/main/java/in/workarounds/avrs/resultset/AutoValueResultSetExtension.java:86-106 | precedence adapter, then supported (nullable or not), then unsupported and nullable, then error; a diagnostic exactly when the property is unreadable, and then no statement; an adapter always means `fromResultSet` with the column name, whatever the other flags |
| ReadMethod.SynthesizeShape | processor/src/main/java/in/workarounds/avrs/resultset/AutoValueResultSetExtension.java:86-106 | the property-value locals of a property are exactly its own name if it is readable and none otherwise; its only other local is its `<name>ColumnIndex` index local, declared exactly when it is a nullable read by index; it looks its column up once if read by index and never otherwise; it uses its adapter's local if it has one; it declares no adapter and returns nothing |
| ReadMethod.CreateReadMethod | processor/src/main/java/in/workarounds/avrs/resultset/AutoValueResultSetExtension.java:70-112 | the built method is `ReadMethodSpec`: static, named `createFromResultSet`, returns the final class, `throws SQLException`, takes `ResultSet resultSet`; body is adapter declarations, then property statements, then the constructor call over the `names` array; the diagnostics are those of the properties, in order |
| ReadMethod.PropertyStmtsSplit | processor/src/main/java/in/workarounds/avrs/resultset/AutoValueResultSetExtension.java:82-107 | the statements of property k come after those of every earlier property and before those of every later one |
| ReadMethod.ValueNamesInOrder | processor/src/main/java/in/workarounds/avrs/resultset/AutoValueResultSetExtension.java:82-106 | the property-value locals of the property statements are exactly the readable properties' names, in declaration order; index locals are not among them |
| ReadMethod.ErrorsNameUnreadable | processor/src/main/java/in/workarounds/avrs/resultset/AutoValueResultSetExtension.java:104-106 | one diagnostic per unreadable property, naming it, with the fixed message, in declaration order |
| ReadMethod.NoErrorsIffAllReadable | processor/src/main/java/in/workarounds/avrs/resultset/AutoValueResultSetExtension.java:86-106 | no diagnostic if and only if every property is readable |
| ReadMethod.LookupsOncePerIndexedRead | processor/src/main/java/in/workarounds/avrs/resultset/AutoValueResultSetExtension.java:121-136 | the `findColumn` calls of the property statements are exactly the column names of the properties read by index, one each, in order |
| ReadMethod.BodyLookups | processor/src/main/java/in/workarounds/avrs/resultset/AutoValueResultSetExtension.java:77-136 | the `findColumn` calls of the whole read method body are exactly the column names of the properties read by index, one each, in order |
| ReadMethod.BodyValueNames | processor/src/main/java/in/workarounds/avrs/resultset/AutoValueResultSetExtension.java:77-111 | the property-value locals of the whole read method body are exactly the readable properties' names, in declaration order; adapter and index locals are not among them |
| ReadMethod.DeclarationsFirst | processor/src/main/java/in/workarounds/avrs/resultset/AutoValueResultSetExtension.java:77-110 | no adapter declaration follows a non-declaration; the last statement is the constructor call over all human names, including those of unreadable properties; no other statement is a return |
| ReadMethod.AdapterReadsFollowBindings | processor/src/main/java/in/workarounds/avrs/resultset/AutoValueResultSetExtension.java:86-92 | the adapter locals used by the reads are the bindings' names, property by property |
| ReadMethod.AdapterLocalsDeclaredBeforeUse | processor/src/main/java/in/workarounds/avrs/resultset/AutoValueResultSetExtension.java:77-92 | every `fromResultSet` call names an adapter local declared earlier in the body |
| ReadMethod.IndexLocalsDeclaredBeforeUse | processor/src/main/java/in/workarounds/avrs/resultset/AutoValueResultSetExtension.java:121-132 | every guarded read in the body directly follows the declaration of the index local it uses |
| ReadMethod.SharedAdapterDeclaredOnce | processor/src/main/java/in/workarounds/avrs/resultset/AutoValueResultSetExtension.java:185-200 | when properties share one adapter class, the body declares it exactly once |
| ReadMethod.SharedAdapterOneLocal | processor/src/main/java/in/workarounds/avrs/resultset/AutoValueResultSetExtension.java:86-92 | when they share it, there is one `fromResultSet` call per adapter-bearing property and every one names the same local |
| ReadMethod.NoAdaptersNoDeclarations | processor/src/main/java/in/workarounds/avrs/resultset/AutoValueResultSetExtension.java:189-191 | without adapters the body declares none |
| Mapper.Func1TypeName | processor/src/main/java/in/workarounds/avrs/resultset/AutoValueResultSetExtension.java:163-165 | `Func1<ResultSet, T>`, where T is the annotated class, not the final subclass |
| Mapper.Invoke | processor/src/main/java/in/workarounds/avrs/resultset/AutoValueResultSetExtension.java:146-152 | the `try`/`catch` throws exactly when the call inside throws; a value passes unchanged; an exception of the caught class comes out wrapped around that cause; any other passes unchanged |
| Mapper.CreateMapper | processor/src/main/java/in/workarounds/avrs/resultset/AutoValueResultSetExtension.java:138-161 | a `static final MAPPER` field whose type and whose anonymous class's superinterface are both `Func1<ResultSet, T>`; `call` is a public `@Override` taking a `ResultSet`, returning the final class, passing its own parameter to `createFromResultSet`, and catching `SQLException` to rethrow it through `Exceptions.propagate` |
| Mapper.MapperDelegatesToReadMethod | processor/src/main/java/in/workarounds/avrs/resultset/AutoValueResultSetExtension.java:142-151 | `call` passes its own `ResultSet` parameter to the static read method by name; it returns the read method's type; it catches exactly the one exception the read method declares |
| Mapper.MapperNeverSwallows | processor/src/main/java/in/workarounds/avrs/resultset/AutoValueResultSetExtension.java:146-152 | the wrapper throws if and only if the read method throws, and returns its value unchanged |
| Mapper.MapperPropagatesSqlException | processor/src/main/java/in/workarounds/avrs/resultset/AutoValueResultSetExtension.java:149-151 | an `SQLException` leaves `call` wrapped by `Exceptions.propagate` |
| Mapper.MapperPassesOtherExceptions | processor/src/main/java/in/workarounds/avrs/resultset/AutoValueResultSetExtension.java:146-152 | any exception whose class is not exactly `SQLException` leaves `call` untouched (subclasses are not modelled) |
| Mapper.GenerateClass | processor/src/main/java/in/workarounds/avrs/resultset/AutoValueResultSetExtension.java:54-68 | the subclass always holds the read method; it holds `MAPPER` if and only if `Func1` exists, and then it is `CreateMapper`; the diagnostics are the read method's, and the class is built even when there are some |
| Examples.Simple | processor/src/test/java/in/workarounds/resultset/AutoValueResultSetExtensionTest.java:36-38 | `int a; String b`: two direct reads and `return new AutoValue_Test(a, b)` |
| Examples.ColumnNameOverride | processor/src/test/java/in/workarounds/resultset/AutoValueResultSetExtensionTest.java:60-74 | a `@ColumnName("column_b")` override is the `findColumn` key |
| Examples.NullableRead | processor/src/test/java/in/workarounds/resultset/AutoValueResultSetExtensionTest.java:108-111 | `@Nullable String b` gives `bColumnIndex` and then the guarded read |
| Examples.Unsupported | processor/src/test/java/in/workarounds/resultset/AutoValueResultSetExtensionTest.java:161-178 | `int[] a` gives the diagnostic against `a` and no statement for it, while `a` is still a constructor argument |
| Examples.UnsupportedWithNullable | processor/src/test/java/in/workarounds/resultset/AutoValueResultSetExtensionTest.java:202-204 | `@Nullable int[] a` gives the `null` fallback and no diagnostic |
| Examples.ResultSetAdapter | processor/src/test/java/in/workarounds/resultset/AutoValueResultSetExtensionTest.java:337-342 | `fooAdapter` and then `stringAdapter` are declared once each; three `fromResultSet` calls, the shared one twice, the override as the column key |
| Examples.SameSimpleNameCollides | processor/src/main/java/in/workarounds/avrs/resultset/AutoValueResultSetExtension.java:171-175 | `p.Adapter` and `q.Adapter` are both declared as `adapter` |
| Examples.IndexLocalCollides | processor/src/main/java/in/workarounds/avrs/resultset/AutoValueResultSetExtension.java:122-130 | with `@Nullable String b` beside a property named `bColumnIndex`, the body declares `bColumnIndex` twice: once as `b`'s cached index, once as the other property's value |
| Examples.RxMapper | processor/src/test/java/in/workarounds/resultset/AutoValueResultSetExtensionTest.java:373-375 | the test class's mapper is `Func1<ResultSet, Test>` and its `call` returns `AutoValue_Test` |
| Code.Render | processor/src/main/java/in/workarounds/avrs/resultset/AutoValueResultSetExtension.java:86-135 | the text of every statement ends in a line break; every statement but the commented fallback ends with `;\n` |
| Text.DirectReadText | processor/src/main/java/in/workarounds/avrs/resultset/AutoValueResultSetExtension.java:114-118 | a direct read renders as `int a = resultSet.getInt(resultSet.findColumn("a"));` |
| Text.IndexDeclText | processor/src/main/java/in/workarounds/avrs/resultset/AutoValueResultSetExtension.java:129 | an index declaration renders as `int bColumnIndex = resultSet.findColumn("b");` |
| Text.GuardedReadText | processor/src/main/java/in/workarounds/avrs/resultset/AutoValueResultSetExtension.java:123-130 | a guarded read renders as `String b = resultSet.isNull(bColumnIndex) ? null : resultSet.getString(bColumnIndex);` |
| Text.NullFallbackText | processor/src/main/java/in/workarounds/avrs/resultset/AutoValueResultSetExtension.java:100-103 | the fallback renders as `int[] a = null; // can't be read from resultSet` |
| Text.AdapterDeclText | processor/src/main/java/in/workarounds/avrs/resultset/AutoValueResultSetExtension.java:197 | an adapter declaration renders as `FooAdapter fooAdapter = new FooAdapter();` |
| Text.AdapterReadText | processor/src/main/java/in/workarounds/avrs/resultset/AutoValueResultSetExtension.java:87-92 | an adapter read renders as `String columnName = stringAdapter.fromResultSet(resultSet, "column");` |
| Text.ReturnNewText | processor/src/main/java/in/workarounds/avrs/resultset/AutoValueResultSetExtension.java:108-110 | the constructor call renders as `return new AutoValue_Test(a, b);` |
| Text.SimpleText | processor/src/test/java/in/workarounds/resultset/AutoValueResultSetExtensionTest.java:36-38 | the first and last lines of the simple test's body are the expected text |
| Text.NullableReadText | processor/src/test/java/in/workarounds/resultset/AutoValueResultSetExtensionTest.java:109-110 | the nullable test's index declaration and guarded read are the expected text |
| Text.UnsupportedWithNullableText | processor/src/test/java/in/workarounds/resultset/AutoValueResultSetExtensionTest.java:202 | the fallback line is the expected text |
| Text.ResultSetAdapterText | processor/src/test/java/in/workarounds/resultset/AutoValueResultSetExtensionTest.java:337-341 | the adapter test's first declaration and its read through the overridden column are the expected text |

## Left out

- `applicable()` and `getMatchingStaticMethod` look elements up through the
  compiler's `javax.lang.model`. Whether the extension runs is taken as given.
- `ColumnProperty.from(context)` and the annotation readers are not part of
  this model. Properties are input records. `Columns.Declare` restates the
  rules those readers follow, as the tests show them.
- JavaPoet and the AutoValue utilities are foreign library code: type
  rendering, imports, `JavaFile`, `newTypeSpecBuilder`,
  `newFinalClassConstructorCall`, `getFinalClassClassName`. A type appears in
  the model as its simple name or a `ClassName`. The final text of the
  generated file is not produced.
- Code.Render: `$S` string escaping is not modelled. The text of whole
  method bodies is not compared with the tests: equality of long concrete
  strings is too costly to prove, so `Text` checks one line of each
  statement kind, and the examples state the statement lists instead.
- Adapters.GetColumnAdapters: the map is keyed by property position. Java
  keys it by the property object and never meets a key twice.
- `NameAllocator.toJavaIdentifier` is taken as the identity, since a class
  simple name is already a Java identifier.
- Adapters.AdapterField: the lower-cased name can be a Java keyword (an
  adapter class `Default` gives `default`). `FieldSpec.builder` at line 174
  rejects such a name; the model accepts it as it is.
- Adapters.ToLowerCase: `Character.toLowerCase` is modelled for ASCII letters
  only. Other characters are left unchanged.
- `ElementUtil.typeExists` for `Func1` is the boolean input `func1Exists`.
- `error(...)` is modelled as a returned list of diagnostics. The compiler's
  messager is not modelled.
- Mapper.Invoke: catching is by exact class. Subclasses of `SQLException`
  and the rest of the exception hierarchy are not modelled.
- Mapper.MapperPassesOtherExceptions: rests on the same exact-class catch. A
  subclass of `SQLException` counts as another exception and passes
  unwrapped, where the `catch` at line 149 would wrap it.
- The text of the `MAPPER` initializer is not rendered.
- The `ColumnTypeAdapter` interface has no logic. An adapter is just a class name.
- The test `generatesNothingWithoutOptIn` checks AutoValue's own output and is
  outside this extension.
