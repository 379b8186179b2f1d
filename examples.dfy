/**
 * The extension's own test cases, as the model computes them: each lemma
 * builds the test's properties and states the statements of the generated
 * `createFromResultSet` body (written out in the comments as Java) and the
 * diagnostics reported.
 */
module Examples {
  import opened Code
  import opened Columns
  import opened Adapters
  import opened ReadMethod
  import opened Mapper

  const TEST := ClassName("test", "Test")
  const FINAL := ClassName("test", "AutoValue_Test")
  const CONTEXT := Context("test", TEST, FINAL)

  /** A one-property list emits what its property emits. */
  lemma One(p: ColumnProperty)
    ensures PropertyStmts([p]) == Synthesize(p).code
    ensures Errors([p]) == Synthesize(p).errors
    ensures Bindings([p]) == if p.columnAdapter.Some? then [AdapterField(p.columnAdapter.value)] else []
  {
    assert [p][..0] == [];
  }

  /** A two-property list emits what its properties emit, in order. */
  lemma Two(p: ColumnProperty, q: ColumnProperty)
    ensures PropertyStmts([p, q]) == Synthesize(p).code + Synthesize(q).code
    ensures Errors([p, q]) == Synthesize(p).errors + Synthesize(q).errors
    ensures Bindings([p, q]) == Bindings([p]) + Bindings([q])
    ensures HumanNames([p, q]) == [p.humanName, q.humanName]
  {
    assert [p, q][..1] == [p];
    One(p);
    One(q);
  }

  /** A three-property list emits what its properties emit, in order. */
  lemma Three(p: ColumnProperty, q: ColumnProperty, r: ColumnProperty)
    ensures PropertyStmts([p, q, r]) == Synthesize(p).code + Synthesize(q).code + Synthesize(r).code
    ensures Errors([p, q, r]) == Synthesize(p).errors + Synthesize(q).errors + Synthesize(r).errors
    ensures Bindings([p, q, r]) == Bindings([p]) + Bindings([q]) + Bindings([r])
    ensures HumanNames([p, q, r]) == [p.humanName, q.humanName, r.humanName]
  {
    assert [p, q, r][..2] == [p, q];
    Two(p, q);
    One(r);
  }

  /** A nullable property read by index emits the index declaration and then the guarded read. */
  lemma NullableCode(p: ColumnProperty)
    requires ReadByIndex(p) && p.nullable
    ensures Synthesize(p).code == [IndexDecl(ColumnIndexVar(p), FindColumn(p.columnName)),
                                   GuardedRead(p.javaType, p.humanName, p.resultSetMethod, Local(ColumnIndexVar(p)))]
  {
    var code := ReadNullableProperty(p);
    assert code == [code[0], code[1]];
  }

  /**
   * `int a(); String b();`
   *   int a = resultSet.getInt(resultSet.findColumn("a"));
   *   String b = resultSet.getString(resultSet.findColumn("b"));
   *   return new AutoValue_Test(a, b);
   */
  lemma Simple()
    ensures var ps := [Declare("a", "int", None, false, None), Declare("b", "String", None, false, None)];
      && Errors(ps) == []
      && ReadMethodBody(FINAL, ps) ==
        [DirectRead("int", "a", Getter("getInt"), FindColumn("a")),
         DirectRead("String", "b", Getter("getString"), FindColumn("b")),
         ReturnNew(FINAL, ["a", "b"])]
  {
    var p, q := Declare("a", "int", None, false, None), Declare("b", "String", None, false, None);
    Two(p, q);
  }

  /**
   * `int a(); @ColumnName("column_b") String b();`
   *   int a = resultSet.getInt(resultSet.findColumn("a"));
   *   String b = resultSet.getString(resultSet.findColumn("column_b"));
   *   return new AutoValue_Test(a, b);
   */
  lemma ColumnNameOverride()
    ensures var ps := [Declare("a", "int", None, false, None),
                       Declare("b", "String", Some("column_b"), false, None)];
      && Errors(ps) == []
      && ReadMethodBody(FINAL, ps) ==
        [DirectRead("int", "a", Getter("getInt"), FindColumn("a")),
         DirectRead("String", "b", Getter("getString"), FindColumn("column_b")),
         ReturnNew(FINAL, ["a", "b"])]
  {
    var p, q := Declare("a", "int", None, false, None), Declare("b", "String", Some("column_b"), false, None);
    Two(p, q);
  }

  /**
   * `int a(); @Nullable String b();`
   *   int a = resultSet.getInt(resultSet.findColumn("a"));
   *   int bColumnIndex = resultSet.findColumn("b");
   *   String b = resultSet.isNull(bColumnIndex) ? null : resultSet.getString(bColumnIndex);
   *   return new AutoValue_Test(a, b);
   */
  lemma NullableRead()
    ensures var ps := [Declare("a", "int", None, false, None), Declare("b", "String", None, true, None)];
      && Errors(ps) == []
      && ReadMethodBody(FINAL, ps) ==
        [DirectRead("int", "a", Getter("getInt"), FindColumn("a")),
         IndexDecl("bColumnIndex", FindColumn("b")),
         GuardedRead("String", "b", Getter("getString"), Local("bColumnIndex")),
         ReturnNew(FINAL, ["a", "b"])]
  {
    var p, q := Declare("a", "int", None, false, None), Declare("b", "String", None, true, None);
    assert "String" in SupportedTypes;
    assert q.columnName == "b" && q.resultSetMethod == Getter("getString");
    assert ColumnIndexVar(q) == "bColumnIndex";
    NullableCode(q);
    Two(p, q);
  }

  /**
   * `int[] a(); String b();`: one diagnostic against `a`, no statement for
   * it, and `a` still among the constructor arguments.
   */
  lemma Unsupported()
    ensures var ps := [Declare("a", "int[]", None, false, None), Declare("b", "String", None, false, None)];
      && Errors(ps) == [Diagnostic("a", CANT_READ)]
      && ReadMethodBody(FINAL, ps) ==
        [DirectRead("String", "b", Getter("getString"), FindColumn("b")),
         ReturnNew(FINAL, ["a", "b"])]
  {
    var p, q := Declare("a", "int[]", None, false, None), Declare("b", "String", None, false, None);
    Two(p, q);
  }

  /**
   * `@Nullable int[] a(); String b();`
   *   int[] a = null; // can't be read from resultSet
   *   String b = resultSet.getString(resultSet.findColumn("b"));
   *   return new AutoValue_Test(a, b);
   */
  lemma UnsupportedWithNullable()
    ensures var ps := [Declare("a", "int[]", None, true, None), Declare("b", "String", None, false, None)];
      && Errors(ps) == []
      && ReadMethodBody(FINAL, ps) ==
        [NullFallback("int[]", "a"),
         DirectRead("String", "b", Getter("getString"), FindColumn("b")),
         ReturnNew(FINAL, ["a", "b"])]
  {
    var p, q := Declare("a", "int[]", None, true, None), Declare("b", "String", None, false, None);
    Two(p, q);
  }

  const FOO_ADAPTER := ClassName("test", "FooAdapter")
  const STRING_ADAPTER := ClassName("test", "StringAdapter")

  /**
   * `@ColumnAdapter(FooAdapter.class) Foo foo();
   *  @ColumnAdapter(StringAdapter.class) String bar();
   *  @ColumnAdapter(StringAdapter.class) @ColumnName("column") String columnName();`
   *   FooAdapter fooAdapter = new FooAdapter();
   *   StringAdapter stringAdapter = new StringAdapter();
   *   Foo foo = fooAdapter.fromResultSet(resultSet, "foo");
   *   String bar = stringAdapter.fromResultSet(resultSet, "bar");
   *   String columnName = stringAdapter.fromResultSet(resultSet, "column");
   *   return new AutoValue_Test(foo, bar, columnName);
   */
  lemma ResultSetAdapter()
    ensures var ps := [Declare("foo", "Foo", None, false, Some(FOO_ADAPTER)),
                       Declare("bar", "String", None, false, Some(STRING_ADAPTER)),
                       Declare("columnName", "String", Some("column"), false, Some(STRING_ADAPTER))];
      && Errors(ps) == []
      && ReadMethodBody(FINAL, ps) ==
        [AdapterDecl(FieldSpec(FOO_ADAPTER, "fooAdapter")),
         AdapterDecl(FieldSpec(STRING_ADAPTER, "stringAdapter")),
         AdapterRead("Foo", "foo", "fooAdapter", "foo"),
         AdapterRead("String", "bar", "stringAdapter", "bar"),
         AdapterRead("String", "columnName", "stringAdapter", "column"),
         ReturnNew(FINAL, ["foo", "bar", "columnName"])]
  {
    var p := Declare("foo", "Foo", None, false, Some(FOO_ADAPTER));
    var q := Declare("bar", "String", None, false, Some(STRING_ADAPTER));
    var r := Declare("columnName", "String", Some("column"), false, Some(STRING_ADAPTER));
    AdapterTestNames();
    Three(p, q, r);
    assert PropertyStmts([p, q, r]) ==
      [AdapterRead("Foo", "foo", "fooAdapter", "foo"),
       AdapterRead("String", "bar", "stringAdapter", "bar"),
       AdapterRead("String", "columnName", "stringAdapter", "column")];
    AdapterTestDeclarations(p, q, r);
  }

  /** Two distinct bindings are both kept, in order. */
  lemma DedupDistinct(f: FieldSpec, g: FieldSpec)
    requires f != g
    ensures Dedup([f, g]) == [f, g]
  {
    assert Dedup([f]) == [f] by { assert [f][..0] == []; }
    assert [f, g][..1] == [f];
  }

  /** A repeat of the last binding adds nothing. */
  lemma DedupRepeatLast(f: FieldSpec, g: FieldSpec)
    requires f != g
    ensures Dedup([f, g, g]) == [f, g]
  {
    DedupDistinct(f, g);
    assert [f, g, g][..2] == [f, g];
  }

  /** The adapter locals are named after their classes with the first letter lower-cased. */
  lemma AdapterTestNames()
    ensures AdapterField(FOO_ADAPTER) == FieldSpec(FOO_ADAPTER, "fooAdapter")
    ensures AdapterField(STRING_ADAPTER) == FieldSpec(STRING_ADAPTER, "stringAdapter")
  {
    assert "FooAdapter"[1..] == "ooAdapter";
    assert "StringAdapter"[1..] == "tringAdapter";
  }

  /** Two adapter-bearing properties give two bindings, in order. */
  lemma TwoBindings(p: ColumnProperty, q: ColumnProperty)
    requires p.columnAdapter.Some? && q.columnAdapter.Some?
    ensures Bindings([p, q]) == [AdapterField(p.columnAdapter.value), AdapterField(q.columnAdapter.value)]
  {
    assert Bindings([p]) == [AdapterField(p.columnAdapter.value)] by { assert [p][..0] == []; }
    assert [p, q][..1] == [p];
  }

  /** A binding per adapter-bearing property, in order. */
  lemma ThreeBindings(p: ColumnProperty, q: ColumnProperty, r: ColumnProperty)
    requires p.columnAdapter.Some? && q.columnAdapter.Some? && r.columnAdapter.Some?
    ensures Bindings([p, q, r]) ==
      [AdapterField(p.columnAdapter.value), AdapterField(q.columnAdapter.value), AdapterField(r.columnAdapter.value)]
  {
    TwoBindings(p, q);
    assert [p, q, r][..2] == [p, q];
  }

  /** The declarations of the adapter test: `fooAdapter`, then `stringAdapter` once. */
  lemma AdapterTestDeclarations(p: ColumnProperty, q: ColumnProperty, r: ColumnProperty)
    requires p.columnAdapter == Some(FOO_ADAPTER)
    requires q.columnAdapter == Some(STRING_ADAPTER) && r.columnAdapter == Some(STRING_ADAPTER)
    ensures AdapterDeclarations([p, q, r]) ==
      [AdapterDecl(FieldSpec(FOO_ADAPTER, "fooAdapter")), AdapterDecl(FieldSpec(STRING_ADAPTER, "stringAdapter"))]
  {
    AdapterTestNames();
    var foo, str := AdapterField(FOO_ADAPTER), AdapterField(STRING_ADAPTER);
    ThreeBindings(p, q, r);
    assert foo.cls != str.cls;
    DedupRepeatLast(foo, str);
    DeclarationsAt([foo, str]);
  }

  /**
   * Two distinct adapter classes with the same simple name are declared
   * twice under one local name: the derived names are not made unique, so
   * the generated body declares `adapter` twice.
   */
  lemma SameSimpleNameCollides()
    ensures var ps := [Declare("x", "X", None, false, Some(ClassName("p", "Adapter"))),
                       Declare("y", "Y", None, false, Some(ClassName("q", "Adapter")))];
      && AdapterDeclarations(ps) ==
        [AdapterDecl(FieldSpec(ClassName("p", "Adapter"), "adapter")),
         AdapterDecl(FieldSpec(ClassName("q", "Adapter"), "adapter"))]
  {
    var p := Declare("x", "X", None, false, Some(ClassName("p", "Adapter")));
    var q := Declare("y", "Y", None, false, Some(ClassName("q", "Adapter")));
    var f, g := AdapterField(ClassName("p", "Adapter")), AdapterField(ClassName("q", "Adapter"));
    assert f.name == "adapter" && g.name == "adapter" by {
      assert "Adapter"[1..] == "dapter";
    }
    TwoBindings(p, q);
    assert f.cls != g.cls;
    DedupDistinct(f, g);
    DeclarationsAt([f, g]);
  }

  /**
   * `@Nullable String b(); int bColumnIndex();`: the index local of `b`
   * and the local of the second property have the same name, so the body
   * declares `bColumnIndex` twice; generated locals are not made unique.
   */
  lemma IndexLocalCollides()
    ensures var ps := [Declare("b", "String", None, true, None), Declare("bColumnIndex", "int", None, false, None)];
      && ReadMethodBody(FINAL, ps) ==
        [IndexDecl("bColumnIndex", FindColumn("b")),
         GuardedRead("String", "b", Getter("getString"), Local("bColumnIndex")),
         DirectRead("int", "bColumnIndex", Getter("getInt"), FindColumn("bColumnIndex")),
         ReturnNew(FINAL, ["b", "bColumnIndex"])]
  {
    var p, q := Declare("b", "String", None, true, None), Declare("bColumnIndex", "int", None, false, None);
    assert "String" in SupportedTypes && "int" in SupportedTypes;
    assert p.columnName == "b" && p.resultSetMethod == Getter("getString");
    assert ColumnIndexVar(p) == "bColumnIndex";
    NullableCode(p);
    Two(p, q);
  }

  /** The test value type's mapper is a `Func1<ResultSet, Test>` whose `call` returns `AutoValue_Test`. */
  lemma RxMapper()
    ensures CreateMapper(CONTEXT).fieldType == Parameterized(FUNC1, [RESULT_SET, TEST])
    ensures CreateMapper(CONTEXT).call.returnType == FINAL
  {
  }
}
