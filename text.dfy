/**
 * The text of the generated statements in the extension's tests, line by
 * line: each lemma renders statements of an example body from the
 * `Examples` module and states the Java line the test expects.
 *
 * Equality of long concrete strings is costly to prove in one step, so
 * each line is assembled from the pieces `Render` concatenates: the short
 * joins are asserted in place, the longer ones are the concatenation-step
 * lemmas below, one join each.
 */
module Text {
  import opened Code
  import opened Columns
  import opened ReadMethod
  import Examples

  /** Concatenation regroups. */
  lemma Assoc(a: string, b: string, c: string)
    ensures a + (b + c) == (a + b) + c
  {
  }

  // ---- Concatenation steps ----
  //
  // Each lemma below joins two literal pieces of one generated line; the
  // `...Text` lemmas that follow chain them in the order `+` groups them.

  lemma FindColumnA()
    ensures RenderLocator(FindColumn("a")) == "resultSet.findColumn(\"a\")"
  {
  }

  lemma GetIntTail()
    ensures "resultSet.getInt(" + "resultSet.findColumn(\"a\"))"
         == "resultSet.getInt(resultSet.findColumn(\"a\"))"
  {
  }

  lemma GetIntWhole()
    ensures "int a = resultSet.getInt(" + "resultSet.findColumn(\"a\"))"
         == "int a = resultSet.getInt(resultSet.findColumn(\"a\"))"
  {
  }

  lemma GetIntLine()
    ensures "int a = resultSet.getInt(resultSet.findColumn(\"a\"))" + ";\n"
         == "int a = resultSet.getInt(resultSet.findColumn(\"a\"));\n"
  {
  }

  lemma IndexDeclPrefix()
    ensures "int bColumnIndex = " + "resultSet.findColumn(\"b\")"
         == "int bColumnIndex = resultSet.findColumn(\"b\")"
  {
  }

  lemma IndexDeclLine()
    ensures "int bColumnIndex = resultSet.findColumn(\"b\")" + ";\n"
         == "int bColumnIndex = resultSet.findColumn(\"b\");\n"
  {
  }

  lemma IsNullTest()
    ensures "String b = resultSet.isNull(bColumnIndex" + ") ? null : "
         == "String b = resultSet.isNull(bColumnIndex) ? null : "
  {
  }

  lemma GetStringOfLocal()
    ensures Apply(Getter("getString"), "bColumnIndex")
         == "resultSet.getString(bColumnIndex)"
  {
  }

  lemma GuardedReadWhole()
    ensures "String b = resultSet.isNull(bColumnIndex) ? null : " + "resultSet.getString(bColumnIndex)"
         == "String b = resultSet.isNull(bColumnIndex) ? null : resultSet.getString(bColumnIndex)"
  {
  }

  lemma GuardedReadLine()
    ensures "String b = resultSet.isNull(bColumnIndex) ? null : resultSet.getString(bColumnIndex)" + ";\n"
         == "String b = resultSet.isNull(bColumnIndex) ? null : resultSet.getString(bColumnIndex);\n"
  {
  }

  lemma NullFallbackComment()
    ensures " = null;" + " // can't be read from resultSet\n"
         == " = null; // can't be read from resultSet\n"
  {
  }

  lemma NullFallbackLine()
    ensures "int[] a = null;" + " // can't be read from resultSet\n"
         == "int[] a = null; // can't be read from resultSet\n"
  {
  }

  lemma AdapterReadCall()
    ensures "String columnName = stringAdapter" + ".fromResultSet(resultSet, "
         == "String columnName = stringAdapter.fromResultSet(resultSet, "
  {
  }

  lemma AdapterReadColumn()
    ensures "String columnName = stringAdapter.fromResultSet(resultSet, " + "\"column\""
         == "String columnName = stringAdapter.fromResultSet(resultSet, \"column\""
  {
  }

  lemma AdapterReadClose()
    ensures "String columnName = stringAdapter.fromResultSet(resultSet, \"column\"" + ")"
         == "String columnName = stringAdapter.fromResultSet(resultSet, \"column\")"
  {
  }

  lemma AdapterReadLine()
    ensures "String columnName = stringAdapter.fromResultSet(resultSet, \"column\")" + ";\n"
         == "String columnName = stringAdapter.fromResultSet(resultSet, \"column\");\n"
  {
  }

  // ---- Rendered statements ----

  /** `int a = resultSet.getInt(resultSet.findColumn("a"));` */
  lemma DirectReadText()
    ensures Render(DirectRead("int", "a", Getter("getInt"), FindColumn("a")))
         == "int a = resultSet.getInt(resultSet.findColumn(\"a\"));\n"
  {
    FindColumnA();
    assert Apply(Getter("getInt"), "resultSet.findColumn(\"a\")")
        == "resultSet.getInt(" + ("resultSet.findColumn(\"a\")" + ")");
    assert "resultSet.findColumn(\"a\")" + ")" == "resultSet.findColumn(\"a\"))";
    GetIntTail();
    assert "int" + " " + "a" + " = " == "int a = ";
    Assoc("int a = ", "resultSet.getInt(", "resultSet.findColumn(\"a\"))");
    assert "int a = " + "resultSet.getInt(" == "int a = resultSet.getInt(";
    GetIntWhole();
    GetIntLine();
  }

  /** `int bColumnIndex = resultSet.findColumn("b");` */
  lemma IndexDeclText()
    ensures Render(IndexDecl("bColumnIndex", FindColumn("b"))) == "int bColumnIndex = resultSet.findColumn(\"b\");\n"
  {
    assert RenderLocator(FindColumn("b")) == "resultSet.findColumn(\"b\")";
    assert "int " + "bColumnIndex" + " = " == "int bColumnIndex = ";
    IndexDeclPrefix();
    IndexDeclLine();
  }

  /** `String b = resultSet.isNull(bColumnIndex) ? null : resultSet.getString(bColumnIndex);` */
  lemma GuardedReadText()
    ensures Render(GuardedRead("String", "b", Getter("getString"), Local("bColumnIndex")))
         == "String b = resultSet.isNull(bColumnIndex) ? null : resultSet.getString(bColumnIndex);\n"
  {
    assert "String" + " " + "b" + " = " == "String b = ";
    assert "String b = " + "resultSet.isNull(" == "String b = resultSet.isNull(";
    assert "String b = resultSet.isNull(" + "bColumnIndex" == "String b = resultSet.isNull(bColumnIndex";
    IsNullTest();
    GetStringOfLocal();
    GuardedReadWhole();
    GuardedReadLine();
  }

  /** `int[] a = null; // can't be read from resultSet` */
  lemma NullFallbackText()
    ensures Render(NullFallback("int[]", "a")) == "int[] a = null; // can't be read from resultSet\n"
  {
    assert "int[]" + " " + "a" == "int[] a";
    NullFallbackComment();
    Assoc("int[] a", " = null;", " // can't be read from resultSet\n");
    assert "int[] a" + " = null;" == "int[] a = null;";
    NullFallbackLine();
  }

  /** `FooAdapter fooAdapter = new FooAdapter();` */
  lemma AdapterDeclText()
    ensures Render(AdapterDecl(FieldSpec(Examples.FOO_ADAPTER, "fooAdapter")))
         == "FooAdapter fooAdapter = new FooAdapter();\n"
  {
    assert "FooAdapter" + " " + "fooAdapter" + " = new " == "FooAdapter fooAdapter = new ";
    assert "FooAdapter fooAdapter = new " + "FooAdapter" == "FooAdapter fooAdapter = new FooAdapter";
    assert "FooAdapter fooAdapter = new FooAdapter" + "()" == "FooAdapter fooAdapter = new FooAdapter()";
    assert "FooAdapter fooAdapter = new FooAdapter()" + ";\n" == "FooAdapter fooAdapter = new FooAdapter();\n";
  }

  /** `String columnName = stringAdapter.fromResultSet(resultSet, "column");` */
  lemma AdapterReadText()
    ensures Render(AdapterRead("String", "columnName", "stringAdapter", "column"))
         == "String columnName = stringAdapter.fromResultSet(resultSet, \"column\");\n"
  {
    assert "String" + " " + "columnName" + " = " == "String columnName = ";
    assert Quote("column") == "\"column\"";
    assert "String columnName = " + "stringAdapter" == "String columnName = stringAdapter";
    AdapterReadCall();
    AdapterReadColumn();
    AdapterReadClose();
    AdapterReadLine();
  }

  /** `return new AutoValue_Test(a, b);` */
  lemma ReturnNewText()
    ensures Render(ReturnNew(Examples.FINAL, ["a", "b"])) == "return new AutoValue_Test(a, b);\n"
  {
    assert ["a", "b"][1..] == ["b"];
    assert JoinArgs(["a", "b"]) == "a, b";
    assert "return " + "new " + "AutoValue_Test" + "(" == "return new AutoValue_Test(";
    assert "return new AutoValue_Test(" + "a, b" == "return new AutoValue_Test(a, b";
    assert "return new AutoValue_Test(a, b" + ")" == "return new AutoValue_Test(a, b)";
    assert "return new AutoValue_Test(a, b)" + ";\n" == "return new AutoValue_Test(a, b);\n";
  }

  // ---- The example bodies, rendered ----

  /** `int a(); String b();`: the first read and the constructor call. */
  lemma SimpleText()
    ensures var body := ReadMethodBody(Examples.FINAL,
                          [Declare("a", "int", None, false, None), Declare("b", "String", None, false, None)]);
      && |body| == 3
      && Render(body[0]) == "int a = resultSet.getInt(resultSet.findColumn(\"a\"));\n"
      && Render(body[2]) == "return new AutoValue_Test(a, b);\n"
  {
    Examples.Simple();
    DirectReadText();
    ReturnNewText();
  }

  /**
   * `int a(); @Nullable String b();`: the cached index and the guarded read
   * (the test expects the first of the two lines without its line break).
   */
  lemma NullableReadText()
    ensures var body := ReadMethodBody(Examples.FINAL,
                          [Declare("a", "int", None, false, None), Declare("b", "String", None, true, None)]);
      && |body| == 4
      && Render(body[1]) == "int bColumnIndex = resultSet.findColumn(\"b\");\n"
      && Render(body[2]) == "String b = resultSet.isNull(bColumnIndex) ? null : resultSet.getString(bColumnIndex);\n"
  {
    Examples.NullableRead();
    IndexDeclText();
    GuardedReadText();
  }

  /** `@Nullable int[] a(); String b();`: the fallback line. */
  lemma UnsupportedWithNullableText()
    ensures var body := ReadMethodBody(Examples.FINAL,
                          [Declare("a", "int[]", None, true, None), Declare("b", "String", None, false, None)]);
      && |body| == 3
      && Render(body[0]) == "int[] a = null; // can't be read from resultSet\n"
  {
    Examples.UnsupportedWithNullable();
    NullFallbackText();
  }

  /** The three adapter-bearing properties: the first declaration and the read through the overridden column. */
  lemma ResultSetAdapterText()
    ensures var body := ReadMethodBody(Examples.FINAL,
                          [Declare("foo", "Foo", None, false, Some(Examples.FOO_ADAPTER)),
                           Declare("bar", "String", None, false, Some(Examples.STRING_ADAPTER)),
                           Declare("columnName", "String", Some("column"), false, Some(Examples.STRING_ADAPTER))]);
      && |body| == 6
      && Render(body[0]) == "FooAdapter fooAdapter = new FooAdapter();\n"
      && Render(body[4]) == "String columnName = stringAdapter.fromResultSet(resultSet, \"column\");\n"
  {
    Examples.ResultSetAdapter();
    AdapterDeclText();
    AdapterReadText();
  }
}
