/**
 * Synthesis of `static Final createFromResultSet(ResultSet resultSet) throws SQLException`:
 * adapter declarations, then one read per property in declaration order,
 * then the constructor call over every human name.
 */
module ReadMethod {
  import opened Code
  import opened Columns
  import opened Adapters

  const METHOD_NAME := "createFromResultSet"
  const RESULT_SET := ClassName("java.sql", "ResultSet")
  const SQL_EXCEPTION := ClassName("java.sql", "SQLException")
  const CANT_READ := "Property has type that can't be read from ResultSet."

  /** What the generator knows of the value type: its package, the annotated class and the final subclass. */
  datatype Context = Context(packageName: string, autoValueClass: ClassName, finalClass: ClassName)

  /** A diagnostic the extension reports against one property. */
  datatype Diagnostic = Diagnostic(property: string, message: string)

  datatype Parameter = Parameter(cls: ClassName, name: string)

  /** A generated method: name, static flag, return type, `throws` list, parameters and body. */
  datatype MethodSpec = MethodSpec(
    name: string,
    isStatic: bool,
    returnType: ClassName,
    exceptions: seq<ClassName>,
    parameters: seq<Parameter>,
    body: seq<Stmt>)

  /** `resultSet.findColumn("<columnName>")`: the key is the column name as given. */
  function GetColumnIndex(p: ColumnProperty): (at: Locator)
    ensures at.FindColumn? && LocatorLookups(at) == [p.columnName]
  {
    FindColumn(p.columnName)
  }

  /** `T name = <accessor>(resultSet.findColumn("col"))` */
  function ReadProperty(p: ColumnProperty): (code: seq<Stmt>)
    ensures |code| == 1 && code[0].DirectRead?
    ensures code[0].javaType == p.javaType && code[0].name == p.humanName
    ensures code[0].accessor == p.resultSetMethod
    ensures Lookups(code) == [p.columnName]
  {
    [DirectRead(p.javaType, p.humanName, p.resultSetMethod, GetColumnIndex(p))]
  }

  /** The local that caches a nullable property's column index. */
  function ColumnIndexVar(p: ColumnProperty): (v: string)
    ensures |v| == |p.humanName| + |"ColumnIndex"|
    ensures v[..|p.humanName|] == p.humanName && v[|p.humanName|..] == "ColumnIndex"
  {
    p.humanName + "ColumnIndex"
  }

  /**
   * `int nameColumnIndex = resultSet.findColumn("col")` followed by
   * `T name = resultSet.isNull(nameColumnIndex) ? null : <accessor>(nameColumnIndex)`:
   * the column is looked up once and the guarded read reuses the cached index.
   */
  function ReadNullableProperty(p: ColumnProperty): (code: seq<Stmt>)
    ensures |code| == 2 && code[0].IndexDecl? && code[1].GuardedRead?
    ensures code[0].variable == ColumnIndexVar(p) && code[1].at == Local(code[0].variable)
    ensures code[1].javaType == p.javaType && code[1].name == p.humanName
    ensures code[1].accessor == p.resultSetMethod
    ensures Lookups(code) == [p.columnName]
  {
    var columnIndexVar := ColumnIndexVar(p);
    var declare := IndexDecl(columnIndexVar, GetColumnIndex(p));
    var read := GuardedRead(p.javaType, p.humanName, p.resultSetMethod, Local(columnIndexVar));
    LookupsAppend([declare], [read]);
    [declare] + [read]
  }

  /** What one property contributes: statements for the body and diagnostics. */
  datatype Emitted = Emitted(code: seq<Stmt>, errors: seq<Diagnostic>)

  /** A property can be read unless it has no adapter, an unsupported type and is not nullable. */
  predicate Readable(p: ColumnProperty)
  {
    p.columnAdapter.Some? || p.supportedType || p.nullable
  }

  /** Whether the property is read through `resultSet.findColumn`. */
  predicate ReadByIndex(p: ColumnProperty)
  {
    p.columnAdapter.None? && p.supportedType
  }

  /**
   * The branch taken for one property: adapter, then supported type
   * (nullable or not), then unsupported but nullable, else an error.
   */
  function Synthesize(p: ColumnProperty): (out: Emitted)
    ensures out.errors == [] <==> Readable(p)
    ensures !Readable(p) ==> out.code == [] && out.errors == [Diagnostic(p.humanName, CANT_READ)]
    ensures p.columnAdapter.Some? ==>
      out.code == [AdapterRead(p.javaType, p.humanName, AdapterField(p.columnAdapter.value).name, p.columnName)]
    ensures ReadByIndex(p) ==> out.code == if p.nullable then ReadNullableProperty(p) else ReadProperty(p)
    ensures out.code == [NullFallback(p.javaType, p.humanName)] <==>
      p.columnAdapter.None? && !p.supportedType && p.nullable
  {
    if p.columnAdapter.Some? then
      Emitted([AdapterRead(p.javaType, p.humanName, AdapterField(p.columnAdapter.value).name, p.columnName)], [])
    else if p.supportedType then
      Emitted(if p.nullable then ReadNullableProperty(p) else ReadProperty(p), [])
    else if p.nullable then
      Emitted([NullFallback(p.javaType, p.humanName)], [])
    else
      Emitted([], [Diagnostic(p.humanName, CANT_READ)])
  }

  /**
   * Whatever the branch, the value locals of a property are exactly its own
   * name when it is readable and none otherwise; the only other local it
   * declares is its index local, exactly when it is a nullable read by
   * index. It looks its column up once when read by index and never
   * otherwise, uses its adapter's local when it has one, and declares no
   * adapter and returns nothing.
   */
  lemma SynthesizeShape(p: ColumnProperty)
    ensures var code := Synthesize(p).code;
      && ValueNames(code) == (if Readable(p) then [p.humanName] else [])
      && Lookups(code) == (if ReadByIndex(p) then [p.columnName] else [])
      && AdapterVars(code) == (if p.columnAdapter.Some? then [AdapterField(p.columnAdapter.value).name] else [])
      && (forall s :: s in code ==> !s.AdapterDecl? && !s.ReturnNew?)
      && (forall s :: s in code && s.IndexDecl? ==> s.variable == ColumnIndexVar(p))
      && ((exists s :: s in code && s.IndexDecl?) <==> ReadByIndex(p) && p.nullable)
      && (code != [] ==> !code[0].GuardedRead?)
  {
    var code := Synthesize(p).code;
    if |code| == 2 {
      assert code == [code[0]] + [code[1]];
      ValueNamesAppend([code[0]], [code[1]]);
      LookupsAppend([code[0]], [code[1]]);
      AdapterVarsAppend([code[0]], [code[1]]);
    }
  }

  /** The property statements of the body, in declaration order. */
  function PropertyStmts(ps: seq<ColumnProperty>): seq<Stmt>
  {
    if ps == [] then [] else PropertyStmts(ps[..|ps| - 1]) + Synthesize(ps[|ps| - 1]).code
  }

  /** The diagnostics, in declaration order. */
  function Errors(ps: seq<ColumnProperty>): seq<Diagnostic>
  {
    if ps == [] then [] else Errors(ps[..|ps| - 1]) + Synthesize(ps[|ps| - 1]).errors
  }

  /** The human names of all properties, in declaration order. */
  function HumanNames(ps: seq<ColumnProperty>): (names: seq<string>)
    ensures |names| == |ps|
    ensures forall i :: 0 <= i < |ps| ==> names[i] == ps[i].humanName
  {
    if ps == [] then [] else HumanNames(ps[..|ps| - 1]) + [ps[|ps| - 1].humanName]
  }

  /** The human names of the properties that can be read, in order. */
  function ReadableNames(ps: seq<ColumnProperty>): seq<string>
  {
    if ps == [] then []
    else ReadableNames(ps[..|ps| - 1]) + (if Readable(ps[|ps| - 1]) then [ps[|ps| - 1].humanName] else [])
  }

  /** The human names of the properties that cannot be read, in order. */
  function UnreadableNames(ps: seq<ColumnProperty>): seq<string>
  {
    if ps == [] then []
    else UnreadableNames(ps[..|ps| - 1]) + (if Readable(ps[|ps| - 1]) then [] else [ps[|ps| - 1].humanName])
  }

  /** The column names of the properties read by index, in order. */
  function IndexedColumns(ps: seq<ColumnProperty>): seq<string>
  {
    if ps == [] then []
    else IndexedColumns(ps[..|ps| - 1]) + (if ReadByIndex(ps[|ps| - 1]) then [ps[|ps| - 1].columnName] else [])
  }

  /** One declaration per distinct adapter binding, in order of first use. */
  function AdapterDeclarations(ps: seq<ColumnProperty>): seq<Stmt>
  {
    Declarations(Dedup(Bindings(ps)))
  }

  /** The whole body of the read method. */
  function ReadMethodBody(finalClass: ClassName, ps: seq<ColumnProperty>): seq<Stmt>
  {
    AdapterDeclarations(ps) + PropertyStmts(ps) + [ReturnNew(finalClass, HumanNames(ps))]
  }

  /** The read method as a whole. */
  function ReadMethodSpec(context: Context, ps: seq<ColumnProperty>): MethodSpec
  {
    MethodSpec(METHOD_NAME, true, context.finalClass, [SQL_EXCEPTION],
               [Parameter(RESULT_SET, "resultSet")], ReadMethodBody(context.finalClass, ps))
  }

  /**
   * Builds the read method: adapter declarations first, then a loop over the
   * properties that records each human name and appends its statements or
   * its diagnostic, then the constructor call over the recorded names.
   */
  method CreateReadMethod(context: Context, properties: seq<ColumnProperty>)
    returns (readMethod: MethodSpec, errors: seq<Diagnostic>)
    ensures readMethod == ReadMethodSpec(context, properties)
    ensures errors == Errors(properties)
  {
    var columnAdapters := GetColumnAdapters(properties);
    var body := AddColumnAdaptersToMethod([], properties, columnAdapters);
    ghost var decls := body;
    assert decls == AdapterDeclarations(properties) by {
      MapUsesAreBindings(properties, columnAdapters, |properties|);
      assert properties[..|properties|] == properties;
    }

    var names := new string[|properties|];
    errors := [];
    for i := 0 to |properties|
      invariant body == decls + PropertyStmts(properties[..i])
      invariant errors == Errors(properties[..i])
      invariant forall k :: 0 <= k < i ==> names[k] == properties[k].humanName
    {
      var property := properties[i];
      names[i] := property.humanName;
      var stmts: seq<Stmt> := [];
      var failed: seq<Diagnostic> := [];
      if property.columnAdapter.Some? {
        stmts := [AdapterRead(property.javaType, property.humanName, columnAdapters[i].name,
                              property.columnName)];
      } else if property.supportedType {
        if property.nullable {
          stmts := ReadNullableProperty(property);
        } else {
          stmts := ReadProperty(property);
        }
      } else if property.nullable {
        stmts := [NullFallback(property.javaType, property.humanName)];
      } else {
        failed := [Diagnostic(property.humanName, CANT_READ)];
        errors := errors + failed;
      }
      ReadLoopStep(properties, i, stmts, failed, decls, body, errors);
      body := body + stmts;
    }
    ReadLoopExit(properties, names[..], decls, body, errors);
    body := body + [ReturnNew(context.finalClass, names[..])];
    readMethod := MethodSpec(METHOD_NAME, true, context.finalClass, [SQL_EXCEPTION],
                             [Parameter(RESULT_SET, "resultSet")], body);
  }


  /** One turn of the read loop extends the body and the diagnostics by what the property emits. */
  lemma ReadLoopStep(ps: seq<ColumnProperty>, i: nat, stmts: seq<Stmt>, failed: seq<Diagnostic>,
                   decls: seq<Stmt>, body: seq<Stmt>, errors: seq<Diagnostic>)
    requires i < |ps| && Synthesize(ps[i]) == Emitted(stmts, failed)
    requires body == decls + PropertyStmts(ps[..i])
    requires errors == Errors(ps[..i]) + failed
    ensures body + stmts == decls + PropertyStmts(ps[..i + 1])
    ensures errors == Errors(ps[..i + 1])
  {
    assert ps[..i + 1][..i] == ps[..i];
  }

  /** When the read loop ends it has covered every property and recorded every human name. */
  lemma ReadLoopExit(ps: seq<ColumnProperty>, names: seq<string>, decls: seq<Stmt>, body: seq<Stmt>,
                  errors: seq<Diagnostic>)
    requires |names| == |ps| && forall k :: 0 <= k < |ps| ==> names[k] == ps[k].humanName
    requires body == decls + PropertyStmts(ps[..|ps|])
    requires errors == Errors(ps[..|ps|])
    ensures names == HumanNames(ps)
    ensures body == decls + PropertyStmts(ps)
    ensures errors == Errors(ps)
  {
    assert ps[..|ps|] == ps;
  }

  // ---- ordering ----

  /** The statements of a concatenation of property lists are the concatenation of their statements. */
  lemma {:induction false} PropertyStmtsAppend(a: seq<ColumnProperty>, b: seq<ColumnProperty>)
    ensures PropertyStmts(a + b) == PropertyStmts(a) + PropertyStmts(b)
  {
    if b == [] {
      assert a + b == a;
    } else {
      var b0 := b[..|b| - 1];
      assert (a + b)[..|a + b| - 1] == a + b0;
      PropertyStmtsAppend(a, b0);
    }
  }

  /** The statements of property `k` sit after those of every earlier property and before those of every later one. */
  lemma {:induction false} PropertyStmtsSplit(ps: seq<ColumnProperty>, k: nat)
    requires k < |ps|
    ensures PropertyStmts(ps) ==
      PropertyStmts(ps[..k]) + Synthesize(ps[k]).code + PropertyStmts(ps[k + 1..])
  {
    assert ps == ps[..k] + [ps[k]] + ps[k + 1..];
    PropertyStmtsAppend(ps[..k] + [ps[k]], ps[k + 1..]);
    PropertyStmtsAppend(ps[..k], [ps[k]]);
    assert PropertyStmts([ps[k]]) == Synthesize(ps[k]).code by {
      assert [ps[k]][..0] == [];
    }
  }

  /**
   * The property-value locals of the property statements are exactly the
   * readable properties' names, in declaration order (index locals are not
   * among them).
   */
  lemma {:induction false} ValueNamesInOrder(ps: seq<ColumnProperty>)
    ensures ValueNames(PropertyStmts(ps)) == ReadableNames(ps)
  {
    if ps != [] {
      var init := ps[..|ps| - 1];
      ValueNamesInOrder(init);
      SynthesizeShape(ps[|ps| - 1]);
      ValueNamesAppend(PropertyStmts(init), Synthesize(ps[|ps| - 1]).code);
    }
  }

  /** One diagnostic per unreadable property, naming it, in declaration order. */
  lemma {:induction false} ErrorsNameUnreadable(ps: seq<ColumnProperty>)
    ensures |Errors(ps)| == |UnreadableNames(ps)|
    ensures forall i :: 0 <= i < |Errors(ps)| ==>
      Errors(ps)[i] == Diagnostic(UnreadableNames(ps)[i], CANT_READ)
  {
    if ps != [] {
      ErrorsNameUnreadable(ps[..|ps| - 1]);
    }
  }

  /** Generation reports no diagnostic exactly when every property can be read. */
  lemma {:induction false} NoErrorsIffAllReadable(ps: seq<ColumnProperty>)
    ensures Errors(ps) == [] <==> forall i :: 0 <= i < |ps| ==> Readable(ps[i])
  {
    if ps != [] {
      var init := ps[..|ps| - 1];
      NoErrorsIffAllReadable(init);
      assert forall i :: 0 <= i < |init| ==> init[i] == ps[i];
    }
  }

  /** Every `findColumn` of the property statements is for a property read by index, once each, in order. */
  lemma {:induction false} LookupsOncePerIndexedRead(ps: seq<ColumnProperty>)
    ensures Lookups(PropertyStmts(ps)) == IndexedColumns(ps)
  {
    if ps != [] {
      var init := ps[..|ps| - 1];
      LookupsOncePerIndexedRead(init);
      SynthesizeShape(ps[|ps| - 1]);
      LookupsAppend(PropertyStmts(init), Synthesize(ps[|ps| - 1]).code);
    }
  }

  /** Adapter declarations look no column up and bind no property. */
  lemma {:induction false} DeclarationsBindNothing(fs: seq<FieldSpec>)
    ensures Lookups(Declarations(fs)) == [] && ValueNames(Declarations(fs)) == []
  {
    if fs != [] {
      var init := fs[..|fs| - 1];
      DeclarationsBindNothing(init);
      LookupsAppend(Declarations(init), [AdapterDecl(fs[|fs| - 1])]);
      ValueNamesAppend(Declarations(init), [AdapterDecl(fs[|fs| - 1])]);
    }
  }

  /** Every `findColumn` of the whole method body is for a property read by index, once each, in order. */
  lemma BodyLookups(finalClass: ClassName, ps: seq<ColumnProperty>)
    ensures Lookups(ReadMethodBody(finalClass, ps)) == IndexedColumns(ps)
  {
    var decls, stmts := AdapterDeclarations(ps), PropertyStmts(ps);
    var ret := [ReturnNew(finalClass, HumanNames(ps))];
    DeclarationsBindNothing(Dedup(Bindings(ps)));
    LookupsOncePerIndexedRead(ps);
    LookupsAppend(decls, stmts);
    LookupsAppend(decls + stmts, ret);
  }

  /**
   * The property-value locals of the whole method body are exactly the
   * readable properties' names, in declaration order (adapter and index
   * locals are not among them).
   */
  lemma BodyValueNames(finalClass: ClassName, ps: seq<ColumnProperty>)
    ensures ValueNames(ReadMethodBody(finalClass, ps)) == ReadableNames(ps)
  {
    var decls, stmts := AdapterDeclarations(ps), PropertyStmts(ps);
    var ret := [ReturnNew(finalClass, HumanNames(ps))];
    DeclarationsBindNothing(Dedup(Bindings(ps)));
    ValueNamesInOrder(ps);
    ValueNamesAppend(decls, stmts);
    ValueNamesAppend(decls + stmts, ret);
  }

  /** The property statements hold neither an adapter declaration nor a constructor call. */
  lemma {:induction false} NoDeclarationAmongReads(ps: seq<ColumnProperty>)
    ensures forall s :: s in PropertyStmts(ps) ==> !s.AdapterDecl? && !s.ReturnNew?
  {
    if ps != [] {
      NoDeclarationAmongReads(ps[..|ps| - 1]);
      SynthesizeShape(ps[|ps| - 1]);
    }
  }

  /**
   * All adapter declarations come before every other statement, and the
   * body ends with the one and only constructor call, over all human names.
   */
  lemma {:induction false} DeclarationsFirst(finalClass: ClassName, ps: seq<ColumnProperty>)
    ensures var body := ReadMethodBody(finalClass, ps);
      && (forall i, j :: 0 <= i < j < |body| && body[j].AdapterDecl? ==> body[i].AdapterDecl?)
      && body[|body| - 1] == ReturnNew(finalClass, HumanNames(ps))
      && (forall i :: 0 <= i < |body| - 1 ==> !body[i].ReturnNew?)
  {
    var decls, stmts := AdapterDeclarations(ps), PropertyStmts(ps);
    var body := ReadMethodBody(finalClass, ps);
    DeclarationsAt(Dedup(Bindings(ps)));
    NoDeclarationAmongReads(ps);
    assert forall i :: 0 <= i < |decls| ==> body[i] == decls[i];
    assert forall i :: |decls| <= i < |body| - 1 ==> body[i] == stmts[i - |decls|];
    assert forall k :: 0 <= k < |stmts| ==> stmts[k] in stmts;
  }

  // ---- locals are declared before use ----

  /** Every `fromResultSet` call names an adapter local declared earlier in the list. */
  ghost predicate AdaptersDeclaredBeforeUse(body: seq<Stmt>)
  {
    forall j :: 0 <= j < |body| && body[j].AdapterRead? ==>
      exists i :: 0 <= i < j && body[i].AdapterDecl? && body[i].field.name == body[j].adapter
  }

  /** Every guarded read uses the index local declared by the statement right before it. */
  ghost predicate IndexCachedBeforeRead(body: seq<Stmt>)
  {
    forall j :: 0 <= j < |body| && body[j].GuardedRead? ==>
      0 < j && body[j - 1].IndexDecl? && body[j].at == Local(body[j - 1].variable)
  }

  /** The adapter locals the reads use are the bindings, property by property. */
  lemma {:induction false} AdapterReadsFollowBindings(ps: seq<ColumnProperty>)
    ensures AdapterVars(PropertyStmts(ps)) == FieldNames(Bindings(ps))
  {
    if ps != [] {
      var init, last := ps[..|ps| - 1], ps[|ps| - 1];
      AdapterReadsFollowBindings(init);
      SynthesizeShape(last);
      AdapterVarsAppend(PropertyStmts(init), Synthesize(last).code);
      FieldNamesAppend(Bindings(init),
        if last.columnAdapter.Some? then [AdapterField(last.columnAdapter.value)] else []);
    }
  }

  /** The adapter local of any `fromResultSet` call is among the adapter locals of the list. */
  lemma {:induction false} AdapterVarsMember(ss: seq<Stmt>, j: nat)
    requires j < |ss| && ss[j].AdapterRead?
    ensures ss[j].adapter in AdapterVars(ss)
  {
    if j > 0 {
      AdapterVarsMember(ss[1..], j - 1);
    }
  }

  /** A local name on the list belongs to one of the field specs. */
  lemma {:induction false} FieldNamesMember(fs: seq<FieldSpec>, n: string)
    requires n in FieldNames(fs)
    ensures exists f :: f in fs && f.name == n
  {
    if fs[0].name != n {
      FieldNamesMember(fs[1..], n);
    }
  }

  /** Within one property's statements a guarded read follows its index declaration. */
  lemma SynthesizeCached(p: ColumnProperty)
    ensures IndexCachedBeforeRead(Synthesize(p).code)
  {
    if ReadByIndex(p) && p.nullable {
      var code := ReadNullableProperty(p);
      assert code == [code[0], code[1]];
    }
  }

  /** Caching survives concatenation when the second part does not open with a guarded read. */
  lemma CachedAppend(a: seq<Stmt>, b: seq<Stmt>)
    requires IndexCachedBeforeRead(a) && IndexCachedBeforeRead(b)
    requires b != [] ==> !b[0].GuardedRead?
    ensures IndexCachedBeforeRead(a + b)
  {
    var ab: seq<Stmt> := a + b;
    forall j | 0 <= j < |ab| && ab[j].GuardedRead?
      ensures 0 < j && ab[j - 1].IndexDecl? && ab[j].at == Local(ab[j - 1].variable)
    {
      if j < |a| {
        assert ab[j] == a[j] && ab[j - 1] == a[j - 1];
      } else {
        assert ab[j] == b[j - |a|];
        assert ab[j - 1] == b[j - |a| - 1];
      }
    }
  }

  /** In the property statements every guarded read follows its index declaration, and none comes first. */
  lemma {:induction false} GuardedReadsCached(ps: seq<ColumnProperty>)
    ensures IndexCachedBeforeRead(PropertyStmts(ps))
    ensures PropertyStmts(ps) != [] ==> !PropertyStmts(ps)[0].GuardedRead?
  {
    if ps != [] {
      var init, last := ps[..|ps| - 1], ps[|ps| - 1];
      GuardedReadsCached(init);
      SynthesizeShape(last);
      SynthesizeCached(last);
      CachedAppend(PropertyStmts(init), Synthesize(last).code);
      var a, b := PropertyStmts(init), Synthesize(last).code;
      if a == [] {
        assert a + b == b;
      } else {
        assert (a + b)[0] == a[0];
      }
    }
  }

  /** The local an adapter read uses belongs to one of the deduplicated bindings. */
  lemma AdapterReadHasBinding(ps: seq<ColumnProperty>, k: nat)
    requires k < |PropertyStmts(ps)| && PropertyStmts(ps)[k].AdapterRead?
    ensures exists i :: 0 <= i < |Dedup(Bindings(ps))| && Dedup(Bindings(ps))[i].name == PropertyStmts(ps)[k].adapter
  {
    var stmts := PropertyStmts(ps);
    AdapterReadsFollowBindings(ps);
    AdapterVarsMember(stmts, k);
    FieldNamesMember(Bindings(ps), stmts[k].adapter);
    var f :| f in Bindings(ps) && f.name == stmts[k].adapter;
    DedupSameElements(Bindings(ps));
    assert f in Dedup(Bindings(ps));
  }

  /** In the whole body every adapter local is declared before a read uses it. */
  lemma {:induction false} AdapterLocalsDeclaredBeforeUse(finalClass: ClassName, ps: seq<ColumnProperty>)
    ensures AdaptersDeclaredBeforeUse(ReadMethodBody(finalClass, ps))
  {
    var fs := Dedup(Bindings(ps));
    var decls, stmts := AdapterDeclarations(ps), PropertyStmts(ps);
    var body := ReadMethodBody(finalClass, ps);
    DeclarationsAt(fs);
    NoDeclarationAmongReads(ps);
    assert forall i :: 0 <= i < |decls| ==> body[i] == decls[i];
    assert forall i :: |decls| <= i < |body| - 1 ==> body[i] == stmts[i - |decls|];
    forall j | 0 <= j < |body| && body[j].AdapterRead?
      ensures exists i :: 0 <= i < j && body[i].AdapterDecl? && body[i].field.name == body[j].adapter
    {
      var k := j - |decls|;
      assert body[j] == stmts[k];
      AdapterReadHasBinding(ps, k);
      var i :| 0 <= i < |fs| && fs[i].name == stmts[k].adapter;
      assert body[i] == AdapterDecl(fs[i]);
    }
  }

  /** In the whole body every guarded read follows the declaration of the index it reuses. */
  lemma {:induction false} IndexLocalsDeclaredBeforeUse(finalClass: ClassName, ps: seq<ColumnProperty>)
    ensures IndexCachedBeforeRead(ReadMethodBody(finalClass, ps))
  {
    var decls, stmts := AdapterDeclarations(ps), PropertyStmts(ps);
    DeclarationsAt(Dedup(Bindings(ps)));
    assert IndexCachedBeforeRead(decls);
    GuardedReadsCached(ps);
    CachedAppend(decls, stmts);
    CachedAppend(decls + stmts, [ReturnNew(finalClass, HumanNames(ps))]);
  }

  /** Two properties cache their indexes in the same local exactly when their human names agree. */
  lemma ColumnIndexVarsDistinct(p: ColumnProperty, q: ColumnProperty)
    ensures ColumnIndexVar(p) == ColumnIndexVar(q) <==> p.humanName == q.humanName
  {
    var u, v := ColumnIndexVar(p), ColumnIndexVar(q);
    if u == v {
      assert |p.humanName| == |q.humanName|;
      assert p.humanName == u[..|p.humanName|] == v[..|q.humanName|] == q.humanName;
    }
  }

  // ---- shared adapters ----

  /**
   * When every adapter-bearing property names the same adapter class, the
   * body declares that adapter exactly once.
   */
  lemma {:induction false} SharedAdapterDeclaredOnce(ps: seq<ColumnProperty>, cls: ClassName)
    requires exists i :: 0 <= i < |ps| && ps[i].columnAdapter.Some?
    requires forall i :: 0 <= i < |ps| && ps[i].columnAdapter.Some? ==> ps[i].columnAdapter.value == cls
    ensures AdapterDeclarations(ps) == [AdapterDecl(AdapterField(cls))]
  {
    SharedAdapterOneBinding(ps, cls);
    DeclarationsSnoc([], AdapterField(cls));
    assert [] + [AdapterField(cls)] == [AdapterField(cls)];
  }

  /**
   * When every adapter-bearing property names the same adapter class, each
   * of them reads through the one local named after that class.
   */
  lemma {:induction false} SharedAdapterOneLocal(ps: seq<ColumnProperty>, cls: ClassName)
    requires forall i :: 0 <= i < |ps| && ps[i].columnAdapter.Some? ==> ps[i].columnAdapter.value == cls
    ensures |AdapterVars(PropertyStmts(ps))| == CountAdapters(ps)
    ensures forall v :: v in AdapterVars(PropertyStmts(ps)) ==> v == ToLowerCase(cls.simpleName)
  {
    AdapterReadsFollowBindings(ps);
    BindingsCount(ps);
    FieldNamesLength(Bindings(ps));
    BindingsCoverAdapters(ps);
    forall v | v in FieldNames(Bindings(ps)) ensures v == ToLowerCase(cls.simpleName) {
      FieldNamesMember(Bindings(ps), v);
    }
  }

  /** One name per field spec. */
  lemma {:induction false} FieldNamesLength(fs: seq<FieldSpec>)
    ensures |FieldNames(fs)| == |fs|
  {
    if fs != [] {
      FieldNamesLength(fs[1..]);
    }
  }

  /** Without adapters the body declares none. */
  lemma {:induction false} NoAdaptersNoDeclarations(ps: seq<ColumnProperty>)
    requires forall i :: 0 <= i < |ps| ==> ps[i].columnAdapter.None?
    ensures AdapterDeclarations(ps) == []
  {
    NoAdaptersNoBindings(ps);
  }
}
