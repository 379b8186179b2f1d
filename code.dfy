/**
 * The Java code that the extension generates, as a small syntax tree, and
 * the text each piece is rendered to.  Only the statements that
 * `createFromResultSet(ResultSet)` can contain are modelled.
 */
module Code {

  datatype Option<T> = None | Some(value: T)

  /** A Java simple class name is never empty. */
  type SimpleName = s: string | |s| > 0 witness "A"

  /** A JavaPoet `ClassName`: a package and a simple name. */
  datatype ClassName = ClassName(packageName: string, simpleName: SimpleName)

  /**
   * A JavaPoet `FieldSpec` for a local: its class and its name.  JavaPoet
   * compares two field specs by their text, that is by qualified type and
   * name, which is exactly the equality of this datatype.
   */
  datatype FieldSpec = FieldSpec(cls: ClassName, name: string)

  /**
   * A `resultSetMethod()` format with one `$L` hole, such as
   * `resultSet.getInt($L) == 1`: the text before the hole and after it.
   */
  datatype Template = Template(before: string, after: string)

  /** How a read names its column: a `findColumn` lookup or a cached index local. */
  datatype Locator = FindColumn(column: string) | Local(variable: string)

  /** The statements of the generated read method. */
  datatype Stmt =
    | AdapterDecl(field: FieldSpec)
      // X x = new X();
    | AdapterRead(javaType: string, name: string, adapter: string, column: string)
      // T name = adapter.fromResultSet(resultSet, "column");
    | DirectRead(javaType: string, name: string, accessor: Template, at: Locator)
      // T name = <accessor>(at);
    | IndexDecl(variable: string, at: Locator)
      // int variable = at;
    | GuardedRead(javaType: string, name: string, accessor: Template, at: Locator)
      // T name = resultSet.isNull(at) ? null : <accessor>(at);
    | NullFallback(javaType: string, name: string)
      // T name = null; // can't be read from resultSet
    | ReturnNew(finalClass: ClassName, args: seq<string>)
      // return new Final(args...);

  /** Fills the hole of a template. */
  function Apply(t: Template, arg: string): string
  {
    t.before + arg + t.after
  }

  /** A `$S` argument: the string between double quotes. */
  function Quote(s: string): string
  {
    "\"" + s + "\""
  }

  function RenderLocator(at: Locator): string
  {
    match at
    case FindColumn(c) => "resultSet.findColumn(" + Quote(c) + ")"
    case Local(v) => v
  }

  /** Arguments separated by ", ". */
  function JoinArgs(args: seq<string>): string
    decreases |args|
  {
    if |args| == 0 then ""
    else if |args| == 1 then args[0]
    else args[0] + ", " + JoinArgs(args[1..])
  }

  /**
   * The text of one statement, as `addStatement`/`addCode` emit it. It ends
   * in a line break; every statement but the fallback carrying a comment
   * ends in `;` and then the line break.
   */
  function Render(s: Stmt): (r: string)
    ensures |r| >= 2 && r[|r| - 1] == '\n'
    ensures !s.NullFallback? ==> r[|r| - 2..] == ";\n"
  {
    match s
    case AdapterDecl(f) =>
      f.cls.simpleName + " " + f.name + " = new " + f.cls.simpleName + "()" + ";\n"
    case AdapterRead(t, n, a, c) =>
      t + " " + n + " = " + a + ".fromResultSet(resultSet, " + Quote(c) + ")" + ";\n"
    case DirectRead(t, n, acc, at) =>
      t + " " + n + " = " + Apply(acc, RenderLocator(at)) + ";\n"
    case IndexDecl(v, at) =>
      "int " + v + " = " + RenderLocator(at) + ";\n"
    case GuardedRead(t, n, acc, at) =>
      t + " " + n + " = " + "resultSet.isNull(" + RenderLocator(at) + ") ? null : "
      + Apply(acc, RenderLocator(at)) + ";\n"
    case NullFallback(t, n) =>
      t + " " + n + " = null; // can't be read from resultSet\n"
    case ReturnNew(cls, args) =>
      "return " + "new " + cls.simpleName + "(" + JoinArgs(args) + ")" + ";\n"
  }

  /** The column keys one locator passes to `resultSet.findColumn`. */
  function LocatorLookups(at: Locator): seq<string>
  {
    match at
    case FindColumn(c) => [c]
    case Local(_) => []
  }

  /**
   * The `findColumn` calls one statement makes, in text order; a guarded
   * read prints its locator twice (once for `isNull`, once for the read).
   */
  function StmtLookups(s: Stmt): seq<string>
  {
    match s
    case DirectRead(_, _, _, at) => LocatorLookups(at)
    case IndexDecl(_, at) => LocatorLookups(at)
    case GuardedRead(_, _, _, at) => LocatorLookups(at) + LocatorLookups(at)
    case _ => []
  }

  /** The `findColumn` calls of a statement list, in order. */
  function Lookups(ss: seq<Stmt>): seq<string>
  {
    if ss == [] then [] else StmtLookups(ss[0]) + Lookups(ss[1..])
  }

  /** Whether a statement binds the value of a property to a local. */
  predicate IsValueRead(s: Stmt)
  {
    s.AdapterRead? || s.DirectRead? || s.GuardedRead? || s.NullFallback?
  }

  /** The property locals a statement list binds, in order. */
  function ValueNames(ss: seq<Stmt>): seq<string>
  {
    if ss == [] then []
    else (if IsValueRead(ss[0]) then [ss[0].name] else []) + ValueNames(ss[1..])
  }

  /** The adapter locals that `fromResultSet` calls use, in order. */
  function AdapterVars(ss: seq<Stmt>): seq<string>
  {
    if ss == [] then []
    else (if ss[0].AdapterRead? then [ss[0].adapter] else []) + AdapterVars(ss[1..])
  }

  lemma {:induction false} AdapterVarsAppend(a: seq<Stmt>, b: seq<Stmt>)
    ensures AdapterVars(a + b) == AdapterVars(a) + AdapterVars(b)
  {
    if a == [] {
      assert a + b == b;
    } else {
      assert (a + b)[1..] == a[1..] + b;
      AdapterVarsAppend(a[1..], b);
    }
  }

  lemma {:induction false} LookupsAppend(a: seq<Stmt>, b: seq<Stmt>)
    ensures Lookups(a + b) == Lookups(a) + Lookups(b)
  {
    if a == [] {
      assert a + b == b;
    } else {
      assert (a + b)[1..] == a[1..] + b;
      LookupsAppend(a[1..], b);
    }
  }

  lemma {:induction false} ValueNamesAppend(a: seq<Stmt>, b: seq<Stmt>)
    ensures ValueNames(a + b) == ValueNames(a) + ValueNames(b)
  {
    if a == [] {
      assert a + b == b;
    } else {
      assert (a + b)[1..] == a[1..] + b;
      ValueNamesAppend(a[1..], b);
    }
  }
}
