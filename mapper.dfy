/**
 * The generated subclass as far as this extension contributes to it: the
 * read method always, and the `MAPPER` field only when `rx.functions.Func1`
 * can be resolved.  The field holds an anonymous `Func1<ResultSet, T>` whose
 * `call` delegates to the read method and turns its `SQLException` into an
 * unchecked one through `Exceptions.propagate`.
 */
module Mapper {
  import opened Code
  import opened Columns
  import opened ReadMethod

  const FUNC1 := ClassName("rx.functions", "Func1")
  const RX_EXCEPTIONS := ClassName("rx.exceptions", "Exceptions")
  const RUNTIME_EXCEPTION := ClassName("java.lang", "RuntimeException")
  const FUNC1_FIELD_NAME := "MAPPER"
  const FUNC1_METHOD_NAME := "call"
  const PROPAGATE := "propagate"

  /** A JavaPoet `TypeName`: a plain class or a class with type arguments. */
  datatype TypeRef = Plain(cls: ClassName) | Parameterized(raw: ClassName, args: seq<ClassName>)

  /** `catch (<caught> <variable>) { throw <rethrowVia>.<rethrowMethod>(<variable>); }` */
  datatype Handler = Handler(caught: ClassName, variable: string, rethrowVia: ClassName, rethrowMethod: string)

  /**
   * The `call` method of the anonymous class: its name, the `@Override`
   * annotation, the `public` modifier, its one parameter, its return type,
   * and a body `try { return <delegate>(<argument>); } <handler>`.
   */
  datatype CallMethod = CallMethod(
    name: string,
    isOverride: bool,
    isPublic: bool,
    parameter: Parameter,
    returnType: ClassName,
    delegate: string,
    argument: string,
    handler: Handler)

  /** `static final <fieldType> <name> = new <superinterface>() { <call> };` */
  datatype MapperField = MapperField(
    fieldType: TypeRef,
    name: string,
    isStatic: bool,
    isFinal: bool,
    superinterface: TypeRef,
    call: CallMethod)

  /** `Func1<ResultSet, T>` where `T` is the annotated value class, not its final subclass. */
  function Func1TypeName(context: Context): (t: TypeRef)
    ensures t.Parameterized? && t.raw == FUNC1 && |t.args| == 2
    ensures t.args[0] == RESULT_SET && t.args[1] == context.autoValueClass
  {
    Parameterized(FUNC1, [RESULT_SET, context.autoValueClass])
  }

  /**
   * The `MAPPER` field: `static final`, typed `Func1<ResultSet, T>` over the
   * annotated class and initialised with an anonymous class of that same
   * type, whose `call` is a public override taking one `ResultSet`,
   * returning the final class, handing its own parameter to the read method
   * and rethrowing an `SQLException` through `Exceptions.propagate`.
   */
  function CreateMapper(context: Context): (m: MapperField)
    ensures m.name == FUNC1_FIELD_NAME && m.isStatic && m.isFinal
    ensures m.fieldType == m.superinterface == Func1TypeName(context)
    ensures m.call.name == FUNC1_METHOD_NAME && m.call.isOverride && m.call.isPublic
    ensures m.call.parameter.cls == RESULT_SET && m.call.returnType == context.finalClass
    ensures m.call.delegate == METHOD_NAME && m.call.argument == m.call.parameter.name
    ensures m.call.handler.caught == SQL_EXCEPTION
    ensures m.call.handler.rethrowVia == RX_EXCEPTIONS && m.call.handler.rethrowMethod == PROPAGATE
  {
    var func1Name := Func1TypeName(context);
    var func1Method := CallMethod(FUNC1_METHOD_NAME, true, true, Parameter(RESULT_SET, "rs"),
                                  context.finalClass, METHOD_NAME, "rs",
                                  Handler(SQL_EXCEPTION, "e", RX_EXCEPTIONS, PROPAGATE));
    MapperField(func1Name, FUNC1_FIELD_NAME, true, true, func1Name, func1Method)
  }

  // ---- what `call` does at run time ----

  /**
   * A thrown exception: one the delegate raised, of some class, or the
   * unchecked exception `Exceptions.propagate` builds around a cause.
   */
  datatype Exception =
    | Raised(cls: ClassName, id: nat)
    | Propagated(via: ClassName, factory: string, cause: Exception)

  /** `Exceptions.propagate` hands back a `RuntimeException` for a checked cause. */
  function ClassOf(e: Exception): ClassName
  {
    match e
    case Raised(cls, _) => cls
    case Propagated(_, _, _) => RUNTIME_EXCEPTION
  }

  /** How a call ends: with a value or with an exception. */
  datatype Outcome<T> = Returned(value: T) | Threw(exception: Exception)

  /**
   * The outcome of `call` when its delegate ends with `delegated`: a value
   * is returned as it is; an exception of the caught class is rethrown
   * through the handler; any other exception passes through the `try`.
   */
  function Invoke<T>(m: CallMethod, delegated: Outcome<T>): (r: Outcome<T>)
    ensures r.Threw? <==> delegated.Threw?
    ensures delegated.Returned? ==> r == delegated
    ensures delegated.Threw? && ClassOf(delegated.exception) != m.handler.caught ==> r == delegated
    ensures delegated.Threw? && ClassOf(delegated.exception) == m.handler.caught ==>
      r.exception.Propagated? && r.exception.cause == delegated.exception
  {
    match delegated
    case Returned(_) => delegated
    case Threw(e) =>
      if ClassOf(e) == m.handler.caught then
        Threw(Propagated(m.handler.rethrowVia, m.handler.rethrowMethod, e))
      else delegated
  }

  /**
   * `call` matches the read method it wraps: it takes a `ResultSet`, returns
   * the final class, calls the read method by name with its own parameter,
   * and catches exactly the exception the read method declares.
   */
  lemma MapperDelegatesToReadMethod(context: Context, ps: seq<ColumnProperty>)
    ensures var call := CreateMapper(context).call;
      var read := ReadMethodSpec(context, ps);
      && call.delegate == read.name && read.isStatic
      && call.argument == call.parameter.name
      && |read.parameters| == 1 && call.parameter.cls == read.parameters[0].cls
      && call.returnType == read.returnType
      && read.exceptions == [call.handler.caught]
  {
  }

  /**
   * The wrapper never swallows an exception: `call` throws exactly when the
   * read method throws, and returns the read method's value unchanged.
   */
  lemma MapperNeverSwallows<T>(context: Context, delegated: Outcome<T>)
    ensures Invoke(CreateMapper(context).call, delegated).Threw? <==> delegated.Threw?
    ensures delegated.Returned? ==> Invoke(CreateMapper(context).call, delegated) == delegated
  {
  }

  /** An `SQLException` from the read method leaves `call` wrapped by `Exceptions.propagate`. */
  lemma MapperPropagatesSqlException<T>(context: Context, id: nat)
    ensures var e := Raised(SQL_EXCEPTION, id);
      Invoke<T>(CreateMapper(context).call, Threw(e)) == Threw(Propagated(RX_EXCEPTIONS, PROPAGATE, e))
  {
  }

  /** Any other exception from the read method leaves `call` untouched. */
  lemma MapperPassesOtherExceptions<T>(context: Context, e: Exception)
    requires ClassOf(e) != SQL_EXCEPTION
    ensures Invoke<T>(CreateMapper(context).call, Threw(e)) == Threw(e)
  {
  }

  // ---- the generated subclass ----

  /** What the extension puts in the subclass: its methods and, optionally, the mapper field. */
  datatype GeneratedClass = GeneratedClass(
    packageName: string,
    name: string,
    superclass: string,
    isFinal: bool,
    methods: seq<MethodSpec>,
    mapper: Option<MapperField>)

  /**
   * Builds the subclass: the read method is always added, the mapper only
   * when `func1Exists` (whether `rx.functions.Func1` resolves).  The
   * diagnostics of the read method are reported whether or not the mapper
   * is added, and the class is produced even when there are some.
   */
  method GenerateClass(context: Context, className: string, classToExtend: string, isFinal: bool,
                       properties: seq<ColumnProperty>, func1Exists: bool)
    returns (subclass: GeneratedClass, errors: seq<Diagnostic>)
    ensures subclass.packageName == context.packageName && subclass.name == className
    ensures subclass.superclass == classToExtend && subclass.isFinal == isFinal
    ensures subclass.methods == [ReadMethodSpec(context, properties)]
    ensures subclass.methods[0].exceptions == [SQL_EXCEPTION]
    ensures errors == Errors(properties)
    ensures subclass.mapper.Some? <==> func1Exists
    ensures func1Exists ==> subclass.mapper == Some(CreateMapper(context))
  {
    var readMethod;
    readMethod, errors := CreateReadMethod(context, properties);
    subclass := GeneratedClass(context.packageName, className, classToExtend, isFinal, [readMethod], None);
    if func1Exists {
      subclass := subclass.(mapper := Some(CreateMapper(context)));
    }
  }
}
