/**
 * Column adapters: the local each adapter-bearing property is bound to
 * (`getColumnAdapters`), and the one declaration emitted per distinct
 * binding, in order of first use (`addColumnAdaptersToMethod`).
 */
module Adapters {
  import opened Code
  import opened Columns

  /** `Character.toLowerCase` on one character (ASCII letters). */
  function LowerChar(c: char): char
  {
    if 'A' <= c <= 'Z' then (c as int + 32) as char else c
  }

  /** Lower-cases the first character and keeps the rest. */
  function ToLowerCase(s: SimpleName): (r: string)
    ensures |r| == |s| && r[1..] == s[1..]
    ensures r[0] == LowerChar(s[0]) && !('A' <= r[0] <= 'Z')
    ensures 'a' <= s[0] <= 'z' ==> r == s
  {
    [LowerChar(s[0])] + s[1..]
  }

  /** The field spec `getColumnAdapters` makes for an adapter class. */
  function AdapterField(cls: ClassName): (f: FieldSpec)
    ensures f.cls == cls && |f.name| == |cls.simpleName| && f.name[1..] == cls.simpleName[1..]
    ensures f.name[0] == LowerChar(cls.simpleName[0])
  {
    FieldSpec(cls, ToLowerCase(cls.simpleName))
  }

  /**
   * Walks the properties and binds every adapter-bearing one, keyed by its
   * position: the Java map is keyed by the property object itself.
   */
  method GetColumnAdapters(properties: seq<ColumnProperty>) returns (columnAdapters: map<nat, FieldSpec>)
    ensures forall i: nat :: i in columnAdapters <==> i < |properties| && properties[i].columnAdapter.Some?
    ensures forall i :: i in columnAdapters ==>
      columnAdapters[i].cls == properties[i].columnAdapter.value &&
      columnAdapters[i].name == ToLowerCase(properties[i].columnAdapter.value.simpleName)
  {
    columnAdapters := map[];
    for k := 0 to |properties|
      invariant forall i: nat :: i in columnAdapters <==> i < k && properties[i].columnAdapter.Some?
      invariant forall i :: i in columnAdapters ==>
        columnAdapters[i] == AdapterField(properties[i].columnAdapter.value)
    {
      var property := properties[k];
      if property.columnAdapter.Some? && k !in columnAdapters {
        var clsName := property.columnAdapter.value;
        var name := ToLowerCase(clsName.simpleName);
        columnAdapters := columnAdapters[k := FieldSpec(clsName, name)];
      }
    }
  }

  /** The adapter bindings of the properties, in property order (with repeats). */
  function Bindings(ps: seq<ColumnProperty>): seq<FieldSpec>
  {
    if ps == [] then []
    else Bindings(ps[..|ps| - 1]) +
         (if ps[|ps| - 1].columnAdapter.Some? then [AdapterField(ps[|ps| - 1].columnAdapter.value)] else [])
  }

  /** The local names of a list of field specs. */
  function FieldNames(fs: seq<FieldSpec>): seq<string>
  {
    if fs == [] then [] else [fs[0].name] + FieldNames(fs[1..])
  }

  lemma {:induction false} FieldNamesAppend(a: seq<FieldSpec>, b: seq<FieldSpec>)
    ensures FieldNames(a + b) == FieldNames(a) + FieldNames(b)
  {
    if a == [] {
      assert a + b == b;
    } else {
      assert (a + b)[1..] == a[1..] + b;
      FieldNamesAppend(a[1..], b);
    }
  }

  /** How many properties carry an adapter. */
  function CountAdapters(ps: seq<ColumnProperty>): nat
  {
    if ps == [] then 0
    else CountAdapters(ps[..|ps| - 1]) + (if ps[|ps| - 1].columnAdapter.Some? then 1 else 0)
  }

  /** Every adapter-bearing property contributes one binding (repeats included). */
  lemma {:induction false} BindingsCount(ps: seq<ColumnProperty>)
    ensures |Bindings(ps)| == CountAdapters(ps)
  {
    if ps != [] {
      BindingsCount(ps[..|ps| - 1]);
    }
  }

  /** The map entries met walking the first `n` property positions. */
  function MapUses(n: nat, columnAdapters: map<nat, FieldSpec>): seq<FieldSpec>
  {
    if n == 0 then []
    else MapUses(n - 1, columnAdapters) +
         (if n - 1 in columnAdapters then [columnAdapters[n - 1]] else [])
  }

  /** Keeps the first occurrence of every element, in order. */
  function Dedup<T(==)>(s: seq<T>): seq<T>
  {
    if s == [] then []
    else
      var d := Dedup(s[..|s| - 1]);
      if s[|s| - 1] in d then d else d + [s[|s| - 1]]
  }

  /** One `X x = new X()` per field spec, in the same order. */
  function Declarations(fs: seq<FieldSpec>): seq<Stmt>
  {
    if fs == [] then [] else Declarations(fs[..|fs| - 1]) + [AdapterDecl(fs[|fs| - 1])]
  }

  /**
   * Appends one declaration per distinct field spec found by walking the
   * property positions; nothing at all when the map is empty.
   */
  method AddColumnAdaptersToMethod(body: seq<Stmt>, properties: seq<ColumnProperty>,
                                   columnAdapters: map<nat, FieldSpec>)
    returns (body': seq<Stmt>)
    ensures body' == body + Declarations(Dedup(MapUses(|properties|, columnAdapters)))
  {
    body' := body;
    if |columnAdapters| == 0 {
      NoUsesOfEmptyMap(|properties|, columnAdapters);
      return;
    }
    var handledAdapters: seq<FieldSpec> := [];
    for k := 0 to |properties|
      invariant handledAdapters == Dedup(MapUses(k, columnAdapters))
      invariant body' == body + Declarations(handledAdapters)
    {
      assert MapUses(k + 1, columnAdapters) ==
        MapUses(k, columnAdapters) + (if k in columnAdapters then [columnAdapters[k]] else []);
      if k in columnAdapters {
        DedupSnoc(MapUses(k, columnAdapters), columnAdapters[k]);
      } else {
        assert MapUses(k + 1, columnAdapters) == MapUses(k, columnAdapters);
      }
      if k in columnAdapters && columnAdapters[k] !in handledAdapters {
        var adapter := columnAdapters[k];
        body' := body' + [AdapterDecl(adapter)];
        DeclarationsSnoc(handledAdapters, adapter);
        handledAdapters := handledAdapters + [adapter];
      }
    }
  }

  /** An empty map is met nowhere. */
  lemma {:induction false} NoUsesOfEmptyMap(n: nat, columnAdapters: map<nat, FieldSpec>)
    requires |columnAdapters| == 0
    ensures MapUses(n, columnAdapters) == []
  {
    if n > 0 {
      NoUsesOfEmptyMap(n - 1, columnAdapters);
    }
  }

  /** Deduplicating one more element keeps it only when it is new. */
  lemma {:induction false} DedupSnoc<T>(s: seq<T>, x: T)
    ensures Dedup(s + [x]) == if x in Dedup(s) then Dedup(s) else Dedup(s) + [x]
  {
    assert (s + [x])[..|s|] == s;
  }

  /** One more field spec, one more declaration at the end. */
  lemma {:induction false} DeclarationsSnoc(fs: seq<FieldSpec>, f: FieldSpec)
    ensures Declarations(fs + [f]) == Declarations(fs) + [AdapterDecl(f)]
  {
    assert (fs + [f])[..|fs|] == fs;
  }

  /** The declarations are exactly the field specs, position by position. */
  lemma {:induction false} DeclarationsAt(fs: seq<FieldSpec>)
    ensures |Declarations(fs)| == |fs|
    ensures forall i :: 0 <= i < |fs| ==> Declarations(fs)[i] == AdapterDecl(fs[i])
  {
    if fs != [] {
      DeclarationsAt(fs[..|fs| - 1]);
    }
  }

  /** The map `getColumnAdapters` returns walks exactly the bindings of the properties. */
  lemma {:induction false} MapUsesAreBindings(ps: seq<ColumnProperty>, columnAdapters: map<nat, FieldSpec>, n: nat)
    requires n <= |ps|
    requires forall i: nat :: i in columnAdapters <==> i < |ps| && ps[i].columnAdapter.Some?
    requires forall i :: i in columnAdapters ==>
      columnAdapters[i].cls == ps[i].columnAdapter.value &&
      columnAdapters[i].name == ToLowerCase(ps[i].columnAdapter.value.simpleName)
    ensures MapUses(n, columnAdapters) == Bindings(ps[..n])
  {
    if n > 0 {
      MapUsesAreBindings(ps, columnAdapters, n - 1);
      assert ps[..n][..n - 1] == ps[..n - 1];
    }
  }

  // ---- properties of first-seen deduplication ----

  /** Deduplication keeps exactly the elements of its input. */
  lemma {:induction false} DedupSameElements<T>(s: seq<T>)
    ensures forall x :: x in Dedup(s) ==> x in s
    ensures forall x :: x in s ==> x in Dedup(s)
  {
    if s != [] {
      var init := s[..|s| - 1];
      DedupSameElements(init);
      assert s == init + [s[|s| - 1]];
    }
  }

  /** Deduplication leaves no element twice. */
  lemma {:induction false} DedupNoDuplicates<T>(s: seq<T>)
    ensures forall i, j :: 0 <= i < j < |Dedup(s)| ==> Dedup(s)[i] != Dedup(s)[j]
  {
    if s != [] {
      DedupNoDuplicates(s[..|s| - 1]);
    }
  }

  /** The index of the first occurrence of `x` in `s`. */
  function FirstIndex<T(==)>(s: seq<T>, x: T): (k: nat)
    requires x in s
    ensures k < |s| && s[k] == x && x !in s[..k]
  {
    if s[0] == x then 0 else 1 + FirstIndex(s[1..], x)
  }

  /** Appending does not move the first occurrence of an element already present. */
  lemma {:induction false} FirstIndexSnoc<T>(s: seq<T>, y: T, x: T)
    requires x in s
    ensures FirstIndex(s + [y], x) == FirstIndex(s, x)
  {
    if s[0] != x {
      assert (s + [y])[1..] == s[1..] + [y];
      FirstIndexSnoc(s[1..], y, x);
    }
  }

  /** An element met for the first time at the end is first seen there. */
  lemma {:induction false} FirstIndexOfNew<T>(s: seq<T>, x: T)
    requires x !in s
    ensures FirstIndex(s + [x], x) == |s|
  {
    assert forall k :: 0 <= k < |s| ==> (s + [x])[k] == s[k];
  }

  /** `r` lists elements of `s` in the order of their first occurrence in `s`. */
  ghost predicate InFirstSeenOrder<T>(s: seq<T>, r: seq<T>)
  {
    forall i, j :: 0 <= i < j < |r| ==>
      r[i] in s && r[j] in s && FirstIndex(s, r[i]) < FirstIndex(s, r[j])
  }

  lemma {:induction false} FirstSeenOrderKept<T>(init: seq<T>, last: T, d: seq<T>)
    requires forall x :: x in d ==> x in init
    requires InFirstSeenOrder(init, d)
    ensures InFirstSeenOrder(init + [last], d)
  {
    forall x | x in init
      ensures FirstIndex(init + [last], x) == FirstIndex(init, x)
    {
      FirstIndexSnoc(init, last, x);
    }
  }

  lemma {:induction false} FirstSeenOrderExtended<T>(init: seq<T>, last: T, d: seq<T>)
    requires forall x :: x in d ==> x in init
    requires last !in init
    requires InFirstSeenOrder(init, d)
    ensures InFirstSeenOrder(init + [last], d + [last])
  {
    FirstSeenOrderKept(init, last, d);
    FirstIndexOfNew(init, last);
    var s, r := init + [last], d + [last];
    forall i, j | 0 <= i < j < |r|
      ensures r[i] in s && r[j] in s && FirstIndex(s, r[i]) < FirstIndex(s, r[j])
    {
      if j < |d| {
        assert r[i] == d[i] && r[j] == d[j];
      } else {
        assert r[i] == d[i] && d[i] in init;
        FirstIndexSnoc(init, last, d[i]);
      }
    }
  }

  /** Deduplication lists the elements in the order of their first occurrence. */
  lemma {:induction false} DedupFirstSeenOrder<T>(s: seq<T>)
    ensures InFirstSeenOrder(s, Dedup(s))
  {
    if s != [] {
      var init, last := s[..|s| - 1], s[|s| - 1];
      assert s == init + [last];
      DedupFirstSeenOrder(init);
      DedupSameElements(init);
      assert forall x :: x in Dedup(init) ==> x in init;
      if last in Dedup(init) {
        FirstSeenOrderKept(init, last, Dedup(init));
      } else {
        assert last !in init;
        FirstSeenOrderExtended(init, last, Dedup(init));
      }
    }
  }

  /** A sequence that holds one value, at least once, deduplicates to that value alone. */
  lemma {:induction false} DedupOfOneValue<T>(s: seq<T>, x: T)
    requires x in s
    requires forall i :: 0 <= i < |s| ==> s[i] == x
    ensures Dedup(s) == [x]
  {
    var init := s[..|s| - 1];
    if |s| > 1 {
      assert init[0] == x;
      DedupOfOneValue(init, x);
    } else {
      assert init == [];
    }
  }

  /** A property has a binding exactly when it has an adapter. */
  lemma {:induction false} BindingsCoverAdapters(ps: seq<ColumnProperty>)
    ensures forall i :: 0 <= i < |ps| && ps[i].columnAdapter.Some? ==>
      AdapterField(ps[i].columnAdapter.value) in Bindings(ps)
    ensures forall f :: f in Bindings(ps) ==>
      exists i :: 0 <= i < |ps| && ps[i].columnAdapter == Some(f.cls) && f == AdapterField(f.cls)
  {
    if ps != [] {
      var init := ps[..|ps| - 1];
      BindingsCoverAdapters(init);
      forall f | f in Bindings(ps)
        ensures exists i :: 0 <= i < |ps| && ps[i].columnAdapter == Some(f.cls) && f == AdapterField(f.cls)
      {
        if f in Bindings(init) {
          var i :| 0 <= i < |init| && init[i].columnAdapter == Some(f.cls) && f == AdapterField(f.cls);
          assert ps[i] == init[i];
        } else {
          assert ps[|ps| - 1].columnAdapter == Some(f.cls);
        }
      }
    }
  }

  /** Without a single adapter, no bindings. */
  lemma {:induction false} NoAdaptersNoBindings(ps: seq<ColumnProperty>)
    requires forall i :: 0 <= i < |ps| ==> ps[i].columnAdapter.None?
    ensures Bindings(ps) == []
  {
    if ps != [] {
      NoAdaptersNoBindings(ps[..|ps| - 1]);
    }
  }

  /** Properties sharing one adapter class yield a single binding. */
  lemma {:induction false} SharedAdapterOneBinding(ps: seq<ColumnProperty>, cls: ClassName)
    requires exists i :: 0 <= i < |ps| && ps[i].columnAdapter.Some?
    requires forall i :: 0 <= i < |ps| && ps[i].columnAdapter.Some? ==> ps[i].columnAdapter.value == cls
    ensures Dedup(Bindings(ps)) == [AdapterField(cls)]
  {
    BindingsCoverAdapters(ps);
    var b := Bindings(ps);
    assert forall k :: 0 <= k < |b| ==> b[k] in b;
    var i :| 0 <= i < |ps| && ps[i].columnAdapter.Some?;
    DedupOfOneValue(b, AdapterField(cls));
  }
}
