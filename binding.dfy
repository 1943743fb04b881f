// The two halves of a wrapped class's binding: the managed class declares an
// extern per constructor, method and accessor (writeCppWrap_CSharpClass and
// the writers it calls), and the native side registers a function under the
// managed name of each of them (writeCppWrap_CppClass). Both halves walk the
// same symbol list, ClassSymbols, so every extern has its registration.

module Binding {
  import opened Text
  import opened Symbols
  import opened Resolve
  import opened Emission
  import opened Signatures

  /** A class the writers can handle: it lies in the table, sits in a context
      of it, and the walk over its parents ends (classHasDeconstructor follows
      them from the class's own context). */
  ghost predicate Wrappable(t: Table, c: TypeId)
  {
    Valid(t) && c < |t.decls| && DeclOk(t, c)
    && ChainEnds(t, t.decls[c].context, c, |t.decls|)
  }

  /** classHasDeconstructor, as the writers ask it: no strict ancestor has
      constructors. */
  ghost predicate Deconstructible(t: Table, c: TypeId)
    requires Wrappable(t, c)
  {
    WithoutConstructors(t, Ancestors(t, t.decls[c].context, c, |t.decls|))
  }

  /** The externs of class c, in the order both halves write them. */
  ghost function BoundSymbols(t: Table, c: TypeId): seq<ExternSymbol>
    requires Wrappable(t, c)
  {
    ClassSymbols(t.decls[c], Deconstructible(t, c))
  }

  // ---------------------------------------------------------------------
  // The managed half

  /** The loop of writeCppWrap_CSharpClassConstructors: per constructor
      position, the default constructor unless the class is abstract (asked
      anew on every iteration), then the wrapper. */
  method ConstructorExterns(d: Decl) returns (names: seq<string>)
    ensures names == ExternNames(d.name, ConstructorSymbols(|d.constructors|, HasAbstractMethod(d)))
  {
    names := [];
    var constructorSize := |d.constructors|;
    for constructorIter := 0 to constructorSize
      invariant names == ExternNames(d.name, ConstructorSymbols(constructorIter, HasAbstractMethod(d)))
    {
      ghost var before := ConstructorSymbols(constructorIter, HasAbstractMethod(d));
      var isAbstract := IsAbstract(d);
      if !isAbstract {
        names := names + [d.name + "_" + ("ConstructorDefault" + NatToString(constructorIter))];
        ExternNamesSnoc(d.name, before, ConstructorDefault(constructorIter));
        before := before + [ConstructorDefault(constructorIter)];
      }
      names := names + [d.name + "_" + ("ConstructorWrapper" + NatToString(constructorIter))];
      ExternNamesSnoc(d.name, before, ConstructorWrapper(constructorIter));
      before := before + [ConstructorWrapper(constructorIter)];
      assert before == ConstructorSymbols(constructorIter + 1, HasAbstractMethod(d));
    }
  }

  /** The constructor section once classHasDeconstructor has answered. */
  method ConstructorSection(d: Decl, hasDeconstructor: bool) returns (names: seq<string>)
    requires |d.constructors| > 0
    ensures names == ExternNames(d.name, LifecycleSymbols(d, hasDeconstructor))
  {
    names := ConstructorExterns(d);
    if hasDeconstructor {
      ExternNamesSnoc(d.name, ConstructorSymbols(|d.constructors|, HasAbstractMethod(d)), Deconstructor);
      names := names + [d.name + "_" + "DeconstructorDefault"];
    } else {
      assert LifecycleSymbols(d, hasDeconstructor) == ConstructorSymbols(|d.constructors|, HasAbstractMethod(d)) + [];
    }
  }

  /** writeCppWrap_CSharpClassConstructors: the constructor externs and,
      when the class may be deconstructed, the deconstructor. */
  method LifecycleExterns(t: Table, c: TypeId) returns (names: seq<string>)
    requires Wrappable(t, c)
    ensures names == ExternNames(t.decls[c].name, LifecycleSymbols(t.decls[c], Deconstructible(t, c)))
  {
    var d := t.decls[c];
    names := [];
    if |d.constructors| > 0 {
      var hasDeconstructor := ClassHasDeconstructor(t, d.context, c);
      assert hasDeconstructor == Deconstructible(t, c);
      names := ConstructorSection(d, hasDeconstructor);
    } else {
      assert LifecycleSymbols(d, Deconstructible(t, c)) == [];
    }
  }

  /** The extern names of writeCppWrap_CSharpMethod, one per method. */
  method MethodExterns(d: Decl) returns (names: seq<string>)
    ensures names == ExternNames(d.name, MethodSymbols(d.methods))
  {
    names := [];
    ghost var all := MethodSymbols(d.methods);
    for i := 0 to |d.methods|
      invariant names == ExternNames(d.name, all[..i])
    {
      var staticMethodName := ExternMethodName(d, d.methods[i]);
      ExternNamesSnoc(d.name, all[..i], all[i]);
      assert all[..i + 1] == all[..i] + [all[i]];
      names := names + [staticMethodName];
    }
    assert all[..|d.methods|] == all;
  }

  /** The accessor symbols one variable contributes. */
  function VariableSymbols(v: Variable): seq<ExternSymbol>
  {
    (if v.getBody != "" then [Getter(v.name)] else []) + (if v.setBody != "" then [Setter(v.name)] else [])
  }

  /** The extern names of writeCppWrap_CSharpVariable: a getter when the
      variable has a get body, a setter when it has a set body. */
  method VariableExterns(className: string, v: Variable) returns (names: seq<string>)
    ensures names == ExternNames(className, VariableSymbols(v))
  {
    var staticMethodNameGet := className + "_" + (v.name + "_Get");
    var staticMethodNameSet := className + "_" + (v.name + "_Set");
    names := [];
    ghost var syms: seq<ExternSymbol> := [];
    if v.getBody != "" {
      ExternNamesSnoc(className, syms, Getter(v.name));
      names := names + [staticMethodNameGet];
      syms := syms + [Getter(v.name)];
    }
    if v.setBody != "" {
      ExternNamesSnoc(className, syms, Setter(v.name));
      names := names + [staticMethodNameSet];
      syms := syms + [Setter(v.name)];
    }
    assert syms == (if v.getBody != "" then [Getter(v.name)] else []) + (if v.setBody != "" then [Setter(v.name)] else []);
  }

  method AccessorExterns(d: Decl) returns (names: seq<string>)
    ensures names == ExternNames(d.name, AccessorSymbols(d.variables))
  {
    names := [];
    for i := 0 to |d.variables|
      invariant names == ExternNames(d.name, AccessorSymbols(d.variables[..i]))
    {
      var more := VariableExterns(d.name, d.variables[i]);
      assert d.variables[..i + 1][..i] == d.variables[..i];
      ExternNamesConcat(d.name, AccessorSymbols(d.variables[..i]), VariableSymbols(d.variables[i]));
      assert AccessorSymbols(d.variables[..i + 1])
          == AccessorSymbols(d.variables[..i]) + VariableSymbols(d.variables[i]);
      names := names + more;
    }
    assert d.variables[..|d.variables|] == d.variables;
  }

  /** writeCppWrap_CSharpClass: the extern names the managed class declares,
      constructors first (only when it has any), then methods, then
      accessors. */
  method ManagedExterns(t: Table, c: TypeId) returns (names: seq<string>)
    requires Wrappable(t, c)
    ensures names == ExternNames(t.decls[c].name, BoundSymbols(t, c))
  {
    var d := t.decls[c];
    names := [];
    if |d.constructors| > 0 {
      names := LifecycleExterns(t, c);
    }
    var methodNames := MethodExterns(d);
    var accessorNames := AccessorExterns(d);
    ghost var h := Deconstructible(t, c);
    ExternNamesConcat(d.name, LifecycleSymbols(d, h), MethodSymbols(d.methods));
    ExternNamesConcat(d.name, LifecycleSymbols(d, h) + MethodSymbols(d.methods), AccessorSymbols(d.variables));
    names := names + methodNames + accessorNames;
  }

  /** No two externs of a class share a name, provided its methods are
      distinct objects and its variables have distinct names. */
  lemma ManagedExternsDistinct(t: Table, c: TypeId)
    requires Wrappable(t, c)
    requires DistinctMethods(t.decls[c].methods) && DistinctFields(t.decls[c].variables)
    ensures Distinct(ExternNames(t.decls[c].name, BoundSymbols(t, c)))
  {
    ClassExternNamesDistinct(t.decls[c], Deconstructible(t, c));
  }

  // ---------------------------------------------------------------------
  // The class qualifier of the registration keys

  /** What the qualifier loop appends for one scope: nothing for the unnamed
      root, otherwise the name and "." for a namespace or "/" for the scope
      of a declaration. */
  function QualifierPiece(s: Scope): string
  {
    if s.name == "" then "" else s.name + (if s.sourceType.None? then "." else "/")
  }

  function QualifierText(t: Table, cs: seq<ScopeId>): string
    requires forall k :: 0 <= k < |cs| ==> cs[k] < |t.scopes|
  {
    if cs == [] then "" else QualifierText(t, cs[..|cs| - 1]) + QualifierPiece(t.scopes[cs[|cs| - 1]])
  }

  /** The qualifier of a class's context with the last separator removed
      (the source removes the last character, which fails on the unnamed
      root, so the context must be a named one). */
  function ClassQualifier(t: Table, ctx: ScopeId): (q: string)
    requires Valid(t) && 0 < ctx < |t.scopes|
  {
    var cl := ContextList(t, ctx);
    assert ScopeOk(t, ctx);
    assert cl[..|cl| - 1] + [ctx] == cl;
    var text := QualifierText(t, cl);
    text[..|text| - 1]
  }

  /** The qualifier loop of writeCppWrap_CppClass over buildContextList. */
  method BuildClassQualifier(t: Table, ctx: ScopeId) returns (classQualifier: string)
    requires Valid(t) && 0 < ctx < |t.scopes|
    ensures classQualifier == ClassQualifier(t, ctx)
  {
    var contextList := BuildContextList(t, ctx);
    classQualifier := "";
    for i := 0 to |contextList|
      invariant classQualifier == QualifierText(t, contextList[..i])
    {
      assert contextList[..i + 1][..i] == contextList[..i];
      var context := t.scopes[contextList[i]];
      if context.name != "" {
        if context.sourceType.None? {
          classQualifier := classQualifier + (context.name + ".");
        } else {
          classQualifier := classQualifier + (context.name + "/");
        }
      }
    }
    assert contextList[..|contextList|] == contextList;
    assert ScopeOk(t, ctx);
    classQualifier := classQualifier[..|classQualifier| - 1];
  }

  /** Over namespaces only, the loop writes each name followed by ".". */
  lemma {:induction false} NamespaceQualifierText(t: Table, cs: seq<ScopeId>)
    requires forall k :: 0 <= k < |cs| ==> cs[k] < |t.scopes| && t.scopes[cs[k]].sourceType.None?
    ensures QualifierText(t, cs) == Terminated(NamedScopes(t, cs), ".")
    decreases |cs|
  {
    if cs != [] {
      var init := cs[..|cs| - 1];
      forall k | 0 <= k < |init|
        ensures init[k] < |t.scopes| && t.scopes[init[k]].sourceType.None?
      {
        assert init[k] == cs[k];
      }
      NamespaceQualifierText(t, init);
      var name := t.scopes[cs[|cs| - 1]].name;
      assert cs[..|cs| - 1] == init;
      if name != "" {
        assert QualifierText(t, cs) == QualifierText(t, init) + (name + ".");
        assert NamedScopes(t, cs) == NamedScopes(t, init) + [name];
        TerminatedSnoc(NamedScopes(t, init), name, ".");
      } else {
        assert QualifierText(t, init) + "" == QualifierText(t, init);
        assert NamedScopes(t, init) + [] == NamedScopes(t, init);
      }
    }
  }

  /** Every scope that encloses ctx, ctx itself excepted, is a namespace. */
  ghost predicate EnclosedByNamespaces(t: Table, ctx: ScopeId)
    requires Valid(t) && ctx < |t.scopes|
  {
    var cl := ContextList(t, ctx);
    forall k :: 0 <= k < |cl| - 1 ==> t.scopes[cl[k]].sourceType.None?
  }

  /** A class whose enclosing scopes are all namespaces is registered under
      its qualifiers joined by ".": the managed full name. A scope that
      belongs to a declaration is followed by "/" instead, the notation for
      a nested type. */
  lemma ClassQualifierOfNamespaces(t: Table, ctx: ScopeId)
    requires Valid(t) && 0 < ctx < |t.scopes|
    requires EnclosedByNamespaces(t, ctx)
    ensures ClassQualifier(t, ctx) == Join(Qualifiers(t, ctx), ".")
  {
    var cl := ContextList(t, ctx);
    var init := cl[..|cl| - 1];
    assert ScopeOk(t, ctx);
    var name := t.scopes[ctx].name;
    assert init + [ctx] == cl;
    forall k | 0 <= k < |init|
      ensures init[k] < |t.scopes| && t.scopes[init[k]].sourceType.None?
    {
      assert init[k] == cl[k] && k < |cl| - 1;
      assert t.scopes[cl[k]].sourceType.None?;
    }
    NamespaceQualifierText(t, init);
    QualifiersFollowContextList(t, ctx);
    assert NamedScopes(t, cl) == NamedScopes(t, init) + [name];
    JoinIsTerminated(NamedScopes(t, init), name, ".");
    var text := QualifierText(t, cl);
    var sep := if t.scopes[ctx].sourceType.None? then "." else "/";
    assert text == Terminated(NamedScopes(t, init), ".") + name + sep;
    assert text[..|text| - 1] == Terminated(NamedScopes(t, init), ".") + name;
  }

  // ---------------------------------------------------------------------
  // The native half

  /** One mono_add_internal_call: the managed name it binds and the native
      function it binds it to. */
  datatype Registration = Registration(key: string, target: string)

  /** The native function registered for a symbol: the class's unique name
      and the suffix, except for a method, whose native function carries no
      overload index and is selected by a cast to its parameter types. */
  function Target(t: Table, ctx: ScopeId, uniqueName: string, s: ExternSymbol): string
    requires Valid(t) && ctx < |t.scopes|
  {
    match s
    case MethodSymbol(m, _) => MethodCast(uniqueName, m, ArgTypes(t, ctx, m.args), ResolveType(t, ctx, m.returnType))
    case _ => uniqueName + "_" + SymbolSuffix(s)
  }

  /** The registrations for a list of symbols. */
  function Registrations(t: Table, ctx: ScopeId, q: string, className: string, uniqueName: string,
                         syms: seq<ExternSymbol>): (r: seq<Registration>)
    requires Valid(t) && ctx < |t.scopes|
    ensures |r| == |syms|
  {
    seq(|syms|, k requires 0 <= k < |syms| =>
      Registration(q + "::" + ExternName(className, syms[k]), Target(t, ctx, uniqueName, syms[k])))
  }

  lemma RegistrationsSnoc(t: Table, ctx: ScopeId, q: string, className: string, uniqueName: string,
                          syms: seq<ExternSymbol>, x: ExternSymbol)
    requires Valid(t) && ctx < |t.scopes|
    ensures Registrations(t, ctx, q, className, uniqueName, syms + [x])
         == Registrations(t, ctx, q, className, uniqueName, syms)
          + [Registration(q + "::" + ExternName(className, x), Target(t, ctx, uniqueName, x))]
  {
    var r := Registrations(t, ctx, q, className, uniqueName, syms + [x]);
    var rs := Registrations(t, ctx, q, className, uniqueName, syms);
    forall k | 0 <= k < |syms|
      ensures r[k] == rs[k]
    {
      assert (syms + [x])[k] == syms[k];
    }
    assert (syms + [x])[|syms|] == x;
  }

  lemma {:induction false} RegistrationsConcat(t: Table, ctx: ScopeId, q: string, className: string, uniqueName: string,
                            a: seq<ExternSymbol>, b: seq<ExternSymbol>)
    requires Valid(t) && ctx < |t.scopes|
    ensures Registrations(t, ctx, q, className, uniqueName, a + b)
         == Registrations(t, ctx, q, className, uniqueName, a)
          + Registrations(t, ctx, q, className, uniqueName, b)
    decreases |b|
  {
    if b == [] {
      assert a + b == a;
    } else {
      var b', x := b[..|b| - 1], b[|b| - 1];
      assert b == b' + [x];
      assert a + b == (a + b') + [x];
      RegistrationsConcat(t, ctx, q, className, uniqueName, a, b');
      RegistrationsSnoc(t, ctx, q, className, uniqueName, a + b', x);
      RegistrationsSnoc(t, ctx, q, className, uniqueName, b', x);
    }
  }

  /** The registrations of symbols other than methods, whose native function
      is named by the unique name and the suffix. */
  function PlainRegistrations(q: string, className: string, uniqueName: string,
                              syms: seq<ExternSymbol>): (r: seq<Registration>)
    ensures |r| == |syms|
  {
    seq(|syms|, k requires 0 <= k < |syms| =>
      Registration(q + "::" + ExternName(className, syms[k]), uniqueName + "_" + SymbolSuffix(syms[k])))
  }

  lemma PlainRegistrationsSnoc(q: string, className: string, uniqueName: string,
                               syms: seq<ExternSymbol>, s: ExternSymbol)
    ensures PlainRegistrations(q, className, uniqueName, syms + [s])
         == PlainRegistrations(q, className, uniqueName, syms)
          + [Registration(q + "::" + ExternName(className, s), uniqueName + "_" + SymbolSuffix(s))]
  {
  }

  lemma PlainRegistrationsConcat(q: string, className: string, uniqueName: string,
                                 a: seq<ExternSymbol>, b: seq<ExternSymbol>)
    ensures PlainRegistrations(q, className, uniqueName, a + b)
         == PlainRegistrations(q, className, uniqueName, a) + PlainRegistrations(q, className, uniqueName, b)
  {
  }

  /** The constructor registrations of writeCppWrap_CppClass. */
  method RegisterConstructors(d: Decl, q: string, uniqueName: string) returns (regs: seq<Registration>)
    ensures regs == PlainRegistrations(q, d.name, uniqueName, ConstructorSymbols(|d.constructors|, HasAbstractMethod(d)))
  {
    regs := [];
    var constructorCount := 0;
    for i := 0 to |d.constructors|
      invariant constructorCount == i
      invariant regs == PlainRegistrations(q, d.name, uniqueName, ConstructorSymbols(i, HasAbstractMethod(d)))
    {
      ghost var syms := ConstructorSymbols(i, HasAbstractMethod(d));
      var isAbstract := IsAbstract(d);
      if !isAbstract {
        var suffix := "ConstructorDefault" + NatToString(constructorCount);
        PlainRegistrationsSnoc(q, d.name, uniqueName, syms, ConstructorDefault(constructorCount));
        regs := regs + [Registration(q + "::" + (d.name + "_" + suffix), uniqueName + "_" + suffix)];
        syms := syms + [ConstructorDefault(constructorCount)];
      }
      var suffix := "ConstructorWrapper" + NatToString(constructorCount);
      PlainRegistrationsSnoc(q, d.name, uniqueName, syms, ConstructorWrapper(constructorCount));
      regs := regs + [Registration(q + "::" + (d.name + "_" + suffix), uniqueName + "_" + suffix)];
      syms := syms + [ConstructorWrapper(constructorCount)];
      assert syms == ConstructorSymbols(i + 1, HasAbstractMethod(d));
      constructorCount := constructorCount + 1;
    }
  }

  /** The method registrations of writeCppWrap_CppClass. */
  method RegisterMethods(t: Table, ctx: ScopeId, d: Decl, q: string, uniqueName: string)
    returns (regs: seq<Registration>)
    requires Valid(t) && ctx < |t.scopes|
    ensures regs == Registrations(t, ctx, q, d.name, uniqueName, MethodSymbols(d.methods))
  {
    regs := [];
    ghost var all := MethodSymbols(d.methods);
    for i := 0 to |d.methods|
      invariant regs == Registrations(t, ctx, q, d.name, uniqueName, all[..i])
    {
      var wrapMethod := d.methods[i];
      var key := ExternMethodName(d, wrapMethod);
      var target := WriteMethodCast(t, ctx, uniqueName, wrapMethod);
      RegistrationsSnoc(t, ctx, q, d.name, uniqueName, all[..i], all[i]);
      assert all[..i + 1] == all[..i] + [all[i]];
      regs := regs + [Registration(q + "::" + key, target)];
    }
    assert all[..|d.methods|] == all;
  }

  /** The registrations for one variable: its getter, then its setter, each
      only when it has a body. */
  method RegisterVariable(className: string, v: Variable, q: string, uniqueName: string)
    returns (regs: seq<Registration>)
    ensures regs == PlainRegistrations(q, className, uniqueName, VariableSymbols(v))
  {
    regs := [];
    ghost var syms: seq<ExternSymbol> := [];
    if v.getBody != "" {
      var suffix := v.name + "_Get";
      PlainRegistrationsSnoc(q, className, uniqueName, syms, Getter(v.name));
      regs := regs + [Registration(q + "::" + (className + "_" + suffix), uniqueName + "_" + suffix)];
      syms := syms + [Getter(v.name)];
    }
    if v.setBody != "" {
      var suffix := v.name + "_Set";
      PlainRegistrationsSnoc(q, className, uniqueName, syms, Setter(v.name));
      regs := regs + [Registration(q + "::" + (className + "_" + suffix), uniqueName + "_" + suffix)];
      syms := syms + [Setter(v.name)];
    }
    assert syms == VariableSymbols(v);
  }

  /** The accessor registrations of writeCppWrap_CppClass. */
  method RegisterVariables(d: Decl, q: string, uniqueName: string) returns (regs: seq<Registration>)
    ensures regs == PlainRegistrations(q, d.name, uniqueName, AccessorSymbols(d.variables))
  {
    regs := [];
    for i := 0 to |d.variables|
      invariant regs == PlainRegistrations(q, d.name, uniqueName, AccessorSymbols(d.variables[..i]))
    {
      var more := RegisterVariable(d.name, d.variables[i], q, uniqueName);
      assert d.variables[..i + 1][..i] == d.variables[..i];
      PlainRegistrationsConcat(q, d.name, uniqueName, AccessorSymbols(d.variables[..i]), VariableSymbols(d.variables[i]));
      assert AccessorSymbols(d.variables[..i + 1])
          == AccessorSymbols(d.variables[..i]) + VariableSymbols(d.variables[i]);
      regs := regs + more;
    }
    assert d.variables[..|d.variables|] == d.variables;
  }

  /** Registrations of symbols other than methods are the plain ones. */
  lemma RegistrationsWithoutMethods(t: Table, ctx: ScopeId, q: string, className: string, uniqueName: string,
                                    syms: seq<ExternSymbol>)
    requires Valid(t) && ctx < |t.scopes|
    requires forall k :: 0 <= k < |syms| ==> !syms[k].MethodSymbol?
    ensures Registrations(t, ctx, q, className, uniqueName, syms) == PlainRegistrations(q, className, uniqueName, syms)
  {
  }

  /** The constructor section of writeCppWrap_CppClass once
      classHasDeconstructor has answered. */
  method RegisterConstructorSection(d: Decl, hasDeconstructor: bool, q: string, uniqueName: string)
    returns (regs: seq<Registration>)
    requires |d.constructors| > 0
    ensures regs == PlainRegistrations(q, d.name, uniqueName, LifecycleSymbols(d, hasDeconstructor))
  {
    regs := RegisterConstructors(d, q, uniqueName);
    ghost var syms := ConstructorSymbols(|d.constructors|, HasAbstractMethod(d));
    if hasDeconstructor {
      PlainRegistrationsSnoc(q, d.name, uniqueName, syms, Deconstructor);
      regs := regs + [Registration(q + "::" + (d.name + "_" + "DeconstructorDefault"), uniqueName + "_" + "DeconstructorDefault")];
    } else {
      assert LifecycleSymbols(d, hasDeconstructor) == syms + [];
    }
  }

  /** The constructor section of writeCppWrap_CppClass. */
  method RegisterLifecycle(t: Table, c: TypeId, q: string, uniqueName: string) returns (regs: seq<Registration>)
    requires Wrappable(t, c)
    ensures regs == PlainRegistrations(q, t.decls[c].name, uniqueName, LifecycleSymbols(t.decls[c], Deconstructible(t, c)))
  {
    var d := t.decls[c];
    regs := [];
    if |d.constructors| > 0 {
      var hasDeconstructor := ClassHasDeconstructor(t, d.context, c);
      assert hasDeconstructor == Deconstructible(t, c);
      regs := RegisterConstructorSection(d, hasDeconstructor, q, uniqueName);
    } else {
      assert LifecycleSymbols(d, Deconstructible(t, c)) == [];
    }
  }

  /** What writeCppWrap_CppClass registers for class c: one registration per
      extern of the class, in the same order, keyed by the class qualifier of
      its context. */
  ghost function NativeRegistrations(t: Table, c: TypeId): seq<Registration>
    requires Wrappable(t, c) && t.decls[c].context > 0
  {
    var d := t.decls[c];
    Registrations(t, d.context, ClassQualifier(t, d.context), d.name, UniqueName(t, d), BoundSymbols(t, c))
  }

  /** writeCppWrap_CppClass: the class qualifier, then the registrations of
      the constructors (when it has any), the deconstructor, the methods and
      the accessors. */
  method RegisterClass(t: Table, c: TypeId) returns (regs: seq<Registration>)
    requires Wrappable(t, c) && t.decls[c].context > 0
    ensures regs == NativeRegistrations(t, c)
  {
    var d := t.decls[c];
    var classQualifier := BuildClassQualifier(t, d.context);
    var uniqueName := BuildQualifiedName(t, d, "_", true);
    var lifecycle := RegisterLifecycle(t, c, classQualifier, uniqueName);
    var methods := RegisterMethods(t, d.context, d, classQualifier, uniqueName);
    var accessors := RegisterVariables(d, classQualifier, uniqueName);
    regs := lifecycle + methods + accessors;
    ghost var h := Deconstructible(t, c);
    forall k | 0 <= k < |LifecycleSymbols(d, h)|
      ensures !LifecycleSymbols(d, h)[k].MethodSymbol?
    {
      LifecycleSymbolsSpec(d, h);
      assert LifecycleSymbols(d, h)[k] in LifecycleSymbols(d, h);
    }
    RegistrationsWithoutMethods(t, d.context, classQualifier, d.name, uniqueName, LifecycleSymbols(d, h));
    forall k | 0 <= k < |AccessorSymbols(d.variables)|
      ensures !AccessorSymbols(d.variables)[k].MethodSymbol?
    {
      AccessorSymbolsFromFields(d.variables);
      assert AccessorSymbols(d.variables)[k] in AccessorSymbols(d.variables);
    }
    RegistrationsWithoutMethods(t, d.context, classQualifier, d.name, uniqueName, AccessorSymbols(d.variables));
    RegistrationsConcat(t, d.context, classQualifier, d.name, uniqueName, LifecycleSymbols(d, h), MethodSymbols(d.methods));
    RegistrationsConcat(t, d.context, classQualifier, d.name, uniqueName,
      LifecycleSymbols(d, h) + MethodSymbols(d.methods), AccessorSymbols(d.variables));
  }

  /** The two halves agree: the k-th registration binds, under the class
      qualifier, exactly the k-th extern the managed class declares, and no
      two registrations share a key when the class's methods are distinct
      and its variables have distinct names. */
  lemma RegistrationsBindExterns(t: Table, c: TypeId)
    requires Wrappable(t, c) && t.decls[c].context > 0
    requires DistinctMethods(t.decls[c].methods) && DistinctFields(t.decls[c].variables)
    ensures var regs := NativeRegistrations(t, c);
      var names := ExternNames(t.decls[c].name, BoundSymbols(t, c));
      |regs| == |names|
      && (forall k :: 0 <= k < |regs| ==> regs[k].key == ClassQualifier(t, t.decls[c].context) + "::" + names[k])
      && (forall i, j :: 0 <= i < j < |regs| ==> regs[i].key != regs[j].key)
  {
    var d := t.decls[c];
    var regs := NativeRegistrations(t, c);
    var names := ExternNames(d.name, BoundSymbols(t, c));
    var prefix := ClassQualifier(t, d.context) + "::";
    ManagedExternsDistinct(t, c);
    forall i, j | 0 <= i < j < |regs|
      ensures regs[i].key != regs[j].key
    {
      assert names[i] != names[j];
      SuffixAfterPrefix(prefix, names[i]);
      SuffixAfterPrefix(prefix, names[j]);
    }
  }

  /** The kind of the managed declaration (writeCppWrap_CSharpClass): a
      struct when the class has no constructors or is constructed
      explicitly, and no class with its unique name takes part in
      inheritance; otherwise a class. */
  method ManagedDeclarationKind(g: Generator, k: nat) returns (classType: string)
    requires GenValid(g) && k < |g.classes|
    ensures var c := g.classes[k];
      FirstWithUniqueName(g, ClassUniqueName(g, c), 0).Some?
      && (classType == "struct" <==>
           (|g.table.decls[c].constructors| == 0 || g.table.decls[c].explicitConstruction)
           && !IsPolymorphic(g, ClassUniqueName(g, c)))
    ensures classType == "struct" || classType == "class"
  {
    var c := g.classes[k];
    assert IsClass(g.table, c);
    var d := g.table.decls[c];
    assert DeclOk(g.table, c);
    var uniqueName := BuildQualifiedName(g.table, d, "_", true);
    classType := "class";
    if |d.constructors| == 0 || d.explicitConstruction {
      var polymorphic := FindIfPolymorphic(g, uniqueName);
      if !polymorphic {
        classType := "struct";
      }
    }
  }
}
