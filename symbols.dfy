// The declaration model of the binding generator: the scope tree (WrapContext),
// the declarations (WrapType and its subclasses WrapClass, WrapStruct, WrapEnum),
// methods, arguments, variables, and the queries that read only a class's own
// lists. Objects that the source links by reference live in an arena: a scope
// is an index into `scopes`, a declaration an index into `decls`, and the index
// is the object's identity. The null string is represented by "".

module Symbols {
  import opened Text

  type ScopeId = nat
  type TypeId = nat

  datatype Option<T> = None | Some(value: T)

  /** WrapClass.InterfaceType: which side implements the class. */
  datatype Interface = CppToCSharp | CSharpToCpp

  /** The run-time class of a declaration object. */
  datatype Kind = PlainKind | ClassKind | StructKind | EnumKind

  /** WrapMethodArg. */
  datatype MethodArg = MethodArg(
    typeName: string, name: string, defaultValue: string,
    moveIn: bool, moveOut: bool, cppRef: bool)

  /** A fresh WrapMethodArg: an "in" argument passed by value. */
  function NewArg(typeName: string, name: string): MethodArg
  {
    MethodArg(typeName, name, "", true, false, false)
  }

  /** WrapMethod. `id` is the identity of the object: two methods are the same
      object exactly when they are equal. */
  datatype Method = Method(
    id: nat, name: string, returnType: string, args: seq<MethodArg>,
    isStatic: bool, isVirtual: bool, isAbstract: bool, isConst: bool, isUnsafe: bool)

  /** A fresh WrapMethod with the given identity. */
  function NewMethod(id: nat): Method
  {
    Method(id, "", "", [], false, false, false, false, false)
  }

  /** WrapVariable: a field exposed through a getter and a setter body. */
  datatype Variable = Variable(typeName: string, name: string, getBody: string, setBody: string)

  const DefaultGetBody := "$result = $obj->$varname;"
  const DefaultSetBody := "$obj->$varname = $input;"

  function NewVariable(): Variable
  {
    Variable("", "", DefaultGetBody, DefaultSetBody)
  }

  /** WrapEnumVar. */
  datatype EnumVar = EnumVar(name: string, value: string)

  /** A declaration object. The base fields are those of WrapType; the rest
      belong to the subclass named by `kind` and keep their initial values in
      the other kinds. */
  datatype Decl = Decl(
    kind: Kind,
    name: string,
    parentContext: Option<ScopeId>,
    cppName: string, cppType: string, cppInclude: string,
    cppInPass: string, cppOutPass: string, cppInConvert: string, cppOutConvert: string,
    cppOutConvertCleanup: string,
    csName: string, csType: string, csInPass: string, csOutPass: string,
    csInConvert: string, csOutConvert: string,
    textBlocks: seq<string>,
    // WrapClass
    interfaceType: Interface, parentClass: string, classType: string,
    constructors: seq<Method>, methods: seq<Method>,
    cppConstruct: string, cppDeconstruct: string, cppWrapperConstruct: string,
    explicitConstruction: bool, explicitDeconstruction: bool, cppCanBePassed: bool,
    // WrapClass and WrapStruct
    variables: seq<Variable>, context: ScopeId,
    // WrapEnum
    enumType: string, vars: seq<EnumVar>)

  /** A freshly allocated declaration of the given kind. */
  function NewDecl(kind: Kind, name: string): Decl
  {
    Decl(kind, name, None,
         "", "", "", "", "", "", "", "",
         "", "", "", "", "", "",
         [],
         CppToCSharp, "", "", [], [], "", "", "", false, false, true,
         [], 0,
         "", [])
  }

  /** WrapContext. */
  datatype Scope = Scope(
    name: string, parent: Option<ScopeId>,
    children: map<string, ScopeId>, types: map<string, TypeId>,
    sourceType: Option<TypeId>)

  /** All scopes and declarations; scope 0 is the generator's default context. */
  datatype Table = Table(scopes: seq<Scope>, decls: seq<Decl>)

  /** A table holding only the default context. */
  function EmptyTable(): Table
  {
    Table([Scope("", None, map[], map[], None)], [])
  }

  // ---------------------------------------------------------------------
  // Well-formedness of the arena: a tree rooted at scope 0, in which every
  // scope is filed under its own name in its parent's `children`, and every
  // declaration under its own name in its parent context's `types`.

  ghost predicate ScopeOk(t: Table, i: nat)
    requires i < |t.scopes|
  {
    var s := t.scopes[i];
    (i == 0 ==> s.parent.None? && s.name == "")
    && (i > 0 ==> s.parent.Some? && s.parent.value < i && s.name != ""
                  && s.name in t.scopes[s.parent.value].children
                  && t.scopes[s.parent.value].children[s.name] == i)
    && (forall n :: n in s.children ==>
          i < s.children[n] < |t.scopes| && t.scopes[s.children[n]].name == n
          && t.scopes[s.children[n]].parent == Some(i))
    && (forall n :: n in s.types ==>
          s.types[n] < |t.decls| && t.decls[s.types[n]].name == n
          && t.decls[s.types[n]].parentContext == Some(i))
    && (s.sourceType.Some? ==> s.sourceType.value < |t.decls|)
  }

  ghost predicate DeclOk(t: Table, d: nat)
    requires d < |t.decls|
  {
    var decl := t.decls[d];
    (decl.parentContext.Some? ==> decl.parentContext.value < |t.scopes|)
    && decl.context < |t.scopes|
  }

  ghost predicate Valid(t: Table)
  {
    |t.scopes| > 0
    && (forall i :: 0 <= i < |t.scopes| ==> ScopeOk(t, i))
    && (forall d :: 0 <= d < |t.decls| ==> DeclOk(t, d))
  }

  lemma EmptyTableValid()
    ensures Valid(EmptyTable())
  {
  }

  // ---------------------------------------------------------------------
  // WrapContext.findContext and WrapContext.findType

  /** WrapContext.findContext: the child scope of that name, if any. */
  function FindContext(t: Table, ctx: ScopeId, name: string): (r: Option<ScopeId>)
    requires Valid(t) && ctx < |t.scopes|
    ensures r.Some? <==> name in t.scopes[ctx].children
    ensures r.Some? ==> r.value < |t.scopes| && t.scopes[r.value].name == name
                        && t.scopes[r.value].parent == Some(ctx)
  {
    assert ScopeOk(t, ctx);
    if name in t.scopes[ctx].children then
      var c := t.scopes[ctx].children[name];
      assert ScopeOk(t, c);
      Some(c)
    else None
  }

  /** WrapContext.findType(names, index): every segment but the last names a
      child scope, the last one a type; a miss at the first segment retries the
      whole name from the parent scope. */
  function FindTypeAt(t: Table, ctx: ScopeId, names: seq<string>, index: nat): (r: Option<TypeId>)
    requires Valid(t) && ctx < |t.scopes| && index < |names|
    ensures r.Some? ==> r.value < |t.decls| && t.decls[r.value].name == names[|names| - 1]
    decreases |names| - index, ctx
  {
    var s := t.scopes[ctx];
    assert ScopeOk(t, ctx);
    if index == |names| - 1 && names[index] in s.types then
      Some(s.types[names[index]])
    else if index < |names| - 1 && names[index] in s.children then
      FindTypeAt(t, s.children[names[index]], names, index + 1)
    else if index == 0 && s.parent.Some? then
      FindTypeAt(t, s.parent.value, names, 0)
    else None
  }

  /** WrapContext.findType(string). */
  function FindType(t: Table, ctx: ScopeId, name: string): (r: Option<TypeId>)
    requires Valid(t) && ctx < |t.scopes|
    ensures r.Some? ==> r.value < |t.decls|
  {
    FindTypeAt(t, ctx, SplitQualified(name), 0)
  }

  /** The reference reading of a lookup without fallback: descend the child
      scopes named by segments index..|names|-2, then look the last segment up
      among that scope's types. */
  function Descend(t: Table, ctx: ScopeId, names: seq<string>, index: nat): Option<TypeId>
    requires Valid(t) && ctx < |t.scopes| && index < |names|
    decreases |names| - index
  {
    var s := t.scopes[ctx];
    assert ScopeOk(t, ctx);
    if index == |names| - 1 then
      (if names[index] in s.types then Some(s.types[names[index]]) else None)
    else if names[index] in s.children then
      Descend(t, s.children[names[index]], names, index + 1)
    else None
  }

  /** `a` is `c` or one of the scopes enclosing it. */
  ghost predicate AncestorOrSelf(t: Table, a: ScopeId, c: ScopeId)
    requires Valid(t) && c < |t.scopes|
    decreases c
  {
    assert ScopeOk(t, c);
    a == c || (t.scopes[c].parent.Some? && AncestorOrSelf(t, a, t.scopes[c].parent.value))
  }

  /** The innermost enclosing scope (starting with ctx itself) in which the
      first segment of the name is found: as a type when it is the only segment,
      as a child scope otherwise. */
  function Anchor(t: Table, ctx: ScopeId, names: seq<string>): (r: Option<ScopeId>)
    requires Valid(t) && ctx < |t.scopes| && |names| > 0
    ensures r.Some? ==> r.value < |t.scopes| && AncestorOrSelf(t, r.value, ctx)
    decreases ctx
  {
    var s := t.scopes[ctx];
    assert ScopeOk(t, ctx);
    if (|names| == 1 && names[0] in s.types) || (|names| > 1 && names[0] in s.children) then Some(ctx)
    else if s.parent.Some? then Anchor(t, s.parent.value, names)
    else None
  }

  /** Below the first segment there is no fallback: the lookup is a plain
      descent, so a miss inside a child scope is final. */
  lemma {:induction false} FindTypeInner(t: Table, ctx: ScopeId, names: seq<string>, index: nat)
    requires Valid(t) && ctx < |t.scopes| && 0 < index < |names|
    ensures FindTypeAt(t, ctx, names, index) == Descend(t, ctx, names, index)
    decreases |names| - index
  {
    var s := t.scopes[ctx];
    assert ScopeOk(t, ctx);
    if index < |names| - 1 && names[index] in s.children {
      FindTypeInner(t, s.children[names[index]], names, index + 1);
    }
  }

  /** The whole lookup: find the anchor scope of the first segment by walking
      outwards, then descend from it; the anchor's result is final even when
      it is a miss, and a name anchored nowhere is not found. */
  lemma {:induction false} FindTypeAnchored(t: Table, ctx: ScopeId, names: seq<string>)
    requires Valid(t) && ctx < |t.scopes| && |names| > 0
    ensures FindTypeAt(t, ctx, names, 0) ==
      match Anchor(t, ctx, names)
      case Some(a) => Descend(t, a, names, 0)
      case None => None
    decreases ctx
  {
    var s := t.scopes[ctx];
    assert ScopeOk(t, ctx);
    if |names| > 1 && names[0] in s.children {
      FindTypeInner(t, s.children[names[0]], names, 1);
    } else if !(|names| == 1 && names[0] in s.types) && s.parent.Some? {
      FindTypeAnchored(t, s.parent.value, names);
    }
  }

  // ---------------------------------------------------------------------
  // Qualifier lists: WrapContext.buildQualifiers, buildNamespaces,
  // buildContextList.

  /** The non-empty scope names from the root down to ctx. */
  function Qualifiers(t: Table, ctx: ScopeId): seq<string>
    requires Valid(t) && ctx < |t.scopes|
    decreases ctx
  {
    var s := t.scopes[ctx];
    assert ScopeOk(t, ctx);
    var outer := if s.parent.Some? then Qualifiers(t, s.parent.value) else [];
    if s.name != "" then outer + [s.name] else outer
  }

  /** The same, keeping only scopes that are not the body of a declaration. */
  function Namespaces(t: Table, ctx: ScopeId): seq<string>
    requires Valid(t) && ctx < |t.scopes|
    decreases ctx
  {
    var s := t.scopes[ctx];
    assert ScopeOk(t, ctx);
    var outer := if s.parent.Some? then Namespaces(t, s.parent.value) else [];
    if s.sourceType.None? && s.name != "" then outer + [s.name] else outer
  }

  /** Every scope from the root down to ctx, both included. */
  function ContextList(t: Table, ctx: ScopeId): (r: seq<ScopeId>)
    requires Valid(t) && ctx < |t.scopes|
    ensures |r| >= 1 && r[0] == 0 && r[|r| - 1] == ctx
    ensures forall k :: 0 <= k < |r| ==> r[k] < |t.scopes|
    ensures forall k :: 0 < k < |r| ==> t.scopes[r[k]].parent == Some(r[k - 1])
    decreases ctx
  {
    var s := t.scopes[ctx];
    assert ScopeOk(t, ctx);
    if s.parent.Some? then ContextList(t, s.parent.value) + [ctx]
    else [ctx]
  }

  /** The qualifier list seen on an optional scope (a null scope has none). */
  function QualifiersOf(t: Table, ctx: Option<ScopeId>): seq<string>
    requires Valid(t) && (ctx.Some? ==> ctx.value < |t.scopes|)
  {
    if ctx.Some? then Qualifiers(t, ctx.value) else []
  }

  function NamespacesOf(t: Table, ctx: Option<ScopeId>): seq<string>
    requires Valid(t) && (ctx.Some? ==> ctx.value < |t.scopes|)
  {
    if ctx.Some? then Namespaces(t, ctx.value) else []
  }

  function ContextListOf(t: Table, ctx: Option<ScopeId>): seq<ScopeId>
    requires Valid(t) && (ctx.Some? ==> ctx.value < |t.scopes|)
  {
    if ctx.Some? then ContextList(t, ctx.value) else []
  }

  /** WrapContext.buildQualifiers: walks to the root, inserting at the front. */
  method BuildQualifiers(t: Table, ctx: ScopeId) returns (list: seq<string>)
    requires Valid(t) && ctx < |t.scopes|
    ensures list == Qualifiers(t, ctx)
  {
    list := [];
    var context: Option<ScopeId> := Some(ctx);
    while context.Some?
      invariant context.Some? ==> context.value < |t.scopes|
      invariant QualifiersOf(t, context) + list == Qualifiers(t, ctx)
      decreases if context.Some? then context.value + 1 else 0
    {
      var s := t.scopes[context.value];
      assert ScopeOk(t, context.value);
      if s.name != "" {
        list := [s.name] + list;
      }
      context := s.parent;
    }
  }

  /** WrapContext.buildNamespaces. */
  method BuildNamespaces(t: Table, ctx: ScopeId) returns (list: seq<string>)
    requires Valid(t) && ctx < |t.scopes|
    ensures list == Namespaces(t, ctx)
  {
    list := [];
    var context: Option<ScopeId> := Some(ctx);
    while context.Some?
      invariant context.Some? ==> context.value < |t.scopes|
      invariant NamespacesOf(t, context) + list == Namespaces(t, ctx)
      decreases if context.Some? then context.value + 1 else 0
    {
      var s := t.scopes[context.value];
      assert ScopeOk(t, context.value);
      if s.sourceType.None? && s.name != "" {
        list := [s.name] + list;
      }
      context := s.parent;
    }
  }

  /** WrapContext.buildContextList: the path from the root to ctx. */
  method BuildContextList(t: Table, ctx: ScopeId) returns (list: seq<ScopeId>)
    requires Valid(t) && ctx < |t.scopes|
    ensures list == ContextList(t, ctx)
    ensures list[0] == 0 && list[|list| - 1] == ctx
  {
    list := [];
    var context: Option<ScopeId> := Some(ctx);
    while context.Some?
      invariant context.Some? ==> context.value < |t.scopes|
      invariant ContextListOf(t, context) + list == ContextList(t, ctx)
      decreases if context.Some? then context.value + 1 else 0
    {
      assert ScopeOk(t, context.value);
      list := [context.value] + list;
      context := t.scopes[context.value].parent;
    }
  }

  /** The names of the given scopes that are not empty, in order. */
  function NamedScopes(t: Table, cs: seq<ScopeId>): seq<string>
    requires forall k :: 0 <= k < |cs| ==> cs[k] < |t.scopes|
  {
    if cs == [] then []
    else
      var last := t.scopes[cs[|cs| - 1]].name;
      NamedScopes(t, cs[..|cs| - 1]) + (if last != "" then [last] else [])
  }

  /** The qualifiers are exactly the non-empty names on the path from the root:
      the two builders agree. */
  lemma {:induction false} QualifiersFollowContextList(t: Table, ctx: ScopeId)
    requires Valid(t) && ctx < |t.scopes|
    ensures Qualifiers(t, ctx) == NamedScopes(t, ContextList(t, ctx))
    decreases ctx
  {
    assert ScopeOk(t, ctx);
    var s := t.scopes[ctx];
    if s.parent.Some? {
      QualifiersFollowContextList(t, s.parent.value);
      var cl := ContextList(t, ctx);
      assert cl[..|cl| - 1] == ContextList(t, s.parent.value);
    }
  }

  /** `a` can be obtained from `b` by deleting elements. */
  predicate Subsequence(a: seq<string>, b: seq<string>)
    decreases |b|
  {
    a == [] || (b != [] &&
      ((a[|a| - 1] == b[|b| - 1] && Subsequence(a[..|a| - 1], b[..|b| - 1]))
       || Subsequence(a, b[..|b| - 1])))
  }

  /** The namespaces are the qualifiers with the declaration scopes left out. */
  lemma {:induction false} NamespacesWithinQualifiers(t: Table, ctx: ScopeId)
    requires Valid(t) && ctx < |t.scopes|
    ensures Subsequence(Namespaces(t, ctx), Qualifiers(t, ctx))
    decreases ctx
  {
    assert ScopeOk(t, ctx);
    var s := t.scopes[ctx];
    var nsOuter := if s.parent.Some? then Namespaces(t, s.parent.value) else [];
    var qOuter := if s.parent.Some? then Qualifiers(t, s.parent.value) else [];
    if s.parent.Some? {
      NamespacesWithinQualifiers(t, s.parent.value);
    }
    assert Subsequence(nsOuter, qOuter);
    if s.name != "" {
      var q := qOuter + [s.name];
      assert q[..|q| - 1] == qOuter;
      if s.sourceType.None? {
        var ns := nsOuter + [s.name];
        assert ns[..|ns| - 1] == nsOuter;
      }
    }
  }

  /** Inside namespaces only, the two lists coincide. */
  lemma {:induction false} NamespacesEqualQualifiers(t: Table, ctx: ScopeId)
    requires Valid(t) && ctx < |t.scopes|
    requires forall k :: 0 <= k < |ContextList(t, ctx)| ==>
               t.scopes[ContextList(t, ctx)[k]].sourceType.None?
    ensures Namespaces(t, ctx) == Qualifiers(t, ctx)
    decreases ctx
  {
    assert ScopeOk(t, ctx);
    var s := t.scopes[ctx];
    var cl := ContextList(t, ctx);
    assert s.sourceType.None? by { assert cl[|cl| - 1] == ctx; }
    if s.parent.Some? {
      var pl := ContextList(t, s.parent.value);
      assert forall k :: 0 <= k < |pl| ==> pl[k] == cl[k];
      NamespacesEqualQualifiers(t, s.parent.value);
    }
  }

  // ---------------------------------------------------------------------
  // WrapType.buildQualifiedName, uniqueName, buildNamespaceString

  /** Each part followed by the delimiter. */
  function Terminated(parts: seq<string>, delim: string): string
    decreases |parts|
  {
    if parts == [] then "" else parts[0] + delim + Terminated(parts[1..], delim)
  }

  lemma {:induction false} TerminatedSnoc(parts: seq<string>, x: string, delim: string)
    ensures Terminated(parts + [x], delim) == Terminated(parts, delim) + x + delim
    decreases |parts|
  {
    if parts != [] {
      assert (parts + [x])[1..] == parts[1..] + [x];
      TerminatedSnoc(parts[1..], x, delim);
    }
  }

  lemma {:induction false} JoinIsTerminated(parts: seq<string>, x: string, delim: string)
    ensures Join(parts + [x], delim) == Terminated(parts, delim) + x
    decreases |parts|
  {
    if parts != [] {
      assert (parts + [x])[1..] == parts[1..] + [x];
      JoinIsTerminated(parts[1..], x, delim);
    }
  }

  /** What buildQualifiedName(delimiter, includeSelf) denotes: the qualifiers of
      the enclosing scope joined by the delimiter, then (when includeSelf) the
      delimiter and the type's own name; a type without a parent context is
      just its name. */
  function QualifiedName(t: Table, d: Decl, delim: string, includeSelf: bool): string
    requires Valid(t) && (d.parentContext.Some? ==> d.parentContext.value < |t.scopes|)
  {
    if d.parentContext.None? then d.name
    else
      var q := Qualifiers(t, d.parentContext.value);
      if includeSelf then Join(q + [d.name], delim) else Join(q, delim)
  }

  /** WrapType.uniqueName: the "_"-joined key that names the type in both
      generated languages. */
  function UniqueName(t: Table, d: Decl): string
    requires Valid(t) && (d.parentContext.Some? ==> d.parentContext.value < |t.scopes|)
  {
    QualifiedName(t, d, "_", true)
  }

  /** WrapType.buildQualifiedName: the loop that appends each qualifier and a
      delimiter after every one but the last (or after every one when the name
      itself follows). */
  method BuildQualifiedName(t: Table, d: Decl, delim: string, includeSelf: bool) returns (result: string)
    requires Valid(t) && (d.parentContext.Some? ==> d.parentContext.value < |t.scopes|)
    ensures result == QualifiedName(t, d, delim, includeSelf)
  {
    if d.parentContext.None? {
      return d.name;
    }
    result := "";
    var namespaces := BuildQualifiers(t, d.parentContext.value);
    var size := |namespaces|;
    for i := 0 to size
      invariant i == 0 ==> result == ""
      invariant i < size || includeSelf ==> result == Terminated(namespaces[..i], delim)
      invariant i == size && !includeSelf && size > 0 ==>
        result == Terminated(namespaces[..size - 1], delim) + namespaces[size - 1]
    {
      TerminatedSnoc(namespaces[..i], namespaces[i], delim);
      assert namespaces[..i + 1] == namespaces[..i] + [namespaces[i]];
      result := result + namespaces[i];
      if i < size - 1 || includeSelf {
        result := result + delim;
      }
    }
    if includeSelf {
      assert namespaces[..size] == namespaces;
      JoinIsTerminated(namespaces, d.name, delim);
      result := result + d.name;
    } else if size > 0 {
      JoinIsTerminated(namespaces[..size - 1], namespaces[size - 1], delim);
      assert namespaces[..size - 1] + [namespaces[size - 1]] == namespaces;
    }
  }

  /** WrapType.buildNamespaceString: the namespace list of the parent context
      joined by the delimiter (the source dereferences the parent context, so a
      type without one is outside its domain). */
  method BuildNamespaceString(t: Table, d: Decl, delim: string) returns (result: string)
    requires Valid(t) && d.parentContext.Some? && d.parentContext.value < |t.scopes|
    ensures result == Join(Namespaces(t, d.parentContext.value), delim)
  {
    result := "";
    var namespaces := BuildNamespaces(t, d.parentContext.value);
    var size := |namespaces|;
    for i := 0 to size
      invariant i == 0 ==> result == ""
      invariant i < size ==> result == Terminated(namespaces[..i], delim)
      invariant i == size && size > 0 ==>
        result == Terminated(namespaces[..size - 1], delim) + namespaces[size - 1]
    {
      TerminatedSnoc(namespaces[..i], namespaces[i], delim);
      assert namespaces[..i + 1] == namespaces[..i] + [namespaces[i]];
      result := result + namespaces[i];
      if i < size - 1 {
        result := result + delim;
      }
    }
    if size > 0 {
      JoinIsTerminated(namespaces[..size - 1], namespaces[size - 1], delim);
      assert namespaces[..size - 1] + [namespaces[size - 1]] == namespaces;
    }
  }

  /** Descending from the root along the qualifiers of a scope reaches that
      scope. */
  lemma {:induction false} DescendAlongQualifiers(t: Table, ctx: ScopeId, rest: seq<string>)
    requires Valid(t) && ctx < |t.scopes| && |rest| >= 1
    ensures Descend(t, 0, Qualifiers(t, ctx) + rest, 0)
         == Descend(t, ctx, Qualifiers(t, ctx) + rest, |Qualifiers(t, ctx)|)
    decreases ctx
  {
    assert ScopeOk(t, ctx);
    var s := t.scopes[ctx];
    if ctx > 0 {
      var p := s.parent.value;
      var qp := Qualifiers(t, p);
      assert Qualifiers(t, ctx) == qp + [s.name];
      assert Qualifiers(t, ctx) + rest == qp + ([s.name] + rest);
      DescendAlongQualifiers(t, p, [s.name] + rest);
      assert ScopeOk(t, p);
    } else {
      assert Qualifiers(t, 0) == [];
    }
  }

  /** The "."-qualified name of a declaration filed in its scope resolves back
      to that declaration from the default context, provided no name on the way
      holds a separator character. */
  lemma QualifiedNameResolves(t: Table, id: TypeId)
    requires Valid(t) && id < |t.decls|
    requires t.decls[id].parentContext.Some?
    requires var p := t.decls[id].parentContext.value;
      p < |t.scopes| && t.decls[id].name in t.scopes[p].types
      && t.scopes[p].types[t.decls[id].name] == id
    requires Simple(t.decls[id].name)
    requires var q := Qualifiers(t, t.decls[id].parentContext.value);
      forall k :: 0 <= k < |q| ==> Simple(q[k])
    ensures FindType(t, 0, QualifiedName(t, t.decls[id], ".", true)) == Some(id)
  {
    var d := t.decls[id];
    var p := d.parentContext.value;
    var q := Qualifiers(t, p);
    var names := q + [d.name];
    forall k | 0 <= k < |names|
      ensures Simple(names[k])
    {
      if k < |q| { assert names[k] == q[k]; }
    }
    SplitJoin(names);
    FindTypeAnchored(t, 0, names);
    DescendAlongQualifiers(t, p, [d.name]);
    assert ScopeOk(t, 0);
    assert ScopeOk(t, p);
    if |names| > 1 {
      assert names[0] in t.scopes[0].children by {
        ChildOfRootFirst(t, p);
      }
    }
  }

  /** The first qualifier of a scope other than the root names a child of the
      root. */
  lemma {:induction false} ChildOfRootFirst(t: Table, ctx: ScopeId)
    requires Valid(t) && ctx < |t.scopes| && |Qualifiers(t, ctx)| > 0
    ensures Qualifiers(t, ctx)[0] in t.scopes[0].children
    decreases ctx
  {
    assert ScopeOk(t, ctx);
    var s := t.scopes[ctx];
    var p := s.parent.value;
    assert ScopeOk(t, p);
    if |Qualifiers(t, p)| > 0 {
      ChildOfRootFirst(t, p);
    }
  }

  // ---------------------------------------------------------------------
  // Clone semantics and the boxed accessors

  /** The WrapType fields a clone copies. */
  predicate SameBaseFields(a: Decl, b: Decl)
  {
    a.name == b.name && a.parentContext == b.parentContext
    && a.cppName == b.cppName && a.cppType == b.cppType && a.cppInclude == b.cppInclude
    && a.cppInPass == b.cppInPass && a.cppOutPass == b.cppOutPass
    && a.cppInConvert == b.cppInConvert && a.cppOutConvert == b.cppOutConvert
    && a.cppOutConvertCleanup == b.cppOutConvertCleanup
    && a.csName == b.csName && a.csType == b.csType
    && a.csInPass == b.csInPass && a.csOutPass == b.csOutPass
    && a.csInConvert == b.csInConvert && a.csOutConvert == b.csOutConvert
    && a.textBlocks == b.textBlocks
  }

  /** WrapType.clone: a new plain WrapType (whatever the subclass of the
      original) with every WrapType field copied and its own block list. */
  function CloneType(d: Decl): (r: Decl)
    ensures r.kind == PlainKind && SameBaseFields(r, d)
  {
    var copy := NewDecl(PlainKind, d.name);
    copy.(parentContext := d.parentContext,
           cppName := d.cppName, cppType := d.cppType, cppInclude := d.cppInclude,
           cppInPass := d.cppInPass, cppOutPass := d.cppOutPass,
           cppInConvert := d.cppInConvert, cppOutConvert := d.cppOutConvert,
           cppOutConvertCleanup := d.cppOutConvertCleanup,
           csName := d.csName, csType := d.csType,
           csInPass := d.csInPass, csOutPass := d.csOutPass,
           csInConvert := d.csInConvert, csOutConvert := d.csOutConvert,
           textBlocks := d.textBlocks)
  }

  /** WrapMethod.Clone: a new method object (fresh identity) with the same
      name, return type, flags and arguments in a list of its own. */
  function CloneMethod(m: Method, freshId: nat): (r: Method)
    requires freshId != m.id
    ensures r != m && r.id == freshId
    ensures r.name == m.name && r.returnType == m.returnType && r.args == m.args
    ensures r.isStatic == m.isStatic && r.isVirtual == m.isVirtual && r.isAbstract == m.isAbstract
    ensures r.isConst == m.isConst && r.isUnsafe == m.isUnsafe
  {
    m.(id := freshId)
  }

  /** WrapType.cppInPassBoxed and its three siblings: a struct crosses a thunk
      boxed as a MonoObject; every other type uses its own slot. */
  function CppInPassBoxed(d: Decl): string
  {
    if d.kind == StructKind then "MonoObject*" else d.cppInPass
  }

  function CppOutPassBoxed(d: Decl): string
  {
    if d.kind == StructKind then "MonoObject*" else d.cppOutPass
  }

  function CppInConvertBoxed(d: Decl): string
  {
    if d.kind == StructKind then "$result = *($langtype*)mono_object_unbox($input);"
    else d.cppInConvert
  }

  function CppOutConvertBoxed(d: Decl): string
  {
    if d.kind == StructKind
    then "$result = mono_value_box(CppCSharpBridge::domain, CppCSharpBridge::class_$uniquename, &$input);"
    else d.cppOutConvert
  }

  /** Boxing depends on the object's class, not its fields: a struct boxes, and
      its clone, being a plain WrapType, passes its fields through unboxed. */
  lemma CloneOfStructIsUnboxed(d: Decl)
    requires d.kind == StructKind
    ensures CppInPassBoxed(d) == "MonoObject*" && CppOutPassBoxed(d) == "MonoObject*"
    ensures CppInPassBoxed(CloneType(d)) == d.cppInPass
    ensures CppOutPassBoxed(CloneType(d)) == d.cppOutPass
    ensures CppInConvertBoxed(CloneType(d)) == d.cppInConvert
    ensures CppOutConvertBoxed(CloneType(d)) == d.cppOutConvert
  {
  }

  // ---------------------------------------------------------------------
  // Queries over a class's own method list

  /** Position of the first method of the given name. */
  function FirstNamed(ms: seq<Method>, name: string): (r: Option<nat>)
    ensures r.Some? ==> r.value < |ms| && ms[r.value].name == name
    ensures r.Some? ==> forall k :: 0 <= k < r.value ==> ms[k].name != name
    ensures r.None? ==> forall k :: 0 <= k < |ms| ==> ms[k].name != name
  {
    if ms == [] then None
    else if ms[0].name == name then Some(0)
    else match FirstNamed(ms[1..], name)
      case Some(k) => Some(k + 1)
      case None => None
  }

  /** WrapClass.findMethod. */
  method FindMethod(ms: seq<Method>, name: string) returns (r: Option<Method>)
    ensures r.Some? <==> exists k :: 0 <= k < |ms| && ms[k].name == name
    ensures r.Some? ==> r.value == ms[FirstNamed(ms, name).value]
  {
    var i := 0;
    while i < |ms|
      invariant 0 <= i <= |ms|
      invariant forall k :: 0 <= k < i ==> ms[k].name != name
    {
      if ms[i].name == name {
        return Some(ms[i]);
      }
      i := i + 1;
    }
    return None;
  }

  /** The number of same-named methods before the first occurrence of m, or 0
      when m is not in the list. */
  function UniqueIndex(ms: seq<Method>, m: Method): nat
  {
    if ms == [] || ms[0] == m then 0
    else if m !in ms[1..] then 0
    else (if ms[0].name == m.name then 1 else 0) + UniqueIndex(ms[1..], m)
  }

  /** Same-named methods before position n. */
  function CountNamedBefore(ms: seq<Method>, name: string, n: nat): nat
    requires n <= |ms|
  {
    if n == 0 then 0
    else CountNamedBefore(ms, name, n - 1) + (if ms[n - 1].name == name then 1 else 0)
  }

  /** WrapClass.getMethodUniqueIndex: the overload discriminator. */
  method GetMethodUniqueIndex(ms: seq<Method>, m: Method) returns (index: nat)
    ensures m in ms ==> (exists k :: 0 <= k < |ms| && ms[k] == m && m !in ms[..k]
                                   && index == CountNamedBefore(ms, m.name, k))
    ensures m !in ms ==> index == 0
    ensures index == UniqueIndex(ms, m)
  {
    var iter := 0;
    var i := 0;
    while i < |ms|
      invariant 0 <= i <= |ms|
      invariant m !in ms[..i]
      invariant iter == CountNamedBefore(ms, m.name, i)
    {
      if ms[i] == m {
        UniqueIndexCounts(ms, i);
        return iter;
      }
      assert ms[..i + 1] == ms[..i] + [ms[i]];
      if ms[i].name == m.name {
        iter := iter + 1;
      }
      i := i + 1;
    }
    assert ms[..i] == ms;
    return 0;
  }

  /** The two readings of the discriminator agree. */
  lemma {:induction false} UniqueIndexCounts(ms: seq<Method>, k: nat)
    requires k < |ms| && ms[k] !in ms[..k]
    ensures UniqueIndex(ms, ms[k]) == CountNamedBefore(ms, ms[k].name, k)
    decreases k
  {
    if k > 0 {
      assert ms[0] != ms[k] by { assert ms[0] == ms[..k][0]; }
      var tail := ms[1..];
      assert tail[k - 1] == ms[k];
      assert tail[..k - 1] == ms[1..k];
      assert tail[..k - 1] == ms[..k][1..];
      assert ms[k] in tail;
      UniqueIndexCounts(tail, k - 1);
      CountShift(ms, ms[k].name, k);
    }
  }

  /** Counting over the tail shifts positions by one. */
  lemma {:induction false} CountShift(ms: seq<Method>, name: string, n: nat)
    requires 0 < n <= |ms|
    ensures CountNamedBefore(ms, name, n)
         == (if ms[0].name == name then 1 else 0) + CountNamedBefore(ms[1..], name, n - 1)
    decreases n
  {
    if n > 1 {
      CountShift(ms, name, n - 1);
    }
  }

  /** Counting is monotone in the position. */
  lemma {:induction false} CountMonotone(ms: seq<Method>, name: string, a: nat, b: nat)
    requires a <= b <= |ms|
    ensures CountNamedBefore(ms, name, a) <= CountNamedBefore(ms, name, b)
    decreases b - a
  {
    if a < b {
      CountMonotone(ms, name, a, b - 1);
    }
  }

  /** Overloads get distinct discriminators: of two distinct methods of one
      name in a list without repeated objects, the later one has the larger
      index. */
  lemma OverloadIndicesIncrease(ms: seq<Method>, i: nat, j: nat)
    requires i < j < |ms| && ms[i].name == ms[j].name
    requires forall a, b :: 0 <= a < b < |ms| ==> ms[a] != ms[b]
    ensures UniqueIndex(ms, ms[i]) < UniqueIndex(ms, ms[j])
  {
    assert ms[i] !in ms[..i];
    assert ms[j] !in ms[..j];
    UniqueIndexCounts(ms, i);
    UniqueIndexCounts(ms, j);
    CountMonotone(ms, ms[i].name, i + 1, j);
  }

  /** Three overloads named Update are numbered 0, 1 and 2. */
  lemma ThreeUpdates(a: Method, b: Method, c: Method)
    requires a.name == "Update" && b.name == "Update" && c.name == "Update"
    requires a != b && b != c && a != c
    ensures UniqueIndex([a, b, c], a) == 0
    ensures UniqueIndex([a, b, c], b) == 1
    ensures UniqueIndex([a, b, c], c) == 2
  {
    assert [a, b, c][1..] == [b, c];
    assert [b, c][1..] == [c];
    assert b in [b, c] && c in [b, c] && c in [c];
    assert UniqueIndex([c], c) == 0;
    assert UniqueIndex([b, c], c) == 1;
  }

  /** WrapClass.isAbstract: some own method is abstract. */
  method IsAbstract(d: Decl) returns (r: bool)
    ensures r <==> exists k :: 0 <= k < |d.methods| && d.methods[k].isAbstract
  {
    var i := 0;
    while i < |d.methods|
      invariant 0 <= i <= |d.methods|
      invariant forall k :: 0 <= k < i ==> !d.methods[k].isAbstract
    {
      if d.methods[i].isAbstract {
        return true;
      }
      i := i + 1;
    }
    return false;
  }

  /** The specification of isAbstract, for use in other specifications. */
  predicate HasAbstractMethod(d: Decl)
  {
    exists k :: 0 <= k < |d.methods| && d.methods[k].isAbstract
  }

  predicate HasVirtualMethod(d: Decl)
  {
    exists k :: 0 <= k < |d.methods| && d.methods[k].isVirtual
  }
}
