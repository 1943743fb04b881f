// The generator's lookups (WrapperGenerator.findType, findClass,
// findIfParentClass, findIfPolymorphic, classHasDeconstructor) and the class
// queries that walk the inheritance chain through them (WrapClass.isFinalMethod,
// isMethodOverride, hasVirtualMethods), plus the argument renderers of
// WrapMethod. The generator's ambient `currentContext` is the parameter `ctx`.

module Resolve {
  import opened Text
  import opened Symbols

  /** WrapperGenerator's state: the scope tree with its declarations, the
      declaration lists in source order, and the global options. */
  datatype Generator = Generator(
    table: Table,
    classes: seq<TypeId>, enums: seq<TypeId>, structs: seq<TypeId>,
    cppOutputPath: string, csharpOutputPath: string,
    cppIncreaseRef: string, cppDecreaseRef: string)

  /** A new generator: an empty default context and the default options. */
  function NewGenerator(): (g: Generator)
    ensures Valid(g.table) && g.classes == [] && g.enums == [] && g.structs == []
  {
    EmptyTableValid();
    Generator(EmptyTable(), [], [], [], "./Cpp/", "./CSharp/",
              "$result->increaseRef();", "$result->decreaseRef();")
  }

  /** The lists refer to declarations of the right kind; every class sits in
      a context. */
  ghost predicate GenValid(g: Generator)
  {
    Valid(g.table)
    && (forall k :: 0 <= k < |g.classes| ==> IsClass(g.table, g.classes[k]))
    && (forall k :: 0 <= k < |g.enums| ==>
          g.enums[k] < |g.table.decls| && g.table.decls[g.enums[k]].kind == EnumKind)
    && (forall k :: 0 <= k < |g.structs| ==>
          g.structs[k] < |g.table.decls| && g.table.decls[g.structs[k]].kind == StructKind)
  }

  ghost predicate IsClass(t: Table, c: TypeId)
  {
    c < |t.decls| && t.decls[c].kind == ClassKind && t.decls[c].parentContext.Some?
  }

  // ---------------------------------------------------------------------
  // WrapperGenerator.findType

  /** The sentry object findType makes for a name it cannot resolve. */
  function Passthrough(name: string): Decl
  {
    NewDecl(PlainKind, name).(
      cppType := name, cppInPass := name, cppOutPass := name,
      csType := name, csInPass := name, csOutPass := name,
      cppName := name, csName := name)
  }

  /** The lookup without modifier: the declared object, or a passthrough. */
  function ResolvePlain(t: Table, ctx: ScopeId, name: string): Decl
    requires Valid(t) && ctx < |t.scopes|
  {
    match FindType(t, ctx, name)
    case Some(id) => t.decls[id]
    case None => Passthrough(name)
  }

  /** WrapperGenerator.findType: a leading '*' or '&' is stripped, the rest is
      resolved and copied, and the copy gets that modifier's conversions. */
  function ResolveType(t: Table, ctx: ScopeId, name: string): Decl
    requires Valid(t) && ctx < |t.scopes|
  {
    if IndexOfAny(name, ['*', '&'], 0) == 0 then
      var rest := name[1..];
      var base := match FindType(t, ctx, rest)
                  case Some(id) => CloneType(t.decls[id])
                  case None => Passthrough(rest);
      if name[0] == '*' then
        base.(cppOutConvert := "$result = *$input;", cppInConvert := "*$result = $input;")
      else
        base.(cppOutConvert := "$result = &$input;", cppInConvert := "$result = *$input;")
    else ResolvePlain(t, ctx, name)
  }

  /** Without a modifier a declared type is returned as it is stored, and an
      unknown name gets a plain passthrough whose name-like fields all equal
      the name. */
  lemma ResolveWithoutModifier(t: Table, ctx: ScopeId, name: string)
    requires Valid(t) && ctx < |t.scopes|
    requires name == [] || (name[0] != '*' && name[0] != '&')
    ensures FindType(t, ctx, name).Some? ==>
              ResolveType(t, ctx, name) == t.decls[FindType(t, ctx, name).value]
    ensures FindType(t, ctx, name).None? ==>
              var r := ResolveType(t, ctx, name);
              r.kind == PlainKind && r.name == name && r.cppType == name
              && r.cppInPass == name && r.cppOutPass == name
              && r.csType == name && r.csInPass == name && r.csOutPass == name
              && r.cppName == name && r.csName == name
              && r.cppInConvert == "" && r.cppOutConvert == ""
  {
    if name != [] {
      assert name[0] !in ['*', '&'];
    }
  }

  /** The WrapType fields other than the two C++ conversions agree. */
  predicate SameExceptCppConverts(a: Decl, b: Decl)
  {
    SameBaseFields(a.(cppInConvert := b.cppInConvert, cppOutConvert := b.cppOutConvert), b)
  }

  /** With a modifier the result is a fresh plain copy of what the bare name
      resolves to, differing only in the modifier's conversions; the stored
      declaration is untouched (the table is a value). */
  lemma ResolveWithModifier(t: Table, ctx: ScopeId, rest: string, m: char)
    requires Valid(t) && ctx < |t.scopes| && (m == '*' || m == '&')
    ensures var r := ResolveType(t, ctx, [m] + rest);
      r.kind == PlainKind
      && SameExceptCppConverts(r, ResolvePlain(t, ctx, rest))
      && (m == '*' ==> r.cppOutConvert == "$result = *$input;" && r.cppInConvert == "*$result = $input;")
      && (m == '&' ==> r.cppOutConvert == "$result = &$input;" && r.cppInConvert == "$result = *$input;")
  {
    assert ([m] + rest)[1..] == rest;
  }

  // ---------------------------------------------------------------------
  // findClass and the inheritance chain

  /** WrapperGenerator.findClass(name[, context]): the type the name resolves
      to from ctx, when it is a class; an empty name finds nothing. */
  function FindClass(t: Table, ctx: ScopeId, name: string): (r: Option<TypeId>)
    requires Valid(t) && ctx < |t.scopes|
    ensures r.Some? <==> name != "" && FindType(t, ctx, name).Some?
                         && t.decls[FindType(t, ctx, name).value].kind == ClassKind
    ensures r.Some? ==> r == FindType(t, ctx, name)
  {
    if name == "" then None
    else match FindType(t, ctx, name)
      case Some(id) => if t.decls[id].kind == ClassKind then Some(id) else None
      case None => None
  }

  /** The parent class of c as the generator resolves it from ctx. */
  function ParentOf(t: Table, ctx: ScopeId, c: TypeId): (r: Option<TypeId>)
    requires Valid(t) && ctx < |t.scopes| && c < |t.decls|
    ensures r.Some? ==> r.value < |t.decls|
  {
    FindClass(t, ctx, t.decls[c].parentClass)
  }

  /** Following parents from c reaches a class without (resolvable) parent
      within `fuel` steps: the walk terminates. */
  ghost predicate ChainEnds(t: Table, ctx: ScopeId, c: TypeId, fuel: nat)
    requires Valid(t) && ctx < |t.scopes| && c < |t.decls|
    decreases fuel
  {
    ParentOf(t, ctx, c).None?
    || (fuel > 0 && ChainEnds(t, ctx, ParentOf(t, ctx, c).value, fuel - 1))
  }

  /** The strict ancestors of c, nearest first. */
  function Ancestors(t: Table, ctx: ScopeId, c: TypeId, fuel: nat): (r: seq<TypeId>)
    requires Valid(t) && ctx < |t.scopes| && c < |t.decls| && ChainEnds(t, ctx, c, fuel)
    ensures forall k :: 0 <= k < |r| ==> r[k] < |t.decls|
    ensures r != [] ==> Some(r[0]) == ParentOf(t, ctx, c)
    ensures forall k :: 0 < k < |r| ==> Some(r[k]) == ParentOf(t, ctx, r[k - 1])
    ensures r == [] <==> ParentOf(t, ctx, c).None?
    ensures r != [] ==> ParentOf(t, ctx, r[|r| - 1]).None?
    decreases fuel
  {
    match ParentOf(t, ctx, c)
    case None => []
    case Some(p) => [p] + Ancestors(t, ctx, p, fuel - 1)
  }

  /** c followed by its ancestors. */
  function Lineage(t: Table, ctx: ScopeId, c: TypeId, fuel: nat): seq<TypeId>
    requires Valid(t) && ctx < |t.scopes| && c < |t.decls| && ChainEnds(t, ctx, c, fuel)
  {
    [c] + Ancestors(t, ctx, c, fuel)
  }

  /** Position of the first method named `name` in the class, if any. */
  function Declares(t: Table, c: TypeId, name: string): Option<nat>
    requires c < |t.decls|
  {
    FirstNamed(t.decls[c].methods, name)
  }

  /** WrapClass.isFinalMethod: at the nearest class of the chain that has a
      method of m's name, whether its first such method is m. */
  function IsFinalMethod(t: Table, ctx: ScopeId, c: TypeId, m: Method, fuel: nat): bool
    requires Valid(t) && ctx < |t.scopes| && c < |t.decls| && ChainEnds(t, ctx, c, fuel)
    decreases fuel
  {
    match Declares(t, c, m.name)
    case Some(j) => t.decls[c].methods[j] == m
    case None =>
      match ParentOf(t, ctx, c)
      case Some(p) => IsFinalMethod(t, ctx, p, m, fuel - 1)
      case None => false
  }

  /** WrapClass.isMethodOverride: going up the chain, some class has a first
      method of m's name that is not m. */
  function IsMethodOverride(t: Table, ctx: ScopeId, c: TypeId, m: Method, fuel: nat): bool
    requires Valid(t) && ctx < |t.scopes| && c < |t.decls| && ChainEnds(t, ctx, c, fuel)
    decreases fuel
  {
    var j := Declares(t, c, m.name);
    if j.Some? && t.decls[c].methods[j.value] != m then true
    else
      match ParentOf(t, ctx, c)
      case Some(p) => IsMethodOverride(t, ctx, p, m, fuel - 1)
      case None => false
  }

  /** hasVirtualMethods stops at the first class with a virtual method; before
      that every non-empty parent name must resolve (the source dereferences
      the lookup's result). */
  ghost predicate VirtualWalkDefined(t: Table, ctx: ScopeId, c: TypeId, fuel: nat)
    requires Valid(t) && ctx < |t.scopes| && c < |t.decls|
    decreases fuel
  {
    HasVirtualMethod(t.decls[c]) || t.decls[c].parentClass == ""
    || (ParentOf(t, ctx, c).Some? && fuel > 0
        && VirtualWalkDefined(t, ctx, ParentOf(t, ctx, c).value, fuel - 1))
  }

  /** WrapClass.hasVirtualMethods. */
  function HasVirtualMethods(t: Table, ctx: ScopeId, c: TypeId, fuel: nat): bool
    requires Valid(t) && ctx < |t.scopes| && c < |t.decls| && VirtualWalkDefined(t, ctx, c, fuel)
    decreases fuel
  {
    if HasVirtualMethod(t.decls[c]) then true
    else if t.decls[c].parentClass != "" then
      HasVirtualMethods(t, ctx, ParentOf(t, ctx, c).value, fuel - 1)
    else false
  }

  /** The position in l of the first class that has a method named `name`. */
  function FirstDeclaring(t: Table, l: seq<TypeId>, name: string): (r: Option<nat>)
    requires forall k :: 0 <= k < |l| ==> l[k] < |t.decls|
    ensures r.Some? ==> r.value < |l| && Declares(t, l[r.value], name).Some?
    ensures r.Some? ==> forall k :: 0 <= k < r.value ==> Declares(t, l[k], name).None?
    ensures r.None? ==> forall k :: 0 <= k < |l| ==> Declares(t, l[k], name).None?
  {
    if l == [] then None
    else if Declares(t, l[0], name).Some? then Some(0)
    else match FirstDeclaring(t, l[1..], name)
      case Some(k) => Some(k + 1)
      case None => None
  }

  /** isFinalMethod, stated over the lineage: at the first class of the
      lineage that has a method of m's name, that class's first such method is
      m; false when no class of the lineage has one. */
  lemma {:induction false} IsFinalMethodSpec(t: Table, ctx: ScopeId, c: TypeId, m: Method, fuel: nat)
    requires Valid(t) && ctx < |t.scopes| && c < |t.decls| && ChainEnds(t, ctx, c, fuel)
    ensures var l := Lineage(t, ctx, c, fuel);
      IsFinalMethod(t, ctx, c, m, fuel) <==>
        match FirstDeclaring(t, l, m.name)
        case Some(k) => t.decls[l[k]].methods[Declares(t, l[k], m.name).value] == m
        case None => false
    decreases fuel
  {
    var l := Lineage(t, ctx, c, fuel);
    assert l[0] == c;
    if Declares(t, c, m.name).None? {
      match ParentOf(t, ctx, c)
      case Some(p) =>
        IsFinalMethodSpec(t, ctx, p, m, fuel - 1);
        assert l[1..] == Lineage(t, ctx, p, fuel - 1);
      case None =>
        assert l == [c];
    }
  }

  /** isMethodOverride, stated over the lineage. */
  lemma {:induction false} IsMethodOverrideSpec(t: Table, ctx: ScopeId, c: TypeId, m: Method, fuel: nat)
    requires Valid(t) && ctx < |t.scopes| && c < |t.decls| && ChainEnds(t, ctx, c, fuel)
    ensures var l := Lineage(t, ctx, c, fuel);
      IsMethodOverride(t, ctx, c, m, fuel) <==>
        exists k :: 0 <= k < |l| && Declares(t, l[k], m.name).Some?
          && t.decls[l[k]].methods[Declares(t, l[k], m.name).value] != m
    decreases fuel
  {
    var l := Lineage(t, ctx, c, fuel);
    assert l[0] == c;
    match ParentOf(t, ctx, c)
    case Some(p) =>
      IsMethodOverrideSpec(t, ctx, p, m, fuel - 1);
      var lp := Lineage(t, ctx, p, fuel - 1);
      assert l == [c] + lp;
      if exists k :: 0 <= k < |lp| && Declares(t, lp[k], m.name).Some?
          && t.decls[lp[k]].methods[Declares(t, lp[k], m.name).value] != m {
        var k :| 0 <= k < |lp| && Declares(t, lp[k], m.name).Some?
          && t.decls[lp[k]].methods[Declares(t, lp[k], m.name).value] != m;
        assert l[k + 1] == lp[k];
      }
      forall k | 0 < k < |l| ensures l[k] == lp[k - 1] { }
    case None =>
      assert l == [c];
  }

  /** For a method the class itself declares: it is final iff it is the first
      of its name in the class, and it is an override iff it is not that first
      one or an ancestor declares a method of its name. A method is always
      final or an override. */
  lemma OwnMethodFinalOrOverride(t: Table, ctx: ScopeId, c: TypeId, m: Method, fuel: nat)
    requires Valid(t) && ctx < |t.scopes| && c < |t.decls| && ChainEnds(t, ctx, c, fuel)
    requires m in t.decls[c].methods
    ensures IsFinalMethod(t, ctx, c, m, fuel) <==>
              t.decls[c].methods[FirstNamed(t.decls[c].methods, m.name).value] == m
    ensures IsFinalMethod(t, ctx, c, m, fuel) || IsMethodOverride(t, ctx, c, m, fuel)
  {
    var j :| 0 <= j < |t.decls[c].methods| && t.decls[c].methods[j] == m;
    assert Declares(t, c, m.name).Some?;
  }

  /** hasVirtualMethods, stated over the lineage: some class of the lineage
      has a virtual method. */
  lemma {:induction false} HasVirtualMethodsSpec(t: Table, ctx: ScopeId, c: TypeId, fuel: nat)
    requires Valid(t) && ctx < |t.scopes| && c < |t.decls| && ChainEnds(t, ctx, c, fuel)
    requires var l := Lineage(t, ctx, c, fuel); t.decls[l[|l| - 1]].parentClass == ""
    ensures VirtualWalkDefined(t, ctx, c, fuel)
    ensures var l := Lineage(t, ctx, c, fuel);
      HasVirtualMethods(t, ctx, c, fuel) <==> exists k :: 0 <= k < |l| && HasVirtualMethod(t.decls[l[k]])
    decreases fuel
  {
    var l := Lineage(t, ctx, c, fuel);
    assert l[0] == c;
    match ParentOf(t, ctx, c)
    case Some(p) =>
      var lp := Lineage(t, ctx, p, fuel - 1);
      assert l == [c] + lp;
      assert lp[|lp| - 1] == l[|l| - 1];
      HasVirtualMethodsSpec(t, ctx, p, fuel - 1);
      forall k | 0 < k < |l| ensures l[k] == lp[k - 1] { }
      if exists k :: 0 <= k < |lp| && HasVirtualMethod(t.decls[lp[k]]) {
        var k :| 0 <= k < |lp| && HasVirtualMethod(t.decls[lp[k]]);
        assert l[k + 1] == lp[k];
      }
    case None =>
      assert l == [c];
  }

  /** None of the declarations ids has a constructor. */
  predicate WithoutConstructors(t: Table, ids: seq<TypeId>)
  {
    forall k :: 0 <= k < |ids| ==> ids[k] < |t.decls| && |t.decls[ids[k]].constructors| == 0
  }

  /** WrapperGenerator.classHasDeconstructor: walks the parents of c from ctx
      and answers false at the first one that has constructors. */
  method ClassHasDeconstructor(t: Table, ctx: ScopeId, c: TypeId) returns (isValid: bool)
    requires Valid(t) && ctx < |t.scopes| && c < |t.decls| && ChainEnds(t, ctx, c, |t.decls|)
    ensures isValid <==> WithoutConstructors(t, Ancestors(t, ctx, c, |t.decls|))
  {
    ghost var all := Ancestors(t, ctx, c, |t.decls|);
    ghost var seen := 0;
    isValid := true;
    var parentClass := FindClass(t, ctx, t.decls[c].parentClass);
    while parentClass.Some?
      invariant 0 <= seen <= |all|
      invariant parentClass == if seen < |all| then Some(all[seen]) else None
      invariant forall k :: 0 <= k < seen ==> |t.decls[all[k]].constructors| == 0
      decreases |all| - seen
    {
      if |t.decls[parentClass.value].constructors| > 0 {
        isValid := false;
        break;
      }
      parentClass := FindClass(t, ctx, t.decls[parentClass.value].parentClass);
      seen := seen + 1;
    }
  }

  // ---------------------------------------------------------------------
  // findIfParentClass and findIfPolymorphic

  /** WrapperGenerator.findIfParentClass: some class names `name` as its
      parent. */
  method FindIfParentClass(g: Generator, name: string) returns (r: bool)
    requires GenValid(g)
    ensures r <==> exists k :: 0 <= k < |g.classes| && g.table.decls[g.classes[k]].parentClass == name
  {
    for i := 0 to |g.classes|
      invariant forall k :: 0 <= k < i ==> g.table.decls[g.classes[k]].parentClass != name
    {
      if g.table.decls[g.classes[i]].parentClass == name {
        return true;
      }
    }
    return false;
  }

  /** The unique name of a class of the generator. */
  function ClassUniqueName(g: Generator, c: TypeId): string
    requires Valid(g.table) && c < |g.table.decls|
  {
    var d := g.table.decls[c];
    assert DeclOk(g.table, c);
    UniqueName(g.table, d)
  }

  /** The position of the first class in `classes` with that unique name. */
  function FirstWithUniqueName(g: Generator, u: string, from: nat): (r: Option<nat>)
    requires GenValid(g) && from <= |g.classes|
    ensures r.Some? ==> from <= r.value < |g.classes|
                        && ClassUniqueName(g, g.classes[r.value]) == u
    ensures r.Some? ==> forall k :: from <= k < r.value ==> ClassUniqueName(g, g.classes[k]) != u
    ensures r.None? ==> forall k :: from <= k < |g.classes| ==> ClassUniqueName(g, g.classes[k]) != u
    decreases |g.classes| - from
  {
    if from == |g.classes| then None
    else if ClassUniqueName(g, g.classes[from]) == u then Some(from)
    else FirstWithUniqueName(g, u, from + 1)
  }

  /** Class k names a parent that resolves, from its own parent context, to a
      class with unique name u. */
  ghost predicate ParentHasUniqueName(g: Generator, k: nat, u: string)
    requires GenValid(g) && k < |g.classes|
  {
    var c := g.classes[k];
    var d := g.table.decls[c];
    assert DeclOk(g.table, c);
    d.parentClass != ""
    && var p := FindClass(g.table, d.parentContext.value, d.parentClass);
       p.Some? && ClassUniqueName(g, p.value) == u
  }

  /** What findIfPolymorphic decides about the unique name u: the first class
      bearing it has a parent, or it is the parent of some class. */
  ghost predicate IsPolymorphic(g: Generator, u: string)
    requires GenValid(g) && FirstWithUniqueName(g, u, 0).Some?
  {
    g.table.decls[g.classes[FirstWithUniqueName(g, u, 0).value]].parentClass != ""
    || exists k :: 0 <= k < |g.classes| && ParentHasUniqueName(g, k, u)
  }

  /** WrapperGenerator.findIfPolymorphic (the source dereferences null when no
      class has the unique name, which the precondition excludes). */
  method FindIfPolymorphic(g: Generator, u: string) returns (r: bool)
    requires GenValid(g) && FirstWithUniqueName(g, u, 0).Some?
    ensures r == IsPolymorphic(g, u)
  {
    var found: Option<TypeId> := None;
    var i := 0;
    while i < |g.classes|
      invariant 0 <= i <= |g.classes|
      invariant FirstWithUniqueName(g, u, 0) == FirstWithUniqueName(g, u, i)
      invariant found.None?
    {
      assert DeclOk(g.table, g.classes[i]);
      var name := BuildQualifiedName(g.table, g.table.decls[g.classes[i]], "_", true);
      if name == u {
        found := Some(g.classes[i]);
        break;
      }
      i := i + 1;
    }
    if i == |g.classes| {
      assert false;
    }
    if g.table.decls[found.value].parentClass != "" {
      return true;
    }
    for j := 0 to |g.classes|
      invariant forall k :: 0 <= k < j ==> !ParentHasUniqueName(g, k, u)
    {
      var d := g.table.decls[g.classes[j]];
      assert DeclOk(g.table, g.classes[j]);
      if d.parentClass != "" {
        var parentClass := FindClass(g.table, d.parentContext.value, d.parentClass);
        if parentClass.Some? {
          assert DeclOk(g.table, parentClass.value);
          var name := BuildQualifiedName(g.table, g.table.decls[parentClass.value], "_", true);
          if name == u {
            assert ParentHasUniqueName(g, j, u);
            return true;
          }
        }
      }
    }
    return false;
  }

  // ---------------------------------------------------------------------
  // WrapMethod.getCppArgDef and getCppArgCall

  /** One parameter of a native definition: the resolved C++ type and the
      argument's name. */
  function ArgDefEntry(ty: Decl, a: MethodArg): string
  {
    ty.cppType + " " + a.name
  }

  /** One argument of a native call: `*` dereferences a struct that is not an
      out argument and a C++ reference; a converted argument is passed as its
      local `arg{i}` (by address when it is an out argument), any other one by
      its own name. */
  function ArgCallEntry(ty: Decl, a: MethodArg, i: nat): string
  {
    var deref := if (ty.kind == StructKind && !a.moveOut) || a.cppRef then "*" else "";
    if ty.cppInConvert == "" then deref + a.name
    else if a.moveOut then deref + "&" + "arg" + NatToString(i)
    else deref + "arg" + NatToString(i)
  }

  function ArgDefs(t: Table, ctx: ScopeId, args: seq<MethodArg>): (r: seq<string>)
    requires Valid(t) && ctx < |t.scopes|
    ensures |r| == |args|
  {
    seq(|args|, i requires 0 <= i < |args| => ArgDefEntry(ResolveType(t, ctx, args[i].typeName), args[i]))
  }

  function ArgCalls(t: Table, ctx: ScopeId, args: seq<MethodArg>): (r: seq<string>)
    requires Valid(t) && ctx < |t.scopes|
    ensures |r| == |args|
  {
    seq(|args|, i requires 0 <= i < |args| => ArgCallEntry(ResolveType(t, ctx, args[i].typeName), args[i], i))
  }

  /** One step of a loop that joins `entries` with ", ". */
  lemma AppendEntry(entries: seq<string>, i: nat, before: string, after: string, e: string)
    requires i < |entries| && entries[i] == e
    requires before == Join(entries[..i], ", ")
    requires after == before + (if i > 0 then ", " else "") + e
    ensures after == Join(entries[..i + 1], ", ")
  {
    JoinSnoc(entries[..i], entries[i], ", ");
    assert entries[..i + 1] == entries[..i] + [entries[i]];
  }

  /** WrapMethod.getCppArgDef. */
  method GetCppArgDef(t: Table, ctx: ScopeId, m: Method) returns (buffer: string)
    requires Valid(t) && ctx < |t.scopes|
    ensures buffer == Join(ArgDefs(t, ctx, m.args), ", ")
  {
    buffer := "";
    var entries := ArgDefs(t, ctx, m.args);
    for i := 0 to |m.args|
      invariant buffer == Join(entries[..i], ", ")
    {
      ghost var before := buffer;
      if i > 0 {
        buffer := buffer + ", ";
      }
      var wrapArg := m.args[i];
      var ty := ResolveType(t, ctx, wrapArg.typeName);
      buffer := buffer + ty.cppType;
      buffer := buffer + " ";
      buffer := buffer + wrapArg.name;
      AppendEntry(entries, i, before, buffer, ArgDefEntry(ty, wrapArg));
    }
    assert entries[..|m.args|] == entries;
  }

  /** WrapMethod.getCppArgCall. */
  method GetCppArgCall(t: Table, ctx: ScopeId, m: Method) returns (buffer: string)
    requires Valid(t) && ctx < |t.scopes|
    ensures buffer == Join(ArgCalls(t, ctx, m.args), ", ")
  {
    buffer := "";
    var entries := ArgCalls(t, ctx, m.args);
    for i := 0 to |m.args|
      invariant buffer == Join(entries[..i], ", ")
    {
      ghost var before := buffer;
      if i > 0 {
        buffer := buffer + ", ";
      }
      var wrapArg := m.args[i];
      var ty := ResolveType(t, ctx, wrapArg.typeName);
      var entry := "";
      if ty.kind == StructKind && !wrapArg.moveOut {
        entry := "*";
      } else if wrapArg.cppRef {
        entry := "*";
      }
      if ty.cppInConvert == "" {
        entry := entry + wrapArg.name;
      } else {
        if wrapArg.moveOut {
          entry := entry + "&";
        }
        entry := entry + "arg";
        entry := entry + NatToString(i);
      }
      buffer := buffer + entry;
      AppendEntry(entries, i, before, buffer, ArgCallEntry(ty, wrapArg, i));
    }
    assert entries[..|m.args|] == entries;
  }

}
