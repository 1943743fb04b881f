// The parameter lists of a wrapped method as the four places that spell them
// out write them: the managed extern declaration and the managed call of it
// (writeCppWrap_CSharpMethod), the native function (writeCppWrap_CppMethod)
// and the cast under which that function is registered
// (writeCppWrap_CppClass). Then the function-pointer type of a managed
// method thunk (writeCsWrap_CppMethodPtr) and the native argument conversion
// (writeCppWrap_MethodArgConvertIn). The generator's ambient
// `currentContext` is the parameter `ctx`.

module Signatures {
  import opened Text
  import opened Symbols
  import opened Resolve
  import opened Emission

  // ---------------------------------------------------------------------
  // Shared pieces

  /** A type findType returns lies in a context of the table, if any. */
  lemma ResolvedContextInRange(t: Table, ctx: ScopeId, name: string)
    requires Valid(t) && ctx < |t.scopes|
    ensures var r := ResolveType(t, ctx, name);
      r.parentContext.Some? ==> r.parentContext.value < |t.scopes|
  {
    var rest := if IndexOfAny(name, ['*', '&'], 0) == 0 then name[1..] else name;
    var found := FindType(t, ctx, rest);
    if found.Some? {
      assert DeclOk(t, found.value);
    }
  }

  /** The resolved type of each argument. */
  function ArgTypes(t: Table, ctx: ScopeId, args: seq<MethodArg>): (r: seq<Decl>)
    requires Valid(t) && ctx < |t.scopes|
    ensures |r| == |args|
    ensures forall i :: 0 <= i < |r| ==>
      r[i].parentContext.Some? ==> r[i].parentContext.value < |t.scopes|
  {
    var r := seq(|args|, i requires 0 <= i < |args| => ResolveType(t, ctx, args[i].typeName));
    assert forall i :: 0 <= i < |r| ==>
      r[i].parentContext.Some? ==> r[i].parentContext.value < |t.scopes| by {
      forall i | 0 <= i < |r| {
        ResolvedContextInRange(t, ctx, args[i].typeName);
      }
    }
    r
  }

  /** The number of parameters a wrapped method has on either side: its
      arguments, the object pointer unless it is static, and the result slot
      unless it returns void. */
  function Arity(m: Method): nat
  {
    |m.args| + (if m.isStatic then 0 else 1) + (if m.returnType != "void" then 1 else 0)
  }

  /** Where the first argument sits in a parameter list. */
  function SelfCount(m: Method): nat
  {
    if m.isStatic then 0 else 1
  }

  /** A parameter list laid out as every writer does: the object slot for an
      instance method, one entry per argument, the result slot for a method
      that returns a value. */
  function Params(m: Method, self: string, entries: seq<string>, result: string): (r: seq<string>)
    ensures |r| == SelfCount(m) + |entries| + (if m.returnType != "void" then 1 else 0)
  {
    (if m.isStatic then [] else [self]) + entries + (if m.returnType != "void" then [result] else [])
  }

  /** An out argument, or an argument of a struct type, crosses by reference. */
  predicate ByReference(ty: Decl, a: MethodArg)
  {
    a.moveOut || ty.kind == StructKind
  }

  /** The managed keyword for an argument that crosses by reference: "ref "
      when it is also passed in, "out " otherwise. */
  function Direction(ty: Decl, a: MethodArg): string
  {
    if ByReference(ty, a) then (if a.moveIn then "ref " else "out ") else ""
  }

  /** The native pointer mark for an argument that crosses by reference. */
  function Star(ty: Decl, a: MethodArg): string
  {
    if ByReference(ty, a) then "*" else ""
  }

  /** One more entry of a ", "-joined list, written with the writers'
      `argCount > 0` spacer. */
  lemma JoinStep(parts: seq<string>, before: string, after: string, e: string)
    requires before == Join(parts, ", ")
    requires after == before + (if |parts| > 0 then ", " else "") + e
    ensures after == Join(parts + [e], ", ")
  {
    JoinSnoc(parts, e, ", ");
  }

  lemma PrefixSnoc<T>(front: seq<T>, s: seq<T>, i: nat)
    requires i < |s|
    ensures front + s[..i + 1] == front + s[..i] + [s[i]]
  {
    assert s[..i + 1] == s[..i] + [s[i]];
  }

  // ---------------------------------------------------------------------
  // The four parameter lists

  function ExternEntry(ty: Decl, a: MethodArg): string
  {
    Direction(ty, a) + ty.csOutPass + " " + a.name
  }

  /** The managed extern declaration's parameters. */
  function ExternParams(m: Method, tys: seq<Decl>, ret: Decl): seq<string>
    requires |tys| == |m.args|
  {
    Params(m, "IntPtr cPtr",
           seq(|m.args|, i requires 0 <= i < |m.args| => ExternEntry(tys[i], m.args[i])),
           "out " + ret.csInPass + " resultOut")
  }

  /** An argument of the managed call: a converted argument is passed as its
      local `arg{i}`, any other by its own name. */
  function CallEntry(ty: Decl, a: MethodArg, i: nat): string
  {
    Direction(ty, a) + (if ty.csOutConvert != "" then "arg" + NatToString(i) else a.name)
  }

  /** The managed call's arguments. */
  function ExternCallArgs(m: Method, tys: seq<Decl>): seq<string>
    requires |tys| == |m.args|
  {
    Params(m, "objCPtr",
           seq(|m.args|, i requires 0 <= i < |m.args| => CallEntry(tys[i], m.args[i], i)),
           "out result")
  }

  function NativeEntry(ty: Decl, a: MethodArg): string
  {
    ty.cppInPass + Star(ty, a) + " " + a.name
  }

  /** The native function's parameters. */
  function NativeParams(m: Method, tys: seq<Decl>, ret: Decl): seq<string>
    requires |tys| == |m.args|
  {
    Params(m, "void* cppObject",
           seq(|m.args|, i requires 0 <= i < |m.args| => NativeEntry(tys[i], m.args[i])),
           ret.cppOutPass + "* resultOut")
  }

  function CastEntry(ty: Decl, a: MethodArg): string
  {
    ty.cppInPass + Star(ty, a)
  }

  /** The parameter types of the registration cast. */
  function CastParams(m: Method, tys: seq<Decl>, ret: Decl): seq<string>
    requires |tys| == |m.args|
  {
    Params(m, "void*",
           seq(|m.args|, i requires 0 <= i < |m.args| => CastEntry(tys[i], m.args[i])),
           ret.cppOutPass + "*")
  }

  /** The parameter names of the native function. */
  function NativeNames(m: Method): seq<string>
  {
    Params(m, "cppObject", seq(|m.args|, i requires 0 <= i < |m.args| => m.args[i].name), "resultOut")
  }

  /** All four lists have one entry per parameter. */
  lemma SignatureArity(m: Method, tys: seq<Decl>, ret: Decl)
    requires |tys| == |m.args|
    ensures |ExternParams(m, tys, ret)| == Arity(m)
    ensures |ExternCallArgs(m, tys)| == Arity(m)
    ensures |NativeParams(m, tys, ret)| == Arity(m)
    ensures |CastParams(m, tys, ret)| == Arity(m)
  {
  }

  /** The cast names exactly the native function's parameter types, so the
      registration picks that function among its overloads. */
  lemma CastMatchesNative(m: Method, tys: seq<Decl>, ret: Decl)
    requires |tys| == |m.args|
    ensures var native := NativeParams(m, tys, ret);
      var cast := CastParams(m, tys, ret);
      var names := NativeNames(m);
      |native| == |cast| == |names|
      && forall k :: 0 <= k < |native| ==> native[k] == cast[k] + " " + names[k]
  {
    var native := NativeParams(m, tys, ret);
    var cast := CastParams(m, tys, ret);
    var names := NativeNames(m);
    var s := SelfCount(m);
    forall k | 0 <= k < |native|
      ensures native[k] == cast[k] + " " + names[k]
    {
      if k < s {
      } else if k < s + |m.args| {
        var i := k - s;
        assert native[k] == NativeEntry(tys[i], m.args[i]);
        assert cast[k] == CastEntry(tys[i], m.args[i]);
        assert names[k] == m.args[i].name;
      } else {
        assert native[k] == ret.cppOutPass + "* resultOut";
        assert cast[k] == ret.cppOutPass + "*";
      }
    }
  }

  /** Argument by argument, the managed declaration and the managed call use
      the same direction keyword, and that keyword is present exactly when the
      native side takes the argument through a pointer; the result slot is an
      out parameter on the managed side and a pointer on the native side. */
  lemma ManagedMatchesNative(m: Method, tys: seq<Decl>, ret: Decl)
    requires |tys| == |m.args|
    ensures var decl := ExternParams(m, tys, ret);
      var call := ExternCallArgs(m, tys);
      var cast := CastParams(m, tys, ret);
      forall i :: 0 <= i < |m.args| ==>
        var k := SelfCount(m) + i;
        var dir := Direction(tys[i], m.args[i]);
        dir <= decl[k] && dir <= call[k]
        && (dir != "" <==> cast[k] == tys[i].cppInPass + "*")
    ensures var decl := ExternParams(m, tys, ret);
      var call := ExternCallArgs(m, tys);
      var cast := CastParams(m, tys, ret);
      var k := Arity(m) - 1;
      m.returnType != "void" ==>
        "out " <= decl[k] && call[k] == "out result" && cast[k][|cast[k]| - 1] == '*'
  {
    forall i | 0 <= i < |m.args|
      ensures var k := SelfCount(m) + i;
        var dir := Direction(tys[i], m.args[i]);
        dir <= ExternParams(m, tys, ret)[k] && dir <= ExternCallArgs(m, tys)[k]
        && (dir != "" <==> CastParams(m, tys, ret)[k] == tys[i].cppInPass + "*")
    {
      ArgumentCrossing(m, tys, ret, i);
    }
  }

  /** One argument of ManagedMatchesNative. */
  lemma ArgumentCrossing(m: Method, tys: seq<Decl>, ret: Decl, i: nat)
    requires |tys| == |m.args| && i < |m.args|
    ensures var k := SelfCount(m) + i;
      var dir := Direction(tys[i], m.args[i]);
      dir <= ExternParams(m, tys, ret)[k] && dir <= ExternCallArgs(m, tys)[k]
      && (dir != "" <==> CastParams(m, tys, ret)[k] == tys[i].cppInPass + "*")
  {
    var k := SelfCount(m) + i;
    var ty := tys[i];
    var a := m.args[i];
    var dir := Direction(ty, a);
    var passed := if ty.csOutConvert != "" then "arg" + NatToString(i) else a.name;
    assert ExternParams(m, tys, ret)[k] == dir + (ty.csOutPass + " " + a.name);
    assert ExternCallArgs(m, tys)[k] == dir + passed;
    assert CastParams(m, tys, ret)[k] == ty.cppInPass + Star(ty, a);
    PrefixOfConcat(dir, ty.csOutPass + " " + a.name);
    PrefixOfConcat(dir, passed);
  }

  lemma PrefixOfConcat(a: string, b: string)
    ensures a <= a + b
  {
    assert (a + b)[..|a|] == a;
  }

  // ---------------------------------------------------------------------
  // The writers. Each resolves the argument types first (findType is a pure
  // lookup, so resolving them up front or one per iteration is the same) and
  // then runs the source's loop with its `argCount` spacer.

  /** The parameter list of the managed extern declaration. */
  method ExternParameterList(m: Method, tys: seq<Decl>, ret: Decl) returns (list: string)
    requires |tys| == |m.args|
    ensures list == Join(ExternParams(m, tys, ret), ", ")
  {
    ghost var entries := seq(|m.args|, i requires 0 <= i < |m.args| => ExternEntry(tys[i], m.args[i]));
    ghost var self: seq<string> := if m.isStatic then [] else ["IntPtr cPtr"];
    list := "";
    var argCount := 0;
    if !m.isStatic {
      list := list + "IntPtr cPtr";
      argCount := argCount + 1;
    }
    for i := 0 to |m.args|
      invariant argCount == |self| + i
      invariant list == Join(self + entries[..i], ", ")
    {
      ghost var before := list;
      if argCount > 0 {
        list := list + ", ";
      }
      argCount := argCount + 1;
      var arg := m.args[i];
      var argType := tys[i];
      var entry := "";
      if arg.moveOut || argType.kind == StructKind {
        if arg.moveIn {
          entry := "ref ";
        } else {
          entry := "out ";
        }
      }
      entry := entry + argType.csOutPass + " " + arg.name;
      list := list + entry;
      JoinStep(self + entries[..i], before, list, entries[i]);
      PrefixSnoc(self, entries, i);
    }
    assert entries[..|m.args|] == entries;
    assert ExternParams(m, tys, ret) == self + entries + (if m.returnType != "void" then ["out " + ret.csInPass + " resultOut"] else []);
    if m.returnType != "void" {
      ghost var before := list;
      if argCount > 0 {
        list := list + ", ";
      }
      var entry := "out " + ret.csInPass + " resultOut";
      list := list + entry;
      JoinStep(self + entries, before, list, entry);
    } else {
      assert self + entries + [] == self + entries;
    }
  }

  /** writeCppWrap_CSharpMethod, the name of the static binding: the class's
      own name, the method's name and its overload index. */
  method ExternMethodName(d: Decl, m: Method) returns (staticMethodName: string)
    ensures staticMethodName == ExternName(d.name, MethodSymbol(m, UniqueIndex(d.methods, m)))
  {
    var index := GetMethodUniqueIndex(d.methods, m);
    staticMethodName := d.name + "_" + m.name + "_" + NatToString(index);
  }

  /** writeCppWrap_CSharpMethod, the declaration of the static binding. */
  method WriteExternDeclaration(t: Table, ctx: ScopeId, staticMethodName: string, m: Method)
    returns (buffer: string)
    requires Valid(t) && ctx < |t.scopes|
    ensures buffer == "[MethodImpl(MethodImplOptions.InternalCall)]\n"
      + (if m.isUnsafe then "unsafe " else "") + "extern static void " + staticMethodName + "("
      + Join(ExternParams(m, ArgTypes(t, ctx, m.args), ResolveType(t, ctx, m.returnType)), ", ")
      + ");\n"
  {
    buffer := "[MethodImpl(MethodImplOptions.InternalCall)]\n";
    if m.isUnsafe {
      buffer := buffer + "unsafe ";
    }
    buffer := buffer + "extern static void " + staticMethodName + "(";
    var list := ExternParameterList(m, ArgTypes(t, ctx, m.args), ResolveType(t, ctx, m.returnType));
    buffer := buffer + list + ");\n";
  }

  /** The argument list of the managed call of the static binding. */
  method ExternCallList(m: Method, tys: seq<Decl>) returns (list: string)
    requires |tys| == |m.args|
    ensures list == Join(ExternCallArgs(m, tys), ", ")
  {
    ghost var entries := seq(|m.args|, i requires 0 <= i < |m.args| => CallEntry(tys[i], m.args[i], i));
    ghost var self: seq<string> := if m.isStatic then [] else ["objCPtr"];
    list := "";
    var argCount := 0;
    if !m.isStatic {
      list := list + "objCPtr";
      argCount := argCount + 1;
    }
    for i := 0 to |m.args|
      invariant argCount == |self| + i
      invariant list == Join(self + entries[..i], ", ")
    {
      ghost var before := list;
      if argCount > 0 {
        list := list + ", ";
      }
      argCount := argCount + 1;
      var arg := m.args[i];
      var argType := tys[i];
      var direction := "";
      if arg.moveOut || argType.kind == StructKind {
        if arg.moveIn {
          direction := "ref ";
        } else {
          direction := "out ";
        }
      }
      assert direction == Direction(tys[i], m.args[i]);
      var passed := arg.name;
      if argType.csOutConvert != "" {
        passed := "arg" + NatToString(i);
      }
      var entry := direction + passed;
      assert entry == entries[i];
      list := list + entry;
      JoinStep(self + entries[..i], before, list, entries[i]);
      PrefixSnoc(self, entries, i);
    }
    assert entries[..|m.args|] == entries;
    assert ExternCallArgs(m, tys) == self + entries + (if m.returnType != "void" then ["out result"] else []);
    if m.returnType != "void" {
      ghost var before := list;
      if argCount > 0 {
        list := list + ", ";
      }
      list := list + "out result";
      JoinStep(self + entries, before, list, "out result");
    } else {
      assert self + entries + [] == self + entries;
    }
  }

  /** writeCppWrap_CSharpMethod, the call of the static binding. */
  method WriteExternCall(t: Table, ctx: ScopeId, staticMethodName: string, m: Method) returns (call: string)
    requires Valid(t) && ctx < |t.scopes|
    ensures call == staticMethodName + "(" + Join(ExternCallArgs(m, ArgTypes(t, ctx, m.args)), ", ") + ");\n"
  {
    var list := ExternCallList(m, ArgTypes(t, ctx, m.args));
    call := staticMethodName + "(" + list + ");\n";
  }

  /** The parameter list of the native function. */
  method NativeParameterList(m: Method, tys: seq<Decl>, ret: Decl) returns (list: string)
    requires |tys| == |m.args|
    ensures list == Join(NativeParams(m, tys, ret), ", ")
  {
    ghost var entries := seq(|m.args|, i requires 0 <= i < |m.args| => NativeEntry(tys[i], m.args[i]));
    ghost var self: seq<string> := if m.isStatic then [] else ["void* cppObject"];
    list := "";
    var argCount := 0;
    if !m.isStatic {
      list := list + "void* cppObject";
      argCount := argCount + 1;
    }
    for i := 0 to |m.args|
      invariant argCount == |self| + i
      invariant list == Join(self + entries[..i], ", ")
    {
      ghost var before := list;
      if argCount > 0 {
        list := list + ", ";
      }
      argCount := argCount + 1;
      var arg := m.args[i];
      var argType := tys[i];
      var entry := argType.cppInPass;
      if arg.moveOut || argType.kind == StructKind {
        entry := entry + "*";
      }
      entry := entry + " " + arg.name;
      list := list + entry;
      JoinStep(self + entries[..i], before, list, entries[i]);
      PrefixSnoc(self, entries, i);
    }
    assert entries[..|m.args|] == entries;
    assert NativeParams(m, tys, ret) == self + entries + (if m.returnType != "void" then [ret.cppOutPass + "* resultOut"] else []);
    if m.returnType != "void" {
      ghost var before := list;
      if argCount > 0 {
        list := list + ", ";
      }
      var entry := ret.cppOutPass + "* resultOut";
      list := list + entry;
      JoinStep(self + entries, before, list, entry);
    } else {
      assert self + entries + [] == self + entries;
    }
  }

  /** writeCppWrap_CppMethod, the head of the native function: named after
      the class's unique name and the method, without overload index. */
  method WriteNativeHead(t: Table, ctx: ScopeId, uniqueName: string, m: Method) returns (buffer: string)
    requires Valid(t) && ctx < |t.scopes|
    ensures buffer == "static void " + uniqueName + "_" + m.name + "("
      + Join(NativeParams(m, ArgTypes(t, ctx, m.args), ResolveType(t, ctx, m.returnType)), ", ")
      + ")\n{\n"
  {
    var list := NativeParameterList(m, ArgTypes(t, ctx, m.args), ResolveType(t, ctx, m.returnType));
    buffer := "static void " + uniqueName + "_" + m.name + "(" + list + ")\n{\n";
  }

  /** The registration target of a method: the native function, cast to the
      function type with the native parameter types. */
  function MethodCast(uniqueName: string, m: Method, tys: seq<Decl>, ret: Decl): string
    requires |tys| == |m.args|
  {
    "static_cast<void(*)(" + Join(CastParams(m, tys, ret), ", ") + ")>(&" + uniqueName + "_" + m.name + ")"
  }

  /** The parameter types of the registration cast. */
  method CastParameterList(m: Method, tys: seq<Decl>, ret: Decl) returns (list: string)
    requires |tys| == |m.args|
    ensures list == Join(CastParams(m, tys, ret), ", ")
  {
    ghost var entries := seq(|m.args|, i requires 0 <= i < |m.args| => CastEntry(tys[i], m.args[i]));
    ghost var self: seq<string> := if m.isStatic then [] else ["void*"];
    list := "";
    var argCount := 0;
    if !m.isStatic {
      list := list + "void*";
      argCount := argCount + 1;
    }
    for i := 0 to |m.args|
      invariant argCount == |self| + i
      invariant list == Join(self + entries[..i], ", ")
    {
      ghost var before := list;
      if argCount > 0 {
        list := list + ", ";
      }
      argCount := argCount + 1;
      var arg := m.args[i];
      var argType := tys[i];
      var entry := argType.cppInPass;
      if arg.moveOut || argType.kind == StructKind {
        entry := entry + "*";
      }
      list := list + entry;
      JoinStep(self + entries[..i], before, list, entries[i]);
      PrefixSnoc(self, entries, i);
    }
    assert entries[..|m.args|] == entries;
    assert CastParams(m, tys, ret) == self + entries + (if m.returnType != "void" then [ret.cppOutPass + "*"] else []);
    if m.returnType != "void" {
      ghost var before := list;
      if argCount > 0 {
        list := list + ", ";
      }
      var entry := ret.cppOutPass + "*";
      list := list + entry;
      JoinStep(self + entries, before, list, entry);
    } else {
      assert self + entries + [] == self + entries;
    }
  }

  /** writeCppWrap_CppClass, the second argument of a method's registration. */
  method WriteMethodCast(t: Table, ctx: ScopeId, uniqueName: string, m: Method) returns (target: string)
    requires Valid(t) && ctx < |t.scopes|
    ensures target == MethodCast(uniqueName, m, ArgTypes(t, ctx, m.args), ResolveType(t, ctx, m.returnType))
  {
    var list := CastParameterList(m, ArgTypes(t, ctx, m.args), ResolveType(t, ctx, m.returnType));
    target := "static_cast<void(*)(" + list + ")>(&" + uniqueName + "_" + m.name + ")";
  }

  // ---------------------------------------------------------------------
  // writeCsWrap_CppMethodPtr

  /** The parameter types of a managed method's thunk: each argument's boxed
      out-pass type, then the exception out-pointer. */
  function PtrParams(tys: seq<Decl>): seq<string>
  {
    seq(|tys|, i requires 0 <= i < |tys| => CppOutPassBoxed(tys[i])) + ["MonoException**"]
  }

  /** The thunk takes one parameter per argument and, last, the exception
      out-pointer, whether or not the method is static or returns a value. */
  lemma PtrParamsShape(tys: seq<Decl>)
    ensures var ps := PtrParams(tys);
      |ps| == |tys| + 1 && ps[|tys|] == "MonoException**"
      && forall i :: 0 <= i < |tys| ==> ps[i] == CppOutPassBoxed(tys[i])
  {
  }

  /** writeCsWrap_CppMethodPtr: the declaration of a function-pointer
      variable for a managed method. The source's spacer test compares the
      argument with the first argument object; arguments are distinct
      objects, so it holds exactly at the positions after the first. */
  method WriteMethodPtr(t: Table, ctx: ScopeId, m: Method, name: string) returns (buffer: string)
    requires Valid(t) && ctx < |t.scopes|
    ensures buffer == CppInPassBoxed(ResolveType(t, ctx, m.returnType)) + " (_stdcall *" + name + ")("
      + Join(PtrParams(ArgTypes(t, ctx, m.args)), ", ") + ")"
  {
    var list := PtrParameterList(ArgTypes(t, ctx, m.args));
    buffer := CppInPassBoxed(ResolveType(t, ctx, m.returnType)) + " (_stdcall *" + name + ")(" + list + ")";
  }

  method PtrParameterList(tys: seq<Decl>) returns (list: string)
    ensures list == Join(PtrParams(tys), ", ")
  {
    ghost var boxed := seq(|tys|, i requires 0 <= i < |tys| => CppOutPassBoxed(tys[i]));
    list := "";
    for i := 0 to |tys|
      invariant list == Join(boxed[..i], ", ")
    {
      ghost var before := list;
      if i != 0 {
        list := list + ", ";
      }
      list := list + CppOutPassBoxed(tys[i]);
      JoinStep(boxed[..i], before, list, boxed[i]);
      PrefixSnoc([], boxed, i);
      assert [] + boxed[..i + 1] == boxed[..i + 1];
      assert [] + boxed[..i] == boxed[..i];
    }
    assert boxed[..|tys|] == boxed;
    ghost var before := list;
    if |tys| > 0 {
      list := list + ", ";
    }
    list := list + "MonoException**";
    JoinStep(boxed, before, list, "MonoException**");
  }

  // ---------------------------------------------------------------------
  // writeCppWrap_MethodArgConvertIn

  /** The native local that holds argument i after conversion. */
  function LocalDeclaration(ty: Decl, i: nat): string
  {
    ty.cppType + " arg" + NatToString(i) + ";\n"
  }

  /** The type's in-conversion template with its keywords filled in, in the
      order the source replaces them. */
  function InConversion(ty: Decl, uniqueName: string, a: MethodArg, i: nat): string
  {
    var c1 := Replace(ty.cppInConvert, "$result", "arg" + NatToString(i));
    var c2 := Replace(c1, "$langtype", ty.cppName);
    var c3 := Replace(c2, "$vartype", ty.cppType);
    var c4 := Replace(c3, "$wraptype", ty.name);
    var c5 := Replace(c4, "$uniquename", uniqueName);
    Replace(c5, "$input", a.name)
  }

  /** What the conversion writes for one argument: an in argument with an
      in-conversion gets a local and the conversion; an out-only argument a
      bare local; anything else nothing. */
  function ConvertInBlock(ty: Decl, uniqueName: string, a: MethodArg, i: nat): string
  {
    if a.moveIn then
      if ty.cppInConvert == "" then "" else LocalDeclaration(ty, i) + InConversion(ty, uniqueName, a, i) + "\n"
    else if a.moveOut then LocalDeclaration(ty, i)
    else ""
  }

  /** The parts one after the other. */
  function Concat(parts: seq<string>): string
  {
    if parts == [] then "" else Concat(parts[..|parts| - 1]) + parts[|parts| - 1]
  }

  /** The unique name of each resolved type. */
  function UniqueNames(t: Table, tys: seq<Decl>): (r: seq<string>)
    requires Valid(t)
    requires forall i :: 0 <= i < |tys| ==>
      tys[i].parentContext.Some? ==> tys[i].parentContext.value < |t.scopes|
    ensures |r| == |tys|
  {
    seq(|tys|, i requires 0 <= i < |tys| => UniqueName(t, tys[i]))
  }

  /** The conversion block of each argument. */
  function ConvertInBlocks(args: seq<MethodArg>, tys: seq<Decl>, names: seq<string>): (r: seq<string>)
    requires |tys| == |args| && |names| == |args|
    ensures |r| == |args|
  {
    seq(|args|, i requires 0 <= i < |args| => ConvertInBlock(tys[i], names[i], args[i], i))
  }

  /** writeCppWrap_MethodArgConvertIn. */
  method WriteConvertIn(t: Table, ctx: ScopeId, m: Method) returns (buffer: string)
    requires Valid(t) && ctx < |t.scopes|
    ensures var tys := ArgTypes(t, ctx, m.args);
      buffer == Concat(ConvertInBlocks(m.args, tys, UniqueNames(t, tys)))
  {
    var tys := ArgTypes(t, ctx, m.args);
    buffer := ConvertInText(m.args, tys, UniqueNames(t, tys));
  }

  method ConvertInText(args: seq<MethodArg>, tys: seq<Decl>, names: seq<string>) returns (buffer: string)
    requires |tys| == |args| && |names| == |args|
    ensures buffer == Concat(ConvertInBlocks(args, tys, names))
  {
    ghost var blocks := ConvertInBlocks(args, tys, names);
    buffer := "";
    for i := 0 to |args|
      invariant buffer == Concat(blocks[..i])
    {
      var wrapArg := args[i];
      var wrapType := tys[i];
      if wrapArg.moveIn {
        if wrapType.cppInConvert != "" {
          var conversion := wrapType.cppInConvert;
          conversion := Replace(conversion, "$result", "arg" + NatToString(i));
          conversion := Replace(conversion, "$langtype", wrapType.cppName);
          conversion := Replace(conversion, "$vartype", wrapType.cppType);
          conversion := Replace(conversion, "$wraptype", wrapType.name);
          conversion := Replace(conversion, "$uniquename", names[i]);
          conversion := Replace(conversion, "$input", wrapArg.name);
          buffer := buffer + (wrapType.cppType + " arg" + NatToString(i) + ";\n") + (conversion + "\n");
        }
      } else if wrapArg.moveOut {
        buffer := buffer + (wrapType.cppType + " arg" + NatToString(i) + ";\n");
      }
      assert blocks[..i + 1][..i] == blocks[..i];
    }
    assert blocks[..|args|] == blocks;
  }

  /** Every local the native call passes (an argument whose type has an
      in-conversion is passed as arg{i}) has been declared, for arguments
      that are passed in, out or both. */
  lemma CallLocalsDeclared(ty: Decl, uniqueName: string, a: MethodArg, i: nat)
    requires a.moveIn || a.moveOut
    ensures ty.cppInConvert != "" ==>
      ("arg" + NatToString(i)) <= ArgCallEntry(ty, a, i)[|ArgCallEntry(ty, a, i)| - |"arg" + NatToString(i)|..]
      && LocalDeclaration(ty, i) <= ConvertInBlock(ty, uniqueName, a, i)
  {
    if ty.cppInConvert != "" {
      var e := ArgCallEntry(ty, a, i);
      var local := "arg" + NatToString(i);
      var deref := if (ty.kind == StructKind && !a.moveOut) || a.cppRef then "*" else "";
      if a.moveOut {
        assert e == (deref + "&") + local;
      } else {
        assert e == deref + local;
      }
      assert e[|e| - |local|..] == local;
      var block := ConvertInBlock(ty, uniqueName, a, i);
      if a.moveIn {
        PrefixOfConcat(LocalDeclaration(ty, i), InConversion(ty, uniqueName, a, i) + "\n");
        assert block == LocalDeclaration(ty, i) + (InConversion(ty, uniqueName, a, i) + "\n");
      }
    }
  }

  /** The out-conversion after the call reads the local arg{i} of every out
      argument whose type has an out-conversion; that local is declared
      exactly when the argument is out-only or its type also has an
      in-conversion. An in-out argument of a type with only an
      out-conversion reads a local that was never declared. */
  lemma WriteBackLocalDeclared(ty: Decl, uniqueName: string, a: MethodArg, i: nat)
    requires a.moveOut && ty.cppOutConvert != ""
    ensures LocalDeclaration(ty, i) <= ConvertInBlock(ty, uniqueName, a, i)
      <==> !a.moveIn || ty.cppInConvert != ""
  {
    var block := ConvertInBlock(ty, uniqueName, a, i);
    if !a.moveIn {
      assert block == LocalDeclaration(ty, i);
    } else if ty.cppInConvert != "" {
      PrefixOfConcat(LocalDeclaration(ty, i), InConversion(ty, uniqueName, a, i) + "\n");
      assert block == LocalDeclaration(ty, i) + (InConversion(ty, uniqueName, a, i) + "\n");
    } else {
      assert block == "";
      assert |LocalDeclaration(ty, i)| > 0;
    }
  }
}
