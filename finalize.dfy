// What the finalizers make of a declaration once the whole file is read
// (finalizeStruct, finalizeEnum, finalizeClass over all classes), and why
// finalizing classes one after the other does not change what
// findIfPolymorphic decides for the ones that follow.

module Finalizing {
  import opened Text
  import opened Symbols
  import opened Resolve
  import opened Syntax

  /** Every scope that is the body of a declaration is the body of a class
      or a struct (the only blocks that open a scope). */
  ghost predicate SourcesAreBlocks(t: Table)
  {
    forall i :: 0 <= i < |t.scopes| && t.scopes[i].sourceType.Some? ==>
      t.scopes[i].sourceType.value < |t.decls|
      && t.decls[t.scopes[i].sourceType.value].kind in {ClassKind, StructKind}
  }

  // ---------------------------------------------------------------------
  // finalizeStruct

  /** finalizeStruct: "$langtype" in the native type and passing types
      becomes the native name, in the managed ones the managed name. */
  function FinalizedStruct(d: Decl): Decl
  {
    d.(cppType := FinalizeTypeVar(d.cppType, d.cppName),
       cppInPass := FinalizeTypeVar(d.cppInPass, d.cppName),
       cppOutPass := FinalizeTypeVar(d.cppOutPass, d.cppName),
       csType := FinalizeTypeVar(d.csType, d.csName),
       csInPass := FinalizeTypeVar(d.csInPass, d.csName),
       csOutPass := FinalizeTypeVar(d.csOutPass, d.csName))
  }

  /** A struct whose types were left at their "$langtype" default is passed
      by value as itself: its native name on the native side, its managed
      name on the managed side; and finalizing changes nothing else. */
  lemma StructDefaultsNamed(d: Decl)
    ensures var r := FinalizedStruct(d);
      (d.cppType == "$langtype" ==> r.cppType == d.cppName)
      && (d.cppInPass == "$langtype" ==> r.cppInPass == d.cppName)
      && (d.cppOutPass == "$langtype" ==> r.cppOutPass == d.cppName)
      && (d.csType == "$langtype" ==> r.csType == d.csName)
      && (d.csInPass == "$langtype" ==> r.csInPass == d.csName)
      && (d.csOutPass == "$langtype" ==> r.csOutPass == d.csName)
      && r == d.(cppType := r.cppType, cppInPass := r.cppInPass, cppOutPass := r.cppOutPass,
                 csType := r.csType, csInPass := r.csInPass, csOutPass := r.csOutPass)
  {
    LangtypeBecomesName(d.cppName);
    LangtypeBecomesName(d.csName);
  }

  // ---------------------------------------------------------------------
  // finalizeEnum

  /** finalizeEnum: the enum is named after the declaration whose scope
      holds it, in both languages, and its types are those names. */
  function FinalizedEnum(d: Decl, owner: Decl): (r: Decl)
    ensures r.csName == owner.csName + "." + d.name && r.csType == r.csName
    ensures r.cppName == owner.cppName + "::" + d.name && r.cppType == r.cppName
  {
    var csName := owner.csName + "." + d.name;
    var cppName := owner.cppName + "::" + d.name;
    d.(csName := csName, csType := csName, cppName := cppName, cppType := cppName)
  }

  // ---------------------------------------------------------------------
  // finalizeClass, applied to each class in turn

  /** Two tables that agree on the scopes and on what identifies each
      declaration (kind, name, parent context, base class). */
  ghost predicate SameShape(a: Table, b: Table)
  {
    a.scopes == b.scopes && |a.decls| == |b.decls|
    && forall i :: 0 <= i < |a.decls| ==>
         a.decls[i].kind == b.decls[i].kind && a.decls[i].name == b.decls[i].name
         && a.decls[i].parentContext == b.decls[i].parentContext
         && a.decls[i].parentClass == b.decls[i].parentClass
  }

  lemma {:induction false} FindTypeAtSameShape(a: Table, b: Table, ctx: ScopeId, names: seq<string>, index: nat)
    requires Valid(a) && Valid(b) && SameShape(a, b) && ctx < |a.scopes| && index < |names|
    ensures FindTypeAt(a, ctx, names, index) == FindTypeAt(b, ctx, names, index)
    decreases |names| - index, ctx
  {
    var s := a.scopes[ctx];
    assert ScopeOk(a, ctx);
    if index == |names| - 1 && names[index] in s.types {
    } else if index < |names| - 1 && names[index] in s.children {
      FindTypeAtSameShape(a, b, s.children[names[index]], names, index + 1);
    } else if index == 0 && s.parent.Some? {
      FindTypeAtSameShape(a, b, s.parent.value, names, 0);
    }
  }

  lemma {:induction false} QualifiersSameShape(a: Table, b: Table, ctx: ScopeId)
    requires Valid(a) && Valid(b) && a.scopes == b.scopes && ctx < |a.scopes|
    ensures Qualifiers(a, ctx) == Qualifiers(b, ctx)
    decreases ctx
  {
    assert ScopeOk(a, ctx);
    if a.scopes[ctx].parent.Some? {
      QualifiersSameShape(a, b, a.scopes[ctx].parent.value);
    }
  }

  lemma ClassUniqueNameSameShape(g1: Generator, g2: Generator, c: TypeId)
    requires Valid(g1.table) && Valid(g2.table) && SameShape(g1.table, g2.table) && c < |g1.table.decls|
    ensures ClassUniqueName(g1, c) == ClassUniqueName(g2, c)
  {
    assert DeclOk(g1.table, c);
    var ctx := g1.table.decls[c].parentContext;
    if ctx.Some? {
      QualifiersSameShape(g1.table, g2.table, ctx.value);
    }
  }

  lemma {:induction false} FirstWithUniqueNameSameShape(g1: Generator, g2: Generator, u: string, from: nat)
    requires GenValid(g1) && GenValid(g2) && SameShape(g1.table, g2.table) && g1.classes == g2.classes
    requires from <= |g1.classes|
    ensures FirstWithUniqueName(g1, u, from) == FirstWithUniqueName(g2, u, from)
    decreases |g1.classes| - from
  {
    if from < |g1.classes| {
      ClassUniqueNameSameShape(g1, g2, g1.classes[from]);
      FirstWithUniqueNameSameShape(g1, g2, u, from + 1);
    }
  }

  lemma ParentHasUniqueNameSameShape(g1: Generator, g2: Generator, k: nat, u: string)
    requires GenValid(g1) && GenValid(g2) && SameShape(g1.table, g2.table) && g1.classes == g2.classes
    requires k < |g1.classes|
    ensures ParentHasUniqueName(g1, k, u) == ParentHasUniqueName(g2, k, u)
  {
    var c := g1.classes[k];
    var d := g1.table.decls[c];
    assert DeclOk(g1.table, c);
    if d.parentClass != "" {
      var ctx := d.parentContext.value;
      FindTypeAtSameShape(g1.table, g2.table, ctx, SplitQualified(d.parentClass), 0);
      var p := FindClass(g1.table, ctx, d.parentClass);
      if p.Some? {
        ClassUniqueNameSameShape(g1, g2, p.value);
      }
    }
  }

  /** findIfPolymorphic reads only the scopes and the kind, name, parent
      context and base class of each declaration: generators that agree on
      those and on the class list decide alike. */
  lemma PolymorphismSameShape(g1: Generator, g2: Generator, u: string)
    requires GenValid(g1) && GenValid(g2) && SameShape(g1.table, g2.table) && g1.classes == g2.classes
    requires FirstWithUniqueName(g1, u, 0).Some?
    ensures FirstWithUniqueName(g2, u, 0) == FirstWithUniqueName(g1, u, 0)
    ensures IsPolymorphic(g1, u) == IsPolymorphic(g2, u)
  {
    FirstWithUniqueNameSameShape(g1, g2, u, 0);
    forall k | 0 <= k < |g1.classes|
      ensures ParentHasUniqueName(g1, k, u) == ParentHasUniqueName(g2, k, u)
    {
      ParentHasUniqueNameSameShape(g1, g2, k, u);
    }
  }

  /** Every class of the list has a first class bearing its unique name:
      findIfPolymorphic's lookup cannot miss for it. */
  lemma OwnUniqueNameFound(g: Generator, k: nat)
    requires GenValid(g) && k < |g.classes|
    ensures FirstWithUniqueName(g, ClassUniqueName(g, g.classes[k]), 0).Some?
  {
  }

  /** What finalize decides for class c of the generator: polymorphic only
      matters, and is only asked, for a class exposed to the managed side. */
  ghost function Polymorphic(g: Generator, c: TypeId): bool
    requires GenValid(g) && c in g.classes
  {
    var k :| 0 <= k < |g.classes| && g.classes[k] == c;
    OwnUniqueNameFound(g, k);
    g.table.decls[c].interfaceType == CppToCSharp && IsPolymorphic(g, ClassUniqueName(g, c))
  }

  /** Finalizing a class again changes nothing: defaults only fill empty
      fields, and the passing decision depends on what finalizing keeps. */
  lemma FinalizedIdempotent(d: Decl, inc: string, dec: string, polymorphic: bool)
    ensures var r := FinalizedClass(d, inc, dec, polymorphic);
      FinalizedClass(r, inc, dec, polymorphic) == r
  {
    var r := FinalizedClass(d, inc, dec, polymorphic);
    if d.interfaceType == CppToCSharp {
      var e := ManagedDefaults(d, inc, dec);
      var e2 := ManagedDefaults(r, inc, dec);
      assert ByReference(r, polymorphic) == ByReference(d, polymorphic);
      if ByReference(d, polymorphic) {
        assert e2.(classType := "class") == r;
      } else {
        assert ByPointer(e2, r.cppName) == r;
      }
    } else {
      assert NativeDefaults(r) == r;
    }
  }

  /** Finalizing a class keeps the table's shape. */
  lemma FinalizedSameShape(t: Table, c: TypeId, inc: string, dec: string, polymorphic: bool)
    requires c < |t.decls|
    ensures SameShape(t, t.(decls := t.decls[c := FinalizedClass(t.decls[c], inc, dec, polymorphic)]))
  {
    FinalizedIdentity(t.decls[c], inc, dec, polymorphic);
    FinalizedKeepsMembers(t.decls[c], inc, dec, polymorphic);
  }

  lemma SameShapeTransitive(a: Table, b: Table, c: Table)
    requires SameShape(a, b) && SameShape(b, c)
    ensures SameShape(a, c)
  {
  }

  /** What finalize decides for a class is the same in generators of the
      same shape, as long as the class is exposed to the same side. */
  lemma PolymorphicSameShape(g1: Generator, g2: Generator, c: TypeId)
    requires GenValid(g1) && GenValid(g2) && SameShape(g1.table, g2.table) && g1.classes == g2.classes
    requires c in g1.classes && g1.table.decls[c].interfaceType == g2.table.decls[c].interfaceType
    ensures Polymorphic(g1, c) == Polymorphic(g2, c)
  {
    var k :| 0 <= k < |g1.classes| && g1.classes[k] == c;
    OwnUniqueNameFound(g1, k);
    ClassUniqueNameSameShape(g1, g2, c);
    PolymorphismSameShape(g1, g2, ClassUniqueName(g1, c));
  }

  // ---------------------------------------------------------------------
  // The owner of an enum

  /** The declaration whose scope holds declaration e: the source of its
      parent context; None when it has no parent context, or when that
      context is a namespace or the default context. */
  function Owner(t: Table, e: TypeId): (r: Option<TypeId>)
    requires Valid(t) && SourcesAreBlocks(t) && e < |t.decls|
    ensures r.Some? ==> r.value < |t.decls| && t.decls[r.value].kind in {ClassKind, StructKind}
  {
    assert DeclOk(t, e);
    match t.decls[e].parentContext
    case None => None
    case Some(ctx) => t.scopes[ctx].sourceType
  }

  /** After finalizeEnum has run on every enum, each is named after its
      owner in both languages, and its types are those names. */
  ghost predicate EnumsNamed(g: Generator)
    requires GenValid(g) && SourcesAreBlocks(g.table)
  {
    forall k :: 0 <= k < |g.enums| ==>
      g.enums[k] < |g.table.decls| && Owner(g.table, g.enums[k]).Some?
      && var d := g.table.decls[g.enums[k]];
         var o := g.table.decls[Owner(g.table, g.enums[k]).value];
         d.csName == o.csName + "." + d.name && d.csType == d.csName
         && d.cppName == o.cppName + "::" + d.name && d.cppType == d.cppName
  }

  // ---------------------------------------------------------------------
  // The finalize loops

  /** Declaration j as finalize leaves it: a class of g is finalized with
      the decision findIfPolymorphic makes over g; anything else stays. */
  ghost function FinalizedAt(g: Generator, j: TypeId): Decl
    requires GenValid(g) && j < |g.table.decls|
  {
    var d := g.table.decls[j];
    if j in g.classes then FinalizedClass(d, g.cppIncreaseRef, g.cppDecreaseRef, Polymorphic(g, j)) else d
  }

  /** Table t is g0's with the declarations in done finalized, and no other
      changed. */
  ghost predicate ClassesFinalized(g0: Generator, t: Table, done: seq<TypeId>)
    requires GenValid(g0)
  {
    SameShape(g0.table, t)
    && forall j :: 0 <= j < |t.decls| ==>
         t.decls[j] == if j in done then FinalizedAt(g0, j) else g0.table.decls[j]
  }

  /** One turn of finalize's loop: finalizing class c in the partly
      finalized table gives what finalizing it in the table as parsed
      gives, also when c was finalized before (it is listed twice). */
  lemma FinalizeClassStep(g0: Generator, g1: Generator, c: TypeId, done: seq<TypeId>)
    requires GenValid(g0) && GenValid(g1) && g1 == g0.(table := g1.table) && c in g0.classes
    requires ClassesFinalized(g0, g1.table, done)
    ensures var t := g1.table.(decls := g1.table.decls[c :=
              FinalizedClass(g1.table.decls[c], g1.cppIncreaseRef, g1.cppDecreaseRef, Polymorphic(g1, c))]);
      ClassesFinalized(g0, t, done + [c])
  {
    var d0 := g0.table.decls[c];
    var inc, dec := g0.cppIncreaseRef, g0.cppDecreaseRef;
    var p0 := Polymorphic(g0, c);
    var r := FinalizedClass(d0, inc, dec, p0);
    assert g1.table.decls[c] == if c in done then r else d0;
    FinalizedKeepsMembers(d0, inc, dec, p0);
    assert g1.table.decls[c].interfaceType == d0.interfaceType;
    PolymorphicSameShape(g0, g1, c);
    if c in done {
      FinalizedIdempotent(d0, inc, dec, p0);
    }
    assert FinalizedClass(g1.table.decls[c], inc, dec, p0) == r;
    var t := g1.table.(decls := g1.table.decls[c := r]);
    FinalizedSameShape(g1.table, c, inc, dec, p0);
    SameShapeTransitive(g0.table, g1.table, t);
    forall j | 0 <= j < |t.decls|
      ensures t.decls[j] == if j in done + [c] then FinalizedAt(g0, j) else g0.table.decls[j]
    {
      assert j in done + [c] <==> j in done || j == c;
    }
  }

  /** Declaration j as the enum pass leaves it: an enum of g with an owner
      is named after it; anything else stays. */
  ghost function EnumFinalizedAt(g: Generator, j: TypeId): Decl
    requires GenValid(g) && SourcesAreBlocks(g.table) && j < |g.table.decls|
  {
    var d := g.table.decls[j];
    var o := Owner(g.table, j);
    if j in g.enums && o.Some? then FinalizedEnum(d, g.table.decls[o.value]) else d
  }

  /** Table t is g0's with the enums in done finalized, and no other
      declaration changed. */
  ghost predicate EnumsFinalized(g0: Generator, t: Table, done: seq<TypeId>)
    requires GenValid(g0) && SourcesAreBlocks(g0.table)
  {
    SameShape(g0.table, t)
    && forall j :: 0 <= j < |t.decls| ==>
         t.decls[j] == if j in done then EnumFinalizedAt(g0, j) else g0.table.decls[j]
  }

  /** One turn of the enum pass: the owner of e is the same as in the table
      as parsed, and so is its declaration, since an owner is never an
      enum; finalizing e again changes nothing. */
  lemma FinalizeEnumStep(g0: Generator, g1: Generator, e: TypeId, done: seq<TypeId>)
    requires GenValid(g0) && SourcesAreBlocks(g0.table) && GenValid(g1) && SourcesAreBlocks(g1.table)
    requires g1 == g0.(table := g1.table) && e in g0.enums
    requires EnumsFinalized(g0, g1.table, done) && forall j :: j in done ==> j in g0.enums
    ensures Owner(g1.table, e) == Owner(g0.table, e)
    ensures Owner(g0.table, e).Some? ==>
      var t := g1.table.(decls := g1.table.decls[e :=
                 FinalizedEnum(g1.table.decls[e], g1.table.decls[Owner(g1.table, e).value])]);
      EnumsFinalized(g0, t, done + [e])
  {
    assert DeclOk(g0.table, e);
    assert SameShape(g0.table, g1.table);
    var o := Owner(g0.table, e);
    assert g1.table.decls[e].parentContext == g0.table.decls[e].parentContext;
    assert Owner(g1.table, e) == o;
    if o.Some? {
      var ow := o.value;
      assert g0.table.decls[ow].kind != EnumKind;
      assert ow !in g0.enums;
      assert g1.table.decls[ow] == g0.table.decls[ow];
      var d0 := g0.table.decls[e];
      var r := FinalizedEnum(d0, g0.table.decls[ow]);
      assert g1.table.decls[e] == if e in done then r else d0;
      assert FinalizedEnum(g1.table.decls[e], g1.table.decls[ow]) == r;
      var t := g1.table.(decls := g1.table.decls[e := r]);
      forall j | 0 <= j < |t.decls|
        ensures t.decls[j] == if j in done + [e] then EnumFinalizedAt(g0, j) else g0.table.decls[j]
      {
        assert j in done + [e] <==> j in done || j == e;
      }
      assert SameShape(g0.table, t);
    }
  }

  /** After the enum pass over every enum, each has its owner's names. */
  lemma EnumsFinalizedNamed(g0: Generator, g: Generator)
    requires GenValid(g0) && SourcesAreBlocks(g0.table) && GenValid(g) && SourcesAreBlocks(g.table)
    requires g == g0.(table := g.table) && EnumsFinalized(g0, g.table, g0.enums)
    requires forall k :: 0 <= k < |g0.enums| ==> Owner(g0.table, g0.enums[k]).Some?
    ensures EnumsNamed(g)
  {
    forall k | 0 <= k < |g.enums|
      ensures Owner(g.table, g.enums[k]) == Owner(g0.table, g.enums[k])
      ensures g.table.decls[Owner(g.table, g.enums[k]).value]
           == g0.table.decls[Owner(g0.table, g.enums[k]).value]
    {
      var e := g.enums[k];
      assert DeclOk(g0.table, e);
      var o := Owner(g0.table, e).value;
      if o in g0.enums {
        var k' :| 0 <= k' < |g0.enums| && g0.enums[k'] == o;
      }
    }
  }
}
