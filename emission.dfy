// The names and parameter lists that the two halves of the generated binding
// must agree on: the managed class declares `extern` methods
// (writeCppWrap_CSharpClass and the constructor, method and variable writers
// it calls) and the native side registers a function under each of those
// names (writeCppWrap_CppClass). The surrounding text of the emitters is not
// modelled; the generator's ambient `currentContext` is the class's context.

module Emission {
  import opened Text
  import opened Symbols
  import opened Resolve

  // ---------------------------------------------------------------------
  // Extern symbols

  /** What an extern of a wrapped class stands for. */
  datatype ExternSymbol =
    | ConstructorDefault(n: nat)
    | ConstructorWrapper(n: nat)
    | Deconstructor
    | MethodSymbol(m: Method, index: nat)
    | Getter(field: string)
    | Setter(field: string)

  /** The part of the extern name after "{ClassName}_". */
  function SymbolSuffix(s: ExternSymbol): string
  {
    match s
    case ConstructorDefault(n) => "ConstructorDefault" + NatToString(n)
    case ConstructorWrapper(n) => "ConstructorWrapper" + NatToString(n)
    case Deconstructor => "DeconstructorDefault"
    case MethodSymbol(m, index) => m.name + "_" + NatToString(index)
    case Getter(field) => field + "_Get"
    case Setter(field) => field + "_Set"
  }

  /** The extern name both sides use: the class's own (unqualified) name, "_"
      and the suffix. */
  function ExternName(className: string, s: ExternSymbol): string
  {
    className + "_" + SymbolSuffix(s)
  }

  /** The constructor and deconstructor suffixes hold no "_"; the others do. */
  predicate IsLifecycle(s: ExternSymbol)
  {
    s.ConstructorDefault? || s.ConstructorWrapper? || s.Deconstructor?
  }

  lemma LifecycleSuffixPlain(s: ExternSymbol)
    requires IsLifecycle(s)
    ensures '_' !in SymbolSuffix(s)
  {
    match s
    case ConstructorDefault(n) =>
      var d := NatToString(n);
      assert forall k :: 0 <= k < |d| ==> d[k] != '_';
      assert forall k :: 0 <= k < |"ConstructorDefault" + d| ==> ("ConstructorDefault" + d)[k] != '_';
    case ConstructorWrapper(n) =>
      var d := NatToString(n);
      assert forall k :: 0 <= k < |d| ==> d[k] != '_';
      assert forall k :: 0 <= k < |"ConstructorWrapper" + d| ==> ("ConstructorWrapper" + d)[k] != '_';
    case Deconstructor =>
  }

  lemma MemberSuffixHasUnderscore(s: ExternSymbol)
    requires !IsLifecycle(s)
    ensures '_' in SymbolSuffix(s)
  {
    match s
    case MethodSymbol(m, index) => assert SymbolSuffix(s)[|m.name|] == '_';
    case Getter(field) => assert SymbolSuffix(s)[|field|] == '_';
    case Setter(field) => assert SymbolSuffix(s)[|field|] == '_';
  }

  /** Two lifecycle symbols with the same suffix are the same symbol. */
  lemma LifecycleSuffixInjective(a: ExternSymbol, b: ExternSymbol)
    requires IsLifecycle(a) && IsLifecycle(b)
    requires SymbolSuffix(a) == SymbolSuffix(b)
    ensures a == b
  {
    var sa := SymbolSuffix(a);
    if a.Deconstructor? || b.Deconstructor? {
      assert sa[0] == (if a.Deconstructor? then 'D' else 'C');
      assert SymbolSuffix(b)[0] == (if b.Deconstructor? then 'D' else 'C');
    } else {
      assert sa[11] == (if a.ConstructorDefault? then 'D' else 'W');
      assert SymbolSuffix(b)[11] == (if b.ConstructorDefault? then 'D' else 'W');
      var prefix := if a.ConstructorDefault? then "ConstructorDefault" else "ConstructorWrapper";
      if a.n != b.n {
        SuffixedNumbersDistinct(prefix, a.n, b.n);
      }
    }
  }

  /** Two symbols clash when they would get the same name: the same symbol,
      or methods of the same name with the same overload index. */
  predicate Clash(a: ExternSymbol, b: ExternSymbol)
  {
    if a.MethodSymbol? && b.MethodSymbol? then a.m.name == b.m.name && a.index == b.index
    else a == b
  }

  /** Two member symbols (methods and accessors) with the same suffix clash:
      a method suffix ends in a digit, an accessor suffix in "Get" or "Set". */
  lemma MemberSuffixInjective(a: ExternSymbol, b: ExternSymbol)
    requires !IsLifecycle(a) && !IsLifecycle(b)
    requires SymbolSuffix(a) == SymbolSuffix(b)
    ensures Clash(a, b)
  {
    var s := SymbolSuffix(a);
    var last := s[|s| - 1];
    if a.MethodSymbol? {
      var d := NatToString(a.index);
      assert s == a.m.name + "_" + d;
      assert last == d[|d| - 1];
      assert '0' <= last <= '9';
    } else {
      AccessorSuffixParts(a);
    }
    if b.MethodSymbol? {
      var d := NatToString(b.index);
      assert s == b.m.name + "_" + d;
      assert last == d[|d| - 1];
    } else {
      AccessorSuffixParts(b);
    }
    if a.MethodSymbol? && b.MethodSymbol? {
      DigitSuffixUnique(a.m.name, b.m.name, a.index, b.index);
    }
  }

  /** An accessor suffix is the field name, "_" and "Get" or "Set". */
  lemma AccessorSuffixParts(a: ExternSymbol)
    requires a.Getter? || a.Setter?
    ensures var s := SymbolSuffix(a);
      |s| == |a.field| + 4 && s[..|s| - 4] == a.field
      && s[|s| - 3..] == (if a.Getter? then "Get" else "Set")
      && s[|s| - 1] == 't'
  {
  }

  /** Symbols that do not clash have distinct suffixes. */
  lemma SymbolSuffixInjective(a: ExternSymbol, b: ExternSymbol)
    ensures SymbolSuffix(a) == SymbolSuffix(b) ==> Clash(a, b)
  {
    if SymbolSuffix(a) == SymbolSuffix(b) {
      if IsLifecycle(a) && IsLifecycle(b) {
        LifecycleSuffixInjective(a, b);
      } else if !IsLifecycle(a) && !IsLifecycle(b) {
        MemberSuffixInjective(a, b);
      } else if IsLifecycle(a) {
        LifecycleSuffixPlain(a);
        MemberSuffixHasUnderscore(b);
      } else {
        LifecycleSuffixPlain(b);
        MemberSuffixHasUnderscore(a);
      }
    }
  }

  /** Within one class, symbols that do not clash get distinct extern names. */
  lemma ExternNameInjective(className: string, a: ExternSymbol, b: ExternSymbol)
    ensures ExternName(className, a) == ExternName(className, b) ==> Clash(a, b)
  {
    if ExternName(className, a) == ExternName(className, b) {
      var p := className + "_";
      assert ExternName(className, a)[|p|..] == SymbolSuffix(a);
      assert ExternName(className, b)[|p|..] == SymbolSuffix(b);
      SymbolSuffixInjective(a, b);
    }
  }

  // ---------------------------------------------------------------------
  // The externs of a class, in the order both sides emit them

  /** No element occurs twice. */
  predicate Distinct<T(==)>(s: seq<T>)
  {
    forall i, j :: 0 <= i < j < |s| ==> s[i] != s[j]
  }

  /** No two symbols of the list clash. */
  predicate ClashFree(s: seq<ExternSymbol>)
  {
    forall i, j :: 0 <= i < j < |s| ==> !Clash(s[i], s[j])
  }

  /** For each constructor position below count: the default constructor
      (only for a class that is not abstract), then the wrapper constructor. */
  function ConstructorSymbols(count: nat, isAbstract: bool): seq<ExternSymbol>
  {
    if count == 0 then []
    else
      ConstructorSymbols(count - 1, isAbstract)
      + (if isAbstract then [] else [ConstructorDefault(count - 1)])
      + [ConstructorWrapper(count - 1)]
  }

  /** One symbol per method of the class, numbered by getMethodUniqueIndex. */
  function MethodSymbols(ms: seq<Method>): (r: seq<ExternSymbol>)
    ensures |r| == |ms|
  {
    seq(|ms|, j requires 0 <= j < |ms| => MethodSymbol(ms[j], UniqueIndex(ms, ms[j])))
  }

  /** Per variable, the getter when it has a get body and the setter when it
      has a set body. */
  function AccessorSymbols(vs: seq<Variable>): seq<ExternSymbol>
  {
    if vs == [] then []
    else
      var v := vs[|vs| - 1];
      AccessorSymbols(vs[..|vs| - 1])
      + (if v.getBody != "" then [Getter(v.name)] else [])
      + (if v.setBody != "" then [Setter(v.name)] else [])
  }

  /** The constructor section: empty for a class without constructors,
      otherwise the constructors and, when hasDeconstructor, the
      deconstructor. */
  function LifecycleSymbols(d: Decl, hasDeconstructor: bool): seq<ExternSymbol>
  {
    if |d.constructors| == 0 then []
    else
      ConstructorSymbols(|d.constructors|, HasAbstractMethod(d))
      + (if hasDeconstructor then [Deconstructor] else [])
  }

  /** The externs of a class in emission order: the constructor section, one
      per method, then the accessors. */
  function ClassSymbols(d: Decl, hasDeconstructor: bool): seq<ExternSymbol>
  {
    LifecycleSymbols(d, hasDeconstructor) + MethodSymbols(d.methods) + AccessorSymbols(d.variables)
  }

  /** Which constructor symbols there are, and that none repeats. */
  lemma {:induction false} ConstructorSymbolsSpec(count: nat, isAbstract: bool)
    ensures forall s :: s in ConstructorSymbols(count, isAbstract) <==>
      (s.ConstructorDefault? && !isAbstract && s.n < count) || (s.ConstructorWrapper? && s.n < count)
    ensures Distinct(ConstructorSymbols(count, isAbstract))
    ensures |ConstructorSymbols(count, isAbstract)| == (if isAbstract then 1 else 2) * count
    decreases count
  {
    if count > 0 {
      ConstructorSymbolsSpec(count - 1, isAbstract);
      var before := ConstructorSymbols(count - 1, isAbstract);
      var added := (if isAbstract then [] else [ConstructorDefault(count - 1)]) + [ConstructorWrapper(count - 1)];
      assert ConstructorSymbols(count, isAbstract) == before + added;
      DistinctConcat(before, added);
    }
  }

  /** Joining two lists without repeats and without a common element gives a
      list without repeats. */
  lemma DistinctConcat<T>(a: seq<T>, b: seq<T>)
    requires Distinct(a) && Distinct(b)
    requires forall x :: x in a ==> x !in b
    ensures Distinct(a + b)
  {
    forall i, j | 0 <= i < j < |a + b|
      ensures (a + b)[i] != (a + b)[j]
    {
      if j < |a| {
        assert (a + b)[i] == a[i] && (a + b)[j] == a[j];
      } else if i >= |a| {
        assert (a + b)[i] == b[i - |a|] && (a + b)[j] == b[j - |a|];
      } else {
        assert (a + b)[i] == a[i] && (a + b)[j] == b[j - |a|];
        assert a[i] in a && b[j - |a|] in b;
      }
    }
  }

  /** Variable names do not repeat. */
  predicate DistinctFields(vs: seq<Variable>)
  {
    forall i, j :: 0 <= i < j < |vs| ==> vs[i].name != vs[j].name
  }

  /** The body an accessor needs: the get body for a getter, the set body for
      a setter. */
  predicate HasBody(v: Variable, getter: bool)
  {
    if getter then v.getBody != "" else v.setBody != ""
  }

  function Accessor(field: string, getter: bool): ExternSymbol
  {
    if getter then Getter(field) else Setter(field)
  }

  /** A getter is declared exactly for each variable with a get body, a
      setter exactly for each with a set body. */
  lemma {:induction false} AccessorDeclaredIff(vs: seq<Variable>, f: string, getter: bool)
    ensures Accessor(f, getter) in AccessorSymbols(vs) <==>
      exists k :: 0 <= k < |vs| && vs[k].name == f && HasBody(vs[k], getter)
    decreases |vs|
  {
    if vs != [] {
      var init := vs[..|vs| - 1];
      var v := vs[|vs| - 1];
      AccessorDeclaredIff(init, f, getter);
      if exists k :: 0 <= k < |vs| && vs[k].name == f && HasBody(vs[k], getter) {
        var k :| 0 <= k < |vs| && vs[k].name == f && HasBody(vs[k], getter);
        if k < |vs| - 1 {
          assert init[k] == vs[k];
        }
      }
      if exists k :: 0 <= k < |init| && init[k].name == f && HasBody(init[k], getter) {
        var k :| 0 <= k < |init| && init[k].name == f && HasBody(init[k], getter);
        assert vs[k] == init[k];
      }
    }
  }

  /** Every accessor symbol is a getter or a setter of one of the variables
      with the matching body. */
  lemma {:induction false} AccessorSymbolsFromFields(vs: seq<Variable>)
    ensures forall s :: s in AccessorSymbols(vs) ==>
      (s.Getter? || s.Setter?)
      && exists k :: 0 <= k < |vs| && vs[k].name == s.field && HasBody(vs[k], s.Getter?)
    decreases |vs|
  {
    if vs != [] {
      var init := vs[..|vs| - 1];
      AccessorSymbolsFromFields(init);
      forall s | s in AccessorSymbols(vs)
        ensures (s.Getter? || s.Setter?)
          && exists k :: 0 <= k < |vs| && vs[k].name == s.field && HasBody(vs[k], s.Getter?)
      {
        if s in AccessorSymbols(init) {
          var k :| 0 <= k < |init| && init[k].name == s.field && HasBody(init[k], s.Getter?);
          assert vs[k] == init[k];
        } else {
          assert vs[|vs| - 1].name == s.field && HasBody(vs[|vs| - 1], s.Getter?);
        }
      }
    }
  }

  /** With distinct variable names no accessor symbol repeats. */
  lemma {:induction false} AccessorSymbolsDistinct(vs: seq<Variable>)
    requires DistinctFields(vs)
    ensures Distinct(AccessorSymbols(vs))
    decreases |vs|
  {
    if vs != [] {
      var init := vs[..|vs| - 1];
      var v := vs[|vs| - 1];
      assert DistinctFields(init);
      AccessorSymbolsDistinct(init);
      AccessorSymbolsFromFields(init);
      var before := AccessorSymbols(init);
      var added := (if v.getBody != "" then [Getter(v.name)] else [])
                   + (if v.setBody != "" then [Setter(v.name)] else []);
      forall x | x in before
        ensures x !in added
      {
        var k :| 0 <= k < |init| && init[k].name == x.field && HasBody(init[k], x.Getter?);
        assert vs[k].name == x.field;
      }
      DistinctConcat(before, added);
    }
  }

  /** Methods of a class are distinct objects. */
  predicate DistinctMethods(ms: seq<Method>)
  {
    forall i, j :: 0 <= i < j < |ms| ==> ms[i] != ms[j]
  }

  /** Overloads of one name get increasing indices, so no two method symbols
      clash. */
  lemma MethodSymbolsClashFree(ms: seq<Method>)
    requires DistinctMethods(ms)
    ensures ClashFree(MethodSymbols(ms))
  {
    var r := MethodSymbols(ms);
    forall i, j | 0 <= i < j < |r|
      ensures !Clash(r[i], r[j])
    {
      if ms[i].name == ms[j].name {
        OverloadIndicesIncrease(ms, i, j);
      }
    }
  }

  /** A list without repeats whose symbols are not methods is clash free. */
  lemma DistinctIsClashFree(s: seq<ExternSymbol>)
    requires Distinct(s) && forall x :: x in s ==> !x.MethodSymbol?
    ensures ClashFree(s)
  {
    forall i, j | 0 <= i < j < |s|
      ensures !Clash(s[i], s[j])
    {
      assert s[i] in s;
    }
  }

  /** Two clash-free lists of which no symbols clash across give a clash-free
      list. */
  lemma ClashFreeConcat(a: seq<ExternSymbol>, b: seq<ExternSymbol>)
    requires ClashFree(a) && ClashFree(b)
    requires forall i, j :: 0 <= i < |a| && 0 <= j < |b| ==> !Clash(a[i], b[j])
    ensures ClashFree(a + b)
  {
    forall i, j | 0 <= i < j < |a + b|
      ensures !Clash((a + b)[i], (a + b)[j])
    {
      if j < |a| {
        assert (a + b)[i] == a[i] && (a + b)[j] == a[j];
      } else if i >= |a| {
        assert (a + b)[i] == b[i - |a|] && (a + b)[j] == b[j - |a|];
      } else {
        assert (a + b)[i] == a[i] && (a + b)[j] == b[j - |a|];
      }
    }
  }

  /** The constructor section holds only constructor and deconstructor
      symbols, and none twice. */
  lemma LifecycleSymbolsSpec(d: Decl, h: bool)
    ensures forall x :: x in LifecycleSymbols(d, h) ==> IsLifecycle(x)
    ensures Distinct(LifecycleSymbols(d, h))
  {
    if |d.constructors| > 0 {
      var cs := ConstructorSymbols(|d.constructors|, HasAbstractMethod(d));
      ConstructorSymbolsSpec(|d.constructors|, HasAbstractMethod(d));
      DistinctConcat(cs, if h then [Deconstructor] else []);
    }
  }

  /** With distinct method objects and distinct variable names, no two
      externs of a class clash. */
  lemma ClassSymbolsClashFree(d: Decl, h: bool)
    requires DistinctMethods(d.methods) && DistinctFields(d.variables)
    ensures ClashFree(ClassSymbols(d, h))
  {
    var life := LifecycleSymbols(d, h);
    var ms := MethodSymbols(d.methods);
    var acc := AccessorSymbols(d.variables);
    LifecycleSymbolsSpec(d, h);
    DistinctIsClashFree(life);
    MethodSymbolsClashFree(d.methods);
    AccessorSymbolsDistinct(d.variables);
    AccessorSymbolsFromFields(d.variables);
    DistinctIsClashFree(acc);
    forall i, j | 0 <= i < |life| && 0 <= j < |ms|
      ensures !Clash(life[i], ms[j])
    {
      assert life[i] in life;
    }
    ClashFreeConcat(life, ms);
    forall i, j | 0 <= i < |life + ms| && 0 <= j < |acc|
      ensures !Clash((life + ms)[i], acc[j])
    {
      assert acc[j] in acc;
      if i < |life| {
        assert (life + ms)[i] == life[i] && life[i] in life;
      } else {
        assert (life + ms)[i] == ms[i - |life|];
      }
    }
    ClashFreeConcat(life + ms, acc);
  }

  /** Two variables of one name, both with a get body, declare the same
      getter twice: the accessor externs then repeat. */
  lemma {:induction false} SameNamedGettersRepeat(vs: seq<Variable>, i: nat, j: nat)
    requires i < j < |vs| && vs[i].name == vs[j].name && vs[i].getBody != "" && vs[j].getBody != ""
    ensures !Distinct(AccessorSymbols(vs))
    decreases |vs|
  {
    var init := vs[..|vs| - 1];
    var a := AccessorSymbols(init);
    assert init[i] == vs[i];
    if j < |vs| - 1 {
      assert init[j] == vs[j];
      SameNamedGettersRepeat(init, i, j);
      var p, q :| 0 <= p < q < |a| && a[p] == a[q];
      assert AccessorSymbols(vs)[p] == a[p] && AccessorSymbols(vs)[q] == a[q];
    } else {
      AccessorDeclaredIff(init, vs[j].name, true);
      assert Accessor(vs[j].name, true) == Getter(vs[j].name);
      var p :| 0 <= p < |a| && a[p] == Getter(vs[j].name);
      assert AccessorSymbols(vs)[p] == Getter(vs[j].name) == AccessorSymbols(vs)[|a|];
    }
  }

  /** The extern names of a list of symbols. */
  function ExternNames(className: string, syms: seq<ExternSymbol>): (r: seq<string>)
    ensures |r| == |syms|
  {
    seq(|syms|, k requires 0 <= k < |syms| => ExternName(className, syms[k]))
  }

  lemma ExternNamesSnoc(className: string, syms: seq<ExternSymbol>, s: ExternSymbol)
    ensures ExternNames(className, syms + [s]) == ExternNames(className, syms) + [ExternName(className, s)]
  {
  }

  lemma ExternNamesConcat(className: string, a: seq<ExternSymbol>, b: seq<ExternSymbol>)
    ensures ExternNames(className, a + b) == ExternNames(className, a) + ExternNames(className, b)
  {
  }

  /** Symbols that do not clash get pairwise distinct names. */
  lemma ExternNamesDistinct(className: string, syms: seq<ExternSymbol>)
    requires ClashFree(syms)
    ensures Distinct(ExternNames(className, syms))
  {
    var names := ExternNames(className, syms);
    forall i, j | 0 <= i < j < |names|
      ensures names[i] != names[j]
    {
      ExternNameInjective(className, syms[i], syms[j]);
    }
  }

  /** Every extern a class declares has a name of its own. */
  lemma ClassExternNamesDistinct(d: Decl, h: bool)
    requires DistinctMethods(d.methods) && DistinctFields(d.variables)
    ensures Distinct(ExternNames(d.name, ClassSymbols(d, h)))
  {
    ClassSymbolsClashFree(d, h);
    ExternNamesDistinct(d.name, ClassSymbols(d, h));
  }

  /** A repetition in the tail of a list is one in the whole list. */
  lemma RepeatInTail<T>(front: seq<T>, tail: seq<T>)
    requires !Distinct(tail)
    ensures !Distinct(front + tail)
  {
    var p, q :| 0 <= p < q < |tail| && tail[p] == tail[q];
    assert (front + tail)[|front| + p] == (front + tail)[|front| + q];
  }

  /** Symbols that repeat give names that repeat. */
  lemma RepeatedNames(className: string, syms: seq<ExternSymbol>)
    requires !Distinct(syms)
    ensures !Distinct(ExternNames(className, syms))
  {
    var p, q :| 0 <= p < q < |syms| && syms[p] == syms[q];
    assert ExternNames(className, syms)[p] == ExternNames(className, syms)[q];
  }

  /** Without distinct variable names the condition above is needed: two
      `var` lines of one name with get bodies make a class declare the same
      extern name twice, which nothing in the parser rejects. */
  lemma ClassExternNamesRepeat(d: Decl, h: bool, i: nat, j: nat)
    requires i < j < |d.variables| && d.variables[i].name == d.variables[j].name
    requires d.variables[i].getBody != "" && d.variables[j].getBody != ""
    ensures !Distinct(ExternNames(d.name, ClassSymbols(d, h)))
  {
    SameNamedGettersRepeat(d.variables, i, j);
    var front := LifecycleSymbols(d, h) + MethodSymbols(d.methods);
    RepeatedNames(d.name, AccessorSymbols(d.variables));
    RepeatInTail(ExternNames(d.name, front), ExternNames(d.name, AccessorSymbols(d.variables)));
    ExternNamesConcat(d.name, front, AccessorSymbols(d.variables));
  }


  /** The constructor externs of a class: a default constructor per
      constructor position of a class that is not abstract, a wrapper per
      position, and the deconstructor when the class has constructors and may
      be deconstructed. */
  lemma ClassLifecycleMembers(d: Decl, h: bool)
    ensures forall n: nat :: ConstructorDefault(n) in ClassSymbols(d, h) <==>
      n < |d.constructors| && !HasAbstractMethod(d)
    ensures forall n: nat :: ConstructorWrapper(n) in ClassSymbols(d, h) <==> n < |d.constructors|
    ensures Deconstructor in ClassSymbols(d, h) <==> |d.constructors| > 0 && h
  {
    var isAbstract := HasAbstractMethod(d);
    var count := |d.constructors|;
    ConstructorSymbolsSpec(count, isAbstract);
    forall n: nat
      ensures ConstructorDefault(n) in ClassSymbols(d, h) <==> n < count && !isAbstract
    {
      LifecycleMember(d, h, ConstructorDefault(n));
    }
    forall n: nat
      ensures ConstructorWrapper(n) in ClassSymbols(d, h) <==> n < count
    {
      LifecycleMember(d, h, ConstructorWrapper(n));
    }
    LifecycleMember(d, h, Deconstructor);
  }

  /** A constructor or deconstructor symbol can only come from the constructor
      section. */
  lemma LifecycleMember(d: Decl, h: bool, x: ExternSymbol)
    requires IsLifecycle(x)
    ensures x in ClassSymbols(d, h) <==> x in LifecycleSymbols(d, h)
  {
    var rest := MethodSymbols(d.methods) + AccessorSymbols(d.variables);
    AccessorSymbolsFromFields(d.variables);
    assert x !in MethodSymbols(d.methods);
    assert ClassSymbols(d, h) == LifecycleSymbols(d, h) + rest;
  }

  /** Each method of the class has one extern, under its overload index. */
  lemma ClassMethodMembers(d: Decl, h: bool)
    ensures forall m, i :: MethodSymbol(m, i) in ClassSymbols(d, h) <==>
      m in d.methods && i == UniqueIndex(d.methods, m)
  {
    var ms := MethodSymbols(d.methods);
    LifecycleSymbolsSpec(d, h);
    AccessorSymbolsFromFields(d.variables);
    forall m, i
      ensures MethodSymbol(m, i) in ClassSymbols(d, h) <==>
        m in d.methods && i == UniqueIndex(d.methods, m)
    {
      if m in d.methods && i == UniqueIndex(d.methods, m) {
        var k :| 0 <= k < |d.methods| && d.methods[k] == m;
        assert ms[k] == MethodSymbol(m, i);
      }
    }
  }

  /** A getter exists exactly for the variables with a get body and a setter
      exactly for those with a set body. */
  lemma ClassAccessorMembers(d: Decl, h: bool)
    ensures forall f, getter :: Accessor(f, getter) in ClassSymbols(d, h) <==>
      exists k :: 0 <= k < |d.variables| && d.variables[k].name == f && HasBody(d.variables[k], getter)
  {
    LifecycleSymbolsSpec(d, h);
    var ms := MethodSymbols(d.methods);
    assert forall x :: x in ms ==> x.MethodSymbol?;
    forall f, getter
      ensures Accessor(f, getter) in ClassSymbols(d, h) <==>
        exists k :: 0 <= k < |d.variables| && d.variables[k].name == f && HasBody(d.variables[k], getter)
    {
      AccessorDeclaredIff(d.variables, f, getter);
    }
  }
}
