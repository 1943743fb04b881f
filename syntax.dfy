// The vocabulary of the interface language and what each statement does to
// the declaration it belongs to: the type lines shared by types, classes,
// structs and enums, the global options, the class options, argument
// directions, text blocks, and the defaults the finalizers fill in.

module Syntax {
  import opened Text
  import opened Symbols

  /** How a parse routine ends: it returns true, it returns false (after a
      diagnostic), or an exception escapes from it. */
  datatype Outcome = Success | Failure | Thrown

  /** WrapperParser.ParseResult. */
  datatype LineResult = Unknown | Found | Error

  // ---------------------------------------------------------------------
  // Type lines (parseTypeLine)

  /** The text fields of a declaration that type lines set. */
  datatype Field =
    | CppName | CppType | CppInclude | CppInPass | CppOutPass | CppInConvert | CppOutConvert
    | CsName | CsType | CsInPass | CsOutPass | CsInConvert | CsOutConvert

  function Get(d: Decl, f: Field): string
  {
    match f
    case CppName => d.cppName
    case CppType => d.cppType
    case CppInclude => d.cppInclude
    case CppInPass => d.cppInPass
    case CppOutPass => d.cppOutPass
    case CppInConvert => d.cppInConvert
    case CppOutConvert => d.cppOutConvert
    case CsName => d.csName
    case CsType => d.csType
    case CsInPass => d.csInPass
    case CsOutPass => d.csOutPass
    case CsInConvert => d.csInConvert
    case CsOutConvert => d.csOutConvert
  }

  function Set(d: Decl, f: Field, value: string): (r: Decl)
    ensures r.kind == d.kind && r.name == d.name && r.parentContext == d.parentContext
    ensures r.context == d.context
  {
    match f
    case CppName => d.(cppName := value)
    case CppType => d.(cppType := value)
    case CppInclude => d.(cppInclude := value)
    case CppInPass => d.(cppInPass := value)
    case CppOutPass => d.(cppOutPass := value)
    case CppInConvert => d.(cppInConvert := value)
    case CppOutConvert => d.(cppOutConvert := value)
    case CsName => d.(csName := value)
    case CsType => d.(csType := value)
    case CsInPass => d.(csInPass := value)
    case CsOutPass => d.(csOutPass := value)
    case CsInConvert => d.(csInConvert := value)
    case CsOutConvert => d.(csOutConvert := value)
  }

  /** The fields the type line with lower-case keyword kw sets: one each,
      except the two "pass" keywords, which set the in and the out variant;
      none for a word that is not a type keyword. */
  function FieldsSetBy(kw: string): seq<Field>
  {
    if kw == "csname" then [CsName]
    else if kw == "cstype" then [CsType]
    else if kw == "cspass" then [CsInPass, CsOutPass]
    else if kw == "cppname" then [CppName]
    else if kw == "cpptype" then [CppType]
    else if kw == "cpppass" then [CppInPass, CppOutPass]
    else if kw == "cppoutpass" then [CppOutPass]
    else if kw == "cppinpass" then [CppInPass]
    else if kw == "csoutpass" then [CsOutPass]
    else if kw == "csinpass" then [CsInPass]
    else if kw == "cppinclude" then [CppInclude]
    else if kw == "cppinconvert" then [CppInConvert]
    else if kw == "cppoutconvert" then [CppOutConvert]
    else if kw == "csinconvert" then [CsInConvert]
    else if kw == "csoutconvert" then [CsOutConvert]
    else []
  }

  /** The words parseTypeLine recognises. */
  predicate IsTypeKeyword(kw: string)
  {
    FieldsSetBy(kw) != []
  }

  /** The declaration with every field of fs set to value. */
  function SetAll(d: Decl, fs: seq<Field>, value: string): (r: Decl)
    ensures r.kind == d.kind && r.name == d.name && r.parentContext == d.parentContext
    ensures r.context == d.context
  {
    if fs == [] then d else Set(SetAll(d, fs[..|fs| - 1], value), fs[|fs| - 1], value)
  }

  /** The declaration after the type line `kw value`. */
  function SetTypeField(d: Decl, kw: string, value: string): Decl
  {
    SetAll(d, FieldsSetBy(kw), value)
  }

  /** Two declarations agree on everything but the text fields of type lines. */
  predicate SameButTypeFields(a: Decl, b: Decl)
  {
    a == b.(cppName := a.cppName, cppType := a.cppType, cppInclude := a.cppInclude,
            cppInPass := a.cppInPass, cppOutPass := a.cppOutPass, cppInConvert := a.cppInConvert,
            cppOutConvert := a.cppOutConvert, csName := a.csName, csType := a.csType,
            csInPass := a.csInPass, csOutPass := a.csOutPass, csInConvert := a.csInConvert,
            csOutConvert := a.csOutConvert)
  }

  /** Setting one field changes that field... */
  lemma SetExact(d: Decl, f: Field, value: string, g: Field)
    ensures Get(Set(d, f, value), g) == if g == f then value else Get(d, g)
  {
    match f
    case CppName =>
    case CppType =>
    case CppInclude =>
    case CppInPass =>
    case CppOutPass =>
    case CppInConvert =>
    case CppOutConvert =>
    case CsName =>
    case CsType =>
    case CsInPass =>
    case CsOutPass =>
    case CsInConvert =>
    case CsOutConvert =>
  }

  /** ... and nothing outside the type fields. */
  lemma SetFrame(d: Decl, f: Field, value: string)
    ensures SameButTypeFields(d, Set(d, f, value))
  {
  }

  /** A type line sets exactly the fields of its keyword to the value... */
  lemma {:induction false} SetAllExact(d: Decl, fs: seq<Field>, value: string, g: Field)
    ensures Get(SetAll(d, fs, value), g) == if g in fs then value else Get(d, g)
  {
    if fs != [] {
      var init := fs[..|fs| - 1];
      SetAllExact(d, init, value, g);
      SetExact(SetAll(d, init, value), fs[|fs| - 1], value, g);
      assert g in fs <==> g in init || g == fs[|fs| - 1] by {
        assert fs == init + [fs[|fs| - 1]];
      }
    }
  }

  /** ... and leaves every other field as it was. */
  lemma {:induction false} SetAllFrame(d: Decl, fs: seq<Field>, value: string)
    ensures SameButTypeFields(d, SetAll(d, fs, value))
  {
    if fs != [] {
      SetAllFrame(d, fs[..|fs| - 1], value);
      SetFrame(SetAll(d, fs[..|fs| - 1], value), fs[|fs| - 1], value);
    }
  }

  /** Each type keyword sets one field, or the in and out variants of one
      passing type. */
  lemma TypeKeywordFields(kw: string)
    requires IsTypeKeyword(kw)
    ensures |FieldsSetBy(kw)| == 1
         || FieldsSetBy(kw) == [CsInPass, CsOutPass] || FieldsSetBy(kw) == [CppInPass, CppOutPass]
  {
  }

  // ---------------------------------------------------------------------
  // Global options (parseGlobalOption)

  const GlobalOptions: set<string> := {"cppoutputpath", "csoutputpath", "cppincreaseref", "cppdecreaseref"}

  // ---------------------------------------------------------------------
  // Class options (parseClassLine)

  const NoRefCountConstruct := "$result = new $langtype($args);\n"
  const NoRefCountDeconstruct := "$result = ($langtype*)$input; delete $result;\n"

  /** The declaration after a "cppnorefcount" line: plain new and delete, no
      wrapper reference, and construction and destruction made explicit. */
  function NoRefCount(d: Decl): (r: Decl)
    ensures r.explicitConstruction && r.explicitDeconstruction
    ensures r.cppConstruct == NoRefCountConstruct && r.cppDeconstruct == NoRefCountDeconstruct
    ensures forall f: Field :: Get(r, f) == Get(d, f)
  {
    d.(cppConstruct := NoRefCountConstruct, cppDeconstruct := NoRefCountDeconstruct,
       cppWrapperConstruct := "//No ref count\n",
       explicitConstruction := true, explicitDeconstruction := true)
  }

  // ---------------------------------------------------------------------
  // Arguments and variables (parseArgs, parseVar)

  /** The direction keyword of an argument, as (moveIn, moveOut). */
  function Direction(lower: string): (r: Option<(bool, bool)>)
    ensures r.Some? <==> lower in {"in", "out", "inout"}
    ensures r.Some? ==> r.value.0 || r.value.1
    ensures r.Some? ==> (r.value.0 <==> lower != "out") && (r.value.1 <==> lower != "in")
  {
    if lower == "in" then Some((true, false))
    else if lower == "out" then Some((false, true))
    else if lower == "inout" then Some((true, true))
    else None
  }

  const RefGetBody := "$result = &($obj->$varname);"
  const RefSetBody := "$obj->$varname = *($input);"

  // ---------------------------------------------------------------------
  // Finalizers

  /** finalizeTypeVar: "$langtype" in a non-empty field becomes the name. */
  function FinalizeTypeVar(input: string, langtype: string): string
  {
    if input == "" then input else Replace(input, "$langtype", langtype)
  }

  /** A field still holding the struct default "$langtype" gets the name. */
  lemma {:induction false} LangtypeBecomesName(langtype: string)
    ensures FinalizeTypeVar("$langtype", langtype) == langtype
  {
    var p := "$langtype";
    assert p <= p;
    assert p[|p|..] == [];
    assert Replace([], p, langtype) == [];
    assert langtype + [] == langtype;
  }

  /** A field without "$langtype" is left as it is. */
  lemma FinalizeTypeVarAbsent(input: string, langtype: string)
    requires forall k :: 0 <= k < |input| ==> !("$langtype" <= input[k..])
    ensures FinalizeTypeVar(input, langtype) == input
  {
    if input != "" {
      ReplaceAbsent(input, "$langtype", langtype);
    }
  }

  const ConvertObjectOut := "$result = CppCSharpBridge::ConvertObjectOut(($langtype*)$input);"
  const CsObjectOut := "$result = $input != null ? $input.getCPtr() : IntPtr.Zero;"
  const CsPointerIn := "$result = new $langtype($input);"
  const CppObjectIn := "$result = ($input == nullptr) ? nullptr : new $langtype($input);\n"

  /** A default applies only to an empty field. */
  function Default(field: string, value: string): string
  {
    if field == "" then value else field
  }

  /** What finalizeClass makes of a class: for a class exposed to the
      managed side, empty fields get defaults and the class is passed by
      reference ("class") when polymorphic or constructible by the wrapper,
      by pointer otherwise; a class implemented on the managed side is always
      a "class". */
  function FinalizedClass(d: Decl, increaseRef: string, decreaseRef: string, polymorphic: bool): Decl
  {
    if d.interfaceType == CppToCSharp then
      var e := ManagedDefaults(d, increaseRef, decreaseRef);
      if ByReference(d, polymorphic) then e.(classType := "class") else ByPointer(e, d.cppName)
    else NativeDefaults(d)
  }

  /** A class exposed to the managed side is passed by reference when it is
      polymorphic or the wrapper constructs it. */
  predicate ByReference(d: Decl, polymorphic: bool)
  {
    polymorphic || (|d.constructors| > 0 && !d.explicitConstruction)
  }

  /** The defaults of a class exposed to the managed side. */
  function ManagedDefaults(d: Decl, increaseRef: string, decreaseRef: string): Decl
  {
    d.(cppType := Default(d.cppType, d.cppName + "*"),
       cppInPass := Default(d.cppInPass, d.cppName + "*"),
       cppOutPass := Default(d.cppOutPass, "MonoObject*"),
       csType := Default(d.csType, d.csName),
       csInPass := Default(d.csInPass, d.csName),
       csOutPass := Default(d.csOutPass, "IntPtr"),
       cppConstruct := Default(d.cppConstruct, "$result = new $langtype($args);\n" + increaseRef + "\n"),
       cppDeconstruct := Default(d.cppDeconstruct, "$result = ($langtype*)$input;\n if($result) { " + decreaseRef + " }\n"),
       cppWrapperConstruct := Default(d.cppWrapperConstruct, increaseRef + "\n"),
       cppOutConvert := ConvertObjectOut,
       csOutConvert := CsObjectOut)
  }

  /** A class passed by pointer: no wrapper reference, and an IntPtr on the managed side. */
  function ByPointer(e: Decl, cppName: string): Decl
  {
    e.(cppWrapperConstruct := "//No ref count", cppOutPass := cppName + "*", csInPass := "IntPtr",
       cppOutConvert := "", csInConvert := CsPointerIn)
  }

  /** The defaults of a class implemented on the managed side. */
  function NativeDefaults(d: Decl): Decl
  {
    d.(classType := "class",
       cppInclude := Default(d.cppInclude, "#include \"" + d.name + "\""),
       cppType := Default(d.cppType, d.cppName + "*"),
       cppInPass := Default(d.cppInPass, "MonoObject*"),
       cppOutPass := Default(d.cppOutPass, "MonoObject*"),
       csType := Default(d.csType, d.csName),
       csInPass := Default(d.csInPass, d.csName),
       csOutPass := Default(d.csOutPass, d.csName),
       cppInConvert := CppObjectIn)
  }

  /** The passing decision for a class exposed to the managed side: by
      reference exactly when polymorphic or constructible without explicit
      construction; otherwise by pointer, passed as IntPtr, with no native
      out-conversion. */
  lemma FinalizedPassing(d: Decl, inc: string, dec: string, polymorphic: bool)
    requires d.interfaceType == CppToCSharp && d.classType != "class"
    ensures var r := FinalizedClass(d, inc, dec, polymorphic);
      (r.classType == "class" <==> ByReference(d, polymorphic))
      && (r.classType != "class" ==>
            r.cppOutPass == d.cppName + "*" && r.csInPass == "IntPtr" && r.cppOutConvert == ""
            && r.csInConvert == CsPointerIn)
      && (r.classType == "class" ==> r.cppOutConvert == ConvertObjectOut)
  {
    var e := ManagedDefaults(d, inc, dec);
    assert e.classType == d.classType && e.cppOutConvert == ConvertObjectOut;
  }

  /** Defaults never overwrite: a type the declaration set keeps its value
      (the passing fields the by-pointer decision rewrites aside). */
  lemma FinalizedKeepsSetFields(d: Decl, inc: string, dec: string, polymorphic: bool)
    ensures var r := FinalizedClass(d, inc, dec, polymorphic);
      (d.cppType != "" ==> r.cppType == d.cppType)
      && (d.cppInPass != "" ==> r.cppInPass == d.cppInPass)
      && (d.csType != "" ==> r.csType == d.csType)
      && (d.csOutPass != "" ==> r.csOutPass == d.csOutPass)
  {
    if d.interfaceType == CppToCSharp {
      var e := ManagedDefaults(d, inc, dec);
      assert e.cppType == Default(d.cppType, d.cppName + "*");
      assert e.cppInPass == Default(d.cppInPass, d.cppName + "*");
      assert e.csType == Default(d.csType, d.csName);
      assert e.csOutPass == Default(d.csOutPass, "IntPtr");
    } else {
      var r := NativeDefaults(d);
      assert r.cppType == Default(d.cppType, d.cppName + "*");
      assert r.cppInPass == Default(d.cppInPass, "MonoObject*");
      assert r.csType == Default(d.csType, d.csName);
      assert r.csOutPass == Default(d.csOutPass, d.csName);
    }
  }

  /** A construction or destruction the class spelled out is kept; an empty
      one gets the reference-counting default. */
  lemma FinalizedLifecycle(d: Decl, inc: string, dec: string, polymorphic: bool)
    requires d.interfaceType == CppToCSharp
    ensures var r := FinalizedClass(d, inc, dec, polymorphic);
      r.cppConstruct == Default(d.cppConstruct, "$result = new $langtype($args);\n" + inc + "\n")
      && r.cppDeconstruct == Default(d.cppDeconstruct, "$result = ($langtype*)$input;\n if($result) { " + dec + " }\n")
  {
    var e := ManagedDefaults(d, inc, dec);
    assert e.cppConstruct == Default(d.cppConstruct, "$result = new $langtype($args);\n" + inc + "\n");
    assert e.cppDeconstruct == Default(d.cppDeconstruct, "$result = ($langtype*)$input;\n if($result) { " + dec + " }\n");
  }

  /** After finalizeClass the native type and both native passing types are
      set, and a class implemented on the managed side is a "class". */
  lemma FinalizedComplete(d: Decl, inc: string, dec: string, polymorphic: bool)
    ensures var r := FinalizedClass(d, inc, dec, polymorphic);
      r.cppType != "" && r.cppInPass != "" && r.cppOutPass != ""
      && (d.interfaceType == CSharpToCpp ==> r.classType == "class")
  {
    if d.interfaceType == CppToCSharp {
      var e := ManagedDefaults(d, inc, dec);
      assert e.cppType == Default(d.cppType, d.cppName + "*");
      assert e.cppInPass == Default(d.cppInPass, d.cppName + "*");
      assert e.cppOutPass == Default(d.cppOutPass, "MonoObject*");
    } else {
      var r := NativeDefaults(d);
      assert r.cppType == Default(d.cppType, d.cppName + "*");
      assert r.cppInPass == Default(d.cppInPass, "MonoObject*");
      assert r.cppOutPass == Default(d.cppOutPass, "MonoObject*");
    }
  }

  /** finalizeClass keeps what identifies the class and where it is filed. */
  lemma FinalizedIdentity(d: Decl, inc: string, dec: string, polymorphic: bool)
    ensures var r := FinalizedClass(d, inc, dec, polymorphic);
      r.name == d.name && r.kind == d.kind && r.parentContext == d.parentContext && r.context == d.context
  {
    if d.interfaceType == CppToCSharp {
      var e := ManagedDefaults(d, inc, dec);
      assert e.name == d.name && e.kind == d.kind && e.parentContext == d.parentContext && e.context == d.context;
    }
  }

  /** ... and its members and base class: it only fills in how it is named and passed. */
  lemma FinalizedKeepsMembers(d: Decl, inc: string, dec: string, polymorphic: bool)
    ensures var r := FinalizedClass(d, inc, dec, polymorphic);
      r.parentClass == d.parentClass && r.constructors == d.constructors
      && r.methods == d.methods && r.variables == d.variables && r.interfaceType == d.interfaceType
  {
    if d.interfaceType == CppToCSharp {
      var e := ManagedDefaults(d, inc, dec);
      assert e.parentClass == d.parentClass && e.constructors == d.constructors
        && e.methods == d.methods && e.variables == d.variables && e.interfaceType == d.interfaceType;
    }
  }
}
