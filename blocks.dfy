// What the body of a block does to the declaration it builds, line by line,
// as functions of the lines: the type lines that types, classes, structs and
// enums share (parseTypeLine inside each block loop), and the body of an
// enum block, whose other lines are its values.

module Blocks {
  import opened Text
  import opened Symbols
  import opened Lexing
  import opened Syntax
  import opened Members

  /** The declaration parseType starts from: a plain type whose native and
      managed type and passing types are all its name. */
  function TypeHeader(name: string, ctx: ScopeId): (d: Decl)
    ensures d.kind == PlainKind && d.name == name && d.parentContext == Some(ctx) && d.context == 0
  {
    NewDecl(PlainKind, name).(cppType := name, cppInPass := name, cppOutPass := name,
                              csType := name, csInPass := name, csOutPass := name,
                              parentContext := Some(ctx))
  }

  /** One type line with first word w: the declaration afterwards, or None
      for a type keyword without a value (other than cppinclude). A word
      that is not a type keyword leaves the declaration as it was. */
  function TypeLineStep(d: Decl, l: string, w: string): Option<Decl>
  {
    var kw := ToLower(w);
    if !IsTypeKeyword(kw) then Some(d)
    else if kw != "cppinclude" && RestOfLine(l) == "" then None
    else Some(SetTypeField(d, kw, RestOfLine(l)))
  }

  /** One body line of a type block: a statement is a type line; a blank or
      comment line changes nothing. */
  function TypeBodyStep(d: Decl, l: string): Option<Decl>
  {
    match StatementOf(l)
    case Keyword(w) => TypeLineStep(d, l, w)
    case _ => Some(d)
  }

  /** Lines lo .. hi-1 of a type block's body, applied in order from d;
      None once a line is in error. */
  function TypeBody(d: Decl, ls: seq<string>, lo: nat, hi: nat): Option<Decl>
    requires lo <= hi <= |ls|
    decreases hi
  {
    if hi == lo then Some(d)
    else match TypeBody(d, ls, lo, hi - 1)
      case None => None
      case Some(e) => TypeBodyStep(e, ls[hi - 1])
  }

  /** No line strictly between open and close closes the block. */
  predicate NoClosing(ls: seq<string>, open: int, close: int)
    requires 0 <= open && close <= |ls|
    decreases close
  {
    close <= open + 1 || (NoClosing(ls, open, close - 1) && StatementOf(ls[close - 1]) != Closing)
  }

  /** NoClosing says of every line strictly between open and close that it
      does not close the block. */
  lemma {:induction false} NoClosingEvery(ls: seq<string>, open: int, close: int)
    requires 0 <= open && close <= |ls|
    ensures NoClosing(ls, open, close) <==> forall k :: open < k < close ==> StatementOf(ls[k]) != Closing
    decreases close
  {
    if close > open + 1 {
      NoClosingEvery(ls, open, close - 1);
    }
  }

  /** A block closes at the first closing line after its opening line, so
      its closing line is determined by where it opens. */
  lemma ClosedBodyUnique(ls: seq<string>, open: int, c1: int, c2: int)
    requires ClosedBody(ls, open, c1) && ClosedBody(ls, open, c2)
    ensures c1 == c2
  {
    NoClosingEvery(ls, open, c1);
    NoClosingEvery(ls, open, c2);
  }

  /** Lines open+1 .. close-1 are the body of a block whose opening line is
      open and whose closing line is close: the first line after open whose
      first word starts with "}". */
  predicate ClosedBody(ls: seq<string>, open: int, close: int)
  {
    0 <= open < close < |ls| && StatementOf(ls[close]) == Closing && NoClosing(ls, open, close)
  }

  /** A body line that does not close the block extends a type body by
      one line. */
  lemma TypeBodyGrow(d0: Decl, d: Decl, r: Decl, ls: seq<string>, open: nat, k: nat)
    requires open < k < |ls|
    requires NoClosing(ls, open, k) && TypeBody(d0, ls, open + 1, k) == Some(d)
    requires StatementOf(ls[k]) != Closing && TypeBodyStep(d, ls[k]) == Some(r)
    ensures NoClosing(ls, open, k + 1) && TypeBody(d0, ls, open + 1, k + 1) == Some(r)
  {
  }

  /** Type lines never change what a declaration is or where it is filed. */
  lemma {:induction false} TypeBodyKeeps(d0: Decl, ls: seq<string>, lo: nat, hi: nat)
    requires lo <= hi <= |ls| && TypeBody(d0, ls, lo, hi).Some?
    ensures var d := TypeBody(d0, ls, lo, hi).value;
      (d.kind == d0.kind && d.name == d0.name && d.parentContext == d0.parentContext && d.context == d0.context)
    decreases hi
  {
    if hi > lo {
      TypeBodyKeeps(d0, ls, lo, hi - 1);
    }
  }

  /** The type declared by `type name` in context ctx whose block opens at
      line open and closes at line close. */
  function TypeBlock(ls: seq<string>, open: nat, close: nat, name: string, ctx: ScopeId): Option<Decl>
    requires open < close <= |ls|
  {
    TypeBody(TypeHeader(name, ctx), ls, open + 1, close)
  }

  // ---------------------------------------------------------------------
  // Enum blocks (parseEnum)

  const EnumInConvert := "$result = ($langtype)$input;"
  const EnumOutConvert := "$result = (int)$input;"

  /** The declaration parseEnum starts from: passed as an int both ways,
      converted by casts, with the base type of its heading. */
  function EnumHeader(name: string, base: string, ctx: ScopeId): (d: Decl)
    ensures d.kind == EnumKind && d.name == name && d.parentContext == Some(ctx) && d.context == 0
  {
    NewDecl(EnumKind, name).(enumType := base,
                             cppInPass := "int", cppOutPass := "int", csInPass := "int", csOutPass := "int",
                             cppInConvert := EnumInConvert, cppOutConvert := EnumOutConvert,
                             csInConvert := EnumInConvert, csOutConvert := EnumOutConvert,
                             parentContext := Some(ctx))
  }

  /** One body line of an enum block: a type line, or, for any other
      statement, a value read from the start of the line. */
  function EnumBodyStep(d: Decl, l: string): Option<Decl>
  {
    match StatementOf(l)
    case Keyword(w) =>
      if IsTypeKeyword(ToLower(w)) then TypeLineStep(d, l, w)
      else Some(d.(vars := d.vars + [EnumVarOf(l)]))
    case _ => Some(d)
  }

  /** Lines lo .. hi-1 of an enum block's body, applied in order from d. */
  function EnumBody(d: Decl, ls: seq<string>, lo: nat, hi: nat): Option<Decl>
    requires lo <= hi <= |ls|
    decreases hi
  {
    if hi == lo then Some(d)
    else match EnumBody(d, ls, lo, hi - 1)
      case None => None
      case Some(e) => EnumBodyStep(e, ls[hi - 1])
  }

  /** A body line that does not close the block extends an enum body by
      one line. */
  lemma EnumBodyGrow(d0: Decl, d: Decl, r: Decl, ls: seq<string>, open: nat, k: nat)
    requires open < k < |ls|
    requires NoClosing(ls, open, k) && EnumBody(d0, ls, open + 1, k) == Some(d)
    requires StatementOf(ls[k]) != Closing && EnumBodyStep(d, ls[k]) == Some(r)
    ensures NoClosing(ls, open, k + 1) && EnumBody(d0, ls, open + 1, k + 1) == Some(r)
  {
  }

  /** The enum declared by `enum name : base` in context ctx whose block
      opens at line open and closes at line close. */
  function EnumBlock(ls: seq<string>, open: nat, close: nat, name: string, base: string, ctx: ScopeId): Option<Decl>
    requires open < close <= |ls|
  {
    EnumBody(EnumHeader(name, base, ctx), ls, open + 1, close)
  }

  /** The values of lines lo .. hi-1: one per statement line whose keyword
      is not a type keyword, in order. */
  function EnumValues(ls: seq<string>, lo: nat, hi: nat): seq<EnumVar>
    requires lo <= hi <= |ls|
    decreases hi
  {
    if hi == lo then []
    else
      EnumValues(ls, lo, hi - 1) + LineValues(ls[hi - 1])
  }

  /** The value one line of an enum body contributes, if any. */
  function LineValues(l: string): seq<EnumVar>
  {
    match StatementOf(l)
    case Keyword(w) => if IsTypeKeyword(ToLower(w)) then [] else [EnumVarOf(l)]
    case _ => []
  }

  /** One body line adds its value, if any, and keeps what the enum is. */
  lemma EnumStepKeeps(e: Decl, l: string)
    requires EnumBodyStep(e, l).Some?
    ensures var r := EnumBodyStep(e, l).value;
      r.vars == e.vars + LineValues(l)
      && r.kind == e.kind && r.name == e.name && r.parentContext == e.parentContext
      && r.context == e.context && r.enumType == e.enumType
  {
    match StatementOf(l)
    case Keyword(w) =>
      if IsTypeKeyword(ToLower(w)) {
        var kw := ToLower(w);
        if RestOfLine(l) != "" || kw == "cppinclude" {
          SetAllFrame(e, FieldsSetBy(kw), RestOfLine(l));
        }
      }
    case _ =>
  }

  /** No line of an enum body changes what the enum is, where it is filed
      or its base type. */
  lemma {:induction false} EnumBodyKeeps(d0: Decl, ls: seq<string>, lo: nat, hi: nat)
    requires lo <= hi <= |ls| && EnumBody(d0, ls, lo, hi).Some?
    ensures var d := EnumBody(d0, ls, lo, hi).value;
      d.kind == d0.kind && d.name == d0.name && d.parentContext == d0.parentContext
      && d.context == d0.context && d.enumType == d0.enumType
    decreases hi
  {
    if hi > lo {
      EnumBodyKeeps(d0, ls, lo, hi - 1);
      EnumStepKeeps(EnumBody(d0, ls, lo, hi - 1).value, ls[hi - 1]);
    }
  }

  /** An enum's values are its value lines in order, whatever type lines
      come between them. */
  lemma {:induction false} EnumBodyValues(d0: Decl, ls: seq<string>, lo: nat, hi: nat)
    requires lo <= hi <= |ls| && EnumBody(d0, ls, lo, hi).Some?
    ensures EnumBody(d0, ls, lo, hi).value.vars == d0.vars + EnumValues(ls, lo, hi)
    decreases hi
  {
    if hi > lo {
      EnumBodyValues(d0, ls, lo, hi - 1);
      var e := EnumBody(d0, ls, lo, hi - 1).value;
      var l := ls[hi - 1];
      assert EnumBody(d0, ls, lo, hi) == EnumBodyStep(e, l);
      EnumStepKeeps(e, l);
      var d := EnumBodyStep(e, l).value;
      assert EnumValues(ls, lo, hi) == EnumValues(ls, lo, hi - 1) + LineValues(l);
      ConcatAssoc(d0.vars, EnumValues(ls, lo, hi - 1), LineValues(l));
      assert d.vars == d0.vars + EnumValues(ls, lo, hi);
    }
  }

  // ---------------------------------------------------------------------
  // Class and struct blocks (parseClass, parseStruct)

  /** The declaration a class or struct block is building, seen from the
      outside: what it is, where it is filed and its base class. */
  predicate SameIdentity(a: Decl, b: Decl)
  {
    a.kind == b.kind && a.name == b.name && a.parentContext == b.parentContext
    && a.context == b.context && a.parentClass == b.parentClass
  }

  /** The declaration parseClass starts from, given its qualified name:
      "."-separated on the managed side, "::"-separated on the native side. */
  function ClassHeader(name: string, base: string, qualified: string, ctx: ScopeId): (d: Decl)
    ensures d.kind == ClassKind && d.name == name && d.parentClass == base && d.parentContext == Some(ctx)
    ensures d.csName == qualified && d.cppName == Replace(qualified, ".", "::")
    ensures d.constructors == [] && d.methods == [] && d.variables == []
  {
    NewDecl(ClassKind, name).(parentClass := base, cppName := Replace(qualified, ".", "::"),
                              csName := qualified, parentContext := Some(ctx))
  }

  const Langtype := "$langtype"

  /** The declaration parseStruct starts from: its native and managed type
      and passing types are "$langtype", which finalizeStruct replaces. */
  function StructHeader(name: string, qualified: string, ctx: ScopeId): (d: Decl)
    ensures d.kind == StructKind && d.name == name && d.parentClass == "" && d.parentContext == Some(ctx)
    ensures d.csName == qualified && d.cppName == Replace(qualified, ".", "::")
    ensures d.constructors == [] && d.methods == [] && d.variables == []
  {
    NewDecl(StructKind, name).(cppType := Langtype, cppInPass := Langtype, cppOutPass := Langtype,
                               csType := Langtype, csInPass := Langtype, csOutPass := Langtype,
                               cppName := Replace(qualified, ".", "::"), csName := qualified,
                               parentContext := Some(ctx))
  }

  /** How a line of a class or struct body ends: the declaration afterwards
      and the line the cursor is left on; or a rejected line, or one on
      which the source throws. */
  datatype LineParse = LineRead(d: Decl, endLine: nat) | LineFailed | LineThrown

  /** A `var` line n read from cursor c: the variable is added. */
  function VarLine(d: Decl, ls: seq<string>, n: nat, c: nat): (r: LineParse)
    requires n < |ls| && c <= |ls[n]|
  {
    match VarAt(ls, n, c)
    case VarRead(v, e) => LineRead(d.(variables := d.variables + [v]), e)
    case VarFailed => LineFailed
  }

  /** A `textbegin` line n: the text up to the next "textend" line is added. */
  function TextLine(d: Decl, ls: seq<string>, n: nat): (r: LineParse)
    requires n < |ls|
  {
    match TextEnd(ls, n + 1)
    case Some(e) => LineRead(d.(textBlocks := d.textBlocks + [TextLines(ls, n + 1, e)]), e)
    case None => LineFailed
  }

  /** The one-line settings of a class body: the interface side, the
      native construction and destruction code, no reference counting, and
      not passable; None for a setting without a value it accepts, and the
      declaration unchanged for a word that is none of them. They touch
      neither what the class is nor its members. */
  function ClassSetting(d: Decl, kw: string, l: string, c: nat): (r: Option<Decl>)
    requires c <= |l|
    ensures r.Some? ==>
      (SameIdentity(d, r.value) && r.value.constructors == d.constructors && r.value.methods == d.methods)
  {
    var value := l[SkipBlanks(l, c)..];
    if kw == "interface" then
      var w := WordAt(l, c, [' ']);
      if w == Some("cpptocs") then Some(d.(interfaceType := CppToCSharp))
      else if w == Some("cstocpp") then Some(d.(interfaceType := CSharpToCpp))
      else None
    else if kw == "cppconstruct" then
      if value == "" then None else Some(d.(cppConstruct := value))
    else if kw == "cppdeconstruct" then
      if value == "" then None else Some(d.(cppDeconstruct := value))
    else if kw == "cppnorefcount" then Some(NoRefCount(d))
    else if kw == "cppnopass" then Some(d.(cppCanBePassed := false))
    else Some(d)
  }

  /** A `func` line n read from cursor c: the method is filed by its name. */
  function FuncLine(d: Decl, l: string, c: nat, n: nat, id: nat): (r: LineParse)
    requires c <= |l|
  {
    match FuncAt(l, c, id)
    case FuncRead(m) => LineRead(FileMethod(d, m), n)
    case FuncFailed => LineFailed
    case FuncThrown => LineThrown
  }

  /** parseClassLine for every keyword kw (lower case) but the nested
      blocks, on line n from cursor c, with id the next method identity. */
  function ClassOptionAt(d: Decl, kw: string, ls: seq<string>, n: nat, c: nat, id: nat): (r: LineParse)
    requires n < |ls| && c <= |ls[n]|
  {
    if kw == "func" then FuncLine(d, ls[n], c, n, id)
    else if kw == "var" then VarLine(d, ls, n, c)
    else if kw == "textbegin" then TextLine(d, ls, n)
    else match ClassSetting(d, kw, ls[n], c)
      case None => LineFailed
      case Some(e) => LineRead(e, n)
  }

  /** parseStructLine for every keyword kw (lower case) but "enum": both
      "cppoutstruct" and "cppinstruct" set the native name. */
  function StructOptionAt(d: Decl, kw: string, ls: seq<string>, n: nat, c: nat): (r: LineParse)
    requires n < |ls| && c <= |ls[n]|
  {
    var l := ls[n];
    var value := l[SkipBlanks(l, c)..];
    if kw == "cppoutstruct" || kw == "cppinstruct" then
      if value == "" then LineFailed else LineRead(d.(cppName := value), n)
    else if kw == "var" then VarLine(d, ls, n, c)
    else if kw == "textbegin" then TextLine(d, ls, n)
    else LineRead(d, n)
  }

  /** A var or text line keeps what the declaration is and its members. */
  lemma VarLineKeeps(d: Decl, ls: seq<string>, n: nat, c: nat)
    requires n < |ls| && c <= |ls[n]|
    ensures var r := VarLine(d, ls, n, c);
      r.LineRead? ==>
        (SameIdentity(d, r.d) && n <= r.endLine < |ls|
         && r.d.constructors == d.constructors && r.d.methods == d.methods)
  {
  }

  lemma TextLineKeeps(d: Decl, ls: seq<string>, n: nat)
    requires n < |ls|
    ensures var r := TextLine(d, ls, n);
      r.LineRead? ==>
        (SameIdentity(d, r.d) && n <= r.endLine < |ls|
         && r.d.constructors == d.constructors && r.d.methods == d.methods)
  {
  }

  /** No option line changes what a class is or where it is filed, each
      method it files lands in the right list, and the cursor ends on a
      line at or after its own. */
  lemma ClassOptionKeeps(d: Decl, kw: string, ls: seq<string>, n: nat, c: nat, id: nat)
    requires n < |ls| && c <= |ls[n]|
    ensures var r := ClassOptionAt(d, kw, ls, n, c, id);
      r.LineRead? ==>
        (SameIdentity(d, r.d) && (MembersFiled(d) ==> MembersFiled(r.d)) && n <= r.endLine < |ls|)
  {
    if kw == "func" {
      match FuncAt(ls[n], c, id)
      case FuncRead(m) => if MembersFiled(d) { FileMethodKeeps(d, m); }
      case FuncFailed =>
      case FuncThrown =>
    } else if kw == "var" {
      VarLineKeeps(d, ls, n, c);
    } else if kw == "textbegin" {
      TextLineKeeps(d, ls, n);
    }
  }

  /** No struct option line changes what the struct is or where it is
      filed, and the cursor ends on a line at or after its own. */
  lemma StructOptionKeeps(d: Decl, kw: string, ls: seq<string>, n: nat, c: nat)
    requires n < |ls| && c <= |ls[n]|
    ensures var r := StructOptionAt(d, kw, ls, n, c);
      r.LineRead? ==>
        (SameIdentity(d, r.d) && n <= r.endLine < |ls|
         && r.d.constructors == d.constructors && r.d.methods == d.methods)
  {
    if kw == "var" {
      VarLineKeeps(d, ls, n, c);
    } else if kw == "textbegin" {
      TextLineKeeps(d, ls, n);
    }
  }

  /** A type line in a class or struct body keeps what the declaration is
      and its constructors and methods. */
  lemma TypeLineKeeps(d: Decl, l: string, w: string)
    requires TypeLineStep(d, l, w).Some?
    ensures var r := TypeLineStep(d, l, w).value;
      SameIdentity(d, r) && r.constructors == d.constructors && r.methods == d.methods
  {
    var kw := ToLower(w);
    if IsTypeKeyword(kw) {
      SetAllFrame(d, FieldsSetBy(kw), RestOfLine(l));
    }
  }
}
