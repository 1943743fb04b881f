// What the parser reads from the member lines of a block, as functions of the
// line and the cursor: the argument list of a `func` line (parseArgs), the
// function itself (parseFunc), the head of a `var` line and its optional
// accessor block (parseVar), an enum value (parseEnumVar), the heading of a
// class or enum (its name and base list), and a text block.

module Members {
  import opened Text
  import opened Symbols
  import opened Lexing
  import opened Syntax

  // ---------------------------------------------------------------------
  // Arguments (parseArgs)

  /** The end characters of the scans in parseArgs: the type word, the type
      word after a direction keyword, the peek for a lone "&", the name, the
      default value, and the separators skipped between arguments. */
  const TypeEnd := [' ', '*', '&']
  const DirectedTypeEnd := [' ', ')', ',', '&', '*']
  const RefEnd := [' ', ',', ')']
  const NameEnd := [' ', ')', ',', '=']
  const DefaultEnd := [',', ')']
  const ArgGap := [' ', ',']

  /** How reading one argument ends: the argument and the cursor after the
      separators that follow it; a missing type or name; or an exception
      (peekChars past the end of the line). */
  datatype ArgRead = ArgRead(arg: MethodArg, next: nat) | ArgMissing | ArgThrows

  /** The type of the argument at i, with its direction: a direction keyword
      (in any case) is followed by the type; otherwise the word itself is the
      type, passed in. Returns the type, moveIn, moveOut and the cursor. */
  function ArgTypeAt(line: string, i: nat): (r: Option<(string, bool, bool, nat)>)
    requires i <= |line|
    ensures r.Some? ==> i < r.value.3 <= |line| && r.value.0 != ""
  {
    match WordAt(line, i, TypeEnd)
    case None => None
    case Some(first) =>
      var i1 := AfterWord(line, i, TypeEnd);
      match Direction(ToLower(first))
      case None => Some((first, true, false, i1))
      case Some(dir) =>
        match WordAt(line, i1, DirectedTypeEnd)
        case None => None
        case Some(t) => Some((t, dir.0, dir.1, AfterWord(line, i1, DirectedTypeEnd)))
  }

  /** The optional "= value" after an argument's name, from the blank-free
      position i6: the default value ("" when none) and the cursor after it. */
  function DefaultAt(line: string, i6: nat): (r: (string, nat))
    requires i6 < |line|
    ensures i6 <= r.1 <= |line|
  {
    if line[i6] == '=' then
      var dv := WordAt(line, i6 + 1, DefaultEnd);
      (if dv.Some? then dv.value else "", AfterWord(line, i6 + 1, DefaultEnd))
    else ("", i6)
  }

  /** One argument of parseArgs's loop, read from cursor i. */
  function ArgAt(line: string, i: nat): (r: ArgRead)
    requires i <= |line|
    ensures r.ArgRead? ==> i < r.next <= |line|
  {
    match ArgTypeAt(line, i)
    case None => ArgMissing
    case Some((typeName, moveIn, moveOut, i2)) => ArgAfterType(line, i2, typeName, moveIn, moveOut)
  }

  /** The rest of an argument once its type is read, from cursor i2. */
  function ArgAfterType(line: string, i2: nat, typeName: string, moveIn: bool, moveOut: bool): (r: ArgRead)
    requires i2 <= |line|
    ensures r.ArgRead? ==> i2 <= r.next <= |line|
  {
    var cppRef := WordAt(line, i2, RefEnd) == Some("&");
    var i4 := SkipOver(line, SkipBlanks(line, i2), TypeEnd);
    match WordAt(line, i4, NameEnd)
    case None => ArgMissing
    case Some(name) =>
      var i6 := SkipBlanks(line, AfterWord(line, i4, NameEnd));
      if i6 + 1 > |line| then ArgThrows
      else
        var (dv, i8) := DefaultAt(line, i6);
        ArgRead(MethodArg(typeName, name, dv, moveIn, moveOut, cppRef), SkipOver(line, i8, ArgGap))
  }

  /** How parseArgs ends: the arguments read and the cursor afterwards; a
      failure; or an exception. */
  datatype ArgsParse = Parsed(args: seq<MethodArg>, next: nat) | ArgsFailed | ArgsThrown

  /** The arguments read before a result. */
  function Prepend(acc: seq<MethodArg>, r: ArgsParse): ArgsParse
  {
    if r.Parsed? then Parsed(acc + r.args, r.next) else r
  }

  /** parseArgs's loop from cursor i: one argument after the other, until
      the separators after one reach the end of the line or a ")"; the cursor
      then moves one past that point. */
  function ArgList(line: string, i: nat): (r: ArgsParse)
    requires i <= |line|
    decreases |line| - i
  {
    match ArgAt(line, i)
    case ArgMissing => ArgsFailed
    case ArgThrows => ArgsThrown
    case ArgRead(a, j) =>
      if j >= |line| || line[j] == ')' then Parsed([a], j + 1)
      else Prepend([a], ArgList(line, j))
  }

  /** The text parseArgs compares with "void": from just past the first "("
      at or after i up to the first ")" of the line. */
  function ParenText(line: string, i: nat): Option<string>
    requires i <= |line|
  {
    var open := IndexOf(line, '(', i);
    var close := IndexOf(line, ')', 0);
    if open < 0 || close < open + 1 then None else Some(line[open + 1..close])
  }

  /** parseArgs from cursor i: past the first "(", fails without one or
      without any ")" on the line; throws when the first ")" comes before
      that "(" (Substring with a negative length); "()" and "(void)" hold no
      arguments; otherwise the loop reads them. */
  function ArgsOf(line: string, i: nat): (r: ArgsParse)
    requires i <= |line|
  {
    ArgsBetween(line, IndexOf(line, '(', i), IndexOf(line, ')', 0))
  }

  /** The parenthesised texts that declare no arguments. */
  predicate EmptyArgs(text: string)
  {
    text == "void" || text == ""
  }

  /** parseArgs once it has found the "(" at open and the first ")" at close
      (-1 for either one missing). */
  function ArgsBetween(line: string, open: int, close: int): (r: ArgsParse)
    requires -1 <= open < |line| && -1 <= close < |line|
  {
    if open < 0 || close < 0 then ArgsFailed
    else if close < open + 1 then ArgsThrown
    else if EmptyArgs(line[open + 1..close]) then Parsed([], close + 1)
    else ArgList(line, open + 1)
  }

  /** When the text between the parentheses is neither empty nor "void",
      parseArgs reads the argument list just past the "(". */
  lemma ArgsOfList(line: string, i: nat, open: int, close: int, start: nat)
    requires i <= |line| && open == IndexOf(line, '(', i) && close == IndexOf(line, ')', 0)
    requires 0 <= open && start == open + 1 <= close
    requires !EmptyArgs(line[start..close])
    ensures ArgsOf(line, i) == ArgList(line, start)
  {
    assert line[open + 1..close] == line[start..close];
    assert !EmptyArgs(line[open + 1..close]);
    assert ArgsBetween(line, open, close) == ArgList(line, open + 1);
    assert ArgsOf(line, i) == ArgsBetween(line, open, close);
  }

  lemma PrependTwice(a: seq<MethodArg>, b: seq<MethodArg>, r: ArgsParse)
    ensures Prepend(a, Prepend(b, r)) == Prepend(a + b, r)
  {
    if r.Parsed? {
      assert a + (b + r.args) == (a + b) + r.args;
    }
  }

  lemma ArgListPrependNothing(line: string, i: nat)
    requires i <= |line|
    ensures Prepend([], ArgList(line, i)) == ArgList(line, i)
  {
    if ArgList(line, i).Parsed? {
      assert [] + ArgList(line, i).args == ArgList(line, i).args;
    }
  }

  /** One pass of the loop: the argument at i, then either the end of the
      list or the arguments after it. */
  lemma ArgListStep(line: string, i: nat)
    requires i <= |line|
    ensures ArgAt(line, i).ArgMissing? ==> ArgList(line, i) == ArgsFailed
    ensures ArgAt(line, i).ArgThrows? ==> ArgList(line, i) == ArgsThrown
    ensures ArgAt(line, i).ArgRead? ==>
      var j := ArgAt(line, i).next;
      ArgList(line, i)
        == if j >= |line| || line[j] == ')' then Parsed([ArgAt(line, i).arg], j + 1)
           else Prepend([ArgAt(line, i).arg], ArgList(line, j))
  {
  }

  /** The loop never ends with an empty list. */
  lemma {:induction false} ArgListNonEmpty(line: string, i: nat)
    requires i <= |line|
    ensures ArgList(line, i).Parsed? ==> |ArgList(line, i).args| >= 1
    decreases |line| - i
  {
    match ArgAt(line, i)
    case ArgMissing =>
    case ArgThrows =>
    case ArgRead(a, j) =>
      if !(j >= |line| || line[j] == ')') {
        ArgListNonEmpty(line, j);
      }
  }

  /** A function's argument list is empty exactly when its parentheses hold
      nothing or "void". */
  lemma NoArguments(line: string, i: nat)
    requires i <= |line|
    ensures ArgsOf(line, i).Parsed? && ArgsOf(line, i).args == []
        <==> ParenText(line, i).Some? && EmptyArgs(ParenText(line, i).value)
  {
    var open := IndexOf(line, '(', i);
    var close := IndexOf(line, ')', 0);
    assert ArgsOf(line, i) == ArgsBetween(line, open, close);
    if open < 0 || close < open + 1 {
      assert ParenText(line, i).None?;
    } else {
      assert ParenText(line, i) == Some(line[open + 1..close]);
      if !EmptyArgs(line[open + 1..close]) {
        assert ArgsOf(line, i) == ArgList(line, open + 1);
        ArgListNonEmpty(line, open + 1);
      }
    }
  }

  /** The direction keyword before an argument's type sets how it moves: "in"
      (T, F), "out" (F, T), "inout" (T, T); without one the argument is an
      "in" argument and its first word is its type. */
  lemma ArgDirection(line: string, i: nat)
    requires i <= |line| && ArgAt(line, i).ArgRead?
    ensures var first := WordAt(line, i, TypeEnd).value;
      var a := ArgAt(line, i).arg;
      (ToLower(first) == "in" ==> a.moveIn && !a.moveOut)
      && (ToLower(first) == "out" ==> !a.moveIn && a.moveOut)
      && (ToLower(first) == "inout" ==> a.moveIn && a.moveOut)
      && (ToLower(first) !in {"in", "out", "inout"} ==> a.moveIn && !a.moveOut && a.typeName == first)
  {
  }

  /** "= literal" after an argument's name is stored as its default value:
      the text up to the next "," or ")"; without it the default is empty.
      The type and direction read before the name are kept. */
  lemma ArgDefault(line: string, i2: nat, typeName: string, moveIn: bool, moveOut: bool)
    requires i2 <= |line| && ArgAfterType(line, i2, typeName, moveIn, moveOut).ArgRead?
    ensures var i4 := SkipOver(line, SkipBlanks(line, i2), TypeEnd);
      var i6 := SkipBlanks(line, AfterWord(line, i4, NameEnd));
      var a := ArgAfterType(line, i2, typeName, moveIn, moveOut).arg;
      i6 < |line| && a.typeName == typeName && a.moveIn == moveIn && a.moveOut == moveOut
      && (line[i6] == '=' && WordAt(line, i6 + 1, DefaultEnd).Some? ==>
            a.defaultValue == WordAt(line, i6 + 1, DefaultEnd).value)
      && (line[i6] != '=' ==> a.defaultValue == "")
  {
  }

  /** An argument has a type and a name, and the name is a single word:
      none of " ", ")", ",", "=" in it. */
  predicate WellFormedArg(a: MethodArg)
  {
    a.typeName != "" && a.name != "" && forall c :: 0 <= c < |a.name| ==> a.name[c] !in NameEnd
  }

  /** Each argument read is well formed. */
  lemma ArgWellFormed(line: string, i: nat)
    requires i <= |line| && ArgAt(line, i).ArgRead?
    ensures WellFormedArg(ArgAt(line, i).arg)
  {
    var i2 := ArgTypeAt(line, i).value.3;
    var i4 := SkipOver(line, SkipBlanks(line, i2), TypeEnd);
    WordAtSpec(line, i4, NameEnd);
  }

  /** Every argument read is well formed. */
  lemma {:induction false} ArgListWellFormed(line: string, i: nat)
    requires i <= |line| && ArgList(line, i).Parsed?
    ensures forall k :: 0 <= k < |ArgList(line, i).args| ==> WellFormedArg(ArgList(line, i).args[k])
    decreases |line| - i
  {
    match ArgAt(line, i)
    case ArgRead(a, j) =>
      ArgWellFormed(line, i);
      var args := ArgList(line, i).args;
      if j >= |line| || line[j] == ')' {
        assert args == [a];
      } else {
        ArgListWellFormed(line, j);
        var rest := ArgList(line, j).args;
        assert args == [a] + rest;
        forall k | 0 <= k < |args|
          ensures WellFormedArg(args[k])
        {
          if k > 0 {
            assert args[k] == rest[k - 1];
          }
        }
      }
  }

  // ---------------------------------------------------------------------
  // Functions (parseFunc)

  const OptionEnd := [' ', '(']
  const PostfixEnd := [' ', ';']

  /** The leading option words of a function with a return type, from cursor
      i: "static", "virtual", "abstract" (virtual and abstract), "unsafe", in
      any case and any number; the first other word is the return type.
      Returns the method with its options and return type set, and the cursor
      after the return type. */
  function FuncOptions(line: string, i: nat, m: Method): (r: Option<(Method, nat)>)
    requires i <= |line|
    ensures r.Some? ==> i < r.value.1 <= |line| && r.value.0.returnType != ""
    decreases |line| - i
  {
    match WordAt(line, i, OptionEnd)
    case None => None
    case Some(w) =>
      var j := AfterWord(line, i, OptionEnd);
      var lower := ToLower(w);
      if lower == "static" then FuncOptions(line, j, m.(isStatic := true))
      else if lower == "virtual" then FuncOptions(line, j, m.(isVirtual := true))
      else if lower == "abstract" then FuncOptions(line, j, m.(isVirtual := true, isAbstract := true))
      else if lower == "unsafe" then FuncOptions(line, j, m.(isUnsafe := true))
      else Some((m.(returnType := w), j))
  }

  /** The words after the argument list, up to ";" or the end of the line:
      "const" sets isConst, any other word is an error (None). */
  function Postfix(ws: seq<string>, m: Method): Option<Method>
  {
    if ws == [] then Some(m)
    else if ToLower(ws[0]) == "const" then Postfix(ws[1..], m.(isConst := true))
    else if ToLower(ws[0]) == ";" then Postfix(ws[1..], m)
    else None
  }

  /** How parseFunc ends: the method read (not yet filed); a failure; or an
      exception. */
  datatype FuncParse = FuncRead(m: Method) | FuncFailed | FuncThrown

  /** The head of a func line, up to its argument list: the options and
      return type when a space comes before the first "(", "void" otherwise;
      then the name up to the "(". Returns the method and the cursor at "(". */
  function FuncHead(line: string, i: nat, id: nat): (r: Option<(Method, nat)>)
    requires i <= |line|
    ensures r.Some? ==> r.value.1 <= |line| && r.value.0.name != "" && r.value.0.returnType != ""
  {
    match WordAt(line, i, ['('])
    case None => None
    case Some(openFuncWord) =>
      var c := SkipBlanks(line, i);
      var opts := if ' ' in openFuncWord then FuncOptions(line, c, NewMethod(id))
                  else Some((NewMethod(id).(returnType := "void"), c));
      match opts
      case None => None
      case Some((m, c1)) =>
        var c2 := SkipOver(line, c1, TypeEnd);
        match WordAt(line, c2, ['('])
        case None => None
        case Some(name) => Some((m.(name := name), AfterWord(line, c2, ['('])))
  }

  /** parseFunc from cursor i (after the "func" keyword), giving the new
      method the identity id: head, argument list, postfix words. An argument
      list that ends at the end of the line leaves the cursor one past it,
      where the next parseWord throws. */
  function FuncAt(line: string, i: nat, id: nat): (r: FuncParse)
    requires i <= |line|
  {
    match FuncHead(line, i, id)
    case None => FuncFailed
    case Some((m, c)) =>
      match ArgsOf(line, c)
      case ArgsFailed => FuncFailed
      case ArgsThrown => FuncThrown
      case Parsed(args, next) =>
        if next > |line| then FuncThrown
        else match Postfix(Words(line, next, PostfixEnd), m.(args := m.args + args))
          case None => FuncFailed
          case Some(m') => FuncRead(m')
  }

  /** Where parseFunc files the method it read: among the constructors when
      it bears the class's name, among the methods otherwise. */
  function FileMethod(d: Decl, m: Method): (r: Decl)
  {
    if m.name == d.name then d.(constructors := d.constructors + [m])
    else d.(methods := d.methods + [m])
  }

  /** Every constructor of the class bears its name and no method does. */
  ghost predicate MembersFiled(d: Decl)
  {
    (forall k :: 0 <= k < |d.constructors| ==> d.constructors[k].name == d.name)
    && (forall k :: 0 <= k < |d.methods| ==> d.methods[k].name != d.name)
  }

  /** Filing a method keeps the split by name, adds the method exactly once
      to one of the lists, and changes nothing else. */
  lemma FileMethodKeeps(d: Decl, m: Method)
    requires MembersFiled(d)
    ensures MembersFiled(FileMethod(d, m))
    ensures var r := FileMethod(d, m);
      |r.constructors| + |r.methods| == |d.constructors| + |d.methods| + 1
      && (m.name == d.name <==> m in r.constructors[|d.constructors|..])
      && r == d.(constructors := r.constructors, methods := r.methods)
  {
  }

  /** Without a space before the "(", the return type is "void". */
  lemma VoidWithoutSpace(line: string, i: nat, id: nat)
    requires i <= |line| && FuncAt(line, i, id).FuncRead?
    requires ' ' !in WordAt(line, i, ['(']).value
    ensures FuncAt(line, i, id).m.returnType == "void"
  {
    var (m, c) := FuncHead(line, i, id).value;
    PostfixKeeps(Words(line, ArgsOf(line, c).next, PostfixEnd), m.(args := m.args + ArgsOf(line, c).args));
  }

  /** The postfix words only ever set isConst. */
  lemma {:induction false} PostfixKeeps(ws: seq<string>, m: Method)
    requires Postfix(ws, m).Some?
    ensures Postfix(ws, m).value == m.(isConst := Postfix(ws, m).value.isConst)
    ensures m.isConst ==> Postfix(ws, m).value.isConst
  {
    if ws != [] {
      if ToLower(ws[0]) == "const" {
        PostfixKeeps(ws[1..], m.(isConst := true));
      } else {
        PostfixKeeps(ws[1..], m);
      }
    }
  }

  /** The postfix is accepted exactly when every word is "const" (or ";"),
      and then the method is const exactly when one of them is "const" or it
      already was. */
  lemma {:induction false} PostfixSpec(ws: seq<string>, m: Method)
    ensures Postfix(ws, m).Some? <==> forall k :: 0 <= k < |ws| ==> ToLower(ws[k]) in {"const", ";"}
    ensures Postfix(ws, m).Some? ==>
      (Postfix(ws, m).value.isConst <==> m.isConst || exists k :: 0 <= k < |ws| && ToLower(ws[k]) == "const")
  {
    if ws != [] {
      var m' := if ToLower(ws[0]) == "const" then m.(isConst := true) else m;
      PostfixSpec(ws[1..], m');
      assert forall k :: 1 <= k < |ws| ==> ws[k] == ws[1..][k - 1];
      if Postfix(ws, m).Some? {
        assert forall k :: 0 <= k < |ws[1..]| ==> ws[1..][k] == ws[k + 1];
      }
    }
  }

  /** "abstract" makes a method virtual as well: no method is read abstract
      without being virtual. */
  lemma {:induction false} OptionsAbstractIsVirtual(line: string, i: nat, m: Method)
    requires i <= |line| && FuncOptions(line, i, m).Some?
    requires m.isAbstract ==> m.isVirtual
    ensures FuncOptions(line, i, m).value.0.isAbstract ==> FuncOptions(line, i, m).value.0.isVirtual
    ensures m.isVirtual ==> FuncOptions(line, i, m).value.0.isVirtual
    decreases |line| - i
  {
    var w := WordAt(line, i, OptionEnd).value;
    var j := AfterWord(line, i, OptionEnd);
    var lower := ToLower(w);
    if lower == "static" {
      OptionsAbstractIsVirtual(line, j, m.(isStatic := true));
    } else if lower == "virtual" {
      OptionsAbstractIsVirtual(line, j, m.(isVirtual := true));
    } else if lower == "abstract" {
      OptionsAbstractIsVirtual(line, j, m.(isVirtual := true, isAbstract := true));
    } else if lower == "unsafe" {
      OptionsAbstractIsVirtual(line, j, m.(isUnsafe := true));
    }
  }

  /** Every method parseFunc reads that is abstract is also virtual. */
  lemma AbstractIsVirtual(line: string, i: nat, id: nat)
    requires i <= |line| && FuncAt(line, i, id).FuncRead?
    ensures FuncAt(line, i, id).m.isAbstract ==> FuncAt(line, i, id).m.isVirtual
  {
    var openFuncWord := WordAt(line, i, ['(']).value;
    var c := SkipBlanks(line, i);
    if ' ' in openFuncWord {
      OptionsAbstractIsVirtual(line, c, NewMethod(id));
    }
    var (m, c') := FuncHead(line, i, id).value;
    PostfixKeeps(Words(line, ArgsOf(line, c').next, PostfixEnd), m.(args := m.args + ArgsOf(line, c').args));
  }

  /** A postfix word other than "const" makes the func line an error. */
  lemma PostfixError(line: string, i: nat, id: nat)
    requires i <= |line|
    requires FuncHead(line, i, id).Some?
    requires var c := FuncHead(line, i, id).value.1;
      ArgsOf(line, c).Parsed? && ArgsOf(line, c).next <= |line|
      && exists k :: 0 <= k < |Words(line, ArgsOf(line, c).next, PostfixEnd)|
                     && ToLower(Words(line, ArgsOf(line, c).next, PostfixEnd)[k]) !in {"const", ";"}
    ensures FuncAt(line, i, id) == FuncFailed
  {
    var (m, c) := FuncHead(line, i, id).value;
    PostfixSpec(Words(line, ArgsOf(line, c).next, PostfixEnd), m.(args := m.args + ArgsOf(line, c).args));
  }

  // ---------------------------------------------------------------------
  // Variables (parseVar)

  /** The option words of a var line from cursor i ("readonly", "writeonly",
      in any case, any number) and the word after them: whether each was
      seen, that word, and the cursor after it. */
  function VarOptions(line: string, i: nat): (r: Option<(bool, bool, string, nat)>)
    requires i <= |line|
    ensures r.Some? ==> i < r.value.3 <= |line| && r.value.2 != ""
    decreases |line| - i
  {
    match WordAt(line, i, [' '])
    case None => None
    case Some(w) =>
      var j := AfterWord(line, i, [' ']);
      var lower := ToLower(w);
      if lower == "readonly" || lower == "writeonly" then
        match VarOptions(line, j)
        case None => None
        case Some((ro, wo, t, k)) => Some((ro || lower == "readonly", wo || lower == "writeonly", t, k))
      else Some((false, false, w, j))
  }

  /** Option words already seen, merged into what the rest of the line gives. */
  function WithOptions(ro: bool, wo: bool, o: Option<(bool, bool, string, nat)>): Option<(bool, bool, string, nat)>
  {
    match o
    case None => None
    case Some((r, w, t, k)) => Some((ro || r, wo || w, t, k))
  }

  /** The variable of a var line, given what its options and type word
      were: the type is that word less a trailing "&"; the getter is cleared
      by writeonly, the setter by readonly, and each one left is the
      address-of / dereference template for a "&" type, the plain one
      otherwise. None when the type is only "&" (parseVar tests the type
      word, not the name, for emptiness). */
  function VarOf(readOnly: bool, writeOnly: bool, w: string, name: string): Option<Variable>
    requires w != ""
  {
    var isRef := w[|w| - 1] == '&';
    var t := if isRef then w[..|w| - 1] else w;
    if t == "" then None
    else
      var getBody := if writeOnly then "" else if isRef then RefGetBody else DefaultGetBody;
      var setBody := if readOnly then "" else if isRef then RefSetBody else DefaultSetBody;
      Some(Variable(t, name, getBody, setBody))
  }

  /** The head of a var line, from cursor i (after "var"): its options and
      type word, then the name up to ";" ("" when missing). Returns the
      variable and the cursor. */
  function VarHead(line: string, i: nat): (r: Option<(Variable, nat)>)
    requires i <= |line|
    ensures r.Some? ==> r.value.1 <= |line|
  {
    match VarOptions(line, i)
    case None => None
    case Some((readOnly, writeOnly, w, c)) =>
      var name := WordAt(line, c, [';']);
      match VarOf(readOnly, writeOnly, w, if name.Some? then name.value else "")
      case None => None
      case Some(v) => Some((v, AfterWord(line, c, [';'])))
  }

  /** A line of a variable's accessor block: "get ..." or "set ..." (exact
      words) replaces that body with the rest of the line; any other line
      changes nothing. */
  function AccessorLine(v: Variable, l: string): Variable
  {
    match WordAt(l, 0, [' '])
    case Some(w) =>
      if w == "get" then v.(getBody := RestOfLine(l))
      else if w == "set" then v.(setBody := RestOfLine(l))
      else v
    case None => v
  }

  /** Lines lo .. hi-1 of an accessor block applied in order to v. */
  function AccessorBlock(v: Variable, ls: seq<string>, lo: nat, hi: nat): Variable
    requires lo <= hi <= |ls|
    decreases hi
  {
    if hi == lo then v else AccessorLine(AccessorBlock(v, ls, lo, hi - 1), ls[hi - 1])
  }

  /** The line that closes an accessor block: its first word is exactly "}". */
  predicate EndsAccessors(l: string)
  {
    WordAt(l, 0, [' ']) == Some("}")
  }

  /** The line after a var line opens an accessor block when its first word
      is exactly "{". */
  predicate OpensAccessors(l: string)
  {
    WordAt(l, 0, [' ']) == Some("{")
  }

  /** The first line at or after `from` that closes an accessor block. */
  function AccessorsEnd(ls: seq<string>, from: nat): (r: Option<nat>)
    requires from <= |ls|
    ensures r.Some? ==> from <= r.value < |ls|
    decreases |ls| - from
  {
    if from == |ls| then None
    else if EndsAccessors(ls[from]) then Some(from)
    else AccessorsEnd(ls, from + 1)
  }

  /** How parseVar ends: the variable and the line the cursor is on; or a
      failure. */
  datatype VarParse = VarRead(v: Variable, endLine: nat) | VarFailed

  /** parseVar on line n from cursor c: the head; then, when the next line
      opens an accessor block, both bodies are cleared and the block's get
      and set lines up to its closing line apply (no closing line fails);
      otherwise the cursor steps back to line n. */
  function VarAt(ls: seq<string>, n: nat, c: nat): (r: VarParse)
    requires n < |ls| && c <= |ls[n]|
    ensures r.VarRead? ==> n <= r.endLine < |ls|
  {
    match VarHead(ls[n], c)
    case None => VarFailed
    case Some((v, _)) =>
      if n + 1 < |ls| && OpensAccessors(ls[n + 1]) then
        match AccessorsEnd(ls, n + 2)
        case None => VarFailed
        case Some(close) => VarRead(AccessorBlock(v.(getBody := "", setBody := ""), ls, n + 2, close), close)
      else VarRead(v, n)
  }

  /** The accessor block ends at its first "}" line. */
  lemma {:induction false} AccessorsEndSpec(ls: seq<string>, from: nat)
    requires from <= |ls|
    ensures AccessorsEnd(ls, from).Some? ==>
      EndsAccessors(ls[AccessorsEnd(ls, from).value])
      && forall k :: from <= k < AccessorsEnd(ls, from).value ==> !EndsAccessors(ls[k])
    ensures AccessorsEnd(ls, from).None? ==> forall k :: from <= k < |ls| ==> !EndsAccessors(ls[k])
    decreases |ls| - from
  {
    if from < |ls| && !EndsAccessors(ls[from]) {
      AccessorsEndSpec(ls, from + 1);
    }
  }

  /** A var line followed by an accessor block takes its bodies from the
      block alone; any other var line keeps the bodies of its head, and the
      cursor stays on it. */
  lemma VarAtSpec(ls: seq<string>, n: nat, c: nat)
    requires n < |ls| && c <= |ls[n]| && VarAt(ls, n, c).VarRead?
    ensures var r := VarAt(ls, n, c);
      var head := VarHead(ls[n], c).value.0;
      r.v.typeName == head.typeName && r.v.name == head.name
      && (n + 1 < |ls| && OpensAccessors(ls[n + 1]) ==>
            n + 2 <= r.endLine && EndsAccessors(ls[r.endLine])
            && (r.v.getBody == "" || exists k :: n + 2 <= k < r.endLine && WordAt(ls[k], 0, [' ']) == Some("get") && r.v.getBody == RestOfLine(ls[k]))
            && (r.v.setBody == "" || exists k :: n + 2 <= k < r.endLine && WordAt(ls[k], 0, [' ']) == Some("set") && r.v.setBody == RestOfLine(ls[k])))
      && (!(n + 1 < |ls| && OpensAccessors(ls[n + 1])) ==> r.endLine == n && r.v == head)
  {
    var head := VarHead(ls[n], c).value.0;
    if n + 1 < |ls| && OpensAccessors(ls[n + 1]) {
      AccessorsEndSpec(ls, n + 2);
      AccessorBlockBodies(head.(getBody := "", setBody := ""), ls, n + 2, AccessorsEnd(ls, n + 2).value);
    }
  }

  /** readonly clears the setter, writeonly the getter; each body left is
      the plain template, or the address-of / dereference one for a "&"
      type, whose "&" is dropped from the type. */
  lemma VarOfSpec(ro: bool, wo: bool, w: string, name: string)
    requires w != "" && VarOf(ro, wo, w, name).Some?
    ensures var v := VarOf(ro, wo, w, name).value;
      v.name == name && v.typeName != ""
      && (v.setBody == "" <==> ro) && (v.getBody == "" <==> wo)
      && (w[|w| - 1] == '&' ==> v.typeName + "&" == w
                                && (!wo ==> v.getBody == RefGetBody) && (!ro ==> v.setBody == RefSetBody))
      && (w[|w| - 1] != '&' ==> v.typeName == w
                                && (!wo ==> v.getBody == DefaultGetBody) && (!ro ==> v.setBody == DefaultSetBody))
  {
    if w[|w| - 1] == '&' {
      assert w == w[..|w| - 1] + "&";
    }
  }

  /** The type word is one of the line's words, reached past option words
      only, and is not an option itself. */
  lemma {:induction false} VarOptionsType(line: string, i: nat)
    requires i <= |line| && VarOptions(line, i).Some?
    ensures var w := VarOptions(line, i).value.2;
      w in Words(line, i, [' ']) && ToLower(w) !in {"readonly", "writeonly"}
    decreases |line| - i
  {
    var j := AfterWord(line, i, [' ']);
    WordsUnfold(line, i, [' ']);
    var lower := ToLower(WordAt(line, i, [' ']).value);
    if lower == "readonly" || lower == "writeonly" {
      VarOptionsType(line, j);
    }
  }

  /** After an accessor block each body is empty or the text of a get/set
      line of the block: only the given accessors survive. */
  lemma {:induction false} AccessorBlockBodies(v: Variable, ls: seq<string>, lo: nat, hi: nat)
    requires lo <= hi <= |ls| && v.getBody == "" && v.setBody == ""
    ensures var r := AccessorBlock(v, ls, lo, hi);
      r.typeName == v.typeName && r.name == v.name
      && (r.getBody == "" || exists k :: lo <= k < hi && WordAt(ls[k], 0, [' ']) == Some("get") && r.getBody == RestOfLine(ls[k]))
      && (r.setBody == "" || exists k :: lo <= k < hi && WordAt(ls[k], 0, [' ']) == Some("set") && r.setBody == RestOfLine(ls[k]))
    decreases hi
  {
    if hi > lo {
      AccessorBlockBodies(v, ls, lo, hi - 1);
    }
  }

  // ---------------------------------------------------------------------
  // Enum values (parseEnumVar)

  const EnumNameEnd := [',', ' ', '=', '\t']

  /** An enum value line, read from its start: the name up to ",", " ", "="
      or a tab ("" when missing); and, when the next word is exactly "=",
      the value up to ",". */
  function EnumVarOf(l: string): (r: EnumVar)
  {
    var name := WordAt(l, 0, EnumNameEnd);
    var c := AfterWord(l, 0, EnumNameEnd);
    var value := if WordAt(l, c, [' ', '\t']) == Some("=")
                 then WordAt(l, AfterWord(l, c, [' ', '\t']), [','])
                 else None;
    EnumVar(if name.Some? then name.value else "", if value.Some? then value.value else "")
  }

  /** An enum value's name holds none of its end characters, and has no
      value unless "=" stands apart after it. */
  lemma EnumVarSpec(l: string)
    ensures forall k :: 0 <= k < |EnumVarOf(l).name| ==> EnumVarOf(l).name[k] !in EnumNameEnd
    ensures WordAt(l, AfterWord(l, 0, EnumNameEnd), [' ', '\t']) != Some("=") ==> EnumVarOf(l).value == ""
  {
    WordAtSpec(l, 0, EnumNameEnd);
  }

  // ---------------------------------------------------------------------
  // Class and enum headings

  /** The base list after "name :", from cursor i: comma-separated words,
      of which the last is kept; None when one is missing. Returns the last
      word and the cursor. */
  function BaseList(line: string, i: nat): (r: Option<(string, nat)>)
    requires i <= |line|
    ensures r.Some? ==> r.value.0 != "" && r.value.1 <= |line|
    decreases |line| - i
  {
    match WordAt(line, i, [','])
    case None => None
    case Some(w) =>
      var j := AfterWord(line, i, [',']);
      var comma := IndexOf(line, ',', j);
      if comma < 0 then Some((w, j)) else BaseList(line, comma + 1)
  }

  /** The heading of a class or an enum after its keyword, from cursor i:
      the name up to " " or ":", then, if the next word is exactly ":", the
      base list. Returns the name, the base ("" when none), or None when the
      name or a base is missing. */
  function Heading(line: string, i: nat): (r: Option<(string, string)>)
    requires i <= |line|
    ensures r.Some? ==> r.value.0 != ""
  {
    match WordAt(line, i, [' ', ':'])
    case None => None
    case Some(name) =>
      var c := AfterWord(line, i, [' ', ':']);
      if WordAt(line, c, [' ']) == Some(":") then
        match BaseList(line, AfterWord(line, c, [' ']))
        case None => None
        case Some((base, _)) => Some((name, base))
      else Some((name, ""))
  }

  /** The base kept is the last entry of the list: no comma follows it. */
  lemma {:induction false} BaseListLast(line: string, i: nat)
    requires i <= |line| && BaseList(line, i).Some?
    ensures var (w, j) := BaseList(line, i).value;
      IndexOf(line, ',', j) < 0 && forall k :: 0 <= k < |w| ==> w[k] != ','
    decreases |line| - i
  {
    var w := WordAt(line, i, [',']).value;
    var j := AfterWord(line, i, [',']);
    var comma := IndexOf(line, ',', j);
    if comma < 0 {
      WordAtSpec(line, i, [',']);
    } else {
      BaseListLast(line, comma + 1);
    }
  }

  // ---------------------------------------------------------------------
  // Text blocks (parseTextBlock)

  /** The line that ends a text block: its first word is exactly "textend". */
  predicate EndsText(l: string)
  {
    WordAt(l, 0, [' ']) == Some("textend")
  }

  /** The first line at or after `from` that ends a text block. */
  function TextEnd(ls: seq<string>, from: nat): (r: Option<nat>)
    requires from <= |ls|
    ensures r.Some? ==> from <= r.value < |ls|
    decreases |ls| - from
  {
    if from == |ls| then None
    else if EndsText(ls[from]) then Some(from)
    else TextEnd(ls, from + 1)
  }

  /** The text block ends at its first "textend" line. */
  lemma {:induction false} TextEndSpec(ls: seq<string>, from: nat)
    requires from <= |ls|
    ensures TextEnd(ls, from).Some? ==>
      EndsText(ls[TextEnd(ls, from).value]) && forall k :: from <= k < TextEnd(ls, from).value ==> !EndsText(ls[k])
    ensures TextEnd(ls, from).None? ==> forall k :: from <= k < |ls| ==> !EndsText(ls[k])
    decreases |ls| - from
  {
    if from < |ls| && !EndsText(ls[from]) {
      TextEndSpec(ls, from + 1);
    }
  }

  /** Lines lo .. hi-1, each followed by a newline. */
  function TextLines(ls: seq<string>, lo: nat, hi: nat): (r: string)
    requires lo <= hi <= |ls|
    decreases hi
  {
    if hi == lo then "" else TextLines(ls, lo, hi - 1) + ls[hi - 1] + "\n"
  }

  /** A text block is the concatenation of its parts in order, and holds one
      newline per line more than its lines do. */
  lemma {:induction false} TextLinesSplit(ls: seq<string>, lo: nat, mid: nat, hi: nat)
    requires lo <= mid <= hi <= |ls|
    ensures TextLines(ls, lo, hi) == TextLines(ls, lo, mid) + TextLines(ls, mid, hi)
    decreases hi
  {
    if hi > mid {
      TextLinesSplit(ls, lo, mid, hi - 1);
    }
  }

  lemma {:induction false} TextLinesLength(ls: seq<string>, lo: nat, hi: nat)
    requires lo <= hi <= |ls|
    ensures |TextLines(ls, lo, hi)| == (hi - lo) + LengthSum(ls, lo, hi)
    decreases hi
  {
    if hi > lo {
      TextLinesLength(ls, lo, hi - 1);
    }
  }

  function LengthSum(ls: seq<string>, lo: nat, hi: nat): nat
    requires lo <= hi <= |ls|
    decreases hi
  {
    if hi == lo then 0 else LengthSum(ls, lo, hi - 1) + |ls[hi - 1]|
  }
}
