// WrapperParser: a cursor over the lines of an interface file and the
// recursive-descent parsers that read its blocks into the generator's scope
// tree and declaration lists. The file's lines are a parameter of parseFile;
// the generator is a value the parser holds and updates.

module Parsing {
  import opened Text
  import opened Symbols
  import opened Resolve
  import opened Declare
  import opened Lexing
  import opened Syntax
  import opened Blocks
  import opened Members
  import opened Finalizing

  /** The generator after a global option line: the option `kw` set to value. */
  function SetOption(g: Generator, kw: string, value: string): (r: Generator)
    requires kw in GlobalOptions
    ensures r.table == g.table && r.classes == g.classes && r.enums == g.enums && r.structs == g.structs
    ensures kw == "cppoutputpath" ==> r == g.(cppOutputPath := value)
    ensures kw == "csoutputpath" ==> r == g.(csharpOutputPath := value)
    ensures kw == "cppincreaseref" ==> r == g.(cppIncreaseRef := value)
    ensures kw == "cppdecreaseref" ==> r == g.(cppDecreaseRef := value)
  {
    if kw == "cppoutputpath" then g.(cppOutputPath := value)
    else if kw == "csoutputpath" then g.(csharpOutputPath := value)
    else if kw == "cppincreaseref" then g.(cppIncreaseRef := value)
    else g.(cppDecreaseRef := value)
  }

  /** b is a with declarations added: the table grew, each list only gained
      entries at its end, and the options are as they were. */
  ghost predicate GenGrows(a: Generator, b: Generator)
  {
    Grows(a.table, b.table)
    && a.classes <= b.classes && a.enums <= b.enums && a.structs <= b.structs
    && b.cppOutputPath == a.cppOutputPath && b.csharpOutputPath == a.csharpOutputPath
    && b.cppIncreaseRef == a.cppIncreaseRef && b.cppDecreaseRef == a.cppDecreaseRef
  }

  lemma GenGrowsTransitive(a: Generator, b: Generator, c: Generator)
    requires GenGrows(a, b) && GenGrows(b, c)
    ensures GenGrows(a, c)
  {
    GrowsTransitive(a.table, b.table, c.table);
  }

  /** b is a with declarations added and, possibly, options set: what a
      top-level statement does to the generator. */
  ghost predicate Extends(a: Generator, b: Generator)
  {
    Grows(a.table, b.table) && a.classes <= b.classes && a.enums <= b.enums && a.structs <= b.structs
  }

  lemma ExtendsTransitive(a: Generator, b: Generator, c: Generator)
    requires Extends(a, b) && Extends(b, c)
    ensures Extends(a, c)
  {
    GrowsTransitive(a.table, b.table, c.table);
  }

  /** The statements parseFile knows at the top level, in lower case; any
      other word is taken for a global option. */
  const TopKeywords: set<string> := {"include", "namespace", "type", "class", "struct", "enum"}

  /** The statement word of a top-level line, in lower case; None for a
      blank or comment line, which parseFile skips. */
  function TopWord(l: string): (r: Option<string>)
    ensures r.Some? ==> WordAt(l, 0, [' ']).Some? && r.value == ToLower(WordAt(l, 0, [' ']).value)
    ensures r.None? <==> WordAt(l, 0, [' ']).None? || StartsWith(WordAt(l, 0, [' ']).value, "//")
  {
    match WordAt(l, 0, [' '])
    case None => None
    case Some(w) => if StartsWith(w, "//") then None else Some(ToLower(w))
  }

  /** A top-level line that stops parseFile before anything is read: an
      include (which re-parses the same file, without end) or a word that
      is neither a statement nor a global option with a value. */
  predicate StopsAtOnce(l: string)
  {
    TopWord(l).Some?
    && (TopWord(l).value == "include"
        || (TopWord(l).value !in TopKeywords
            && (TopWord(l).value !in GlobalOptions || RestOfLine(l) == "")))
  }

  /** A table that grew keeps the generator's lists well-formed. */
  lemma GenValidGrows(g: Generator, t: Table)
    requires GenValid(g) && Valid(t) && Grows(g.table, t)
    ensures GenValid(g.(table := t))
  {
    forall k | 0 <= k < |g.classes|
      ensures IsClass(t, g.classes[k])
    {
      GrowsKeepsDecl(g.table, t, g.classes[k]);
    }
    forall k | 0 <= k < |g.enums|
      ensures t.decls[g.enums[k]].kind == EnumKind
    {
      GrowsKeepsDecl(g.table, t, g.enums[k]);
    }
    forall k | 0 <= k < |g.structs|
      ensures t.decls[g.structs[k]].kind == StructKind
    {
      GrowsKeepsDecl(g.table, t, g.structs[k]);
    }
  }

  /** A table that grew keeps every scope's source a class or a struct, as
      long as the scopes it gained have such a source or none. */
  lemma SourcesGrow(a: Table, b: Table)
    requires SourcesAreBlocks(a) && Grows(a, b)
    requires forall i :: |a.scopes| <= i < |b.scopes| && b.scopes[i].sourceType.Some? ==>
      b.scopes[i].sourceType.value < |b.decls|
      && b.decls[b.scopes[i].sourceType.value].kind in {ClassKind, StructKind}
    ensures SourcesAreBlocks(b)
  {
    forall i | 0 <= i < |a.scopes| && b.scopes[i].sourceType.Some?
      ensures b.scopes[i].sourceType.value < |b.decls|
              && b.decls[b.scopes[i].sourceType.value].kind in {ClassKind, StructKind}
    {
      assert ScopeGrows(a.scopes[i], b.scopes[i]);
      GrowsKeepsDecl(a, b, a.scopes[i].sourceType.value);
    }
  }

  /** A declaration that takes its final value without changing kind keeps
      the generator's lists and the scopes' sources well-formed. */
  lemma SetDeclKeeps(g: Generator, id: TypeId, d: Decl, t: Table)
    requires GenValid(g) && SourcesAreBlocks(g.table) && id < |g.table.decls|
    requires d.kind == g.table.decls[id].kind && d.parentContext == g.table.decls[id].parentContext
    requires Valid(t) && t.scopes == g.table.scopes && t.decls == g.table.decls[id := d]
    ensures GenValid(g.(table := t)) && SourcesAreBlocks(t)
  {
  }

  /** Growth seen from before a declaration existed is not disturbed by
      that declaration taking its final value. */
  lemma GrowsSetBeyond(a: Table, b: Table, id: TypeId, d: Decl)
    requires Grows(a, b) && |a.decls| <= id < |b.decls|
    ensures Grows(a, b.(decls := b.decls[id := d]))
  {
    assert b.decls[id := d][..|a.decls|] == b.decls[..|a.decls|];
  }

  /** The scope of a class or struct's body: a child of ctx filed under
      the declaration's name, whose source is declaration id. */
  ghost predicate Opened(t: Table, ctx: ScopeId, scope: ScopeId, id: TypeId, name: string)
  {
    ctx < |t.scopes| && scope < |t.scopes|
    && t.scopes[scope].parent == Some(ctx) && t.scopes[scope].sourceType == Some(id)
    && name in t.scopes[ctx].children && t.scopes[ctx].children[name] == scope
  }

  lemma OpenedGrows(a: Table, b: Table, ctx: ScopeId, scope: ScopeId, id: TypeId, name: string)
    requires Opened(a, ctx, scope, id, name) && Grows(a, b)
    ensures Opened(b, ctx, scope, id, name)
  {
    assert ScopeGrows(a.scopes[ctx], b.scopes[ctx]);
    assert ScopeGrows(a.scopes[scope], b.scopes[scope]);
  }

  class Parser {
    var gen: Generator
    var lines: seq<string>
    var lineIndex: int
    var line: string
    var charIndex: int
    var currentContext: ScopeId
    /** The identity the next WrapMethod object gets. */
    var nextMethodId: nat

    ghost predicate Valid()
      reads this
    {
      GenValid(gen) && currentContext < |gen.table.scopes| && SourcesAreBlocks(gen.table)
    }

    predicate CursorOk()
      reads this
    {
      0 <= charIndex <= |line|
    }

    constructor (g: Generator)
      requires GenValid(g) && SourcesAreBlocks(g.table)
      ensures Valid() && gen == g && currentContext == 0
    {
      gen := g;
      lines := [];
      lineIndex := 0;
      line := "";
      charIndex := 0;
      currentContext := 0;
      nextMethodId := 0;
    }

    // -------------------------------------------------------------------
    // Cursor primitives

    /** skipWhitespace: past the spaces and tabs at the cursor. */
    method SkipWhitespace()
      requires CursorOk()
      modifies this`charIndex
      ensures charIndex == SkipBlanks(line, old(charIndex))
    {
      while charIndex < |line|
        invariant old(charIndex) <= charIndex <= |line|
        invariant SkipBlanks(line, charIndex) == SkipBlanks(line, old(charIndex))
        decreases |line| - charIndex
      {
        if IsBlank(line[charIndex]) {
          charIndex := charIndex + 1;
        } else {
          break;
        }
      }
    }

    /** parseWord: the blanks are skipped (whether or not the cursor
        advances), then the word up to the first end character is returned,
        and the cursor moves to its end when `advance` is set. */
    method ParseWord(endChars: seq<char>, advance: bool) returns (word: Option<string>)
      requires CursorOk()
      modifies this`charIndex
      ensures word == WordAt(line, old(charIndex), endChars)
      ensures charIndex == if advance then AfterWord(line, old(charIndex), endChars)
                           else SkipBlanks(line, old(charIndex))
    {
      SkipWhitespace();
      WordEndIsIndexOfAny(line, charIndex, endChars);
      var endIndex := IndexOfAny(line, endChars, charIndex);
      if endIndex < 0 {
        endIndex := |line|;
      }
      if endIndex == charIndex {
        return None;
      }
      word := Some(line[charIndex..endIndex]);
      if advance {
        charIndex := endIndex;
      }
    }

    /** parseLine: the rest of the line after the blanks; the cursor ends
        at the end of the line. */
    method ParseLine() returns (result: string)
      requires CursorOk()
      modifies this`charIndex
      ensures result == line[SkipBlanks(line, old(charIndex))..]
      ensures charIndex == |line|
    {
      SkipWhitespace();
      result := line[charIndex..];
      charIndex := |line|;
    }

    /** peekChars: the `length` characters at the cursor; None where
        Substring throws, that is when they run past the end of the line. */
    method PeekChars(length: int, advance: bool) returns (result: Option<string>)
      requires CursorOk()
      modifies this`charIndex
      ensures result.None? <==> length < 0 || old(charIndex) + length > |line|
      ensures result.Some? ==> 0 <= length && old(charIndex) + length <= |line|
                               && result.value == line[old(charIndex)..old(charIndex) + length]
      ensures charIndex == if result.Some? && advance then old(charIndex) + length else old(charIndex)
    {
      if length < 0 || charIndex + length > |line| {
        return None;
      }
      result := Some(line[charIndex..charIndex + length]);
      if advance {
        charIndex := charIndex + length;
      }
    }

    /** seekLine: the cursor moved by pos, clamped into the line. */
    method SeekLine(pos: int)
      modifies this`charIndex
      ensures charIndex == Clamp(old(charIndex) + pos, |line|)
    {
      charIndex := charIndex + pos;
      if charIndex < 0 {
        charIndex := 0;
      }
      if charIndex > |line| {
        charIndex := |line|;
      }
    }

    /** nextLine: on to the next line; false past the last one, with the
        line index moved anyway and the current line kept. */
    method NextLine() returns (ok: bool)
      requires lineIndex >= -1
      modifies this`lineIndex, this`line, this`charIndex
      ensures lineIndex == old(lineIndex) + 1
      ensures ok <==> lineIndex < |lines|
      ensures ok ==> line == lines[lineIndex] && charIndex == 0
      ensures !ok ==> line == old(line) && charIndex == old(charIndex)
    {
      lineIndex := lineIndex + 1;
      if lineIndex >= |lines| {
        return false;
      }
      line := lines[lineIndex];
      charIndex := 0;
      return true;
    }

    /** prevLine: back to the previous line; false before the first one. */
    method PrevLine() returns (ok: bool)
      requires lineIndex <= |lines|
      modifies this`lineIndex, this`line, this`charIndex
      ensures lineIndex == old(lineIndex) - 1
      ensures ok <==> lineIndex >= 0
      ensures ok ==> line == lines[lineIndex] && charIndex == 0
      ensures !ok ==> line == old(line) && charIndex == old(charIndex)
    {
      lineIndex := lineIndex - 1;
      if lineIndex < 0 {
        return false;
      }
      line := lines[lineIndex];
      charIndex := 0;
      return true;
    }

    /** resetLine: back to the start of the line. */
    method ResetLine()
      modifies this`charIndex
      ensures charIndex == 0
    {
      charIndex := 0;
    }

    /** skipPast(char): just past the first occurrence of the character at
        or after the cursor; false, without moving, when there is none. */
    method SkipPast(value: char) returns (ok: bool)
      requires CursorOk()
      modifies this`charIndex
      ensures ok <==> IndexOf(line, value, old(charIndex)) >= 0
      ensures ok ==> charIndex == IndexOf(line, value, old(charIndex)) + 1
      ensures !ok ==> charIndex == old(charIndex)
    {
      var index := IndexOf(line, value, charIndex);
      if index < 0 {
        return false;
      }
      charIndex := index + 1;
      return true;
    }

    /** skipPast(char[]): past every character at the cursor that is one of
        the values; always true. */
    method SkipPastAny(values: seq<char>) returns (ok: bool)
      requires CursorOk()
      modifies this`charIndex
      ensures ok && charIndex == SkipOver(line, old(charIndex), values)
    {
      while charIndex < |line|
        invariant old(charIndex) <= charIndex <= |line|
        invariant SkipOver(line, charIndex, values) == SkipOver(line, old(charIndex), values)
        decreases |line| - charIndex
      {
        var isType := false;
        for v := 0 to |values|
          invariant isType <==> line[charIndex] in values[..v]
        {
          if line[charIndex] == values[v] {
            isType := true;
            break;
          }
        }
        if !isType {
          break;
        }
        charIndex := charIndex + 1;
      }
      return true;
    }

    // -------------------------------------------------------------------
    // Lines shared by the block parsers

    /** The head of every block-body iteration: the next line, classified by
        its first word; None at the end of the input. A keyword leaves the
        cursor just after it. */
    method NextStatement() returns (s: Option<Statement>)
      requires lineIndex >= -1
      modifies this`lineIndex, this`line, this`charIndex
      ensures lineIndex == old(lineIndex) + 1
      ensures s.None? <==> lineIndex >= |lines|
      ensures s.Some? ==> line == lines[lineIndex] && s.value == StatementOf(line) && CursorOk()
      ensures s.Some? && s.value.Keyword? ==> charIndex == AfterWord(line, 0, [' '])
    {
      var ok := NextLine();
      if !ok {
        return None;
      }
      var firstWord := ParseWord([' '], true);
      return Some(StatementOf(line));
    }

    /** The opening-bracket check after every block header: the next line's
        first word must start with "{"; a line without a word makes the
        source call StartsWith on null. */
    method ExpectOpening() returns (outcome: Outcome)
      requires lineIndex >= -1
      modifies this`lineIndex, this`line, this`charIndex
      ensures lineIndex == old(lineIndex) + 1
      ensures outcome == Success <==> lineIndex < |lines| && OpensBlock(lines[lineIndex])
      ensures outcome == Thrown <==> lineIndex < |lines| && WordAt(lines[lineIndex], 0, [' ']).None?
      ensures outcome == Success ==> line == lines[lineIndex] && CursorOk()
    {
      var ok := NextLine();
      if !ok {
        return Failure;
      }
      var word := ParseWord([' '], true);
      if word.None? {
        return Thrown;
      }
      if !StartsWith(word.value, "{") {
        return Failure;
      }
      return Success;
    }

    /** parseTypeLine: a type keyword (in any case) sets exactly its fields
        to the rest of the line; an empty value is an error except for
        cppinclude; any other word is unknown and changes nothing. */
    method ParseTypeLine(d: Decl, word: string) returns (result: LineResult, r: Decl)
      requires CursorOk()
      modifies this`charIndex
      ensures var kw := ToLower(word);
        var value := line[SkipBlanks(line, old(charIndex))..];
        (result == Unknown <==> !IsTypeKeyword(kw))
        && (result == Error <==> IsTypeKeyword(kw) && kw != "cppinclude" && value == "")
        && (result == Found ==> r == SetTypeField(d, kw, value))
        && (result != Found ==> r == d)
      ensures result == Unknown ==> charIndex == old(charIndex)
      ensures result != Unknown ==> charIndex == |line|
      ensures old(charIndex) == AfterWord(line, 0, [' ']) ==>
        (result == Error <==> TypeLineStep(d, line, word).None?)
        && (result != Error ==> TypeLineStep(d, line, word) == Some(r))
    {
      var kw := ToLower(word);
      if !IsTypeKeyword(kw) {
        return Unknown, d;
      }
      var value := ParseLine();
      if value == "" && kw != "cppinclude" {
        return Error, d;
      }
      return Found, SetTypeField(d, kw, value);
    }

    /** parseGlobalOption: one of the four option keywords (in any case)
        with a non-empty value sets that option; anything else fails. */
    method ParseGlobalOption(word: string) returns (ok: bool)
      requires CursorOk()
      modifies this`gen, this`charIndex
      ensures var kw := ToLower(word);
        var value := line[SkipBlanks(line, old(charIndex))..];
        (ok <==> kw in GlobalOptions && value != "")
        && (ok ==> gen == SetOption(old(gen), kw, value))
        && (!ok ==> gen == old(gen))
    {
      var kw := ToLower(word);
      if kw !in GlobalOptions {
        return false;
      }
      var value := ParseLine();
      if value == "" {
        return false;
      }
      gen := SetOption(gen, kw, value);
      return true;
    }
  
    // -------------------------------------------------------------------
    // Blocks

    /** types.Add(d.name, d) in the current context for a new declaration
        object d; Dictionary.Add throws when the name is taken. */
    method FileNewDecl(d: Decl) returns (outcome: Outcome, id: TypeId)
      requires Valid() && d.parentContext == Some(currentContext) && d.context < |gen.table.scopes|
      modifies this`gen
      ensures Valid() && GenGrows(old(gen), gen)
      ensures gen.classes == old(gen.classes) && gen.enums == old(gen.enums) && gen.structs == old(gen.structs)
      ensures outcome != Failure
      ensures outcome == Thrown <==> d.name in old(gen.table.scopes[currentContext].types)
      ensures outcome == Success ==>
        id == |old(gen.table.decls)| && gen.table.decls == old(gen.table.decls) + [d]
        && d.name in gen.table.scopes[currentContext].types
        && gen.table.scopes[currentContext].types[d.name] == id
    {
      id := |gen.table.decls|;
      if d.name in gen.table.scopes[currentContext].types {
        return Thrown, id;
      }
      var t1 := AddDecl(gen.table, d);
      var t2 := FileType(t1, currentContext, id);
      GrowsTransitive(gen.table, t1, t2);
      GenValidGrows(gen, t2);
      gen := gen.(table := t2);
      return Success, id;
    }

    /** One pass of parseType's body loop: the next line; unless it closes
        the block, the type line it holds is applied to d. */
    method TypeBodyLine(d: Decl) returns (s: Option<Statement>, outcome: Outcome, r: Decl)
      requires lineIndex >= -1
      modifies this`lineIndex, this`line, this`charIndex
      ensures lineIndex == old(lineIndex) + 1
      ensures s.None? <==> lineIndex >= |lines|
      ensures s.Some? ==> line == lines[lineIndex] && s.value == StatementOf(line) && CursorOk()
      ensures outcome != Thrown && (s.None? ==> outcome == Failure)
      ensures s.Some? && s.value != Closing ==>
        TypeBodyStep(d, line) == (if outcome == Failure then None else Some(r))
    {
      s := NextStatement();
      r := d;
      if s.None? {
        return s, Failure, r;
      }
      outcome := Success;
      if s.value.Keyword? {
        var result;
        result, r := ParseTypeLine(d, s.value.word);
        if result == Error {
          outcome := Failure;
        }
      }
    }

    /** The body loop of parseType, from the opening line: type lines up to
        the closing line; the end of the input or a type line in error
        fails. */
    method ParseTypeBody(d0: Decl) returns (outcome: Outcome, d: Decl)
      requires 0 <= lineIndex < |lines|
      modifies this`lineIndex, this`line, this`charIndex
      ensures old(lineIndex) <= lineIndex && outcome != Thrown
      ensures outcome == Success ==> lineIndex < |lines| && CursorOk() && line == lines[lineIndex]
      ensures outcome == Success ==>
        ClosedBody(lines, old(lineIndex), lineIndex)
        && TypeBody(d0, lines, old(lineIndex) + 1, lineIndex) == Some(d)
    {
      d := d0;
      ghost var open := lineIndex;
      ghost var ls := lines;
      while true
        invariant lines == ls && open <= lineIndex < |ls|
        invariant NoClosing(ls, open, lineIndex + 1)
        invariant TypeBody(d0, ls, open + 1, lineIndex + 1) == Some(d)
        decreases |ls| - lineIndex
      {
        var closed, ok, r := TypeBodyNext(d0, open, d);
        if closed {
          return Success, d;
        }
        if !ok {
          return Failure, d;
        }
        d := r;
      }
    }

    /** One turn of parseType's body loop, seen against the body read so
        far: the closing line ends the block, any other line extends it
        unless it is in error or the input has ended. */
    method TypeBodyNext(ghost d0: Decl, ghost open: nat, d: Decl) returns (closed: bool, ok: bool, r: Decl)
      requires open <= lineIndex < |lines| && NoClosing(lines, open, lineIndex + 1)
      requires TypeBody(d0, lines, open + 1, lineIndex + 1) == Some(d)
      modifies this`lineIndex, this`line, this`charIndex
      ensures lineIndex == old(lineIndex) + 1
      ensures closed ==>
        lineIndex < |lines| && CursorOk() && line == lines[lineIndex] && ClosedBody(lines, open, lineIndex)
        && TypeBody(d0, lines, open + 1, lineIndex) == Some(d)
      ensures !closed && ok ==>
        lineIndex < |lines| && NoClosing(lines, open, lineIndex + 1) && TypeBody(d0, lines, open + 1, lineIndex + 1) == Some(r)
    {
      ghost var k := lineIndex + 1;
      assert NoClosing(lines, open, k) && TypeBody(d0, lines, open + 1, k) == Some(d);
      var s, outcome;
      s, outcome, r := TypeBodyLine(d);
      assert lineIndex == k;
      closed := s == Some(Closing);
      ok := s.Some? && outcome != Failure;
      if ok && !closed {
        TypeBodyGrow(d0, d, r, lines, open, lineIndex);
      }
    }

    /** The block of a `type` statement, from its opening line to its
        closing line, read into the header's declaration. */
    method ReadTypeBlock(name: string, ctx: ScopeId) returns (outcome: Outcome, d: Decl)
      requires 0 <= lineIndex < |lines|
      modifies this`lineIndex, this`line, this`charIndex
      ensures old(lineIndex) <= lineIndex
      ensures outcome == Success ==>
        ClosedBody(lines, old(lineIndex) + 1, lineIndex) && OpensBlock(lines[old(lineIndex) + 1])
        && TypeBlock(lines, old(lineIndex) + 1, lineIndex, name, ctx) == Some(d)
        && CursorOk() && line == lines[lineIndex]
      ensures d.name == name && d.parentContext == Some(ctx) && d.context == 0
    {
      outcome := ExpectOpening();
      d := TypeHeader(name, ctx);
      if outcome != Success {
        return;
      }
      ghost var open := lineIndex;
      assert open == old(lineIndex) + 1 && OpensBlock(lines[open]);
      outcome, d := ParseTypeBody(d);
      if outcome == Success {
        TypeBodyKeeps(TypeHeader(name, ctx), lines, open + 1, lineIndex);
        assert ClosedBody(lines, open, lineIndex) && TypeBlock(lines, open, lineIndex, name, ctx) == Some(d);
      } else {
        d := TypeHeader(name, ctx);
      }
    }

    /** parseType: `type Name`, an opening line, type lines up to the
        closing line; the type is then filed under its name in the current
        context. */
    method ParseType() returns (outcome: Outcome, d: Decl)
      requires Valid() && CursorOk() && 0 <= lineIndex < |lines|
      modifies this`gen, this`lineIndex, this`line, this`charIndex
      ensures Valid() && GenGrows(old(gen), gen)
      ensures gen.classes == old(gen.classes) && gen.enums == old(gen.enums) && gen.structs == old(gen.structs)
      ensures old(lineIndex) <= lineIndex
      ensures outcome == Success ==> lineIndex < |lines| && CursorOk()
      ensures WordAt(old(line), old(charIndex), [' ']).None? ==> outcome == Failure
      ensures outcome == Success ==>
        var name := WordAt(old(line), old(charIndex), [' ']).value;
        old(lineIndex) + 1 < lineIndex
        && TypeBlock(lines, old(lineIndex) + 1, lineIndex, name, currentContext) == Some(d)
        && name !in old(gen.table.scopes[currentContext].types)
        && gen.table.decls == old(gen.table.decls) + [d]
        && name in gen.table.scopes[currentContext].types
        && gen.table.scopes[currentContext].types[name] == |old(gen.table.decls)|
    {
      ghost var types := gen.table.scopes[currentContext].types;
      var name := ParseWord([' '], true);
      if name.None? {
        return Failure, NewDecl(PlainKind, "");
      }
      outcome, d := ReadTypeBlock(name.value, currentContext);
      if outcome != Success {
        return;
      }
      assert gen == old(gen) && gen.table.scopes[currentContext].types == types;
      ghost var block := TypeBlock(lines, old(lineIndex) + 1, lineIndex, name.value, currentContext);
      assert block == Some(d);
      var id;
      outcome, id := FileNewDecl(d);
      assert outcome == Success ==> d.name !in types;
      assert block == TypeBlock(lines, old(lineIndex) + 1, lineIndex, name.value, currentContext);
    }
  
    // -------------------------------------------------------------------
    // Member lines

    /** The type of an argument, after a direction keyword if there is one. */
    method ParseArgType() returns (t: Option<(string, bool, bool)>)
      requires CursorOk()
      modifies this`charIndex
      ensures var a := ArgTypeAt(line, old(charIndex));
        (t.None? <==> a.None?)
        && (t.Some? ==> t.value == (a.value.0, a.value.1, a.value.2) && charIndex == a.value.3)
      ensures CursorOk()
    {
      var typeWord := ParseWord(TypeEnd, true);
      if typeWord.None? {
        return None;
      }
      var dir := Direction(ToLower(typeWord.value));
      if dir.None? {
        return Some((typeWord.value, true, false));
      }
      var w := ParseWord(DirectedTypeEnd, true);
      if w.None? {
        return None;
      }
      return Some((w.value, dir.value.0, dir.value.1));
    }

    /** The optional "= value" after an argument's name, at a character. */
    method ParseDefault() returns (defaultValue: string)
      requires 0 <= charIndex < |line|
      modifies this`charIndex
      ensures (defaultValue, charIndex) == DefaultAt(line, old(charIndex))
    {
      var next := PeekChars(1, false);
      defaultValue := "";
      if next.value == "=" {
        SeekLine(1);
        var dv := ParseWord(DefaultEnd, true);
        defaultValue := if dv.Some? then dv.value else "";
      }
    }

    /** One argument of parseArgs's loop: its type, a peek for a lone "&",
        its name, an optional default value, and the separators after it. */
    method ParseArg() returns (read: ArgRead)
      requires CursorOk()
      modifies this`charIndex
      ensures read == ArgAt(line, old(charIndex))
      ensures read.ArgRead? ==> charIndex == read.next
      ensures CursorOk()
    {
      var t := ParseArgType();
      if t.None? {
        return ArgMissing;
      }
      ghost var i2 := charIndex;
      var peek := ParseWord(RefEnd, false);
      var cppRef := peek == Some("&");
      var skipped := SkipPastAny(TypeEnd);
      var name := ParseWord(NameEnd, true);
      if name.None? {
        return ArgMissing;
      }
      SkipWhitespace();
      if charIndex + 1 > |line| {
        return ArgThrows;
      }
      var defaultValue := ParseDefault();
      skipped := SkipPastAny(ArgGap);
      read := ArgRead(MethodArg(t.value.0, name.value, defaultValue, t.value.1, t.value.2, cppRef), charIndex);
      assert read == ArgAfterType(line, i2, t.value.0, t.value.1, t.value.2);
    }

    /** parseArgs's loop: one argument after the other, until the
        separators after one reach the end of the line or a ")". */
    method ParseArgList(m: Method) returns (outcome: Outcome, r: Method)
      requires CursorOk()
      modifies this`charIndex
      ensures var p := ArgList(line, old(charIndex));
        (outcome == Success <==> p.Parsed?) && (outcome == Thrown <==> p.ArgsThrown?)
        && (p.Parsed? ==> r == m.(args := m.args + p.args) && charIndex == p.next)
      ensures 0 <= charIndex <= |line| + 1
    {
      ghost var start := charIndex;
      var args: seq<MethodArg> := [];
      ArgListPrependNothing(line, start);
      while true
        invariant CursorOk() && start <= charIndex
        invariant Prepend(args, ArgList(line, charIndex)) == ArgList(line, start)
        decreases |line| - charIndex
      {
        ghost var i := charIndex;
        var read := ParseArg();
        if read.ArgMissing? {
          ArgListStep(line, i);
          return Failure, m;
        }
        if read.ArgThrows? {
          ArgListStep(line, i);
          return Thrown, m;
        }
        ArgListStep(line, i);
        PrependTwice(args, [read.arg], ArgList(line, charIndex));
        args := args + [read.arg];
        if charIndex >= |line| || line[charIndex] == ')' {
          charIndex := charIndex + 1;
          return Success, m.(args := m.args + args);
        }
      }
    }

    /** parseArgs: the argument list of a func line, appended to m's. */
    method ParseArgs(m: Method) returns (outcome: Outcome, r: Method)
      requires CursorOk()
      modifies this`charIndex
      ensures var p := ArgsOf(line, old(charIndex));
        (outcome == Success <==> p.Parsed?) && (outcome == Thrown <==> p.ArgsThrown?)
        && (p.Parsed? ==> r == m.(args := m.args + p.args) && charIndex == p.next)
      ensures 0 <= charIndex <= |line| + 1
    {
      r := m;
      ghost var p := ArgsOf(line, charIndex);
      ghost var open := IndexOf(line, '(', charIndex);
      var found := SkipPast('(');
      var endIndex := IndexOf(line, ')', 0);
      assert p == ArgsBetween(line, open, endIndex);
      if !found || endIndex < 0 {
        return Failure, r;
      }
      if endIndex < charIndex {
        return Thrown, r;
      }
      var arguments := line[charIndex..endIndex];
      if EmptyArgs(arguments) {
        assert p == Parsed([], endIndex + 1);
        charIndex := endIndex + 1;
        assert m.args + [] == m.args;
        return Success, r;
      }
      ArgsOfList(line, old(charIndex), open, endIndex, charIndex);
      outcome, r := ParseArgList(m);
    }

    /** The option words before a function's return type, and the return
        type itself. */
    method ParseFuncOptions(m: Method) returns (r: Option<Method>)
      requires CursorOk()
      modifies this`charIndex
      ensures var o := FuncOptions(line, old(charIndex), m);
        (r.None? <==> o.None?) && (r.Some? ==> r.value == o.value.0 && charIndex == o.value.1)
      ensures CursorOk()
    {
      var cur := m;
      while true
        invariant CursorOk()
        invariant FuncOptions(line, charIndex, cur) == FuncOptions(line, old(charIndex), m)
        decreases |line| - charIndex
      {
        var word := ParseWord(OptionEnd, true);
        if word.None? {
          return None;
        }
        var lower := ToLower(word.value);
        if lower == "static" {
          cur := cur.(isStatic := true);
        } else if lower == "virtual" {
          cur := cur.(isVirtual := true);
        } else if lower == "abstract" {
          cur := cur.(isVirtual := true, isAbstract := true);
        } else if lower == "unsafe" {
          cur := cur.(isUnsafe := true);
        } else {
          return Some(cur.(returnType := word.value));
        }
      }
    }

    /** The head of a func line: options and return type when a space comes
        before the first "(", "void" otherwise; then the name. */
    method ParseFuncHead(id: nat) returns (r: Option<Method>)
      requires CursorOk()
      modifies this`charIndex
      ensures var h := FuncHead(line, old(charIndex), id);
        (r.None? <==> h.None?) && (r.Some? ==> r.value == h.value.0 && charIndex == h.value.1)
      ensures CursorOk()
    {
      var openFuncWord := ParseWord(['('], false);
      if openFuncWord.None? {
        return None;
      }
      var m := NewMethod(id);
      if ' ' in openFuncWord.value {
        var opts := ParseFuncOptions(m);
        if opts.None? {
          return None;
        }
        m := opts.value;
      } else {
        m := m.(returnType := "void");
      }
      var skipped := SkipPastAny(TypeEnd);
      var name := ParseWord(['('], true);
      if name.None? {
        return None;
      }
      return Some(m.(name := name.value));
    }

    /** The words after a function's argument list: "const" makes it const,
        any other word fails. (";" ends a word, so no word is ever ";".) */
    method ParsePostfix(m: Method) returns (r: Option<Method>)
      requires CursorOk()
      modifies this`charIndex
      ensures r == Postfix(Words(line, old(charIndex), PostfixEnd), m)
    {
      var cur := m;
      ghost var c := charIndex;
      var word := ParseWord(PostfixEnd, true);
      while word.Some?
        invariant CursorOk() && c <= |line|
        invariant Postfix(Words(line, c, PostfixEnd), cur) == Postfix(Words(line, old(charIndex), PostfixEnd), m)
        invariant word == WordAt(line, c, PostfixEnd)
        invariant word.Some? ==> charIndex == AfterWord(line, c, PostfixEnd)
        decreases |line| - c
      {
        WordsUnfold(line, c, PostfixEnd);
        var lower := ToLower(word.value);
        if lower == "const" {
          cur := cur.(isConst := true);
        } else if lower != ";" {
          return None;
        }
        c := charIndex;
        word := ParseWord(PostfixEnd, true);
      }
      return Some(cur);
    }

    /** parseFunc: a new method object with the next identity, read from the
        func line, and filed in d by its name. The source's check for an
        empty return type never fails: the head always sets one. */
    method ParseFunc(d: Decl) returns (outcome: Outcome, r: Decl)
      requires CursorOk()
      modifies this`charIndex, this`nextMethodId
      ensures nextMethodId == old(nextMethodId) + 1
      ensures var f := FuncAt(line, old(charIndex), old(nextMethodId));
        (outcome == Success <==> f.FuncRead?) && (outcome == Thrown <==> f.FuncThrown?)
        && (f.FuncRead? ==> r == FileMethod(d, f.m))
        && (!f.FuncRead? ==> r == d)
    {
      var id := nextMethodId;
      nextMethodId := nextMethodId + 1;
      var head := ParseFuncHead(id);
      if head.None? {
        return Failure, d;
      }
      var m;
      outcome, m := ParseArgs(head.value);
      if outcome != Success {
        return outcome, d;
      }
      if charIndex > |line| {
        return Thrown, d;
      }
      var post := ParsePostfix(m);
      if post.None? {
        return Failure, d;
      }
      return Success, FileMethod(d, post.value);
    }

    /** The head of a var line: option words, which clear a body as they
        come, the type word, then the name up to ";". */
    method ParseVarHead() returns (head: Option<Variable>)
      requires CursorOk()
      modifies this`charIndex
      ensures var h := VarHead(line, old(charIndex));
        (head.None? <==> h.None?) && (head.Some? ==> head.value == h.value.0)
      ensures CursorOk()
    {
      var v := NewVariable();
      ghost var ro, wo := false, false;
      var word: string;
      while true
        invariant CursorOk()
        invariant VarOptions(line, old(charIndex)) == WithOptions(ro, wo, VarOptions(line, charIndex))
        invariant v == Variable("", "", if wo then "" else DefaultGetBody, if ro then "" else DefaultSetBody)
        decreases |line| - charIndex
      {
        var w := ParseWord([' '], true);
        if w.None? {
          return None;
        }
        var lower := ToLower(w.value);
        if lower == "readonly" {
          v := v.(setBody := "");
          ro := true;
        } else if lower == "writeonly" {
          v := v.(getBody := "");
          wo := true;
        } else {
          word := w.value;
          break;
        }
      }
      ghost var o := VarOptions(line, old(charIndex)).value;
      assert o == (ro, wo, word, charIndex);
      head := ParseVarName(v, word, ro, wo);
    }

    /** The rest of a var line after its type word: the variable, with its
        name read up to ";". */
    method ParseVarName(v: Variable, word: string, ghost ro: bool, ghost wo: bool) returns (head: Option<Variable>)
      requires CursorOk() && word != ""
      requires v == Variable("", "", if wo then "" else DefaultGetBody, if ro then "" else DefaultSetBody)
      modifies this`charIndex
      ensures var name := WordAt(line, old(charIndex), [';']);
        head == VarOf(ro, wo, word, if name.Some? then name.value else "")
      ensures CursorOk()
    {
      var w := word;
      var u := v;
      if w[|w| - 1] == '&' {
        w := w[..|w| - 1];
        if u.getBody != "" {
          u := u.(getBody := RefGetBody);
        }
        if u.setBody != "" {
          u := u.(setBody := RefSetBody);
        }
      }
      var name := ParseWord([';'], true);
      if w == "" {
        return None;
      }
      return Some(u.(typeName := w, name := if name.Some? then name.value else ""));
    }

    /** The accessor block of a var line, from its "{" line: get and set
        lines up to the "}" line; the end of the input fails. */
    method ParseAccessors(v0: Variable) returns (outcome: Outcome, v: Variable)
      requires 0 <= lineIndex < |lines|
      modifies this`lineIndex, this`line, this`charIndex
      ensures outcome != Thrown
      ensures var e := AccessorsEnd(lines, old(lineIndex) + 1);
        (outcome == Success <==> e.Some?)
        && (e.Some? ==> v == AccessorBlock(v0, lines, old(lineIndex) + 1, e.value)
                        && lineIndex == e.value && line == lines[lineIndex] && CursorOk())
    {
      v := v0;
      ghost var from := lineIndex + 1;
      while true
        invariant from - 1 <= lineIndex < |lines|
        invariant AccessorsEnd(lines, lineIndex + 1) == AccessorsEnd(lines, from)
        invariant AccessorBlock(v0, lines, from, lineIndex + 1) == v
        decreases |lines| - lineIndex
      {
        var ok := NextLine();
        if !ok {
          return Failure, v;
        }
        var word := ParseWord([' '], true);
        if word == Some("get") {
          var body := ParseLine();
          v := v.(getBody := body);
        } else if word == Some("set") {
          var body := ParseLine();
          v := v.(setBody := body);
        } else if word == Some("}") {
          return Success, v;
        }
      }
    }

    /** parseVar: the head of a var line; then, when the next line is "{",
        both bodies are cleared and the accessor block read; otherwise the
        cursor steps back to the var line. */
    method ParseVar() returns (outcome: Outcome, v: Variable)
      requires CursorOk() && 0 <= lineIndex < |lines| && line == lines[lineIndex]
      modifies this`lineIndex, this`line, this`charIndex
      ensures outcome != Thrown
      ensures var p := VarAt(lines, old(lineIndex), old(charIndex));
        (outcome == Success <==> p.VarRead?)
        && (p.VarRead? ==> v == p.v && lineIndex == p.endLine && line == lines[lineIndex] && CursorOk())
    {
      var head := ParseVarHead();
      if head.None? {
        return Failure, NewVariable();
      }
      v := head.value;
      var ok := NextLine();
      var opens := false;
      if ok {
        var word := ParseWord([' '], false);
        opens := word == Some("{");
      }
      if opens {
        outcome, v := ParseAccessors(v.(getBody := "", setBody := ""));
        return;
      }
      ok := PrevLine();
      return Success, v;
    }

    /** parseInterface: "cpptocs" or "cstocpp" (exact words) sets which side
        implements the class; any other word fails. */
    method ParseInterface(d: Decl) returns (outcome: Outcome, r: Decl)
      requires CursorOk()
      modifies this`charIndex
      ensures outcome != Thrown
      ensures var w := WordAt(line, old(charIndex), [' ']);
        (outcome == Success <==> w == Some("cpptocs") || w == Some("cstocpp"))
        && (w == Some("cpptocs") ==> r == d.(interfaceType := CppToCSharp))
        && (w == Some("cstocpp") ==> r == d.(interfaceType := CSharpToCpp))
        && (outcome != Success ==> r == d)
    {
      var temp := ParseWord([' '], true);
      if temp == Some("cpptocs") {
        return Success, d.(interfaceType := CppToCSharp);
      } else if temp == Some("cstocpp") {
        return Success, d.(interfaceType := CSharpToCpp);
      }
      return Failure, d;
    }

    /** parseTextBlock: the lines after the textbegin line, each with a
        newline, up to the first "textend" line, added to d's text blocks;
        the end of the input fails. */
    method ParseTextBlock(d: Decl) returns (outcome: Outcome, r: Decl)
      requires 0 <= lineIndex < |lines|
      modifies this`lineIndex, this`line, this`charIndex
      ensures outcome != Thrown
      ensures var e := TextEnd(lines, old(lineIndex) + 1);
        (outcome == Success <==> e.Some?)
        && (e.Some? ==> r == d.(textBlocks := d.textBlocks + [TextLines(lines, old(lineIndex) + 1, e.value)])
                        && lineIndex == e.value && line == lines[lineIndex] && CursorOk())
    {
      var buffer := "";
      ghost var from := lineIndex + 1;
      while true
        invariant from - 1 <= lineIndex < |lines|
        invariant TextEnd(lines, lineIndex + 1) == TextEnd(lines, from)
        invariant buffer == TextLines(lines, from, lineIndex + 1)
        decreases |lines| - lineIndex
      {
        var ok := NextLine();
        if !ok {
          return Failure, d;
        }
        var word := ParseWord([' '], false);
        if word == Some("textend") {
          break;
        }
        buffer := buffer + line + "\n";
      }
      return Success, d.(textBlocks := d.textBlocks + [buffer]);
    }

    /** parseEnumVar: an enum value read from the start of the line. */
    method ParseEnumVar(d: Decl) returns (r: Decl)
      requires charIndex == 0
      modifies this`charIndex
      ensures r == d.(vars := d.vars + [EnumVarOf(line)])
      ensures CursorOk()
    {
      var name := ParseWord(EnumNameEnd, true);
      var value: Option<string> := None;
      var eq := ParseWord([' ', '\t'], true);
      if eq == Some("=") {
        value := ParseWord([','], true);
      }
      var ev := EnumVar(if name.Some? then name.value else "", if value.Some? then value.value else "");
      return d.(vars := d.vars + [ev]);
    }

    // -------------------------------------------------------------------
    // Scopes of classes and structs

    /** The heading of a class or enum: its name up to " " or ":", then,
        after a lone ":", a comma-separated base list of which the last
        entry is kept. */
    method ParseHeading() returns (h: Option<(string, string)>)
      requires CursorOk()
      modifies this`charIndex
      ensures h == Heading(line, old(charIndex))
      ensures CursorOk()
    {
      var name := ParseWord([' ', ':'], true);
      if name.None? {
        return None;
      }
      var word := ParseWord([' '], true);
      if word != Some(":") {
        return Some((name.value, ""));
      }
      var base := ParseBaseList();
      if base.None? {
        return None;
      }
      return Some((name.value, base.value));
    }

    /** The base list after a heading's ":": comma-separated words, of which
        the last is kept; None when an entry is missing. */
    method ParseBaseList() returns (base: Option<string>)
      requires CursorOk()
      modifies this`charIndex
      ensures var b := BaseList(line, old(charIndex));
        (base.None? <==> b.None?) && (base.Some? ==> base.value == b.value.0)
      ensures CursorOk()
    {
      while true
        invariant CursorOk()
        invariant BaseList(line, charIndex) == BaseList(line, old(charIndex))
        decreases |line| - charIndex
      {
        var w := ParseWord([','], true);
        if w.None? {
          return None;
        }
        var more := SkipPast(',');
        if !more {
          return w;
        }
      }
    }

    /** The qualified name of a class or struct declared in the current
        context: each enclosing scope's name followed by ".", then its own. */
    method QualifyName(name: string) returns (qualified: string)
      requires Valid()
      ensures qualified == Terminated(Qualifiers(gen.table, currentContext), ".") + name
    {
      var names := BuildQualifiers(gen.table, currentContext);
      qualified := "";
      for i := 0 to |names|
        invariant qualified == Terminated(names[..i], ".")
      {
        TerminatedSnoc(names[..i], names[i], ".");
        assert names[..i + 1] == names[..i] + [names[i]];
        qualified := qualified + names[i] + ".";
      }
      assert names[..|names|] == names;
      qualified := qualified + name;
    }

    /** A new class or struct object d and the scope of its body, filed
        under its name among the children of the current context, which it
        becomes. */
    method OpenScope(d: Decl) returns (id: TypeId, r: Decl)
      requires Valid() && d.kind in {ClassKind, StructKind}
      requires d.parentContext == Some(currentContext) && d.name != "" && d.context < |gen.table.scopes|
      requires d.name !in gen.table.scopes[currentContext].children
      modifies this`gen, this`currentContext
      ensures Valid() && GenGrows(old(gen), gen)
      ensures gen.classes == old(gen.classes) && gen.enums == old(gen.enums) && gen.structs == old(gen.structs)
      ensures id == |old(gen.table.decls)| && currentContext == |old(gen.table.scopes)|
      ensures r == d.(context := currentContext) && gen.table.decls == old(gen.table.decls) + [r]
      ensures gen.table.scopes[currentContext] == Scope(d.name, Some(old(currentContext)), map[], map[], Some(id))
      ensures Opened(gen.table, old(currentContext), currentContext, id, d.name)
    {
      id := |gen.table.decls|;
      var t1 := AddDecl(gen.table, d);
      var t2 := AddScope(t1, currentContext, d.name, Some(id));
      GrowsTransitive(gen.table, t1, t2);
      var scope := |t1.scopes|;
      r := d.(context := scope);
      var t3 := SetDecl(t2, id, r);
      GrowsSetBeyond(gen.table, t2, id, r);
      assert t2.decls[id := r] == gen.table.decls + [r];
      SourcesGrow(gen.table, t3);
      GenValidGrows(gen, t3);
      gen := gen.(table := t3);
      currentContext := scope;
    }

    /** A declaration object takes its final value. */
    method SetFinal(id: TypeId, d: Decl)
      requires Valid() && id < |gen.table.decls|
      requires d.kind == gen.table.decls[id].kind && d.name == gen.table.decls[id].name
      requires d.parentContext == gen.table.decls[id].parentContext && d.context < |gen.table.scopes|
      modifies this`gen
      ensures Valid()
      ensures gen == old(gen).(table := old(gen.table).(decls := old(gen.table.decls)[id := d]))
    {
      var t := SetDecl(gen.table, id, d);
      SetDeclKeeps(gen, id, d, t);
      gen := gen.(table := t);
    }

    /** A class or struct listed, and filed under its name in the current
        context (types.Add throws when the name is taken). */
    method ListAndFile(id: TypeId) returns (outcome: Outcome)
      requires Valid() && id < |gen.table.decls| && gen.table.decls[id].kind in {ClassKind, StructKind}
      requires gen.table.decls[id].parentContext == Some(currentContext)
      modifies this`gen
      ensures Valid() && GenGrows(old(gen), gen)
      ensures outcome != Failure
      ensures outcome == Thrown <==> gen.table.decls[id].name in old(gen.table.scopes[currentContext].types)
      ensures outcome == Success ==>
        var name := gen.table.decls[id].name;
        gen.table.decls == old(gen.table.decls) && gen.enums == old(gen.enums)
        && name in gen.table.scopes[currentContext].types && gen.table.scopes[currentContext].types[name] == id
        && (gen.table.decls[id].kind == ClassKind ==> gen.classes == old(gen.classes) + [id] && gen.structs == old(gen.structs))
        && (gen.table.decls[id].kind == StructKind ==> gen.structs == old(gen.structs) + [id] && gen.classes == old(gen.classes))
    {
      if gen.table.decls[id].name in gen.table.scopes[currentContext].types {
        return Thrown;
      }
      var t := FileType(gen.table, currentContext, id);
      SourcesGrow(gen.table, t);
      GenValidGrows(gen, t);
      if gen.table.decls[id].kind == ClassKind {
        gen := gen.(table := t, classes := gen.classes + [id]);
      } else {
        gen := gen.(table := t, structs := gen.structs + [id]);
      }
      return Success;
    }

    /** The end of a class or struct block: the declaration takes its final
        value, the context pops back to the enclosing one, and the
        declaration is listed and filed there. */
    method CloseScope(id: TypeId, d: Decl) returns (outcome: Outcome)
      requires Valid() && id < |gen.table.decls| && d.kind in {ClassKind, StructKind}
      requires d.kind == gen.table.decls[id].kind && d.name == gen.table.decls[id].name
      requires d.parentContext == gen.table.decls[id].parentContext && d.parentContext.Some?
      requires d.parentContext.value < |gen.table.scopes|
      requires gen.table.scopes[currentContext].parent == d.parentContext
      requires d.context < |gen.table.scopes|
      modifies this`gen, this`currentContext
      ensures Valid() && currentContext == d.parentContext.value
      ensures GenGrows(old(gen).(table := old(gen.table).(decls := old(gen.table.decls)[id := d])), gen)
      ensures outcome != Failure
      ensures outcome == Thrown <==> d.name in old(gen.table.scopes[d.parentContext.value].types)
      ensures outcome == Success ==>
        gen.table.decls == old(gen.table.decls)[id := d] && gen.enums == old(gen.enums)
        && d.name in gen.table.scopes[currentContext].types && gen.table.scopes[currentContext].types[d.name] == id
        && (d.kind == ClassKind ==> gen.classes == old(gen.classes) + [id] && gen.structs == old(gen.structs))
        && (d.kind == StructKind ==> gen.structs == old(gen.structs) + [id] && gen.classes == old(gen.classes))
    {
      SetFinal(id, d);
      ghost var g1 := gen;
      assert Grows(g1.table, g1.table);
      currentContext := gen.table.scopes[currentContext].parent.value;
      outcome := ListAndFile(id);
    }

    // -------------------------------------------------------------------
    // Enums

    /** One pass of parseEnum's body loop: the next line; unless it closes
        the block, a type line is applied to d, and any other statement
        line adds a value. */
    method EnumBodyLine(d: Decl) returns (s: Option<Statement>, outcome: Outcome, r: Decl)
      requires lineIndex >= -1
      modifies this`lineIndex, this`line, this`charIndex
      ensures lineIndex == old(lineIndex) + 1
      ensures s.None? <==> lineIndex >= |lines|
      ensures s.Some? ==> line == lines[lineIndex] && s.value == StatementOf(line) && CursorOk()
      ensures outcome != Thrown && (s.None? ==> outcome == Failure)
      ensures s.Some? && s.value != Closing ==>
        EnumBodyStep(d, line) == (if outcome == Failure then None else Some(r))
    {
      s := NextStatement();
      r := d;
      if s.None? {
        return s, Failure, r;
      }
      outcome := Success;
      if s.value.Keyword? {
        var result;
        result, r := ParseTypeLine(d, s.value.word);
        if result == Error {
          outcome := Failure;
        } else if result == Unknown {
          ResetLine();
          r := ParseEnumVar(d);
        }
      }
    }

    /** The body loop of parseEnum, from the opening line: type lines, and
        a value for every other statement line, up to the closing line. */
    method ParseEnumBody(d0: Decl) returns (outcome: Outcome, d: Decl)
      requires 0 <= lineIndex < |lines|
      modifies this`lineIndex, this`line, this`charIndex
      ensures old(lineIndex) <= lineIndex && outcome != Thrown
      ensures outcome == Success ==> lineIndex < |lines| && CursorOk() && line == lines[lineIndex]
      ensures outcome == Success ==>
        ClosedBody(lines, old(lineIndex), lineIndex)
        && EnumBody(d0, lines, old(lineIndex) + 1, lineIndex) == Some(d)
    {
      d := d0;
      ghost var open := lineIndex;
      ghost var ls := lines;
      while true
        invariant lines == ls && open <= lineIndex < |ls|
        invariant NoClosing(ls, open, lineIndex + 1)
        invariant EnumBody(d0, ls, open + 1, lineIndex + 1) == Some(d)
        decreases |ls| - lineIndex
      {
        var closed, ok, r := EnumBodyNext(d0, open, d);
        if closed {
          return Success, d;
        }
        if !ok {
          return Failure, d;
        }
        d := r;
      }
    }

    /** One turn of parseEnum's body loop, seen against the body read so
        far: the closing line ends the block, any other line extends it
        unless it is in error or the input has ended. */
    method EnumBodyNext(ghost d0: Decl, ghost open: nat, d: Decl) returns (closed: bool, ok: bool, r: Decl)
      requires open <= lineIndex < |lines| && NoClosing(lines, open, lineIndex + 1)
      requires EnumBody(d0, lines, open + 1, lineIndex + 1) == Some(d)
      modifies this`lineIndex, this`line, this`charIndex
      ensures lineIndex == old(lineIndex) + 1
      ensures closed ==>
        lineIndex < |lines| && CursorOk() && line == lines[lineIndex] && ClosedBody(lines, open, lineIndex)
        && EnumBody(d0, lines, open + 1, lineIndex) == Some(d)
      ensures !closed && ok ==>
        lineIndex < |lines| && NoClosing(lines, open, lineIndex + 1) && EnumBody(d0, lines, open + 1, lineIndex + 1) == Some(r)
    {
      ghost var k := lineIndex + 1;
      assert NoClosing(lines, open, k) && EnumBody(d0, lines, open + 1, k) == Some(d);
      var s, outcome;
      s, outcome, r := EnumBodyLine(d);
      assert lineIndex == k;
      closed := s == Some(Closing);
      ok := s.Some? && outcome != Failure;
      if ok && !closed {
        EnumBodyGrow(d0, d, r, lines, open, lineIndex);
      }
    }

    /** The block of an enum statement, from its opening line to its
        closing line, read into the header's declaration. */
    method ReadEnumBlock(name: string, base: string, ctx: ScopeId) returns (outcome: Outcome, d: Decl)
      requires 0 <= lineIndex < |lines|
      modifies this`lineIndex, this`line, this`charIndex
      ensures old(lineIndex) <= lineIndex
      ensures outcome == Success ==>
        ClosedBody(lines, old(lineIndex) + 1, lineIndex) && OpensBlock(lines[old(lineIndex) + 1])
        && EnumBlock(lines, old(lineIndex) + 1, lineIndex, name, base, ctx) == Some(d)
        && CursorOk() && line == lines[lineIndex]
      ensures d.kind == EnumKind && d.name == name && d.parentContext == Some(ctx) && d.context == 0
    {
      outcome := ExpectOpening();
      d := EnumHeader(name, base, ctx);
      if outcome != Success {
        return;
      }
      ghost var open := lineIndex;
      assert open == old(lineIndex) + 1 && OpensBlock(lines[open]);
      outcome, d := ParseEnumBody(d);
      if outcome == Success {
        EnumBodyKeeps(EnumHeader(name, base, ctx), lines, open + 1, lineIndex);
        assert ClosedBody(lines, open, lineIndex) && EnumBlock(lines, open, lineIndex, name, base, ctx) == Some(d);
      } else {
        d := EnumHeader(name, base, ctx);
      }
    }

    /** parseEnum: `enum Name : Base`, an opening line, type and value
        lines up to the closing line; the enum is then listed and filed
        under its name in the current context. */
    method ParseEnum() returns (outcome: Outcome)
      requires Valid() && CursorOk() && 0 <= lineIndex < |lines|
      modifies this`gen, this`lineIndex, this`line, this`charIndex
      ensures Valid() && GenGrows(old(gen), gen)
      ensures gen.classes == old(gen.classes) && gen.structs == old(gen.structs)
      ensures old(lineIndex) <= lineIndex
      ensures outcome == Success ==> lineIndex < |lines| && CursorOk() && line == lines[lineIndex]
      ensures Heading(old(line), old(charIndex)).None? ==> outcome == Failure
      ensures outcome == Success ==>
        var (name, base) := Heading(old(line), old(charIndex)).value;
        var id := |old(gen.table.decls)|;
        old(lineIndex) + 1 < lineIndex && id < |gen.table.decls|
        && EnumBlock(lines, old(lineIndex) + 1, lineIndex, name, base, currentContext) == Some(gen.table.decls[id])
        && gen.table.decls == old(gen.table.decls) + [gen.table.decls[id]]
        && gen.enums == old(gen.enums) + [id]
        && name !in old(gen.table.scopes[currentContext].types)
        && name in gen.table.scopes[currentContext].types && gen.table.scopes[currentContext].types[name] == id
    {
      ghost var types := gen.table.scopes[currentContext].types;
      var heading := ParseHeading();
      if heading.None? {
        return Failure;
      }
      var d;
      outcome, d := ReadEnumBlock(heading.value.0, heading.value.1, currentContext);
      if outcome != Success {
        return;
      }
      assert gen == old(gen) && gen.table.scopes[currentContext].types == types;
      ghost var block := EnumBlock(lines, old(lineIndex) + 1, lineIndex, heading.value.0, heading.value.1, currentContext);
      assert block == Some(d);
      outcome := FileEnum(d);
      assert block == EnumBlock(lines, old(lineIndex) + 1, lineIndex, heading.value.0, heading.value.1, currentContext);
    }

    /** The end of parseEnum: the enum is filed under its name in the
        current context and listed among the enums. */
    method FileEnum(d: Decl) returns (outcome: Outcome)
      requires Valid() && d.kind == EnumKind && d.parentContext == Some(currentContext) && d.context == 0
      modifies this`gen
      ensures Valid() && GenGrows(old(gen), gen)
      ensures gen.classes == old(gen.classes) && gen.structs == old(gen.structs)
      ensures outcome != Failure
      ensures outcome == Thrown <==> d.name in old(gen.table.scopes[currentContext].types)
      ensures outcome == Success ==>
        var id := |old(gen.table.decls)|;
        gen.table.decls == old(gen.table.decls) + [d] && gen.enums == old(gen.enums) + [id]
        && d.name in gen.table.scopes[currentContext].types && gen.table.scopes[currentContext].types[d.name] == id
    {
      var id;
      outcome, id := FileNewDecl(d);
      if outcome == Success {
        gen := gen.(enums := gen.enums + [id]);
      }
    }

    // -------------------------------------------------------------------
    // Classes and structs

    /** parseClassLine for every keyword kw (lower case) but the nested
        blocks; the generator is not involved. */
    method ParseClassOption(d: Decl, kw: string) returns (outcome: Outcome, r: Decl)
      requires CursorOk() && 0 <= lineIndex < |lines| && line == lines[lineIndex]
      modifies this`lineIndex, this`line, this`charIndex, this`nextMethodId
      ensures var p := ClassOptionAt(d, kw, lines, old(lineIndex), old(charIndex), old(nextMethodId));
        (outcome == Success <==> p.LineRead?) && (outcome == Thrown <==> p.LineThrown?)
        && (p.LineRead? ==> r == p.d && lineIndex == p.endLine && line == lines[lineIndex])
    {
      if kw == "func" {
        outcome, r := ParseFunc(d);
      } else if kw == "var" {
        var v;
        outcome, v := ParseVar();
        r := if outcome == Success then d.(variables := d.variables + [v]) else d;
      } else if kw == "textbegin" {
        outcome, r := ParseTextBlock(d);
      } else if kw == "interface" {
        outcome, r := ParseInterface(d);
      } else if kw == "cppconstruct" || kw == "cppdeconstruct" {
        var temp := ParseLine();
        if temp == "" {
          return Failure, d;
        }
        r := if kw == "cppconstruct" then d.(cppConstruct := temp) else d.(cppDeconstruct := temp);
        outcome := Success;
      } else if kw == "cppnorefcount" {
        return Success, NoRefCount(d);
      } else if kw == "cppnopass" {
        return Success, d.(cppCanBePassed := false);
      } else {
        return Success, d;
      }
    }

    /** parseStructLine for every keyword kw (lower case) but "enum". */
    method ParseStructOption(d: Decl, kw: string) returns (outcome: Outcome, r: Decl)
      requires CursorOk() && 0 <= lineIndex < |lines| && line == lines[lineIndex]
      modifies this`lineIndex, this`line, this`charIndex
      ensures outcome != Thrown
      ensures var p := StructOptionAt(d, kw, lines, old(lineIndex), old(charIndex));
        (outcome == Success <==> p.LineRead?)
        && (p.LineRead? ==> r == p.d && lineIndex == p.endLine && line == lines[lineIndex])
    {
      if kw == "cppoutstruct" || kw == "cppinstruct" {
        var temp := ParseLine();
        if temp == "" {
          return Failure, d;
        }
        return Success, d.(cppName := temp);
      } else if kw == "var" {
        var v;
        outcome, v := ParseVar();
        r := if outcome == Success then d.(variables := d.variables + [v]) else d;
      } else if kw == "textbegin" {
        outcome, r := ParseTextBlock(d);
      } else {
        return Success, d;
      }
    }

    /** parseStructLine: a nested enum, or one of the struct's options. */
    method ParseStructLine(d: Decl, word: string) returns (outcome: Outcome, r: Decl)
      requires Valid() && CursorOk() && 0 <= lineIndex < |lines| && line == lines[lineIndex]
      modifies this`gen, this`lineIndex, this`line, this`charIndex
      ensures Valid() && GenGrows(old(gen), gen)
      ensures outcome == Success ==> old(lineIndex) <= lineIndex < |lines|
      ensures ToLower(word) == "enum" ==> r == d
      ensures var kw := ToLower(word);
        var p := StructOptionAt(d, kw, lines, old(lineIndex), old(charIndex));
        kw != "enum" ==>
          gen == old(gen) && outcome != Thrown && (outcome == Success <==> p.LineRead?)
          && (p.LineRead? ==> r == p.d && lineIndex == p.endLine)
    {
      var kw := ToLower(word);
      if kw == "enum" {
        outcome := ParseEnum();
        r := d;
      } else {
        outcome, r := ParseStructOption(d, kw);
      }
    }

    /** A statement line of a struct body, its keyword read: a type line,
        or else a struct line. */
    method StructMemberLine(d: Decl, word: string) returns (outcome: Outcome, r: Decl)
      requires Valid() && CursorOk() && 0 <= lineIndex < |lines| && line == lines[lineIndex]
      requires charIndex == AfterWord(line, 0, [' '])
      modifies this`gen, this`lineIndex, this`line, this`charIndex
      ensures Valid() && GenGrows(old(gen), gen)
      ensures outcome == Success ==>
        old(lineIndex) <= lineIndex < |lines|
        && SameIdentity(d, r) && r.constructors == d.constructors && r.methods == d.methods
    {
      var result;
      result, r := ParseTypeLine(d, word);
      if result == Error {
        return Failure, d;
      }
      if result == Found {
        TypeLineKeeps(d, line, word);
        return Success, r;
      }
      ghost var n, c := lineIndex, charIndex;
      outcome, r := ParseStructLine(d, word);
      if outcome == Success && ToLower(word) != "enum" {
        StructOptionKeeps(d, ToLower(word), lines, n, c);
      }
    }

    /** The body loop of parseStruct, from the opening line: type lines and
        struct lines up to the closing line. The context is the struct's
        own throughout. */
    method ParseStructBody(d0: Decl) returns (outcome: Outcome, d: Decl)
      requires Valid() && 0 <= lineIndex < |lines|
      modifies this`gen, this`lineIndex, this`line, this`charIndex
      ensures Valid() && GenGrows(old(gen), gen)
      ensures outcome == Success ==>
        old(lineIndex) < lineIndex < |lines| && StatementOf(lines[lineIndex]) == Closing
      ensures SameIdentity(d0, d) && d.constructors == d0.constructors && d.methods == d0.methods
    {
      d := d0;
      ghost var g0 := gen;
      ghost var start := lineIndex;
      while true
        invariant Valid() && GenGrows(g0, gen)
        invariant start <= lineIndex < |lines|
        invariant SameIdentity(d0, d) && d.constructors == d0.constructors && d.methods == d0.methods
        decreases |lines| - lineIndex
      {
        var s := NextStatement();
        if s.None? {
          return Failure, d;
        }
        if s.value == Closing {
          return Success, d;
        }
        if s.value.Keyword? {
          ghost var g1 := gen;
          var o, r := StructMemberLine(d, s.value.word);
          GenGrowsTransitive(g0, g1, gen);
          if o != Success {
            return o, d;
          }
          d := r;
        }
      }
    }

    /** The end of a class or struct block opened when the generator was
        g0: the declaration takes its final value d, the context pops back
        to ctx, and the declaration is listed and filed there. */
    method FinishBlock(id: TypeId, d: Decl, ghost g0: Generator, ghost g1: Generator, ghost ctx: ScopeId)
        returns (outcome: Outcome)
      requires Valid() && GenGrows(g0, g1) && GenGrows(g1, gen) && id == |g0.table.decls| && id < |g1.table.decls|
      requires d.kind in {ClassKind, StructKind} && d.kind == g1.table.decls[id].kind
      requires d.name == g1.table.decls[id].name && d.parentContext == g1.table.decls[id].parentContext
      requires d.parentContext == Some(ctx) && d.context == currentContext && ctx < |g0.table.scopes|
      requires Opened(g1.table, ctx, currentContext, id, d.name)
      modifies this`gen, this`currentContext
      ensures Valid() && GenGrows(g0, gen) && currentContext == ctx
      ensures outcome != Failure
      ensures outcome == Success ==>
        d.name !in g0.table.scopes[ctx].types
        && id < |gen.table.decls| && gen.table.decls[id] == d && Opened(gen.table, ctx, d.context, id, d.name)
        && d.name in gen.table.scopes[ctx].types && gen.table.scopes[ctx].types[d.name] == id
        && (d.kind == ClassKind ==> |gen.classes| > 0 && gen.classes[|gen.classes| - 1] == id)
        && (d.kind == StructKind ==> |gen.structs| > 0 && gen.structs[|gen.structs| - 1] == id)
    {
      GenGrowsTransitive(g0, g1, gen);
      GrowsKeepsDecl(g1.table, gen.table, id);
      OpenedGrows(g1.table, gen.table, ctx, currentContext, id, d.name);
      outcome := CloseBlock(id, d, g0, ctx);
    }

    /** FinishBlock once the growth since the block opened is known. */
    method CloseBlock(id: TypeId, d: Decl, ghost g0: Generator, ghost ctx: ScopeId)
        returns (outcome: Outcome)
      requires Valid() && GenGrows(g0, gen) && id == |g0.table.decls| && id < |gen.table.decls|
      requires d.kind in {ClassKind, StructKind} && d.kind == gen.table.decls[id].kind
      requires d.name == gen.table.decls[id].name && d.parentContext == gen.table.decls[id].parentContext
      requires d.parentContext == Some(ctx) && d.context == currentContext && ctx < |g0.table.scopes|
      requires Opened(gen.table, ctx, currentContext, id, d.name)
      modifies this`gen, this`currentContext
      ensures Valid() && GenGrows(g0, gen) && currentContext == ctx
      ensures outcome != Failure
      ensures outcome == Success ==>
        d.name !in g0.table.scopes[ctx].types
        && id < |gen.table.decls| && gen.table.decls[id] == d && Opened(gen.table, ctx, d.context, id, d.name)
        && d.name in gen.table.scopes[ctx].types && gen.table.scopes[ctx].types[d.name] == id
        && (d.kind == ClassKind ==> |gen.classes| > 0 && gen.classes[|gen.classes| - 1] == id)
        && (d.kind == StructKind ==> |gen.structs| > 0 && gen.structs[|gen.structs| - 1] == id)
    {
      ghost var g2 := gen;
      ghost var scope := currentContext;
      GrowsSetBeyond(g0.table, g2.table, id, d);
      outcome := CloseScope(id, d);
      ghost var g3 := g2.(table := g2.table.(decls := g2.table.decls[id := d]));
      GenGrowsTransitive(g0, g3, gen);
      assert Opened(g3.table, ctx, scope, id, d.name);
      OpenedGrows(g3.table, gen.table, ctx, scope, id, d.name);
      assert ScopeGrows(g0.table.scopes[ctx], g2.table.scopes[ctx]);
    }

    /** The scope and body of a struct named name, whose opening line has
        been read: it is finalized, listed and filed in the current
        context. */
    method StructBlock(name: string) returns (outcome: Outcome, ghost body: Decl)
      requires Valid() && 0 <= lineIndex < |lines| && name != ""
      requires name !in gen.table.scopes[currentContext].children
      modifies this`gen, this`lineIndex, this`line, this`charIndex, this`currentContext
      ensures Valid() && GenGrows(old(gen), gen)
      ensures outcome == Success ==>
        old(lineIndex) < lineIndex < |lines| && currentContext == old(currentContext)
        && StatementOf(lines[lineIndex]) == Closing
      ensures outcome == Success ==>
        var id := |old(gen.table.decls)|;
        id < |gen.table.decls| && gen.table.decls[id] == FinalizedStruct(body)
        && body.kind == StructKind && body.name == name && body.parentContext == Some(currentContext)
        && Opened(gen.table, currentContext, body.context, id, name)
        && name !in old(gen.table.scopes[currentContext].types)
        && name in gen.table.scopes[currentContext].types && gen.table.scopes[currentContext].types[name] == id
        && |gen.structs| > 0 && gen.structs[|gen.structs| - 1] == id
    {
      var ctx := currentContext;
      var q := QualifyName(name);
      var id, d := OpenScope(StructHeader(name, q, ctx));
      outcome, body := StructBlockBody(id, d, old(gen), ctx);
    }

    /** The body of a struct whose scope has just been opened, then the
        struct finalized, listed and filed in the context ctx it was opened
        in. */
    method StructBlockBody(id: TypeId, d: Decl, ghost g0: Generator, ghost ctx: ScopeId)
        returns (outcome: Outcome, ghost body: Decl)
      requires Valid() && 0 <= lineIndex < |lines|
      requires GenGrows(g0, gen) && id == |g0.table.decls| && id < |gen.table.decls| && ctx < |g0.table.scopes|
      requires d.kind == StructKind && d.kind == gen.table.decls[id].kind && d.name == gen.table.decls[id].name
      requires d.parentContext == gen.table.decls[id].parentContext && d.parentContext == Some(ctx)
      requires d.context == currentContext
      requires Opened(gen.table, ctx, currentContext, id, d.name)
      modifies this`gen, this`lineIndex, this`line, this`charIndex, this`currentContext
      ensures Valid() && GenGrows(g0, gen)
      ensures outcome == Success ==>
        old(lineIndex) < lineIndex < |lines| && currentContext == ctx
        && StatementOf(lines[lineIndex]) == Closing
      ensures outcome == Success ==>
        id < |gen.table.decls| && gen.table.decls[id] == FinalizedStruct(body)
        && SameIdentity(d, body)
        && Opened(gen.table, ctx, body.context, id, d.name)
        && d.name !in g0.table.scopes[ctx].types
        && d.name in gen.table.scopes[ctx].types && gen.table.scopes[ctx].types[d.name] == id
        && |gen.structs| > 0 && gen.structs[|gen.structs| - 1] == id
    {
      ghost var g1 := gen;
      var r;
      outcome, r := ParseStructBody(d);
      body := r;
      if outcome != Success {
        GenGrowsTransitive(g0, g1, gen);
        return;
      }
      var f := FinalizedStruct(r);
      assert SameIdentity(r, f) && f.context == r.context;
      outcome := FinishBlock(id, f, g0, g1, ctx);
    }

    /** parseStruct: `struct Name`, an opening line, type and struct lines
        up to the closing line. The struct opens a scope of its own, filed
        among the children of the current context (Dictionary.Add throws
        when the name is taken); once read it is finalized, then listed and
        filed under its name in the current context. */
    method ParseStruct() returns (outcome: Outcome, ghost body: Decl)
      requires Valid() && CursorOk() && 0 <= lineIndex < |lines|
      modifies this`gen, this`lineIndex, this`line, this`charIndex, this`currentContext
      ensures Valid() && GenGrows(old(gen), gen)
      ensures outcome == Success ==>
        old(lineIndex) + 1 < lineIndex < |lines| && currentContext == old(currentContext)
      ensures WordAt(old(line), old(charIndex), [' ']).None? ==> outcome == Failure
      ensures WordAt(old(line), old(charIndex), [' ']).Some?
              && old(lineIndex) + 1 < |lines| && OpensBlock(lines[old(lineIndex) + 1])
              && WordAt(old(line), old(charIndex), [' ']).value in old(gen.table.scopes[currentContext].children)
              ==> outcome == Thrown
      ensures outcome == Success ==>
        var name := WordAt(old(line), old(charIndex), [' ']).value;
        var id := |old(gen.table.decls)|;
        OpensBlock(lines[old(lineIndex) + 1]) && StatementOf(lines[lineIndex]) == Closing
        && id < |gen.table.decls| && gen.table.decls[id] == FinalizedStruct(body)
        && body.kind == StructKind && body.name == name && body.parentContext == Some(currentContext)
        && Opened(gen.table, currentContext, body.context, id, name)
        && name !in old(gen.table.scopes[currentContext].children)
        && name !in old(gen.table.scopes[currentContext].types)
        && name in gen.table.scopes[currentContext].types && gen.table.scopes[currentContext].types[name] == id
        && |gen.structs| > 0 && gen.structs[|gen.structs| - 1] == id
    {
      body := NewDecl(StructKind, "");
      var name := ParseWord([' '], true);
      if name.None? {
        return Failure, body;
      }
      WordAtSpec(old(line), old(charIndex), [' ']);
      outcome := ExpectOpening();
      if outcome != Success {
        return;
      }
      if name.value in gen.table.scopes[currentContext].children {
        return Thrown, body;
      }
      outcome, body := StructBlock(name.value);
    }

    /** parseClassLine: a nested class, struct or enum, or one of the
        class's options. */
    method ParseClassLine(d: Decl, word: string) returns (outcome: Outcome, r: Decl)
      requires Valid() && CursorOk() && 0 <= lineIndex < |lines| && line == lines[lineIndex]
      modifies this`gen, this`lineIndex, this`line, this`charIndex, this`currentContext, this`nextMethodId
      ensures Valid() && GenGrows(old(gen), gen)
      ensures outcome == Success ==> old(lineIndex) <= lineIndex < |lines| && currentContext == old(currentContext)
      ensures ToLower(word) in {"class", "struct", "enum"} ==> r == d
      ensures var kw := ToLower(word);
        var p := ClassOptionAt(d, kw, lines, old(lineIndex), old(charIndex), old(nextMethodId));
        kw !in {"class", "struct", "enum"} ==>
          gen == old(gen) && currentContext == old(currentContext)
          && (outcome == Success <==> p.LineRead?) && (outcome == Thrown <==> p.LineThrown?)
          && (p.LineRead? ==> r == p.d && lineIndex == p.endLine)
      decreases |lines| - lineIndex, 1
    {
      var kw := ToLower(word);
      r := d;
      if kw == "class" {
        outcome := ParseClass();
      } else if kw == "struct" {
        ghost var body;
        outcome, body := ParseStruct();
      } else if kw == "enum" {
        outcome := ParseEnum();
      } else {
        outcome, r := ParseClassOption(d, kw);
      }
    }

    /** A class line, seen from the class body: it keeps what the class
        is, and files each method by its name. */
    method ClassLineKept(d: Decl, word: string) returns (outcome: Outcome, r: Decl)
      requires Valid() && CursorOk() && 0 <= lineIndex < |lines| && line == lines[lineIndex]
      modifies this`gen, this`lineIndex, this`line, this`charIndex, this`currentContext, this`nextMethodId
      ensures Valid() && GenGrows(old(gen), gen)
      ensures outcome == Success ==>
        old(lineIndex) <= lineIndex < |lines| && currentContext == old(currentContext)
        && SameIdentity(d, r) && (MembersFiled(d) ==> MembersFiled(r))
      decreases |lines| - lineIndex, 2
    {
      ClassOptionKeeps(d, ToLower(word), lines, lineIndex, charIndex, nextMethodId);
      outcome, r := ParseClassLine(d, word);
    }

    /** A statement line of a class body, its keyword read: a type line,
        or else a class line. */
    method ClassMemberLine(d: Decl, word: string) returns (outcome: Outcome, r: Decl)
      requires Valid() && CursorOk() && 0 <= lineIndex < |lines| && line == lines[lineIndex]
      requires charIndex == AfterWord(line, 0, [' '])
      modifies this`gen, this`lineIndex, this`line, this`charIndex, this`currentContext, this`nextMethodId
      ensures Valid() && GenGrows(old(gen), gen)
      ensures outcome == Success ==>
        old(lineIndex) <= lineIndex < |lines| && currentContext == old(currentContext)
        && SameIdentity(d, r) && (MembersFiled(d) ==> MembersFiled(r))
      decreases |lines| - lineIndex, 3
    {
      var result;
      result, r := ParseTypeLine(d, word);
      if result == Error {
        return Failure, d;
      }
      if result == Found {
        TypeLineKeeps(d, line, word);
        return Success, r;
      }
      outcome, r := ClassLineKept(d, word);
    }

    /** The body loop of parseClass, from the opening line: type lines and
        class lines up to the closing line. The context is the class's own
        throughout. */
    method ParseClassBody(d0: Decl) returns (outcome: Outcome, d: Decl)
      requires Valid() && 0 <= lineIndex < |lines|
      modifies this`gen, this`lineIndex, this`line, this`charIndex, this`currentContext, this`nextMethodId
      ensures Valid() && GenGrows(old(gen), gen)
      ensures outcome == Success ==>
        old(lineIndex) < lineIndex < |lines| && StatementOf(lines[lineIndex]) == Closing
        && currentContext == old(currentContext)
      ensures SameIdentity(d0, d) && (MembersFiled(d0) ==> MembersFiled(d))
      decreases |lines| - lineIndex, 4
    {
      d := d0;
      ghost var g0 := gen;
      ghost var start := lineIndex;
      ghost var scope := currentContext;
      while true
        invariant Valid() && GenGrows(g0, gen)
        invariant start <= lineIndex < |lines| && currentContext == scope
        invariant SameIdentity(d0, d) && (MembersFiled(d0) ==> MembersFiled(d))
        decreases |lines| - lineIndex
      {
        var s := NextStatement();
        if s.None? {
          return Failure, d;
        }
        if s.value == Closing {
          return Success, d;
        }
        if s.value.Keyword? {
          ghost var g1 := gen;
          var o, r := ClassMemberLine(d, s.value.word);
          GenGrowsTransitive(g0, g1, gen);
          if o != Success {
            return o, d;
          }
          d := r;
        }
      }
    }

    /** The scope and body of a class named name with base class base,
        whose opening line has been read: it is listed and filed in the
        current context. */
    method ClassBlock(name: string, base: string) returns (outcome: Outcome, ghost body: Decl)
      requires Valid() && 0 <= lineIndex < |lines| && name != ""
      requires name !in gen.table.scopes[currentContext].children
      modifies this`gen, this`lineIndex, this`line, this`charIndex, this`currentContext, this`nextMethodId
      ensures Valid() && GenGrows(old(gen), gen)
      ensures outcome == Success ==>
        old(lineIndex) < lineIndex < |lines| && currentContext == old(currentContext)
        && StatementOf(lines[lineIndex]) == Closing
      ensures outcome == Success ==>
        var id := |old(gen.table.decls)|;
        id < |gen.table.decls| && gen.table.decls[id] == body
        && body.kind == ClassKind && body.name == name && body.parentClass == base
        && body.parentContext == Some(currentContext)
        && MembersFiled(body)
        && Opened(gen.table, currentContext, body.context, id, name)
        && name !in old(gen.table.scopes[currentContext].types)
        && name in gen.table.scopes[currentContext].types && gen.table.scopes[currentContext].types[name] == id
        && |gen.classes| > 0 && gen.classes[|gen.classes| - 1] == id
      decreases |lines| - lineIndex, 6
    {
      var ctx := currentContext;
      var q := QualifyName(name);
      var id, d := OpenScope(ClassHeader(name, base, q, ctx));
      assert MembersFiled(d);
      outcome, body := ClassBlockBody(id, d, old(gen), ctx);
    }

    /** The body of a class whose scope has just been opened, then the
        class listed and filed in the context ctx it was opened in. */
    method ClassBlockBody(id: TypeId, d: Decl, ghost g0: Generator, ghost ctx: ScopeId)
        returns (outcome: Outcome, ghost body: Decl)
      requires Valid() && 0 <= lineIndex < |lines|
      requires GenGrows(g0, gen) && id == |g0.table.decls| && id < |gen.table.decls| && ctx < |g0.table.scopes|
      requires d.kind == ClassKind && d.kind == gen.table.decls[id].kind && d.name == gen.table.decls[id].name
      requires d.parentContext == gen.table.decls[id].parentContext && d.parentContext == Some(ctx)
      requires d.context == currentContext && MembersFiled(d)
      requires Opened(gen.table, ctx, currentContext, id, d.name)
      modifies this`gen, this`lineIndex, this`line, this`charIndex, this`currentContext, this`nextMethodId
      ensures Valid() && GenGrows(g0, gen)
      ensures outcome == Success ==>
        old(lineIndex) < lineIndex < |lines| && currentContext == ctx
        && StatementOf(lines[lineIndex]) == Closing
      ensures outcome == Success ==>
        id < |gen.table.decls| && gen.table.decls[id] == body
        && SameIdentity(d, body) && MembersFiled(body)
        && Opened(gen.table, ctx, body.context, id, d.name)
        && d.name !in g0.table.scopes[ctx].types
        && d.name in gen.table.scopes[ctx].types && gen.table.scopes[ctx].types[d.name] == id
        && |gen.classes| > 0 && gen.classes[|gen.classes| - 1] == id
      decreases |lines| - lineIndex, 5
    {
      ghost var g1 := gen;
      var r;
      outcome, r := ParseClassBody(d);
      body := r;
      if outcome != Success {
        GenGrowsTransitive(g0, g1, gen);
        return;
      }
      outcome := FinishBlock(id, r, g0, g1, ctx);
    }

    /** parseClass: `class Name : Base`, an opening line, type and class
        lines up to the closing line. The class opens a scope of its own,
        filed among the children of the current context (Dictionary.Add
        throws when the name is taken); once read it is listed and filed
        under its name in the current context. */
    method ParseClass() returns (outcome: Outcome)
      requires Valid() && CursorOk() && 0 <= lineIndex < |lines|
      modifies this`gen, this`lineIndex, this`line, this`charIndex, this`currentContext, this`nextMethodId
      ensures Valid() && GenGrows(old(gen), gen)
      ensures outcome == Success ==>
        old(lineIndex) + 1 < lineIndex < |lines| && currentContext == old(currentContext)
      ensures Heading(old(line), old(charIndex)).None? ==> outcome == Failure
      ensures Heading(old(line), old(charIndex)).Some?
              && old(lineIndex) + 1 < |lines| && OpensBlock(lines[old(lineIndex) + 1])
              && Heading(old(line), old(charIndex)).value.0 in old(gen.table.scopes[currentContext].children)
              ==> outcome == Thrown
      ensures outcome == Success ==>
        var (name, base) := Heading(old(line), old(charIndex)).value;
        var id := |old(gen.table.decls)|;
        OpensBlock(lines[old(lineIndex) + 1]) && StatementOf(lines[lineIndex]) == Closing
        && id < |gen.table.decls|
        && var c := gen.table.decls[id];
        c.kind == ClassKind && c.name == name && c.parentClass == base
        && c.parentContext == Some(currentContext) && MembersFiled(c)
        && Opened(gen.table, currentContext, c.context, id, name)
        && name !in old(gen.table.scopes[currentContext].children)
        && name !in old(gen.table.scopes[currentContext].types)
        && name in gen.table.scopes[currentContext].types && gen.table.scopes[currentContext].types[name] == id
        && |gen.classes| > 0 && gen.classes[|gen.classes| - 1] == id
      decreases |lines| - lineIndex, 0
    {
      var heading := ParseHeading();
      if heading.None? {
        return Failure;
      }
      outcome := ExpectOpening();
      if outcome != Success {
        return;
      }
      if heading.value.0 in gen.table.scopes[currentContext].children {
        return Thrown;
      }
      ghost var body;
      outcome, body := ClassBlock(heading.value.0, heading.value.1);
    }

    // -------------------------------------------------------------------
    // Namespaces

    /** The scope of `namespace name`: the child of the current context of
        that name when there is one (whatever opened it), a new scope with
        no source declaration otherwise; it becomes the current context. */
    method EnterNamespace(name: string)
      requires Valid() && name != ""
      modifies this`gen, this`currentContext
      ensures Valid() && GenGrows(old(gen), gen)
      ensures gen.classes == old(gen.classes) && gen.enums == old(gen.enums) && gen.structs == old(gen.structs)
      ensures name in old(gen.table.scopes[currentContext].children) ==>
        gen == old(gen) && currentContext == old(gen.table.scopes[currentContext].children[name])
      ensures name !in old(gen.table.scopes[currentContext].children) ==>
        currentContext == |old(gen.table.scopes)|
        && gen.table.scopes[currentContext] == Scope(name, Some(old(currentContext)), map[], map[], None)
      ensures currentContext < |gen.table.scopes| && gen.table.scopes[currentContext].parent == Some(old(currentContext))
      ensures name in gen.table.scopes[old(currentContext)].children
              && gen.table.scopes[old(currentContext)].children[name] == currentContext
    {
      var found := FindContext(gen.table, currentContext, name);
      if found.Some? {
        currentContext := found.value;
        return;
      }
      var t := AddScope(gen.table, currentContext, name, None);
      SourcesGrow(gen.table, t);
      GenValidGrows(gen, t);
      gen := gen.(table := t);
      currentContext := |t.scopes| - 1;
    }

    /** The statements parseNamespace accepts, matched exactly (a namespace
        body, unlike the top level, does not ignore case). */
    method NamespaceLine(word: string) returns (outcome: Outcome)
      requires Valid() && CursorOk() && 0 <= lineIndex < |lines|
      modifies this`gen, this`lineIndex, this`line, this`charIndex, this`currentContext, this`nextMethodId
      ensures Valid() && GenGrows(old(gen), gen)
      ensures outcome == Success ==> old(lineIndex) <= lineIndex < |lines| && currentContext == old(currentContext)
      ensures word !in {"namespace", "type", "class", "struct", "enum"} ==> outcome == Failure && gen == old(gen)
      decreases |lines| - lineIndex, 1
    {
      if word == "namespace" {
        outcome := ParseNamespace();
      } else if word == "type" {
        var d;
        outcome, d := ParseType();
      } else if word == "class" {
        outcome := ParseClass();
      } else if word == "struct" {
        ghost var body;
        outcome, body := ParseStruct();
      } else if word == "enum" {
        outcome := ParseEnum();
      } else {
        outcome := Failure;
      }
    }

    /** The body loop of parseNamespace, from the opening line: statements
        up to the closing line, in the namespace's context throughout. */
    method ParseNamespaceBody() returns (outcome: Outcome)
      requires Valid() && 0 <= lineIndex < |lines|
      modifies this`gen, this`lineIndex, this`line, this`charIndex, this`currentContext, this`nextMethodId
      ensures Valid() && GenGrows(old(gen), gen)
      ensures outcome == Success ==>
        old(lineIndex) < lineIndex < |lines| && StatementOf(lines[lineIndex]) == Closing
        && currentContext == old(currentContext)
      decreases |lines| - lineIndex, 2
    {
      ghost var g0 := gen;
      ghost var start := lineIndex;
      ghost var scope := currentContext;
      while true
        invariant Valid() && GenGrows(g0, gen)
        invariant start <= lineIndex < |lines| && currentContext == scope
        decreases |lines| - lineIndex
      {
        var s := NextStatement();
        if s.None? {
          return Failure;
        }
        if s.value == Closing {
          return Success;
        }
        if s.value.Keyword? {
          ghost var g1 := gen;
          outcome := NamespaceLine(s.value.word);
          GenGrowsTransitive(g0, g1, gen);
          if outcome != Success {
            return;
          }
        }
      }
    }

    /** parseNamespace: `namespace Name`, an opening line, statements up to
        the closing line, read in the namespace's scope; the context then
        pops back to the enclosing one. */
    method ParseNamespace() returns (outcome: Outcome)
      requires Valid() && CursorOk() && 0 <= lineIndex < |lines|
      modifies this`gen, this`lineIndex, this`line, this`charIndex, this`currentContext, this`nextMethodId
      ensures Valid() && GenGrows(old(gen), gen)
      ensures outcome == Success ==>
        old(lineIndex) + 1 < lineIndex < |lines| && currentContext == old(currentContext)
      ensures WordAt(old(line), old(charIndex), [' ']).None? ==> outcome == Failure
      ensures outcome == Success ==>
        var name := WordAt(old(line), old(charIndex), [' ']).value;
        OpensBlock(lines[old(lineIndex) + 1]) && StatementOf(lines[lineIndex]) == Closing
        && name in gen.table.scopes[currentContext].children
      decreases |lines| - lineIndex, 0
    {
      var name := ParseWord([' '], true);
      if name.None? {
        return Failure;
      }
      WordAtSpec(old(line), old(charIndex), [' ']);
      outcome := ExpectOpening();
      if outcome != Success {
        return;
      }
      ghost var first := lineIndex;
      assert first == old(lineIndex) + 1 && OpensBlock(lines[first]);
      outcome := NamespaceBlock(name.value);
    }

    /** The namespace's statements, read in its scope, which is opened
        first; the context then pops back to the enclosing one. */
    method NamespaceBlock(name: string) returns (outcome: Outcome)
      requires Valid() && name != "" && 0 <= lineIndex < |lines|
      modifies this`gen, this`lineIndex, this`line, this`charIndex, this`currentContext, this`nextMethodId
      ensures Valid() && GenGrows(old(gen), gen)
      ensures outcome == Success ==>
        old(lineIndex) < lineIndex < |lines| && StatementOf(lines[lineIndex]) == Closing
        && currentContext == old(currentContext) && name in gen.table.scopes[currentContext].children
      decreases |lines| - lineIndex, 3
    {
      ghost var ctx := currentContext;
      EnterNamespace(name);
      ghost var g1 := gen;
      ghost var scope := currentContext;
      outcome := ParseNamespaceBody();
      GenGrowsTransitive(old(gen), g1, gen);
      if outcome != Success {
        return;
      }
      assert ScopeGrows(g1.table.scopes[scope], gen.table.scopes[scope]);
      assert ScopeGrows(g1.table.scopes[ctx], gen.table.scopes[ctx]);
      currentContext := gen.table.scopes[currentContext].parent.value;
    }

    // -------------------------------------------------------------------
    // Finalizing

    /** finalizeClass: the class takes the defaults and passing decision of
        FinalizedClass; findIfPolymorphic is asked only for a class exposed
        to the managed side, the only one whose decision depends on it. */
    method FinalizeClass(c: TypeId)
      requires Valid() && c in gen.classes
      modifies this`gen
      ensures Valid() && gen == old(gen).(table := old(gen.table).(decls := old(gen.table.decls)[c :=
        FinalizedClass(old(gen.table.decls[c]), gen.cppIncreaseRef, gen.cppDecreaseRef, Polymorphic(old(gen), c))]))
    {
      var d := gen.table.decls[c];
      var polymorphic := false;
      if d.interfaceType == CppToCSharp {
        ghost var k :| 0 <= k < |gen.classes| && gen.classes[k] == c;
        OwnUniqueNameFound(gen, k);
        polymorphic := FindIfPolymorphic(gen, ClassUniqueName(gen, c));
      }
      var r := FinalizedClass(d, gen.cppIncreaseRef, gen.cppDecreaseRef, polymorphic);
      FinalizedIdentity(d, gen.cppIncreaseRef, gen.cppDecreaseRef, polymorphic);
      assert DeclOk(gen.table, c);
      var t := SetDecl(gen.table, c, r);
      SetDeclKeeps(gen, c, r, t);
      gen := gen.(table := t);
    }

    /** finalize: finalizeClass on each class in list order. Each class ends
        up finalized once over the table as parsed, whatever the order and
        however often it is listed. */
    method Finalize()
      requires Valid()
      modifies this`gen
      ensures Valid() && gen == old(gen).(table := gen.table)
      ensures ClassesFinalized(old(gen), gen.table, old(gen.classes))
    {
      ghost var g0 := gen;
      for i := 0 to |gen.classes|
        invariant Valid() && gen == g0.(table := gen.table)
        invariant ClassesFinalized(g0, gen.table, g0.classes[..i])
      {
        FinalizeNext(g0, i);
      }
      assert g0.classes[..|g0.classes|] == g0.classes;
    }

    /** One turn of finalize's loop: the i-th class joins the finalized ones. */
    method FinalizeNext(ghost g0: Generator, i: nat)
      requires Valid() && GenValid(g0) && gen == g0.(table := gen.table)
      requires i < |g0.classes| && ClassesFinalized(g0, gen.table, g0.classes[..i])
      modifies this`gen
      ensures Valid() && gen == g0.(table := gen.table)
      ensures ClassesFinalized(g0, gen.table, g0.classes[..i + 1])
    {
      var c := gen.classes[i];
      FinalizeClassStep(g0, gen, c, g0.classes[..i]);
      FinalizeClass(c);
      TakeSnoc(g0.classes, i);
    }

    /** finalizeEnum: the enum is named after its owner; the source
        dereferences null, and throws, when its context has no source
        declaration (an enum in a namespace or at the top level). */
    method FinalizeEnum(e: TypeId) returns (outcome: Outcome)
      requires Valid() && e in gen.enums
      modifies this`gen
      ensures Valid() && outcome != Failure
      ensures outcome == Success <==> Owner(old(gen.table), e).Some?
      ensures outcome == Thrown ==> gen == old(gen)
      ensures outcome == Success ==>
        gen == old(gen).(table := old(gen.table).(decls := old(gen.table.decls)[e :=
          FinalizedEnum(old(gen.table.decls[e]), old(gen.table.decls[Owner(gen.table, e).value]))]))
    {
      var owner := Owner(gen.table, e);
      if owner.None? {
        return Thrown;
      }
      var d := FinalizedEnum(gen.table.decls[e], gen.table.decls[owner.value]);
      assert DeclOk(gen.table, e);
      var t := SetDecl(gen.table, e, d);
      SetDeclKeeps(gen, e, d, t);
      gen := gen.(table := t);
      return Success;
    }

    /** The enums finalized in list order, the first one without an owner
        throwing; on success each enum bears its owner's names. */
    method FinalizeEnums() returns (outcome: Outcome)
      requires Valid()
      modifies this`gen
      ensures Valid() && outcome != Failure && gen == old(gen).(table := gen.table)
      ensures outcome == Success <==> forall k :: 0 <= k < |gen.enums| ==> Owner(old(gen.table), gen.enums[k]).Some?
      ensures outcome == Success ==> EnumsFinalized(old(gen), gen.table, old(gen.enums)) && EnumsNamed(gen)
    {
      ghost var g0 := gen;
      for i := 0 to |gen.enums|
        invariant Valid() && gen == g0.(table := gen.table)
        invariant EnumsFinalized(g0, gen.table, g0.enums[..i])
        invariant forall k :: 0 <= k < i ==> Owner(g0.table, g0.enums[k]).Some?
      {
        outcome := FinalizeEnumNext(g0, i);
        if outcome == Thrown {
          return;
        }
      }
      assert g0.enums[..|g0.enums|] == g0.enums;
      EnumsFinalizedNamed(g0, gen);
      outcome := Success;
    }

    /** One turn of the enum pass: the i-th enum joins the finalized ones,
        or the pass throws because it has no owner. */
    method FinalizeEnumNext(ghost g0: Generator, i: nat) returns (outcome: Outcome)
      requires Valid() && GenValid(g0) && SourcesAreBlocks(g0.table) && gen == g0.(table := gen.table)
      requires i < |g0.enums| && EnumsFinalized(g0, gen.table, g0.enums[..i])
      modifies this`gen
      ensures Valid() && gen == g0.(table := gen.table) && outcome != Failure
      ensures outcome == Success <==> Owner(g0.table, g0.enums[i]).Some?
      ensures outcome == Success ==> EnumsFinalized(g0, gen.table, g0.enums[..i + 1])
    {
      var e := gen.enums[i];
      FinalizeEnumStep(g0, gen, e, g0.enums[..i]);
      outcome := FinalizeEnum(e);
      TakeSnoc(g0.enums, i);
    }

    // -------------------------------------------------------------------
    // The file

    /** One top-level statement of parseFile, by its word in any case. */
    method TopStatement(word: string) returns (outcome: Outcome)
      requires Valid() && CursorOk() && 0 <= lineIndex < |lines| && currentContext == 0
      modifies this`gen, this`lineIndex, this`line, this`charIndex, this`currentContext, this`nextMethodId
      ensures Valid() && Extends(old(gen), gen)
      ensures outcome == Success ==> old(lineIndex) <= lineIndex < |lines| && currentContext == 0
      ensures ToLower(word) == "include" ==> outcome == Thrown && gen == old(gen)
      ensures ToLower(word) !in TopKeywords ==>
        var value := old(line)[SkipBlanks(old(line), old(charIndex))..];
        outcome != Thrown
        && (outcome == Success <==> ToLower(word) in GlobalOptions && value != "")
        && (outcome == Success ==> gen == SetOption(old(gen), ToLower(word), value))
        && (outcome == Failure ==> gen == old(gen))
    {
      var kw := ToLower(word);
      if kw == "include" {
        outcome := Thrown;
      } else if kw == "namespace" {
        outcome := ParseNamespace();
      } else if kw == "type" {
        var d;
        outcome, d := ParseType();
      } else if kw == "class" {
        outcome := ParseClass();
      } else if kw == "struct" {
        ghost var body;
        outcome, body := ParseStruct();
      } else if kw == "enum" {
        outcome := ParseEnum();
      } else {
        var ok := ParseGlobalOption(word);
        outcome := if ok then Success else Failure;
      }
    }

    /** parseFile over the lines of a file: every statement in turn at the
        top level, the first that fails or throws ending the parse; then
        every enum is named after its owner. An empty file fails. The
        generator as the statements left it is `parsed`. */
    method ParseFile(ls: seq<string>) returns (outcome: Outcome, ghost parsed: Generator)
      requires Valid()
      modifies this`gen, this`lines, this`lineIndex, this`line, this`charIndex, this`currentContext, this`nextMethodId
      ensures Valid() && lines == ls
      ensures |ls| == 0 ==> outcome == Failure && gen == old(gen)
      ensures |ls| > 0 && TopWord(ls[0]) == Some("include") ==> outcome == Thrown && gen == old(gen)
      ensures |ls| > 0 && StopsAtOnce(ls[0]) ==> outcome != Success && gen == old(gen)
      ensures outcome == Success ==>
        currentContext == 0 && lineIndex == |ls|
        && Extends(old(gen), parsed) && GenValid(parsed) && SourcesAreBlocks(parsed.table)
        && gen == parsed.(table := gen.table)
        && EnumsFinalized(parsed, gen.table, parsed.enums) && EnumsNamed(gen)
    {
      currentContext := 0;
      lines := ls;
      parsed := gen;
      if |ls| == 0 {
        return Failure, parsed;
      }
      ghost var g0 := gen;
      lineIndex := 0;
      while lineIndex < |lines|
        invariant Valid() && lines == ls && 0 <= lineIndex <= |lines| && currentContext == 0
        invariant Extends(g0, gen)
        invariant lineIndex == 0 ==> gen == g0
        invariant lineIndex > 0 ==> !StopsAtOnce(ls[0])
        decreases |lines| - lineIndex
      {
        line := lines[lineIndex];
        charIndex := 0;
        var word := ParseWord([' '], true);
        if word.Some? && !StartsWith(word.value, "//") {
          ghost var g1 := gen;
          assert lineIndex == 0 ==> TopWord(ls[0]) == Some(ToLower(word.value));
          outcome := TopStatement(word.value);
          ExtendsTransitive(g0, g1, gen);
          if outcome != Success {
            return outcome, gen;
          }
        }
        lineIndex := lineIndex + 1;
      }
      parsed := gen;
      outcome := FinalizeEnums();
    }
  }
}
