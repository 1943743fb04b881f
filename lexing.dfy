// What the parser's cursor reads from one line, as functions of the line and
// a position: where whitespace skipping stops, where a word ends, the word
// parseWord returns, and the words it returns one after another.

module Lexing {
  import opened Text
  import opened Symbols

  /** skipWhitespace: the first position at or after i holding neither a
      space nor a tab. */
  function SkipBlanks(line: string, i: nat): (j: nat)
    requires i <= |line|
    ensures i <= j <= |line|
    decreases |line| - i
  {
    if i < |line| && IsBlank(line[i]) then SkipBlanks(line, i + 1) else i
  }

  /** Where parseWord stops: the first end character at or after s, or the
      end of the line. */
  function WordEnd(line: string, s: nat, endChars: seq<char>): (e: nat)
    requires s <= |line|
    ensures s <= e <= |line|
    decreases |line| - s
  {
    if s == |line| || line[s] in endChars then s else WordEnd(line, s + 1, endChars)
  }

  /** parseWord from position i: the blanks are skipped, then the text up to
      the first end character; no word when that text is empty. */
  function WordAt(line: string, i: nat, endChars: seq<char>): Option<string>
    requires i <= |line|
  {
    var s := SkipBlanks(line, i);
    var e := WordEnd(line, s, endChars);
    if e == s then None else Some(line[s..e])
  }

  /** Where the cursor is after parseWord from i, when it advances: the end
      of the word, or past the blanks when there is none. */
  function AfterWord(line: string, i: nat, endChars: seq<char>): (j: nat)
    requires i <= |line|
    ensures i <= j <= |line|
    ensures WordAt(line, i, endChars).Some? ==> i < j
  {
    WordEnd(line, SkipBlanks(line, i), endChars)
  }

  /** skipWhitespace stops at the first character that is not blank. */
  lemma {:induction false} SkipBlanksSpec(line: string, i: nat)
    requires i <= |line|
    ensures forall k :: i <= k < SkipBlanks(line, i) ==> IsBlank(line[k])
    ensures SkipBlanks(line, i) < |line| ==> !IsBlank(line[SkipBlanks(line, i)])
    decreases |line| - i
  {
    if i < |line| && IsBlank(line[i]) {
      SkipBlanksSpec(line, i + 1);
    }
  }

  /** A word ends at the first end character. */
  lemma {:induction false} WordEndSpec(line: string, s: nat, endChars: seq<char>)
    requires s <= |line|
    ensures forall k :: s <= k < WordEnd(line, s, endChars) ==> line[k] !in endChars
    ensures WordEnd(line, s, endChars) < |line| ==> line[WordEnd(line, s, endChars)] in endChars
    decreases |line| - s
  {
    if s < |line| && line[s] !in endChars {
      WordEndSpec(line, s + 1, endChars);
    }
  }

  /** The end of a word is what String.IndexOfAny finds, or the end of the
      line when it finds nothing. */
  lemma {:induction false} WordEndIsIndexOfAny(line: string, s: nat, endChars: seq<char>)
    requires s <= |line|
    ensures WordEnd(line, s, endChars)
         == if IndexOfAny(line, endChars, s) < 0 then |line| else IndexOfAny(line, endChars, s)
    decreases |line| - s
  {
    if s < |line| && line[s] !in endChars {
      WordEndIsIndexOfAny(line, s + 1, endChars);
    }
  }

  /** A word is non-empty, starts with neither a space nor a tab, and holds
      none of the end characters. */
  lemma WordAtSpec(line: string, i: nat, endChars: seq<char>)
    requires i <= |line|
    ensures WordAt(line, i, endChars).Some? ==>
      var w := WordAt(line, i, endChars).value;
      |w| > 0 && !IsBlank(w[0]) && forall k :: 0 <= k < |w| ==> w[k] !in endChars
  {
    SkipBlanksSpec(line, i);
    WordEndSpec(line, SkipBlanks(line, i), endChars);
  }

  /** The words parseWord returns when it is called again and again from i,
      up to the first call that finds none. */
  function Words(line: string, i: nat, endChars: seq<char>): seq<string>
    requires i <= |line|
    decreases |line| - i
  {
    match WordAt(line, i, endChars)
    case None => []
    case Some(w) => [w] + Words(line, AfterWord(line, i, endChars), endChars)
  }

  /** Where the cursor is after Words(line, i, endChars) have been read. */
  function AfterWords(line: string, i: nat, endChars: seq<char>): (j: nat)
    requires i <= |line|
    ensures j <= |line| && WordAt(line, j, endChars).None?
    decreases |line| - i
  {
    match WordAt(line, i, endChars)
    case None => i
    case Some(w) => AfterWords(line, AfterWord(line, i, endChars), endChars)
  }

  /** skipPast(char[]): the first position at or after i holding none of
      the values. */
  function SkipOver(line: string, i: nat, values: seq<char>): (j: nat)
    requires i <= |line|
    ensures i <= j <= |line|
    decreases |line| - i
  {
    if i < |line| && line[i] in values then SkipOver(line, i + 1, values) else i
  }

  /** skipPast(char[]) stops at the first character that is none of the values. */
  lemma {:induction false} SkipOverSpec(line: string, i: nat, values: seq<char>)
    requires i <= |line|
    ensures forall k :: i <= k < SkipOver(line, i, values) ==> line[k] in values
    ensures SkipOver(line, i, values) < |line| ==> line[SkipOver(line, i, values)] !in values
    decreases |line| - i
  {
    if i < |line| && line[i] in values {
      SkipOverSpec(line, i + 1, values);
    }
  }

  /** seekLine: the cursor moved by pos and clamped into the line. */
  function Clamp(c: int, length: nat): (r: nat)
    ensures r <= length
    ensures 0 <= c <= length ==> r == c
  {
    if c < 0 then 0 else if c > length then length else c
  }

  /** Each word parseWord returns is a maximal piece of the line: it is
      preceded by blanks only, and ends at an end character or the end of
      the line. */
  lemma {:induction false} WordIsMaximal(line: string, i: nat, endChars: seq<char>)
    requires i <= |line|
    requires WordAt(line, i, endChars).Some?
    ensures var s := SkipBlanks(line, i);
      var e := AfterWord(line, i, endChars);
      WordAt(line, i, endChars).value == line[s..e]
      && (forall k :: i <= k < s ==> IsBlank(line[k]))
      && (e == |line| || line[e] in endChars)
  {
    SkipBlanksSpec(line, i);
    WordEndSpec(line, SkipBlanks(line, i), endChars);
  }

  /** A word that starts with a character its scan stops at can't be read:
      parseWord returns null for it. */
  lemma NoWordAtEndChar(line: string, i: nat, endChars: seq<char>)
    requires i <= |line|
    requires SkipBlanks(line, i) < |line| && line[SkipBlanks(line, i)] in endChars
    ensures WordAt(line, i, endChars).None?
  {
  }

  /** Reading the words one by one is the same as reading the first, then
      the rest. */
  lemma WordsUnfold(line: string, i: nat, endChars: seq<char>)
    requires i <= |line| && WordAt(line, i, endChars).Some?
    ensures Words(line, i, endChars)
         == [WordAt(line, i, endChars).value] + Words(line, AfterWord(line, i, endChars), endChars)
    ensures AfterWords(line, i, endChars) == AfterWords(line, AfterWord(line, i, endChars), endChars)
  {
  }

  /** Every word read in a row is a non-empty piece of the line free of the
      end characters. */
  lemma {:induction false} WordsAreWords(line: string, i: nat, endChars: seq<char>)
    requires i <= |line|
    ensures forall k :: 0 <= k < |Words(line, i, endChars)| ==>
      var w := Words(line, i, endChars)[k];
      |w| > 0 && forall j :: 0 <= j < |w| ==> w[j] !in endChars
    decreases |line| - i
  {
    if WordAt(line, i, endChars).Some? {
      WordAtSpec(line, i, endChars);
      WordsAreWords(line, AfterWord(line, i, endChars), endChars);
    }
  }

  // ---------------------------------------------------------------------
  // The lines of a block

  /** How a block parser reads one line of its body: by its first word, a
      blank or comment line is skipped, a word starting with "}" closes the
      block, and any other word is a statement keyword. */
  datatype Statement = Skip | Closing | Keyword(word: string)

  function StatementOf(l: string): Statement
  {
    match WordAt(l, 0, [' '])
    case None => Skip
    case Some(w) =>
      if IsNullOrWhiteSpace(w) || StartsWith(w, "//") then Skip
      else if StartsWith(w, "}") then Closing
      else Keyword(w)
  }

  /** The text after a line's first word, blanks skipped: what parseLine
      returns after the keyword of an option or type line. */
  function RestOfLine(l: string): string
  {
    l[SkipBlanks(l, AfterWord(l, 0, [' ']))..]
  }

  /** The line after a block header: its first word starts with "{". */
  predicate OpensBlock(l: string)
  {
    WordAt(l, 0, [' ']).Some? && StartsWith(WordAt(l, 0, [' ']).value, "{")
  }

  /** A statement keyword is the line's first word, and neither blank, a
      comment, nor a closing bracket; a line closes its block exactly when
      its first word starts with "}" (such a word is never blank, nor a
      comment). */
  lemma StatementOfSpec(l: string)
    ensures StatementOf(l).Keyword? ==>
      WordAt(l, 0, [' ']) == Some(StatementOf(l).word)
      && !IsNullOrWhiteSpace(StatementOf(l).word)
      && !StartsWith(StatementOf(l).word, "//") && !StartsWith(StatementOf(l).word, "}")
    ensures StatementOf(l).Closing? <==>
      WordAt(l, 0, [' ']).Some? && StartsWith(WordAt(l, 0, [' ']).value, "}")
  {
    match WordAt(l, 0, [' '])
    case None =>
    case Some(w) =>
      if StartsWith(w, "}") {
        assert w[0] == '}' && !IsWhiteSpace(w[0]);
      }
  }
}
