// Character and string operations of the .NET base library that the binding
// generator relies on, written out over `string` (= seq<char>).

module Text {

  /** A prefix one element longer is the shorter prefix and that element. */
  lemma TakeSnoc<T>(s: seq<T>, i: nat)
    requires i < |s|
    ensures s[..i + 1] == s[..i] + [s[i]]
  {
  }

  lemma ConcatAssoc<T>(a: seq<T>, b: seq<T>, c: seq<T>)
    ensures (a + b) + c == a + (b + c)
  {
  }

  /** The two characters the parser's cursor skips: space and tab. */
  predicate IsBlank(c: char)
  {
    c == ' ' || c == '\t'
  }

  /** Char.IsWhiteSpace: the Unicode separators plus the control characters
      U+0009..U+000D, U+0085. */
  predicate IsWhiteSpace(c: char)
  {
    c == ' ' || ('\t' <= c <= '\r') || c == '\U{85}' || c == '\U{A0}' || c == '\U{1680}'
    || ('\U{2000}' <= c <= '\U{200A}') || c == '\U{2028}' || c == '\U{2029}'
    || c == '\U{202F}' || c == '\U{205F}' || c == '\U{3000}'
  }

  /** String.IsNullOrWhiteSpace, with the null string represented by "". */
  predicate IsNullOrWhiteSpace(s: string)
  {
    forall i :: 0 <= i < |s| ==> IsWhiteSpace(s[i])
  }

  /** String.StartsWith for the ASCII prefixes the generator tests. */
  predicate StartsWith(s: string, prefix: string)
  {
    prefix <= s
  }

  /** String.IndexOfAny(chars, from): the first position at or after `from`
      holding one of `chars`, or -1. */
  function IndexOfAny(s: string, chars: seq<char>, from: nat): (r: int)
    requires from <= |s|
    ensures r == -1 || from <= r < |s|
    decreases |s| - from
  {
    if from == |s| then -1
    else if s[from] in chars then from
    else IndexOfAny(s, chars, from + 1)
  }

  /** IndexOfAny finds the first position holding one of `chars`: none
      before it, and none at all when it returns -1. */
  lemma {:induction false} IndexOfAnySpec(s: string, chars: seq<char>, from: nat)
    requires from <= |s|
    ensures var r := IndexOfAny(s, chars, from);
      (r == -1 ==> forall k :: from <= k < |s| ==> s[k] !in chars)
      && (r != -1 ==> s[r] in chars && forall k :: from <= k < r ==> s[k] !in chars)
    decreases |s| - from
  {
    if from < |s| && s[from] !in chars {
      IndexOfAnySpec(s, chars, from + 1);
    }
  }

  /** String.IndexOf(char, from). */
  function IndexOf(s: string, c: char, from: nat): (r: int)
    requires from <= |s|
  {
    IndexOfAny(s, [c], from)
  }

  /** Lower case for the ASCII letters 'A'..'Z' only, independent of any
      culture; every other character is kept. */
  function LowerChar(c: char): char
  {
    if 'A' <= c <= 'Z' then (c as int + 32) as char else c
  }

  /** ASCII lower case, character by character: the culture-invariant
      reading of String.ToLower on the interface language's keywords. */
  function ToLower(s: string): string
  {
    seq(|s|, i requires 0 <= i < |s| => LowerChar(s[i]))
  }

  /** String.Join(separator, parts). */
  function Join(parts: seq<string>, sep: string): string
    decreases |parts|
  {
    if |parts| == 0 then ""
    else if |parts| == 1 then parts[0]
    else parts[0] + sep + Join(parts[1..], sep)
  }

  /** Appending one more part to a join. */
  lemma {:induction false} JoinSnoc(parts: seq<string>, x: string, sep: string)
    ensures Join(parts + [x], sep) == if parts == [] then x else Join(parts, sep) + sep + x
    decreases |parts|
  {
    if |parts| == 1 {
      assert parts + [x] == [parts[0], x];
      assert [parts[0], x][1..] == [x];
    } else if |parts| > 1 {
      assert (parts + [x])[1..] == parts[1..] + [x];
      JoinSnoc(parts[1..], x, sep);
    }
  }

  /** The segment separators of a qualified name: "." and "::". */
  predicate NoSeparator(s: string)
  {
    '.' !in s && forall k :: 0 <= k < |s| - 1 ==> !(s[k] == ':' && s[k + 1] == ':')
  }

  /** A name that holds neither '.' nor ':' at all. */
  predicate Simple(s: string)
  {
    '.' !in s && ':' !in s
  }

  /** name.Split(new string[] { ".", "::" }, StringSplitOptions.None): scans left
      to right and cuts at every "." and every "::" (empty segments are kept). */
  function SplitQualified(s: string): (r: seq<string>)
    ensures |r| >= 1
    ensures forall k :: 0 <= k < |r| ==> NoSeparator(r[k])
  {
    SplitFrom(s, 0)
  }

  /** Helper of SplitQualified: the segment being scanned is s[..i], and s[..i]
      holds no separator yet. */
  function SplitFrom(s: string, i: nat): (r: seq<string>)
    requires i <= |s|
    requires NoSeparator(s[..i])
    requires i > 0 ==> s[i - 1] != ':' || i == |s| || s[i] != ':'
    ensures |r| >= 1
    ensures forall k :: 0 <= k < |r| ==> NoSeparator(r[k])
    decreases |s| - i
  {
    if i == |s| then
      assert s[..i] == s;
      [s]
    else if s[i] == '.' then
      [s[..i]] + SplitFrom(s[i + 1..], 0)
    else if s[i] == ':' && i + 1 < |s| && s[i + 1] == ':' then
      [s[..i]] + SplitFrom(s[i + 2..], 0)
    else
      assert s[..i + 1] == s[..i] + [s[i]];
      SplitFrom(s, i + 1)
  }

  /** String.Replace(pattern, replacement): every non-overlapping occurrence,
      left to right. */
  function Replace(s: string, pattern: string, replacement: string): string
    requires |pattern| > 0
    decreases |s|
  {
    if |s| < |pattern| then s
    else if pattern <= s then replacement + Replace(s[|pattern|..], pattern, replacement)
    else [s[0]] + Replace(s[1..], pattern, replacement)
  }

  /** Int32.ToString() of a non-negative value: decimal digits, no leading zero. */
  function NatToString(n: nat): (r: string)
    ensures |r| >= 1
    ensures forall i :: 0 <= i < |r| ==> '0' <= r[i] <= '9'
    ensures n >= 10 ==> r[0] != '0'
    decreases n
  {
    if n < 10 then ["0123456789"[n]]
    else NatToString(n / 10) + ["0123456789"[n % 10]]
  }

  /** The number a string of decimal digits stands for. */
  function DigitsValue(s: string): nat
    requires forall i :: 0 <= i < |s| ==> '0' <= s[i] <= '9'
    decreases |s|
  {
    if s == [] then 0
    else DigitsValue(s[..|s| - 1]) * 10 + (s[|s| - 1] as int - '0' as int)
  }

  /** Reading back the rendering of a number gives the number. */
  lemma {:induction false} NatToStringRoundTrip(n: nat)
    ensures DigitsValue(NatToString(n)) == n
    decreases n
  {
    DigitValue(n % 10);
    if n >= 10 {
      NatToStringRoundTrip(n / 10);
      var r := NatToString(n);
      assert r == NatToString(n / 10) + ["0123456789"[n % 10]];
      assert r[..|r| - 1] == NatToString(n / 10);
      assert DigitsValue(r) == DigitsValue(NatToString(n / 10)) * 10 + n % 10;
    }
  }

  /** The digit character of d stands for d. */
  lemma DigitValue(d: nat)
    requires d < 10
    ensures "0123456789"[d] as int - '0' as int == d
  {
    assert d == 0 || d == 1 || d == 2 || d == 3 || d == 4 || d == 5 || d == 6 || d == 7 || d == 8 || d == 9;
  }

  /** Distinct numbers render as distinct strings. */
  lemma NatToStringInjective(a: nat, b: nat)
    ensures NatToString(a) == NatToString(b) ==> a == b
  {
    NatToStringRoundTrip(a);
    NatToStringRoundTrip(b);
  }

  /** Appending the same suffix keeps distinct prefixes of equal shape apart:
      prefix + NatToString(a) == prefix + NatToString(b) only if a == b. */
  lemma SuffixedNumbersDistinct(prefix: string, a: nat, b: nat)
    requires a != b
    ensures prefix + NatToString(a) != prefix + NatToString(b)
  {
    NatToStringInjective(a, b);
    SuffixAfterPrefix(prefix, NatToString(a));
    SuffixAfterPrefix(prefix, NatToString(b));
  }

  /** A name, "_" and a rendered number: the last "_" separates the two, so
      both parts can be read back. */
  lemma DigitSuffixUnique(x: string, y: string, a: nat, b: nat)
    requires x + "_" + NatToString(a) == y + "_" + NatToString(b)
    ensures x == y && a == b
  {
    var s := x + "_" + NatToString(a);
    UnderscoreBeforeDigits(x, NatToString(a));
    UnderscoreBeforeDigits(y, NatToString(b));
    if |x| < |y| {
      assert false;
    } else if |y| < |x| {
      assert false;
    }
    assert x == s[..|x|] == y;
    assert NatToString(a) == s[|x| + 1..] == NatToString(b);
    NatToStringInjective(a, b);
  }

  lemma UnderscoreBeforeDigits(x: string, d: string)
    ensures var s := x + "_" + d;
      |s| == |x| + 1 + |d| && s[|x|] == '_' && s[..|x|] == x && s[|x| + 1..] == d
      && forall k :: |x| < k < |s| ==> s[k] == d[k - |x| - 1]
  {
  }

  lemma SuffixAfterPrefix(prefix: string, s: string)
    ensures (prefix + s)[|prefix|..] == s
  {
  }

  /** A string without the pattern is left as it is by Replace. */
  lemma {:induction false} ReplaceAbsent(s: string, pattern: string, replacement: string)
    requires |pattern| > 0
    requires forall k :: 0 <= k < |s| ==> !(pattern <= s[k..])
    ensures Replace(s, pattern, replacement) == s
    decreases |s|
  {
    if |s| >= |pattern| {
      assert s[0..] == s;
      forall k | 0 <= k < |s[1..]|
        ensures !(pattern <= s[1..][k..])
      {
        assert s[1..][k..] == s[k + 1..];
      }
      ReplaceAbsent(s[1..], pattern, replacement);
    }
  }

  /** Splitting a "."-joined list of simple names gives the list back. */
  lemma {:induction false} SplitJoin(parts: seq<string>)
    requires |parts| >= 1
    requires forall k :: 0 <= k < |parts| ==> Simple(parts[k])
    ensures SplitQualified(Join(parts, ".")) == parts
    decreases |parts|
  {
    var p := parts[0];
    SplitScansSimple(p, if |parts| == 1 then "" else "." + Join(parts[1..], "."), 0);
    if |parts| == 1 {
      assert p + "" == p;
    } else {
      var rest := Join(parts[1..], ".");
      assert Join(parts, ".") == p + "." + rest;
      assert (p + "." + rest)[|p|] == '.';
      assert (p + "." + rest)[..|p|] == p;
      assert (p + "." + rest)[|p| + 1..] == rest;
      assert p + ("." + rest) == p + "." + rest;
      assert ("." + rest)[1..] == rest;
      SplitJoin(parts[1..]);
      assert SplitQualified(Join(parts, ".")) == [p] + SplitQualified(rest);
    }
  }

  /** Scanning a simple prefix never cuts: SplitFrom walks over it to the
      first character after it. */
  lemma {:induction false} SplitScansSimple(p: string, tail: string, i: nat)
    requires Simple(p) && i <= |p|
    requires tail == "" || tail[0] == '.'
    ensures NoSeparator((p + tail)[..i])
    ensures SplitFrom(p + tail, i) ==
      if tail == "" then [p] else [p] + SplitQualified(tail[1..])
    decreases |p| - i
  {
    var s := p + tail;
    assert s[..i] == p[..i];
    if i < |p| {
      assert s[i] == p[i];
      assert s[..i + 1] == p[..i + 1];
      SplitScansSimple(p, tail, i + 1);
    } else if tail == "" {
      assert s == p;
    } else {
      assert s[i] == '.';
      assert s[..i] == p;
      assert s[i + 1..] == tail[1..];
    }
  }

  /** A name without ':' is rebuilt by joining its segments with ".". */
  lemma {:induction false} JoinSplit(s: string)
    requires ':' !in s
    ensures Join(SplitQualified(s), ".") == s
  {
    JoinSplitFrom(s, 0);
  }

  lemma {:induction false} JoinSplitFrom(s: string, i: nat)
    requires ':' !in s && i <= |s| && NoSeparator(s[..i])
    requires i > 0 ==> s[i - 1] != ':' || i == |s| || s[i] != ':'
    ensures Join(SplitFrom(s, i), ".") == s
    decreases |s| - i
  {
    if i == |s| {
      assert s[..i] == s;
    } else if s[i] == '.' {
      var rest := SplitFrom(s[i + 1..], 0);
      JoinSplitFrom(s[i + 1..], 0);
      assert Join([s[..i]] + rest, ".") == s[..i] + "." + Join(rest, ".");
      assert s == s[..i] + "." + s[i + 1..];
    } else {
      assert s[..i + 1] == s[..i] + [s[i]];
      JoinSplitFrom(s, i + 1);
    }
  }
}
