/**
 * The identifier normalizer of CodeGenerationService: a free-text label is turned
 * into a C# identifier by eleven ordered regular-expression rewrites, and a
 * caller-supplied fallback name is used (after validation) when the label is empty
 * or rewrites to nothing.
 *
 * Each rewrite is written out as a function over the string, scanning left to right
 * the way Regex.Replace does: at each position either the pattern matches (the match
 * is replaced and scanning resumes after it) or the character is copied unchanged.
 * Character classes are the ASCII subsets of .NET's `\w`, `\s` and `\d`.
 */
module Identifiers {
  import opened Wrappers
  import opened Numbers

  /** ArgumentNullException and ArgumentException, with the parameter name they carry. */
  datatype ArgumentError = ArgumentNull(paramName: string) | ArgumentInvalid(paramName: string)

  /** string.IsNullOrEmpty */
  predicate NullOrEmpty(s: Option<string>) {
    s.None? || s.value == []
  }

  // ---------------------------------------------------------------- characters

  predicate IsLetter(c: char) { 'a' <= c <= 'z' || 'A' <= c <= 'Z' }
  predicate IsLower(c: char) { 'a' <= c <= 'z' }
  /** `\w` */
  predicate IsWord(c: char) { IsLetter(c) || IsDigit(c) || c == '_' }
  /** `\s`: space, tab, line feed, vertical tab, form feed, carriage return */
  predicate IsSpace(c: char) { c == ' ' || 9 <= c as int <= 13 }

  function ToUpper(c: char): (u: char)
    ensures !IsLower(u)
    ensures IsWord(u) == IsWord(c) && IsSpace(u) == IsSpace(c)
    ensures !IsLower(c) ==> u == c
    ensures IsLower(c) ==> IsLetter(u) && u as int == c as int - 32
  {
    if IsLower(c) then (c as int - 32) as char else c
  }

  // ------------------------------------------------------ identifier validity

  /**
   * The words the C# provider's IsValidIdentifier rejects unless they are written
   * with `@`: the reserved words of C#, listed by their first letter, and four
   * undocumented words that begin with `__`.
   */
  predicate IsKeyword(s: string) {
    |s| > 0 &&
    match s[0]
    case '_' => IsUnderscoreKeyword(s)
    case 'a' => s in {"abstract", "as"}
    case 'b' => s in {"base", "bool", "break", "byte"}
    case 'c' => s in {"case", "catch", "char", "checked", "class", "const", "continue"}
    case 'd' => s in {"decimal", "default", "delegate", "do", "double"}
    case 'e' => s in {"else", "enum", "event", "explicit", "extern"}
    case 'f' => s in {"false", "finally", "fixed", "float", "for", "foreach"}
    case 'g' => s in {"goto"}
    case 'i' => s in {"if", "implicit", "in", "int", "interface", "internal", "is"}
    case 'l' => s in {"lock", "long"}
    case 'n' => s in {"namespace", "new", "null"}
    case 'o' => s in {"object", "operator", "out", "override"}
    case 'p' => s in {"params", "private", "protected", "public"}
    case 'r' => s in {"readonly", "ref", "return"}
    case 's' => s in {"sbyte", "sealed", "short", "sizeof", "stackalloc", "static", "string", "struct", "switch"}
    case 't' => s in {"this", "throw", "true", "try", "typeof"}
    case 'u' => s in {"uint", "ulong", "unchecked", "unsafe", "ushort", "using"}
    case 'v' => s in {"virtual", "void", "volatile"}
    case 'w' => s in {"while"}
    case _ => false
  }

  /** `__arglist`, `__makeref`, `__reftype`, `__refvalue` */
  predicate IsUnderscoreKeyword(s: string) {
    s in {"__arglist", "__makeref", "__reftype", "__refvalue"}
  }

  /** A keyword that does not begin with a lowercase letter is one of the four `__` words. */
  lemma KeywordStart(s: string)
    ensures IsKeyword(s) && !IsLower(s[0]) ==> IsUnderscoreKeyword(s)
  {
  }

  /** A letter or `_`, then letters, digits and `_`. */
  predicate IsIdentifierShaped(s: string) {
    |s| > 0 && (IsLetter(s[0]) || s[0] == '_') && forall i :: 0 <= i < |s| ==> IsWord(s[i])
  }

  /** The longest name the C# provider accepts. */
  const MaxIdentifierLength := 512

  /**
   * CodeDomProvider.IsValidIdentifier for the C# provider: at most 512 characters;
   * a name written with `@` needs only its rest to be identifier-shaped, any other
   * name must be identifier-shaped and not a keyword.
   */
  predicate IsValidIdentifier(s: string): (b: bool)
    ensures b ==> 0 < |s| <= MaxIdentifierLength && !IsDigit(s[0]) && NoSpaces(s)
    ensures IsIdentifierShaped(s) && |s| <= MaxIdentifierLength && !IsKeyword(s) ==> b
  {
    0 < |s| <= MaxIdentifierLength &&
    if s[0] == '@' then IsIdentifierShaped(s[1..]) else IsIdentifierShaped(s) && !IsKeyword(s)
  }

  /**
   * A name NormalizeLabel can return: a valid identifier, or an identifier-shaped
   * name the provider rejects only for its length or as one of the `__` words.
   */
  predicate IsNormalizedName(s: string) {
    IsValidIdentifier(s) ||
    (IsIdentifierShaped(s) && (|s| > MaxIdentifierLength || IsUnderscoreKeyword(s)))
  }

  /** ValidateAndUseFallback: the fallback is returned unchanged, or rejected. */
  function ValidateAndUseFallback(fallback: Option<string>): (r: Result<string, ArgumentError>)
    ensures r == Failure(ArgumentNull("fallback")) <==> NullOrEmpty(fallback)
    ensures r == Failure(ArgumentInvalid("fallback")) <==>
              !NullOrEmpty(fallback) && !IsValidIdentifier(fallback.value)
    ensures r.Success? ==> fallback == Some(r.value) && IsValidIdentifier(r.value)
  {
    if NullOrEmpty(fallback) then Failure(ArgumentNull("fallback"))
    else if !IsValidIdentifier(fallback.value) then Failure(ArgumentInvalid("fallback"))
    else Success(fallback.value)
  }

  // ------------------------------------------------- option fallback names

  /** The fallback name of an option: `_` followed by its value, or `_` alone when it has none. */
  function OptionFallback(value: Option<int32>): (r: string)
    ensures |r| > 0 && r[0] == '_'
    ensures value.Some? ==> r[1..] == DecimalString(value.value)
    ensures value.None? ==> r == "_"
  {
    "_" + (if value.Some? then DecimalString(value.value) else "")
  }

  /** The fallback is a valid identifier exactly when the value is missing or not negative. */
  lemma OptionFallbackValid(value: Option<int32>)
    ensures IsValidIdentifier(OptionFallback(value)) <==> value.None? || value.value >= 0
  {
    var r := OptionFallback(value);
    if value.Some? && value.value < 0 {
      assert r[1] == '-';
    }
  }

  // ------------------------------------------------- pass 1: `\[(.+?)\]` -> `_$1_`

  /**
   * The `]` that closes a bracket opened at index 0: the first `]` at index 2 or
   * later (the lazy `.+?` takes at least one character), with no line feed between
   * (`.` does not match one). Scanning starts at k.
   */
  function ClosingBracket(s: string, k: nat): (j: Option<nat>)
    decreases |s| - k
    ensures j.Some? ==> 2 <= j.value < |s| && k <= j.value && s[j.value] == ']'
    ensures j.Some? ==> forall i :: k <= i <= j.value ==> s[i] != '\n'
    ensures j.Some? ==> forall i :: k <= i < j.value && 2 <= i ==> s[i] != ']'
  {
    if k >= |s| || s[k] == '\n' then None
    else if s[k] == ']' && k >= 2 then Some(k)
    else ClosingBracket(s, k + 1)
  }

  /** Pass 1: each bracketed segment `[content]` becomes `_content_`. */
  function UnderscoreBrackets(s: string): (r: string)
    ensures |r| == |s|
    ensures forall i :: 0 <= i < |s| ==>
              r[i] == s[i] || (r[i] == '_' && (s[i] == '[' || s[i] == ']'))
    ensures |s| > 0 && s[0] == '[' && ClosingBracket(s, 1).Some? ==>
              r[0] == '_' && r[ClosingBracket(s, 1).value] == '_'
    ensures (forall i :: 0 <= i < |s| ==> s[i] != '[') ==> r == s
  {
    if |s| == 0 then []
    else
      var close := if s[0] == '[' then ClosingBracket(s, 1) else None;
      if close.Some? then
        var j := close.value;
        var rest := UnderscoreBrackets(s[j + 1..]);
        BracketsReplaced(s, j + 1, ['_'] + s[1..j] + ['_'], rest);
        ['_'] + s[1..j] + ['_'] + rest
      else
        var rest := UnderscoreBrackets(s[1..]);
        BracketsReplaced(s, 1, [s[0]], rest);
        [s[0]] + rest
  }

  /** A head that replaces at most brackets, followed by a rest that does the same. */
  lemma BracketsReplaced(s: string, k: nat, head: string, rest: string)
    requires 0 < k <= |s| && |head| == k && |rest| == |s| - k
    requires forall i :: 0 <= i < k ==> head[i] == s[i] || (head[i] == '_' && (s[i] == '[' || s[i] == ']'))
    requires forall i :: 0 <= i < |s[k..]| ==>
               rest[i] == s[k..][i] || (rest[i] == '_' && (s[k..][i] == '[' || s[k..][i] == ']'))
    requires (forall i :: 0 <= i < |s[k..]| ==> s[k..][i] != '[') ==> rest == s[k..]
    ensures forall i :: 0 <= i < |s| ==>
              (head + rest)[i] == s[i] || ((head + rest)[i] == '_' && (s[i] == '[' || s[i] == ']'))
    ensures (forall i :: 0 <= i < |s| ==> s[i] != '[') && head == s[..k] ==> head + rest == s
  {
    forall i | k <= i < |s|
      ensures (head + rest)[i] == rest[i - k] && s[i] == s[k..][i - k]
    {
    }
    if (forall i :: 0 <= i < |s| ==> s[i] != '[') && head == s[..k] {
      assert forall i :: 0 <= i < |s[k..]| ==> s[k..][i] == s[k + i];
      assert s[..k] + s[k..] == s;
    }
  }

  // ------------------------------------------------- pass 2: `^\W+` -> ""

  /** Pass 2: the leading run of non-word characters is removed. */
  function TrimLeadingSymbols(s: string): (r: string)
    ensures |r| <= |s| && r == s[|s| - |r|..]
    ensures r == [] || IsWord(r[0])
    ensures forall i :: 0 <= i < |s| - |r| ==> !IsWord(s[i])
  {
    if |s| > 0 && !IsWord(s[0]) then
      var r := TrimLeadingSymbols(s[1..]);
      assert s[1..][|s| - 1 - |r|..] == s[|s| - |r|..];
      assert forall i :: 1 <= i < |s| - |r| ==> s[i] == s[1..][i - 1];
      r
    else s
  }

  // ------------------------------------------------- pass 3: `[^\w-+]+$` -> ""

  /** Characters pass 3 keeps at the end of the string: `\w`, `-` and `+`. */
  predicate KeptAtEnd(c: char) {
    IsWord(c) || c == '-' || c == '+'
  }

  /** Pass 3: the trailing run of characters other than `\w`, `-`, `+` is removed. */
  function TrimTrailingSymbols(s: string): (r: string)
    ensures |r| <= |s| && r == s[..|r|]
    ensures r == [] || KeptAtEnd(r[|r| - 1])
    ensures forall i :: |r| <= i < |s| ==> !KeptAtEnd(s[i])
  {
    if |s| > 0 && !KeptAtEnd(s[|s| - 1]) then
      var r := TrimTrailingSymbols(s[..|s| - 1]);
      assert s[..|s| - 1][..|r|] == s[..|r|];
      r
    else s
  }

  // ------------------------------------------------- pass 4: `['"]` -> ""

  predicate IsQuote(c: char) {
    c == '\'' || c == '"'
  }

  /** Pass 4: every single and double quote is removed, the rest kept in order. */
  function RemoveQuotes(s: string): (r: string)
    ensures |r| <= |s|
    ensures forall c :: c in r <==> c in s && !IsQuote(c)
    ensures (forall i :: 0 <= i < |s| ==> !IsQuote(s[i])) ==> r == s
  {
    if |s| == 0 then []
    else (if IsQuote(s[0]) then [] else [s[0]]) + RemoveQuotes(s[1..])
  }

  /** r is s with some of its characters left out, the others in their order. */
  predicate IsSubsequence(r: string, s: string) {
    |r| == 0 || (|s| > 0 && if r[0] == s[0] then IsSubsequence(r[1..], s[1..]) else IsSubsequence(r, s[1..]))
  }

  /** Pass 4 keeps the characters it does not remove in their order. */
  lemma {:induction false} RemoveQuotesOrder(s: string)
    ensures IsSubsequence(RemoveQuotes(s), s)
    decreases |s|
  {
    if |s| > 0 {
      var r := RemoveQuotes(s[1..]);
      RemoveQuotesOrder(s[1..]);
      if IsQuote(s[0]) {
        assert RemoveQuotes(s) == r;
        if |r| > 0 {
          assert r[0] in r;
        }
      } else {
        assert RemoveQuotes(s) == [s[0]] + r;
      }
    }
  }

  /**
   * Pass 4 leaves out exactly the quotes of s and keeps every other character as
   * often as s has it.
   */
  lemma {:induction false} RemoveQuotesCounts(s: string)
    ensures forall c :: multiset(RemoveQuotes(s))[c] == if IsQuote(c) then 0 else multiset(s)[c]
    decreases |s|
  {
    if |s| > 0 {
      RemoveQuotesCounts(s[1..]);
      assert s == [s[0]] + s[1..];
      assert multiset(s) == multiset{s[0]} + multiset(s[1..]);
      if IsQuote(s[0]) {
        assert RemoveQuotes(s) == RemoveQuotes(s[1..]);
      } else {
        assert RemoveQuotes(s) == [s[0]] + RemoveQuotes(s[1..]);
        assert multiset(RemoveQuotes(s)) == multiset{s[0]} + multiset(RemoveQuotes(s[1..]));
      }
    }
  }

  // ------------------------------ passes 5 and 6: `(-+?)(?!.*\w+)` -> "Minus", same for `+`

  /**
   * The lookahead `(?=.*\w+)` at the start of s: a word character follows before the
   * next line feed.
   */
  predicate WordAhead(s: string) {
    |s| > 0 && s[0] != '\n' && (IsWord(s[0]) || WordAhead(s[1..]))
  }

  /**
   * Passes 5 and 6: every `sign` character with no word character after it on its
   * line is replaced by `word` ("Minus" for `-`, "Plus" for `+`). The lazy `-+?`
   * matches one sign at a time: a longer match cannot succeed where a shorter failed,
   * since the signs between are not word characters.
   */
  function SpellOutTrailing(s: string, sign: char, word: string): (r: string)
    requires !IsWord(sign) && sign != '\n'
    requires |word| > 0 && forall i :: 0 <= i < |word| ==> IsWord(word[i])
    ensures (forall i :: 0 <= i < |s| ==> s[i] != sign) ==> r == s
  {
    if |s| == 0 then []
    else (if s[0] == sign && !WordAhead(s[1..]) then word else [s[0]]) + SpellOutTrailing(s[1..], sign, word)
  }

  /** Every sign in r has a word character after it on its line. */
  predicate SignsBeforeWords(r: string, sign: char) {
    forall i :: 0 <= i < |r| && r[i] == sign ==> WordAhead(r[i + 1..])
  }

  /**
   * After passes 5 and 6 every remaining sign has a word character after it on its
   * line, and a line that had a word character still has one.
   */
  lemma {:induction false} SpellOutTrailingResult(s: string, sign: char, word: string)
    requires !IsWord(sign) && sign != '\n'
    requires |word| > 0 && forall i :: 0 <= i < |word| ==> IsWord(word[i])
    ensures WordAhead(s) ==> WordAhead(SpellOutTrailing(s, sign, word))
    ensures SignsBeforeWords(SpellOutTrailing(s, sign, word), sign)
    decreases |s|
  {
    if |s| > 0 {
      var head := if s[0] == sign && !WordAhead(s[1..]) then word else [s[0]];
      var rest := SpellOutTrailing(s[1..], sign, word);
      SpellOutTrailingResult(s[1..], sign, word);
      var r := head + rest;
      assert r == SpellOutTrailing(s, sign, word);
      forall i | 0 <= i < |r| && r[i] == sign
        ensures WordAhead(r[i + 1..])
      {
        if i < |head| {
          assert r[i] == head[i];
          assert head == [s[0]] && r[1..] == rest;
        } else {
          assert r[i] == rest[i - |head|] && r[i + 1..] == rest[i - |head| + 1..];
        }
      }
    }
  }

  /** n copies of c. */
  function Repeat(c: char, n: nat): (r: string)
    ensures |r| == n && forall i :: 0 <= i < n ==> r[i] == c
  {
    if n == 0 then [] else [c] + Repeat(c, n - 1)
  }

  /** n copies of w, end to end. */
  function RepeatWord(w: string, n: nat): (r: string)
    ensures (forall i :: 0 <= i < |w| ==> IsLetter(w[i])) ==> forall i :: 0 <= i < |r| ==> IsLetter(r[i])
  {
    if n == 0 then [] else w + RepeatWord(w, n - 1)
  }

  /** Characters that are neither `\w` nor a line feed do not change the lookahead. */
  lemma {:induction false} WordAheadAppend(x: string, y: string)
    requires forall i :: 0 <= i < |y| ==> !IsWord(y[i]) && y[i] != '\n'
    ensures WordAhead(x + y) == WordAhead(x)
    decreases |x| + |y|
  {
    if |x| > 0 {
      assert (x + y)[1..] == x[1..] + y;
      WordAheadAppend(x[1..], y);
    } else if |y| > 0 {
      assert x + y == y;
      assert y[1..] == [] + y[1..];
      WordAheadAppend([], y[1..]);
    } else {
      assert x + y == [];
    }
  }

  /**
   * Appending characters with no `\w` and no line feed among them changes nothing
   * before them: each part is rewritten on its own.
   */
  lemma {:induction false} SpellOutTrailingAppend(a: string, y: string, sign: char, word: string)
    requires !IsWord(sign) && sign != '\n'
    requires |word| > 0 && forall i :: 0 <= i < |word| ==> IsWord(word[i])
    requires forall i :: 0 <= i < |y| ==> !IsWord(y[i]) && y[i] != '\n'
    ensures SpellOutTrailing(a + y, sign, word) == SpellOutTrailing(a, sign, word) + SpellOutTrailing(y, sign, word)
    decreases |a|
  {
    if |a| > 0 {
      assert (a + y)[1..] == a[1..] + y;
      WordAheadAppend(a[1..], y);
      SpellOutTrailingAppend(a[1..], y, sign, word);
    } else {
      assert a + y == y;
    }
  }

  /** A run of signs with nothing after it is spelled out sign by sign (`--` -> `MinusMinus`). */
  lemma {:induction false} SpellOutSignRun(sign: char, word: string, n: nat)
    requires !IsWord(sign) && sign != '\n'
    requires |word| > 0 && forall i :: 0 <= i < |word| ==> IsWord(word[i])
    ensures SpellOutTrailing(Repeat(sign, n), sign, word) == RepeatWord(word, n)
  {
    if n > 0 {
      var s := Repeat(sign, n);
      assert s[1..] == Repeat(sign, n - 1);
      WordAheadAppend([], s[1..]);
      assert [] + s[1..] == s[1..];
      SpellOutSignRun(sign, word, n - 1);
    }
  }

  /**
   * Every sign in front of a word character on the same line is kept: the text
   * before the last word is copied unchanged.
   */
  lemma {:induction false} SpellOutBeforeWord(a: string, b: string, sign: char, word: string)
    requires !IsWord(sign) && sign != '\n'
    requires |word| > 0 && forall i :: 0 <= i < |word| ==> IsWord(word[i])
    requires forall i :: 0 <= i < |a| ==> a[i] != '\n'
    requires WordAhead(b)
    ensures WordAhead(a + b)
    ensures SpellOutTrailing(a + b, sign, word) == a + SpellOutTrailing(b, sign, word)
    decreases |a|
  {
    if |a| > 0 {
      assert (a + b)[1..] == a[1..] + b;
      SpellOutBeforeWord(a[1..], b, sign, word);
      assert a == [a[0]] + a[1..];
    } else {
      assert a + b == b;
    }
  }

  // ------------------------------------------------- pass 7: `[^\w\s]` -> " "

  predicate WordsAndSpaces(s: string) {
    forall i :: 0 <= i < |s| ==> IsWord(s[i]) || IsSpace(s[i])
  }

  /** Pass 7: every character other than `\w` and `\s` becomes a space. */
  function BlankSymbols(s: string): (r: string)
    ensures |r| == |s| && WordsAndSpaces(r)
    ensures forall i :: 0 <= i < |s| && (IsWord(s[i]) || IsSpace(s[i])) ==> r[i] == s[i]
    ensures forall i :: 0 <= i < |s| && !IsWord(s[i]) && !IsSpace(s[i]) ==> r[i] == ' '
    ensures WordsAndSpaces(s) ==> r == s
  {
    seq(|s|, i requires 0 <= i < |s| => if IsWord(s[i]) || IsSpace(s[i]) then s[i] else ' ')
  }

  // ------------------------------------------------- pass 8: `\b(\w)` -> upper case

  /**
   * Every lowercase letter of s continues a run of word characters; afterWord says
   * whether the character before s is a word character.
   */
  predicate CapitalizedRuns(s: string, afterWord: bool) {
    |s| == 0 || ((IsLower(s[0]) ==> afterWord) && CapitalizedRuns(s[1..], IsWord(s[0])))
  }

  /** Whether the last character of a (or, if a is empty, the one before it) is `\w`. */
  function EndsInWord(a: string, afterWord: bool): bool {
    if |a| == 0 then afterWord else IsWord(a[|a| - 1])
  }

  /** Index i of s starts a run of word characters (the `\b` of pass 8 sits before it). */
  predicate StartsRun(s: string, i: nat, afterWord: bool)
    requires i < |s|
  {
    IsWord(s[i]) && !(if i == 0 then afterWord else IsWord(s[i - 1]))
  }

  /**
   * Pass 8: the first character of every run of word characters is upper-cased;
   * afterWord says whether the character before s (in the whole string) is `\w`.
   */
  function CapitalizeWords(s: string, afterWord: bool): (r: string)
    ensures |r| == |s|
    ensures forall i {:trigger r[i]} :: 0 <= i < |s| ==>
              r[i] == if StartsRun(s, i, afterWord) then ToUpper(s[i]) else s[i]
    ensures CapitalizedRuns(r, afterWord)
    ensures WordsAndSpaces(s) ==> WordsAndSpaces(r)
    ensures CapitalizedRuns(s, afterWord) ==> r == s
  {
    if |s| == 0 then []
    else
      var head := if StartsRun(s, 0, afterWord) then ToUpper(s[0]) else s[0];
      var rest := CapitalizeWords(s[1..], IsWord(s[0]));
      CapitalizeWordsStep(s, s[1..], afterWord, rest);
      [head] + rest
  }

  /** The positional description of pass 8 carries over from s[1..] to s. */
  lemma CapitalizeWordsStep(s: string, t: string, afterWord: bool, rest: string)
    requires |s| > 0 && t == s[1..] && |rest| == |t|
    requires forall i {:trigger rest[i]} :: 0 <= i < |t| ==>
               rest[i] == if StartsRun(t, i, IsWord(s[0])) then ToUpper(t[i]) else t[i]
    ensures forall i {:trigger rest[i]} :: 0 <= i < |t| ==>
              rest[i] == if StartsRun(s, i + 1, afterWord) then ToUpper(s[i + 1]) else s[i + 1]
  {
    forall i | 0 <= i < |t|
      ensures rest[i] == if StartsRun(s, i + 1, afterWord) then ToUpper(s[i + 1]) else s[i + 1]
    {
      assert t[i] == s[i + 1];
      if i > 0 {
        assert t[i - 1] == s[i];
      }
      assert StartsRun(t, i, IsWord(s[0])) == StartsRun(s, i + 1, afterWord);
    }
  }

  // ------------------------------------------------- passes 9 and 10: digits and spaces

  /** The end of the run of whitespace that starts at index i of s. */
  function SpacesFrom(s: string, i: nat): (n: nat)
    requires i <= |s|
    ensures i <= n <= |s|
    decreases |s| - i
  {
    if i < |s| && IsSpace(s[i]) then SpacesFrom(s, i + 1) else i
  }

  /** The end of the run of decimal digits that starts at index i of s. */
  function DigitsFrom(s: string, i: nat): (n: nat)
    requires i <= |s|
    ensures i <= n <= |s|
    decreases |s| - i
  {
    if i < |s| && IsDigit(s[i]) then DigitsFrom(s, i + 1) else i
  }

  /** The length of the run of whitespace at the start of s. */
  function LeadingSpaces(s: string): (n: nat)
    ensures n <= |s|
  {
    SpacesFrom(s, 0)
  }

  /** The length of the run of decimal digits at the start of s. */
  function LeadingDigits(s: string): (n: nat)
    ensures n <= |s|
  {
    DigitsFrom(s, 0)
  }

  lemma {:induction false} SpacesFromSpan(s: string, i: nat)
    requires i <= |s|
    ensures forall j :: i <= j < SpacesFrom(s, i) ==> IsSpace(s[j])
    ensures SpacesFrom(s, i) < |s| ==> !IsSpace(s[SpacesFrom(s, i)])
    decreases |s| - i
  {
    if i < |s| && IsSpace(s[i]) {
      SpacesFromSpan(s, i + 1);
    }
  }

  lemma {:induction false} DigitsFromSpan(s: string, i: nat)
    requires i <= |s|
    ensures forall j :: i <= j < DigitsFrom(s, i) ==> IsDigit(s[j])
    ensures DigitsFrom(s, i) < |s| ==> !IsDigit(s[DigitsFrom(s, i)])
    decreases |s| - i
  {
    if i < |s| && IsDigit(s[i]) {
      DigitsFromSpan(s, i + 1);
    }
  }

  /** LeadingSpaces counts whitespace, and stops at the first other character. */
  lemma LeadingSpacesSpan(s: string)
    ensures forall i :: 0 <= i < LeadingSpaces(s) ==> IsSpace(s[i])
    ensures LeadingSpaces(s) < |s| ==> !IsSpace(s[LeadingSpaces(s)])
  {
    SpacesFromSpan(s, 0);
  }

  /** LeadingDigits counts digits, and stops at the first other character. */
  lemma LeadingDigitsSpan(s: string)
    ensures forall i :: 0 <= i < LeadingDigits(s) ==> IsDigit(s[i])
    ensures LeadingDigits(s) < |s| ==> !IsDigit(s[LeadingDigits(s)])
  {
    DigitsFromSpan(s, 0);
  }

  predicate NoDigits(s: string) {
    forall i :: 0 <= i < |s| ==> !IsDigit(s[i])
  }

  predicate NoSpaces(s: string) {
    forall i :: 0 <= i < |s| ==> !IsSpace(s[i])
  }

  /**
   * Pass 9, `\b(?:\s+)(\d+)` -> `_$1`: a run of spaces that follows a word character
   * and is followed by digits becomes a single `_`. afterWord says whether the
   * character before s is `\w` (the `\b` before the spaces).
   */
  function JoinDigitsLeft(s: string, afterWord: bool): (r: string)
    ensures |r| <= |s|
  {
    if |s| == 0 then []
    else
      var k := LeadingSpaces(s);
      if afterWord && k > 0 && k < |s| && IsDigit(s[k]) then
        var d := LeadingDigits(s[k..]);
        ['_'] + s[k..k + d] + JoinDigitsLeft(s[k + d..], true)
      else
        [s[0]] + JoinDigitsLeft(s[1..], IsWord(s[0]))
  }

  /** Pass 9 only turns whitespace into `_`. */
  lemma {:induction false} JoinDigitsLeftWords(s: string, afterWord: bool)
    requires WordsAndSpaces(s)
    ensures WordsAndSpaces(JoinDigitsLeft(s, afterWord))
    decreases |s|
  {
    if |s| > 0 {
      var k := LeadingSpaces(s);
      if afterWord && k > 0 && k < |s| && IsDigit(s[k]) {
        var d := LeadingDigits(s[k..]);
        var head := ['_'] + s[k..k + d];
        JoinDigitsLeftHead(s, k);
        var rest := JoinDigitsLeft(s[k + d..], true);
        assert JoinDigitsLeft(s, afterWord) == head + rest;
        WordsSuffix(s, k + d);
        JoinDigitsLeftWords(s[k + d..], true);
        JoinDigitsLeftStepWords(head, rest);
      } else {
        WordsSuffix(s, 1);
        JoinDigitsLeftWords(s[1..], IsWord(s[0]));
        JoinDigitsCopyWords(s, JoinDigitsLeft(s[1..], IsWord(s[0])));
      }
    }
  }

  /** Pass 9 puts no lowercase letter at the start of a run. */
  lemma {:induction false} JoinDigitsLeftRuns(s: string, afterWord: bool)
    requires CapitalizedRuns(s, afterWord)
    ensures CapitalizedRuns(JoinDigitsLeft(s, afterWord), afterWord)
    decreases |s|
  {
    if |s| > 0 {
      var k := LeadingSpaces(s);
      if afterWord && k > 0 && k < |s| && IsDigit(s[k]) {
        var d := LeadingDigits(s[k..]);
        var head := ['_'] + s[k..k + d];
        JoinDigitsLeftHead(s, k);
        var rest := JoinDigitsLeft(s[k + d..], true);
        assert JoinDigitsLeft(s, afterWord) == head + rest;
        JoinDigitsLeftRest(s, k, d, afterWord);
        JoinDigitsLeftRuns(s[k + d..], true);
        JoinDigitsLeftStepRuns(head, rest, afterWord);
      } else {
        JoinDigitsLeftRuns(s[1..], IsWord(s[0]));
        JoinDigitsCopyRuns(s, JoinDigitsLeft(s[1..], IsWord(s[0])), afterWord);
      }
    }
  }

  /** The rest after a matched run of pass 9 starts after a digit. */
  lemma JoinDigitsLeftRest(s: string, k: nat, d: nat, afterWord: bool)
    requires 0 < d && k + d <= |s| && IsDigit(s[k + d - 1])
    requires CapitalizedRuns(s, afterWord)
    ensures CapitalizedRuns(s[k + d..], true)
  {
    var m := k + d;
    assert s == s[..m] + s[m..];
    CapitalizedRunsSplit(s[..m], s[m..], afterWord);
  }

  /** The `_` and the digits pass 9 puts in place of a matched run. */
  lemma JoinDigitsLeftHead(s: string, k: nat)
    requires k < |s| && IsDigit(s[k])
    ensures var d := LeadingDigits(s[k..]);
            var head := ['_'] + s[k..k + d];
            d > 0 && IsDigit(s[k + d - 1]) && IsDigit(head[|head| - 1]) &&
            forall i :: 0 <= i < |head| ==> head[i] == '_' || IsDigit(head[i])
  {
    var d := LeadingDigits(s[k..]);
    LeadingDigitsSpan(s[k..]);
    assert forall i :: 0 <= i < d ==> s[k..][i] == s[k + i];
  }

  /** Without digits there is nothing for pass 9 to join. */
  lemma {:induction false} JoinDigitsLeftNoDigits(s: string, afterWord: bool)
    requires NoDigits(s)
    ensures JoinDigitsLeft(s, afterWord) == s
    decreases |s|
  {
    if |s| > 0 {
      JoinDigitsLeftNoDigits(s[1..], IsWord(s[0]));
      assert s == [s[0]] + s[1..];
    }
  }

  /** The matched step of pass 9 keeps both invariants. */
  /** A matched run of pass 9, `_` and digits, before a rest of word characters and whitespace. */
  lemma JoinDigitsLeftStepWords(head: string, rest: string)
    requires forall i :: 0 <= i < |head| ==> head[i] == '_' || IsDigit(head[i])
    requires WordsAndSpaces(rest)
    ensures WordsAndSpaces(head + rest)
  {
    WordsJoined(head, rest);
  }

  /** A matched run of pass 9 ends in a digit, so the rest is read after a word character. */
  lemma JoinDigitsLeftStepRuns(head: string, rest: string, afterWord: bool)
    requires |head| > 0 && IsDigit(head[|head| - 1])
    requires forall i :: 0 <= i < |head| ==> head[i] == '_' || IsDigit(head[i])
    requires CapitalizedRuns(rest, true)
    ensures CapitalizedRuns(head + rest, afterWord)
  {
    NoLowercaseCapitalized(head, afterWord);
    CapitalizedRunsSplit(head, rest, afterWord);
  }

  /**
   * Pass 10, `(\d+)(?:\s+)\b` -> `$1_`: a run of spaces that follows digits and is
   * followed by a word character becomes a single `_`.
   */
  function JoinDigitsRight(s: string): (r: string)
    ensures |r| <= |s|
  {
    if |s| == 0 then []
    else
      var d := LeadingDigits(s);
      var k := LeadingSpaces(s[d..]);
      if d > 0 && k > 0 && d + k < |s| && IsWord(s[d + k]) then
        s[..d] + ['_'] + JoinDigitsRight(s[d + k..])
      else
        [s[0]] + JoinDigitsRight(s[1..])
  }

  /** Pass 10 only turns whitespace into `_`. */
  lemma {:induction false} JoinDigitsRightWords(s: string)
    requires WordsAndSpaces(s)
    ensures WordsAndSpaces(JoinDigitsRight(s))
    decreases |s|
  {
    if |s| > 0 {
      var d := LeadingDigits(s);
      var k := LeadingSpaces(s[d..]);
      if d > 0 && k > 0 && d + k < |s| && IsWord(s[d + k]) {
        var t := s[d + k..];
        JoinDigitsRightRestWords(s, d, k);
        JoinDigitsRightWords(t);
        JoinDigitsRightMatchedWords(s, d, k, JoinDigitsRight(t));
      } else {
        var t := s[1..];
        WordsSuffix(s, 1);
        JoinDigitsRightWords(t);
        JoinDigitsRightCopiedWords(s, d, k, JoinDigitsRight(t));
      }
    }
  }

  /** Pass 10 puts no lowercase letter at the start of a run. */
  lemma {:induction false} JoinDigitsRightRuns(s: string, afterWord: bool)
    requires CapitalizedRuns(s, afterWord)
    ensures CapitalizedRuns(JoinDigitsRight(s), afterWord)
    decreases |s|
  {
    if |s| > 0 {
      var d := LeadingDigits(s);
      var k := LeadingSpaces(s[d..]);
      if d > 0 && k > 0 && d + k < |s| && IsWord(s[d + k]) {
        JoinDigitsRightRestRuns(s, d, k, afterWord);
        JoinDigitsRightRuns(s[d + k..], true);
        JoinDigitsRightMatchedRuns(s, d, k, JoinDigitsRight(s[d + k..]), afterWord);
      } else {
        JoinDigitsRightRuns(s[1..], IsWord(s[0]));
        JoinDigitsRightCopiedRuns(s, d, k, JoinDigitsRight(s[1..]), afterWord);
      }
    }
  }

  /** A suffix of a string of word characters and whitespace is one too. */
  lemma WordsSuffix(s: string, m: nat)
    requires m <= |s| && WordsAndSpaces(s)
    ensures WordsAndSpaces(s[m..])
  {
    assert forall i :: 0 <= i < |s| - m ==> s[m..][i] == s[m + i];
  }

  /** What a concatenation of word characters and whitespace is made of. */
  lemma WordsJoined(x: string, y: string)
    requires WordsAndSpaces(x) && WordsAndSpaces(y)
    ensures WordsAndSpaces(x + y)
  {
    forall i | |x| <= i < |x + y|
      ensures (x + y)[i] == y[i - |x|]
    {
    }
  }

  /** A prefix of a string of word characters and whitespace, `_`, and more of them. */
  lemma WordsPrefixJoined(s: string, d: nat, rest: string)
    requires d <= |s| && WordsAndSpaces(s) && WordsAndSpaces(rest)
    ensures WordsAndSpaces(s[..d] + ['_'] + rest)
  {
    assert WordsAndSpaces(s[..d] + ['_']) by {
      assert forall i :: 0 <= i < d ==> (s[..d] + ['_'])[i] == s[i];
    }
    WordsJoined(s[..d] + ['_'], rest);
  }

  lemma JoinDigitsRightMatchedWords(s: string, d: nat, k: nat, rest: string)
    requires d == LeadingDigits(s) && k == LeadingSpaces(s[d..])
    requires d > 0 && k > 0 && d + k < |s| && IsWord(s[d + k]) && rest == JoinDigitsRight(s[d + k..])
    requires WordsAndSpaces(s) && WordsAndSpaces(rest)
    ensures WordsAndSpaces(JoinDigitsRight(s))
  {
    WordsPrefixJoined(s, d, rest);
    JoinDigitsRightMatched(s, d, k);
  }

  lemma JoinDigitsRightCopiedWords(s: string, d: nat, k: nat, rest: string)
    requires |s| > 0 && rest == JoinDigitsRight(s[1..])
    requires d == LeadingDigits(s) && k == LeadingSpaces(s[d..])
    requires !(d > 0 && k > 0 && d + k < |s| && IsWord(s[d + k]))
    requires WordsAndSpaces(s) && WordsAndSpaces(rest)
    ensures WordsAndSpaces(JoinDigitsRight(s))
  {
    WordsJoined([s[0]], rest);
    assert JoinDigitsRight(s) == [s[0]] + rest;
  }

  /** The rest after a matched run of pass 10 keeps the invariant of pass 8. */
  lemma JoinDigitsRightRest(s: string, d: nat, k: nat, afterWord: bool)
    requires 0 < d && 0 < k && d + k <= |s|
    requires forall i :: d <= i < d + k ==> IsSpace(s[i])
    requires CapitalizedRuns(s, afterWord)
    ensures CapitalizedRuns(s[d + k..], true)
  {
    var m := d + k;
    assert s == s[..m] + s[m..];
    CapitalizedRunsSplit(s[..m], s[m..], afterWord);
    assert !EndsInWord(s[..m], afterWord);
    CapitalizedRunsWeaken(s[m..]);
  }

  lemma JoinDigitsRightRestWords(s: string, d: nat, k: nat)
    requires d + k <= |s|
    requires WordsAndSpaces(s)
    ensures WordsAndSpaces(s[d + k..])
  {
    WordsSuffix(s, d + k);
  }

  lemma JoinDigitsRightRestRuns(s: string, d: nat, k: nat, afterWord: bool)
    requires d == LeadingDigits(s) && k == LeadingSpaces(s[d..])
    requires d > 0 && k > 0 && d + k < |s|
    requires CapitalizedRuns(s, afterWord)
    ensures CapitalizedRuns(s[d + k..], true)
  {
    JoinDigitsRightSpaceSpan(s);
    JoinDigitsRightRest(s, d, k, afterWord);
  }

  lemma JoinDigitsRightMatchedRuns(s: string, d: nat, k: nat, rest: string, afterWord: bool)
    requires d == LeadingDigits(s) && k == LeadingSpaces(s[d..])
    requires d > 0 && k > 0 && d + k < |s| && IsWord(s[d + k]) && rest == JoinDigitsRight(s[d + k..])
    requires CapitalizedRuns(rest, true)
    ensures CapitalizedRuns(JoinDigitsRight(s), afterWord)
  {
    JoinDigitsRightDigitSpan(s);
    var head := s[..d] + ['_'];
    assert forall i :: 0 <= i < d ==> head[i] == s[i];
    NoLowercaseCapitalized(head, afterWord);
    CapitalizedRunsSplit(head, rest, afterWord);
    JoinDigitsRightMatched(s, d, k);
  }

  lemma JoinDigitsRightCopiedRuns(s: string, d: nat, k: nat, rest: string, afterWord: bool)
    requires |s| > 0 && rest == JoinDigitsRight(s[1..])
    requires d == LeadingDigits(s) && k == LeadingSpaces(s[d..])
    requires !(d > 0 && k > 0 && d + k < |s| && IsWord(s[d + k]))
    requires CapitalizedRuns(s, afterWord) && CapitalizedRuns(rest, IsWord(s[0]))
    ensures CapitalizedRuns(JoinDigitsRight(s), afterWord)
  {
    assert ([s[0]] + rest)[1..] == rest;
    assert JoinDigitsRight(s) == [s[0]] + rest;
  }

  /** Without digits there is nothing for pass 10 to join. */
  lemma {:induction false} JoinDigitsRightNoDigits(s: string)
    requires NoDigits(s)
    ensures JoinDigitsRight(s) == s
    decreases |s|
  {
    if |s| > 0 {
      JoinDigitsRightNoDigits(s[1..]);
      assert s == [s[0]] + s[1..];
    }
  }

  /** A copied character keeps the character invariant of passes 9 and 10. */
  lemma JoinDigitsCopyWords(s: string, rest: string)
    requires |s| > 0 && WordsAndSpaces(s) && WordsAndSpaces(rest)
    ensures WordsAndSpaces([s[0]] + rest)
  {
    WordsJoined([s[0]], rest);
  }

  /** A copied character keeps the run invariant of passes 9 and 10. */
  lemma JoinDigitsCopyRuns(s: string, rest: string, afterWord: bool)
    requires |s| > 0 && CapitalizedRuns(s, afterWord) && CapitalizedRuns(rest, IsWord(s[0]))
    ensures CapitalizedRuns([s[0]] + rest, afterWord)
  {
    assert ([s[0]] + rest)[1..] == rest;
  }

  /** The digits at the front of s. */
  lemma JoinDigitsRightDigitSpan(s: string)
    ensures forall i :: 0 <= i < LeadingDigits(s) ==> IsDigit(s[i])
  {
    LeadingDigitsSpan(s);
  }

  /** The whitespace after the digits at the front of s. */
  lemma JoinDigitsRightSpaceSpan(s: string)
    ensures var d := LeadingDigits(s);
            forall i :: d <= i < d + LeadingSpaces(s[d..]) ==> IsSpace(s[i])
  {
    var d := LeadingDigits(s);
    LeadingSpacesSpan(s[d..]);
    assert forall i :: d <= i < d + LeadingSpaces(s[d..]) ==> s[i] == s[d..][i - d];
  }

  // ------------------------------------------------- pass 11: `\s` -> ""

  /** Pass 11: every whitespace character is removed. */
  function RemoveWhitespace(s: string): (r: string)
    ensures |r| <= |s| && NoSpaces(r)
    ensures NoSpaces(s) ==> r == s
  {
    if |s| == 0 then []
    else (if IsSpace(s[0]) then [] else [s[0]]) + RemoveWhitespace(s[1..])
  }

  /**
   * Pass 11 leaves no whitespace and keeps every other character; a lowercase letter
   * that started no run before still starts none.
   */
  lemma {:induction false} RemoveWhitespacePreserves(s: string)
    ensures NoSpaces(RemoveWhitespace(s))
    ensures forall c :: c in RemoveWhitespace(s) <==> c in s && !IsSpace(c)
    ensures WordsAndSpaces(s) ==> forall i :: 0 <= i < |RemoveWhitespace(s)| ==> IsWord(RemoveWhitespace(s)[i])
    ensures CapitalizedRuns(s, false) ==> CapitalizedRuns(RemoveWhitespace(s), false)
    ensures CapitalizedRuns(s, true) ==> CapitalizedRuns(RemoveWhitespace(s), true)
  {
    RemoveWhitespaceMembers(s);
    if WordsAndSpaces(s) {
      RemoveWhitespaceWords(s);
    }
    RemoveWhitespaceCapitalized(s);
  }

  lemma {:induction false} RemoveWhitespaceMembers(s: string)
    ensures forall c :: c in RemoveWhitespace(s) <==> c in s && !IsSpace(c)
    decreases |s|
  {
    if |s| > 0 {
      var r := RemoveWhitespace(s[1..]);
      RemoveWhitespaceMembers(s[1..]);
      assert forall c :: c in s <==> c == s[0] || c in s[1..];
      if IsSpace(s[0]) {
        assert RemoveWhitespace(s) == r;
      } else {
        assert RemoveWhitespace(s) == [s[0]] + r;
      }
    }
  }

  lemma {:induction false} RemoveWhitespaceWords(s: string)
    requires WordsAndSpaces(s)
    ensures forall i :: 0 <= i < |RemoveWhitespace(s)| ==> IsWord(RemoveWhitespace(s)[i])
    decreases |s|
  {
    if |s| > 0 {
      var r := RemoveWhitespace(s[1..]);
      assert forall i :: 1 <= i < |s| ==> s[1..][i - 1] == s[i];
      RemoveWhitespaceWords(s[1..]);
      if IsSpace(s[0]) {
        assert RemoveWhitespace(s) == r;
      } else {
        assert RemoveWhitespace(s) == [s[0]] + r;
      }
    }
  }

  lemma {:induction false} RemoveWhitespaceCapitalized(s: string)
    ensures CapitalizedRuns(s, false) ==> CapitalizedRuns(RemoveWhitespace(s), false)
    ensures CapitalizedRuns(s, true) ==> CapitalizedRuns(RemoveWhitespace(s), true)
    decreases |s|
  {
    if |s| > 0 {
      var r := RemoveWhitespace(s[1..]);
      RemoveWhitespaceCapitalized(s[1..]);
      if IsSpace(s[0]) {
        assert RemoveWhitespace(s) == r;
        CapitalizedRunsWeaken(r);
      } else {
        assert RemoveWhitespace(s) == [s[0]] + r;
        assert ([s[0]] + r)[1..] == r;
      }
    }
  }

  /** Pass 11 keeps the characters it does not remove in their order. */
  lemma {:induction false} RemoveWhitespaceOrder(s: string)
    ensures IsSubsequence(RemoveWhitespace(s), s)
    decreases |s|
  {
    if |s| > 0 {
      var r := RemoveWhitespace(s[1..]);
      RemoveWhitespaceOrder(s[1..]);
      if IsSpace(s[0]) {
        assert RemoveWhitespace(s) == r;
        if |r| > 0 {
          RemoveWhitespacePreserves(s[1..]);
          assert r[0] in r;
        }
      } else {
        assert RemoveWhitespace(s) == [s[0]] + r;
      }
    }
  }

  /**
   * Pass 11 leaves out exactly the whitespace of s and keeps every other character as
   * often as s has it.
   */
  lemma {:induction false} RemoveWhitespaceCounts(s: string)
    ensures forall c :: multiset(RemoveWhitespace(s))[c] == if IsSpace(c) then 0 else multiset(s)[c]
    decreases |s|
  {
    if |s| > 0 {
      RemoveWhitespaceCounts(s[1..]);
      assert s == [s[0]] + s[1..];
      assert multiset(s) == multiset{s[0]} + multiset(s[1..]);
      if IsSpace(s[0]) {
        assert RemoveWhitespace(s) == RemoveWhitespace(s[1..]);
      } else {
        assert RemoveWhitespace(s) == [s[0]] + RemoveWhitespace(s[1..]);
        assert multiset(RemoveWhitespace(s)) == multiset{s[0]} + multiset(RemoveWhitespace(s[1..]));
      }
    }
  }

  /** Without whitespace there is nothing for pass 11 to remove. */
  lemma {:induction false} RemoveWhitespaceNoSpaces(s: string)
    requires NoSpaces(s)
    ensures RemoveWhitespace(s) == s
    decreases |s|
  {
    if |s| > 0 {
      RemoveWhitespaceNoSpaces(s[1..]);
      assert s == [s[0]] + s[1..];
    }
  }

  // ------------------------------------------------- facts about CapitalizedRuns

  lemma {:induction false} CapitalizedRunsSplit(a: string, b: string, afterWord: bool)
    ensures CapitalizedRuns(a + b, afterWord) <==>
              CapitalizedRuns(a, afterWord) && CapitalizedRuns(b, EndsInWord(a, afterWord))
    decreases |a|
  {
    if |a| > 0 {
      assert (a + b)[1..] == a[1..] + b;
      CapitalizedRunsSplit(a[1..], b, IsWord(a[0]));
      assert EndsInWord(a[1..], IsWord(a[0])) == EndsInWord(a, afterWord);
    } else {
      assert a + b == b;
    }
  }

  lemma {:induction false} CapitalizedRunsWeaken(s: string)
    ensures CapitalizedRuns(s, false) ==> CapitalizedRuns(s, true)
  {
  }

  lemma {:induction false} NoLowercaseCapitalized(s: string, afterWord: bool)
    requires forall i :: 0 <= i < |s| ==> !IsLower(s[i])
    ensures CapitalizedRuns(s, afterWord)
    decreases |s|
  {
    if |s| > 0 {
      NoLowercaseCapitalized(s[1..], IsWord(s[0]));
    }
  }

  // ------------------------------------------------- the whole rewrite

  /** Passes 1 to 4: brackets, leading and trailing symbols, quotes. */
  function StripSymbols(text: string): string {
    RemoveQuotes(TrimTrailingSymbols(TrimLeadingSymbols(UnderscoreBrackets(text))))
  }

  /** Passes 5 and 6: trailing `-` and `+` spelled out. */
  function SpellOutSigns(s: string): string {
    SpellOutTrailing(SpellOutTrailing(s, '-', "Minus"), '+', "Plus")
  }

  /** Passes 7 to 11: symbols to spaces, words capitalized, spaces around numbers
      joined with `_`, remaining spaces removed. */
  function JoinWords(s: string): (r: string)
    ensures forall i :: 0 <= i < |r| ==> IsWord(r[i])
    ensures |r| > 0 ==> !IsLower(r[0])
  {
    var s7 := BlankSymbols(s);
    var s8 := CapitalizeWords(s7, false);
    var s9 := JoinDigitsLeft(s8, false);
    var s10 := JoinDigitsRight(s9);
    JoinDigitsLeftWords(s8, false);
    JoinDigitsLeftRuns(s8, false);
    JoinDigitsRightWords(s9);
    JoinDigitsRightRuns(s9, false);
    RemoveWhitespacePreserves(s10);
    RemoveWhitespace(s10)
  }

  /** Passes 1 to 11 in their order. */
  function RewriteLabel(text: string): (r: string)
    ensures forall i :: 0 <= i < |r| ==> IsWord(r[i])
    ensures |r| > 0 ==> !IsLower(r[0])
  {
    JoinWords(SpellOutSigns(StripSymbols(text)))
  }

  /** The last step of NormalizeLabel: `_` in front of a leading digit, the
      validated fallback in place of an empty rewrite. */
  function PrefixDigitOrFallback(rewritten: string, fallback: Option<string>): (r: Result<string, ArgumentError>)
    requires forall i :: 0 <= i < |rewritten| ==> IsWord(rewritten[i])
    requires |rewritten| > 0 ==> !IsLower(rewritten[0])
    ensures rewritten == [] ==> r == ValidateAndUseFallback(fallback)
    ensures rewritten != [] ==> r.Success? && r.value == (if IsDigit(rewritten[0]) then "_" + rewritten else rewritten)
    ensures rewritten != [] ==>
              IsIdentifierShaped(r.value) &&
              (IsValidIdentifier(r.value) <==> |r.value| <= MaxIdentifierLength && !IsUnderscoreKeyword(r.value))
    ensures r.Success? ==> IsNormalizedName(r.value) && !IsDigit(r.value[0])
  {
    if |rewritten| == 0 then ValidateAndUseFallback(fallback)
    else
      var r := if IsDigit(rewritten[0]) then "_" + rewritten else rewritten;
      assert IsWord(rewritten[0]) && !IsLower(r[0]);
      assert forall i :: 0 <= i < |r| ==> IsWord(r[i]) by {
        if IsDigit(rewritten[0]) {
          assert forall i :: 1 <= i < |r| ==> r[i] == rewritten[i - 1];
        }
      }
      KeywordStart(r);
      Success(r)
  }

  /**
   * NormalizeLabel: the rewritten label, with `_` in front when it starts with a
   * digit; the validated fallback when the label is null or empty or rewrites to
   * nothing.
   */
  function NormalizeLabel(text: Option<string>, fallback: Option<string>): (r: Result<string, ArgumentError>)
    ensures NullOrEmpty(text) ==> r == ValidateAndUseFallback(fallback)
    ensures !NullOrEmpty(text) ==> r == PrefixDigitOrFallback(RewriteLabel(text.value), fallback)
    ensures r.Failure? ==> r == ValidateAndUseFallback(fallback)
    ensures r.Success? ==> IsNormalizedName(r.value) && !IsDigit(r.value[0])
  {
    if NullOrEmpty(text) then ValidateAndUseFallback(fallback)
    else PrefixDigitOrFallback(RewriteLabel(text.value), fallback)
  }

  // ------------------------------------------------- what the rewrite does to simple labels

  /** The rewrite of a label, assembled from what each group of passes makes of it. */
  lemma RewriteLabelOf(text: string, stripped: string, spelled: string, joined: string)
    requires StripSymbols(text) == stripped && SpellOutSigns(stripped) == spelled
    requires JoinWords(spelled) == joined
    ensures RewriteLabel(text) == joined
  {
  }

  /** A word of letters whose first letter is not lowercase: `Semi`, `A`, `ReConnect`. */
  predicate IsCapitalizedWord(w: string) {
    |w| > 0 && !IsLower(w[0]) && forall i :: 0 <= i < |w| ==> IsLetter(w[i])
  }

  /** A run of word characters is capitalized when nothing before it is lowercase at its start. */
  lemma {:induction false} WordsCapitalized(s: string)
    requires forall i :: 0 <= i < |s| ==> IsWord(s[i])
    ensures CapitalizedRuns(s, true)
    decreases |s|
  {
    if |s| > 0 {
      WordsCapitalized(s[1..]);
    }
  }

  /** Passes 1 to 4 leave alone a label that starts with `\w`, ends with `\w`, `-` or `+`,
      and has no `[` and no quote. */
  lemma StripSymbolsKeeps(s: string)
    requires |s| > 0 && IsWord(s[0]) && KeptAtEnd(s[|s| - 1])
    requires forall i :: 0 <= i < |s| ==> s[i] != '[' && !IsQuote(s[i])
    ensures StripSymbols(s) == s
  {
  }

  /** Passes 7 to 11 leave alone a label of letters that starts with a capital. */
  lemma JoinWordsKeeps(s: string)
    requires IsCapitalizedWord(s)
    ensures JoinWords(s) == s
  {
    WordsCapitalized(s[1..]);
    assert CapitalizedRuns(s, false);
    JoinDigitsLeftNoDigits(s, false);
    JoinDigitsRightNoDigits(s);
    RemoveWhitespaceNoSpaces(s);
  }

  /** A label of letters starting with a capital is its own identifier: `LogicalName`, `Id`. */
  lemma CapitalizedWordNormalized(w: string, fallback: Option<string>)
    requires IsCapitalizedWord(w)
    ensures NormalizeLabel(Some(w), fallback) == Success(w)
  {
    CapitalizedWordRewritten(w);
    assert !IsDigit(w[0]) && forall i :: 0 <= i < |w| ==> IsWord(w[i]);
    assert NormalizeLabel(Some(w), fallback) == PrefixDigitOrFallback(w, fallback);
  }

  lemma CapitalizedWordRewritten(w: string)
    requires IsCapitalizedWord(w)
    ensures RewriteLabel(w) == w
  {
    CapitalizedWordStripped(w);
    CapitalizedWordSpelled(w);
    JoinWordsKeeps(w);
    RewriteLabelOf(w, w, w, w);
  }

  lemma CapitalizedWordStripped(w: string)
    requires IsCapitalizedWord(w)
    ensures StripSymbols(w) == w
  {
    StripSymbolsKeeps(w);
  }

  lemma CapitalizedWordSpelled(w: string)
    requires IsCapitalizedWord(w)
    ensures SpellOutSigns(w) == w
  {
    SpellOutKeepsWord(w, '-', "Minus");
    SpellOutKeepsWord(w, '+', "Plus");
  }

  /** Pass 11 works character by character. */
  lemma {:induction false} RemoveWhitespaceAppend(x: string, y: string)
    ensures RemoveWhitespace(x + y) == RemoveWhitespace(x) + RemoveWhitespace(y)
    decreases |x|
  {
    if |x| > 0 {
      var h := if IsSpace(x[0]) then [] else [x[0]];
      assert (x + y)[0] == x[0] && (x + y)[1..] == x[1..] + y;
      assert RemoveWhitespace(x + y) == h + RemoveWhitespace(x[1..] + y);
      assert RemoveWhitespace(x) == h + RemoveWhitespace(x[1..]);
      RemoveWhitespaceAppend(x[1..], y);
      assert h + (RemoveWhitespace(x[1..]) + RemoveWhitespace(y)) ==
             h + RemoveWhitespace(x[1..]) + RemoveWhitespace(y);
    } else {
      assert x + y == y;
    }
  }

  /** The word a trailing sign is spelled out as. */
  function SignWord(sign: char): string {
    if sign == '-' then "Minus" else "Plus"
  }

  /**
   * Trailing signs are spelled out one by one, the word before them kept:
   * `A-` -> `AMinus`, `Aa--` -> `AaMinusMinus`, `B+++` -> `BPlusPlusPlus`.
   */
  lemma TrailingSigns(w: string, sign: char, n: nat)
    requires IsCapitalizedWord(w) && n > 0 && (sign == '-' || sign == '+')
    ensures RewriteLabel(w + Repeat(sign, n)) == w + RepeatWord(SignWord(sign), n)
  {
    var t := w + Repeat(sign, n);
    var r := w + RepeatWord(SignWord(sign), n);
    TrailingSignsStripped(w, sign, n);
    TrailingSignsSpelled(w, sign, n);
    TrailingSignsJoined(w, sign, n);
    RewriteLabelOf(t, t, r, r);
    assert RewriteLabel(t) == r;
  }

  lemma TrailingSignsStripped(w: string, sign: char, n: nat)
    requires IsCapitalizedWord(w) && n > 0 && (sign == '-' || sign == '+')
    ensures StripSymbols(w + Repeat(sign, n)) == w + Repeat(sign, n)
  {
    StripSymbolsKeeps(w + Repeat(sign, n));
  }

  lemma TrailingSignsSpelled(w: string, sign: char, n: nat)
    requires IsCapitalizedWord(w) && n > 0 && (sign == '-' || sign == '+')
    ensures SpellOutSigns(w + Repeat(sign, n)) == w + RepeatWord(SignWord(sign), n)
  {
    var s := w + Repeat(sign, n);
    if sign == '-' {
      SpellOutTrailingWord(w, '-', "Minus", n);
      SpellOutKeepsWord(w + RepeatWord("Minus", n), '+', "Plus");
    } else {
      assert forall i :: 0 <= i < |s| ==> s[i] != '-';
      SpellOutTrailingWord(w, '+', "Plus", n);
    }
  }

  lemma TrailingSignsJoined(w: string, sign: char, n: nat)
    requires IsCapitalizedWord(w) && n > 0 && (sign == '-' || sign == '+')
    ensures JoinWords(w + RepeatWord(SignWord(sign), n)) == w + RepeatWord(SignWord(sign), n)
  {
    SpellOutTrailingWord(w, sign, SignWord(sign), n);
    JoinWordsKeeps(w + RepeatWord(SignWord(sign), n));
  }

  /** A word followed by signs: the signs are spelled out, the word kept. */
  lemma SpellOutTrailingWord(w: string, sign: char, word: string, n: nat)
    requires IsCapitalizedWord(w) && IsCapitalizedWord(word) && !IsWord(sign) && sign != '\n'
    ensures SpellOutTrailing(w + Repeat(sign, n), sign, word) == w + RepeatWord(word, n)
    ensures IsCapitalizedWord(w + RepeatWord(word, n))
  {
    SpellOutTrailingAppend(w, Repeat(sign, n), sign, word);
    SpellOutSignRun(sign, word, n);
  }

  /** A word of letters has no sign to spell out. */
  lemma SpellOutKeepsWord(t: string, sign: char, word: string)
    requires IsCapitalizedWord(t) && IsCapitalizedWord(word) && !IsWord(sign) && sign != '\n'
    ensures SpellOutTrailing(t, sign, word) == t
  {
  }

  /** A minus sign between two words only separates them: `Semi-Annual` -> `SemiAnnual`. */
  lemma InteriorMinus(a: string, b: string)
    requires IsCapitalizedWord(a) && IsCapitalizedWord(b)
    ensures RewriteLabel(a + "-" + b) == a + b
  {
    StripSymbolsKeeps(a + "-" + b);
    InteriorMinusKept(a, b);
    InteriorMinusJoined(a, b);
    RewriteLabelOf(a + "-" + b, a + "-" + b, a + "-" + b, a + b);
  }

  lemma InteriorMinusKept(a: string, b: string)
    requires IsCapitalizedWord(a) && IsCapitalizedWord(b)
    ensures SpellOutSigns(a + "-" + b) == a + "-" + b
  {
    var s := a + "-" + b;
    InteriorMinusBeforeWord(a, b);
    InteriorMinusNoPlus(a, b);
    assert SpellOutSigns(s) == s;
  }

  lemma InteriorMinusBeforeWord(a: string, b: string)
    requires IsCapitalizedWord(a) && IsCapitalizedWord(b)
    ensures SpellOutTrailing(a + "-" + b, '-', "Minus") == a + "-" + b
  {
    assert WordAhead(b);
    SpellOutBeforeWord(a + "-", b, '-', "Minus");
    SpellOutKeepsWord(b, '-', "Minus");
  }

  lemma InteriorMinusNoPlus(a: string, b: string)
    requires IsCapitalizedWord(a) && IsCapitalizedWord(b)
    ensures SpellOutTrailing(a + "-" + b, '+', "Plus") == a + "-" + b
  {
    var s := a + "-" + b;
    forall i | 0 <= i < |s|
      ensures s[i] != '+'
    {
      if i < |a| {
        assert s[i] == a[i];
      } else if i > |a| {
        assert s[i] == b[i - |a| - 1];
      }
    }
  }

  lemma InteriorMinusJoined(a: string, b: string)
    requires IsCapitalizedWord(a) && IsCapitalizedWord(b)
    ensures JoinWords(a + "-" + b) == a + b
  {
    InteriorMinusBlanked(a, b);
    InteriorMinusCapitalized(a, b);
    JoinDigitsLeftNoDigits(a + " " + b, false);
    JoinDigitsRightNoDigits(a + " " + b);
    InteriorMinusSpaceRemoved(a, b);
  }

  lemma InteriorMinusBlanked(a: string, b: string)
    requires IsCapitalizedWord(a) && IsCapitalizedWord(b)
    ensures BlankSymbols(a + "-" + b) == a + " " + b
    ensures NoDigits(a + " " + b)
  {
  }

  lemma InteriorMinusCapitalized(a: string, b: string)
    requires IsCapitalizedWord(a) && IsCapitalizedWord(b)
    ensures CapitalizeWords(a + " " + b, false) == a + " " + b
  {
    WordsCapitalized(a[1..]);
    WordsCapitalized(b[1..]);
    assert CapitalizedRuns(b, false);
    CapitalizedRunsSplit(a, " " + b, false);
    assert a + (" " + b) == a + " " + b;
  }

  lemma InteriorMinusSpaceRemoved(a: string, b: string)
    requires IsCapitalizedWord(a) && IsCapitalizedWord(b)
    ensures RemoveWhitespace(a + " " + b) == a + b
  {
    RemoveWhitespaceBetween(a, " ", b);
    RemoveWhitespaceNoSpaces(b);
  }

  // ------------------------------------------------- each pass, piece by piece

  /** The `]` at j closes the bracket when no line feed and no earlier `]` (from index 2) lies between. */
  lemma {:induction false} ClosingBracketAt(s: string, k: nat, j: nat)
    requires k <= j < |s| && 2 <= j && s[j] == ']'
    requires forall i :: k <= i < j ==> s[i] != '\n' && (i < 2 || s[i] != ']')
    ensures ClosingBracket(s, k) == Some(j)
    decreases j - k
  {
    if k < j {
      ClosingBracketAt(s, k + 1, j);
    }
  }

  /** Pass 1 on a bracketed segment at the front: `[c]rest` -> `_c_` and pass 1 of rest. */
  lemma BracketedSegment(c: string, rest: string)
    requires |c| > 0 && forall i :: 0 <= i < |c| ==> c[i] != ']' && c[i] != '\n'
    ensures UnderscoreBrackets("[" + c + "]" + rest) == "_" + c + "_" + UnderscoreBrackets(rest)
  {
    var s := "[" + c + "]" + rest;
    var j := |c| + 1;
    ClosingBracketAt(s, 1, j);
    assert s[1..j] == c;
    assert s[j + 1..] == rest;
  }

  /** Pass 1 leaves text without `[` alone and goes on after it. */
  lemma {:induction false} UnderscoreBracketsAfter(x: string, rest: string)
    requires forall i :: 0 <= i < |x| ==> x[i] != '['
    ensures UnderscoreBrackets(x + rest) == x + UnderscoreBrackets(rest)
    decreases |x|
  {
    if |x| > 0 {
      var s := x + rest;
      assert s[0] == x[0] && s[0] != '[';
      assert s[1..] == x[1..] + rest;
      assert UnderscoreBrackets(s) == [s[0]] + UnderscoreBrackets(s[1..]);
      UnderscoreBracketsAfter(x[1..], rest);
      ConsOnto(x, x[1..] + UnderscoreBrackets(rest), UnderscoreBrackets(rest));
    } else {
      assert x + rest == rest;
    }
  }

  /** A bracketed segment after other text is replaced too: `Foo [Old] Bar` -> `Foo _Old_ Bar`. */
  lemma BracketedSegmentAfter(x: string, c: string, rest: string)
    requires forall i :: 0 <= i < |x| ==> x[i] != '['
    requires |c| > 0 && forall i :: 0 <= i < |c| ==> c[i] != ']' && c[i] != '\n'
    ensures UnderscoreBrackets(x + "[" + c + "]" + rest) == x + "_" + c + "_" + UnderscoreBrackets(rest)
  {
    var u := UnderscoreBrackets(rest);
    UnderscoreBracketsAfter(x, "[" + c + "]" + rest);
    BracketedSegment(c, rest);
    SegmentAfterParts(x, c, rest, u);
  }

  lemma SegmentAfterParts(x: string, c: string, rest: string, u: string)
    ensures x + ("[" + c + "]" + rest) == x + "[" + c + "]" + rest
    ensures x + ("_" + c + "_" + u) == x + "_" + c + "_" + u
  {
  }

  /** A `[` that no `]` closes on its line is kept, and the search goes on after it. */
  lemma UnclosedBracketKept(s: string)
    requires |s| > 0 && s[0] == '[' && ClosingBracket(s, 1).None?
    ensures UnderscoreBrackets(s) == ['['] + UnderscoreBrackets(s[1..])
  {
  }

  /** Pass 4 works character by character. */
  lemma {:induction false} RemoveQuotesAppend(x: string, y: string)
    ensures RemoveQuotes(x + y) == RemoveQuotes(x) + RemoveQuotes(y)
    decreases |x|
  {
    if |x| > 0 {
      assert (x + y)[1..] == x[1..] + y;
      RemoveQuotesAppend(x[1..], y);
    } else {
      assert x + y == y;
    }
  }

  /** Pass 8 on a + b: b is capitalized knowing whether a ends in a word character. */
  lemma {:induction false} CapitalizeWordsAppend(a: string, b: string, afterWord: bool)
    ensures CapitalizeWords(a + b, afterWord) == CapitalizeWords(a, afterWord) + CapitalizeWords(b, EndsInWord(a, afterWord))
    decreases |a|
  {
    if |a| > 0 {
      assert (a + b)[1..] == a[1..] + b;
      assert (a + b)[0] == a[0];
      CapitalizeWordsAppend(a[1..], b, IsWord(a[0]));
      assert EndsInWord(a[1..], IsWord(a[0])) == EndsInWord(a, afterWord);
    } else {
      assert a + b == b;
    }
  }

  predicate AllSpaces(s: string) {
    forall i :: 0 <= i < |s| ==> IsSpace(s[i])
  }

  predicate AllDigits(s: string) {
    forall i :: 0 <= i < |s| ==> IsDigit(s[i])
  }

  lemma LeadingSpacesOf(sp: string, t: string)
    requires AllSpaces(sp) && (t == [] || !IsSpace(t[0]))
    ensures LeadingSpaces(sp + t) == |sp|
  {
    SpacesFromOf(sp, t, 0);
  }

  lemma {:induction false} SpacesFromOf(sp: string, t: string, i: nat)
    requires AllSpaces(sp) && (t == [] || !IsSpace(t[0])) && i <= |sp|
    ensures SpacesFrom(sp + t, i) == |sp|
    decreases |sp| - i
  {
    if i < |sp| {
      assert (sp + t)[i] == sp[i];
      SpacesFromOf(sp, t, i + 1);
    } else if t != [] {
      assert (sp + t)[i] == t[0];
    }
  }

  lemma LeadingDigitsOf(d: string, t: string)
    requires AllDigits(d) && (t == [] || !IsDigit(t[0]))
    ensures LeadingDigits(d + t) == |d|
  {
    DigitsFromOf(d, t, 0);
  }

  lemma {:induction false} DigitsFromOf(d: string, t: string, i: nat)
    requires AllDigits(d) && (t == [] || !IsDigit(t[0])) && i <= |d|
    ensures DigitsFrom(d + t, i) == |d|
    decreases |d| - i
  {
    if i < |d| {
      assert (d + t)[i] == d[i];
      DigitsFromOf(d, t, i + 1);
    } else if t != [] {
      assert (d + t)[i] == t[0];
    }
  }

  /** One step of pass 9 where no whitespace starts: the character is copied. */
  lemma JoinDigitsLeftCopy(s: string, afterWord: bool)
    requires |s| > 0 && !IsSpace(s[0])
    ensures JoinDigitsLeft(s, afterWord) == [s[0]] + JoinDigitsLeft(s[1..], IsWord(s[0]))
  {
  }

  /** One step of pass 9 where the whitespace at the front is not followed by digits. */
  lemma JoinDigitsLeftNoMatch(s: string, afterWord: bool)
    requires |s| > 0
    requires LeadingSpaces(s) < |s| ==> !IsDigit(s[LeadingSpaces(s)])
    ensures JoinDigitsLeft(s, afterWord) == [s[0]] + JoinDigitsLeft(s[1..], IsWord(s[0]))
  {
  }

  /** Pass 9 copies text without whitespace. */
  lemma {:induction false} JoinDigitsLeftKeeps(w: string, rest: string, afterWord: bool)
    requires NoSpaces(w)
    ensures JoinDigitsLeft(w + rest, afterWord) == w + JoinDigitsLeft(rest, EndsInWord(w, afterWord))
    decreases |w|
  {
    if |w| > 0 {
      var s := w + rest;
      assert s[0] == w[0] && s[1..] == w[1..] + rest;
      JoinDigitsLeftCopy(s, afterWord);
      JoinDigitsLeftKeeps(w[1..], rest, IsWord(w[0]));
      assert EndsInWord(w[1..], IsWord(w[0])) == EndsInWord(w, afterWord);
      ConsOnto(w, JoinDigitsLeft(w[1..] + rest, IsWord(w[0])), JoinDigitsLeft(rest, EndsInWord(w, afterWord)));
    } else {
      assert w + rest == rest;
    }
  }

  /** Pass 9 on whitespace after a word and before digits: `Foo 5` -> `Foo_5`. */
  lemma JoinDigitsLeftMatch(sp: string, d: string, rest: string)
    requires |sp| > 0 && AllSpaces(sp) && |d| > 0 && AllDigits(d) && (rest == [] || !IsDigit(rest[0]))
    ensures JoinDigitsLeft(sp + d + rest, true) == "_" + d + JoinDigitsLeft(rest, true)
  {
    SpacesThenDigits(sp, d, rest);
    JoinDigitsLeftMatched(sp + d + rest);
  }

  /** How LeadingSpaces and LeadingDigits split whitespace, then digits, then the rest. */
  lemma SpacesThenDigits(sp: string, d: string, rest: string)
    requires |sp| > 0 && AllSpaces(sp) && |d| > 0 && AllDigits(d) && (rest == [] || !IsDigit(rest[0]))
    ensures var s := sp + d + rest;
            LeadingSpaces(s) == |sp| && IsDigit(s[|sp|]) && LeadingDigits(s[|sp|..]) == |d| &&
            s[|sp|..|sp| + |d|] == d && s[|sp| + |d|..] == rest
  {
    var s := sp + d + rest;
    var k := |sp|;
    assert LeadingSpaces(s) == k && s[k..] == d + rest by {
      assert s == sp + (d + rest);
      LeadingSpacesOf(sp, d + rest);
    }
    assert LeadingDigits(s[k..]) == |d| by {
      LeadingDigitsOf(d, rest);
    }
    assert s[k..k + |d|] == d && s[k + |d|..] == rest && IsDigit(s[k]);
  }

  /** One step of pass 9 where whitespace after a word is followed by digits. */
  lemma JoinDigitsLeftMatched(s: string)
    requires var k := LeadingSpaces(s); 0 < k < |s| && IsDigit(s[k])
    ensures var k := LeadingSpaces(s);
            var d := LeadingDigits(s[k..]);
            JoinDigitsLeft(s, true) == ['_'] + s[k..k + d] + JoinDigitsLeft(s[k + d..], true)
  {
  }

  /** Pass 9 keeps whitespace that is not followed by digits. */
  lemma {:induction false} JoinDigitsLeftSpaces(sp: string, rest: string, afterWord: bool)
    requires |sp| > 0 && AllSpaces(sp) && (rest == [] || (!IsSpace(rest[0]) && !IsDigit(rest[0])))
    ensures JoinDigitsLeft(sp + rest, afterWord) == sp + JoinDigitsLeft(rest, false)
    decreases |sp|
  {
    var s := sp + rest;
    LeadingSpacesOf(sp, rest);
    assert |sp| < |s| ==> s[|sp|] == rest[0];
    JoinDigitsLeftNoMatch(s, afterWord);
    assert s[1..] == sp[1..] + rest;
    if |sp| > 1 {
      JoinDigitsLeftSpaces(sp[1..], rest, false);
      ConsOnto(sp, JoinDigitsLeft(sp[1..] + rest, false), JoinDigitsLeft(rest, false));
    } else {
      assert sp[1..] + rest == rest;
    }
  }

  /** Pass 10 copies text without digits. */
  lemma {:induction false} JoinDigitsRightKeeps(w: string, rest: string)
    requires NoDigits(w)
    ensures JoinDigitsRight(w + rest) == w + JoinDigitsRight(rest)
    decreases |w|
  {
    if |w| > 0 {
      var s := w + rest;
      assert s[1..] == w[1..] + rest;
      assert LeadingDigits(s) == 0;
      JoinDigitsRightCopy(s);
      JoinDigitsRightKeeps(w[1..], rest);
      ConsOnto(w, JoinDigitsRight(w[1..] + rest), JoinDigitsRight(rest));
    } else {
      assert w + rest == rest;
    }
  }

  /** Pass 10 on whitespace after digits and before a word: `20 Bar` -> `20_Bar`. */
  lemma JoinDigitsRightMatch(d: string, sp: string, rest: string)
    requires |d| > 0 && AllDigits(d) && |sp| > 0 && AllSpaces(sp) && |rest| > 0 && IsWord(rest[0])
    ensures JoinDigitsRight(d + sp + rest) == d + "_" + JoinDigitsRight(rest)
  {
    DigitsThenSpaces(d, sp, rest);
    JoinDigitsRightMatched(d + sp + rest, |d|, |sp|);
  }

  /** How LeadingDigits and LeadingSpaces split digits, then whitespace, then the rest. */
  lemma DigitsThenSpaces(d: string, sp: string, rest: string)
    requires |d| > 0 && AllDigits(d) && |sp| > 0 && AllSpaces(sp) && |rest| > 0 && IsWord(rest[0])
    ensures var s := d + sp + rest;
            LeadingDigits(s) == |d| && LeadingSpaces(s[|d|..]) == |sp| && IsWord(s[|d| + |sp|]) &&
            s[..|d|] == d && s[|d| + |sp|..] == rest
  {
    var s := d + sp + rest;
    assert s == d + (sp + rest);
    LeadingDigitsOf(d, sp + rest);
    assert s[|d|..] == sp + rest;
    LeadingSpacesOf(sp, rest);
    assert s[..|d|] == d;
    assert s[|d| + |sp|..] == rest;
  }

  /** One step of pass 10 where digits are followed by whitespace and a word character. */
  lemma JoinDigitsRightMatched(s: string, d: nat, k: nat)
    requires d == LeadingDigits(s) && k == LeadingSpaces(s[d..])
    requires d > 0 && k > 0 && d + k < |s| && IsWord(s[d + k])
    ensures JoinDigitsRight(s) == s[..d] + ['_'] + JoinDigitsRight(s[d + k..])
  {
    var r := s[..d] + ['_'] + JoinDigitsRight(s[d + k..]);
    assert JoinDigitsRight(s) == if d > 0 && k > 0 && d + k < |s| && IsWord(s[d + k]) then r else [];
  }

  /** Pass 10 keeps digits that are not followed by whitespace. */
  lemma {:induction false} JoinDigitsRightDigits(d: string, rest: string)
    requires |d| > 0 && AllDigits(d) && (rest == [] || (!IsSpace(rest[0]) && !IsDigit(rest[0])))
    ensures JoinDigitsRight(d + rest) == d + JoinDigitsRight(rest)
    decreases |d|
  {
    if |d| > 1 {
      JoinDigitsRightDigits(d[1..], rest);
    }
    JoinDigitsRightDigitsCons(d, rest);
  }

  /** The step of JoinDigitsRightDigits: one more digit in front. */
  lemma JoinDigitsRightDigitsCons(d: string, rest: string)
    requires |d| > 0 && AllDigits(d) && (rest == [] || (!IsSpace(rest[0]) && !IsDigit(rest[0])))
    requires JoinDigitsRight(d[1..] + rest) == d[1..] + JoinDigitsRight(rest)
    ensures JoinDigitsRight(d + rest) == d + JoinDigitsRight(rest)
  {
    JoinDigitsRightDigitStep(d, rest);
    ConsOnto(d, JoinDigitsRight(d[1..] + rest), JoinDigitsRight(rest));
  }

  /** [d[0]] + (d[1..] + c) is d + c. */
  lemma ConsOnto(d: string, b: string, c: string)
    requires |d| > 0 && b == d[1..] + c
    ensures [d[0]] + b == d + c
  {
  }

  lemma JoinDigitsRightDigitStep(d: string, rest: string)
    requires |d| > 0 && AllDigits(d) && (rest == [] || (!IsSpace(rest[0]) && !IsDigit(rest[0])))
    ensures JoinDigitsRight(d + rest) == [d[0]] + JoinDigitsRight(d[1..] + rest)
  {
    var s := d + rest;
    LeadingDigitsOf(d, rest);
    assert s[|d|..] == rest;
    assert LeadingSpaces(rest) == 0;
    JoinDigitsRightCopy(s);
    assert s[1..] == d[1..] + rest;
  }

  /** One step of pass 10 where digits are not followed by whitespace: the character is copied. */
  lemma JoinDigitsRightCopy(s: string)
    requires |s| > 0 && (LeadingDigits(s) == 0 || LeadingSpaces(s[LeadingDigits(s)..]) == 0)
    ensures JoinDigitsRight(s) == [s[0]] + JoinDigitsRight(s[1..])
  {
  }

  /** Pass 11 drops a run of whitespace between two pieces. */
  lemma RemoveWhitespaceBetween(a: string, sp: string, b: string)
    requires NoSpaces(a) && AllSpaces(sp)
    ensures RemoveWhitespace(a + sp + b) == a + RemoveWhitespace(b)
  {
    assert RemoveWhitespace(a + sp) == a by {
      RemoveWhitespaceAppend(a, sp);
      RemoveWhitespaceNoSpaces(a);
      RemoveWhitespaceOfSpaces(sp);
      assert a + [] == a;
    }
    RemoveWhitespaceAppend(a + sp, b);
  }

  lemma {:induction false} RemoveWhitespaceOfSpaces(sp: string)
    requires AllSpaces(sp)
    ensures RemoveWhitespace(sp) == []
    decreases |sp|
  {
    if |sp| > 0 {
      RemoveWhitespaceOfSpaces(sp[1..]);
    }
  }

  // ------------------------------------------------- passes 9 and 10 only touch whitespace

  /** Whitespace and `_`: what passes 9 and 10 remove and insert. */
  predicate IsFiller(c: char) {
    IsSpace(c) || c == '_'
  }

  /** s without its whitespace and `_`. */
  function WithoutFiller(s: string): string {
    if |s| == 0 then [] else (if IsFiller(s[0]) then [] else [s[0]]) + WithoutFiller(s[1..])
  }

  lemma {:induction false} WithoutFillerAppend(x: string, y: string)
    ensures WithoutFiller(x + y) == WithoutFiller(x) + WithoutFiller(y)
    decreases |x|
  {
    if |x| > 0 {
      assert (x + y)[1..] == x[1..] + y;
      WithoutFillerAppend(x[1..], y);
    } else {
      assert x + y == y;
    }
  }

  lemma {:induction false} WithoutFillerOfFiller(s: string)
    requires forall i :: 0 <= i < |s| ==> IsFiller(s[i])
    ensures WithoutFiller(s) == []
    decreases |s|
  {
    if |s| > 0 {
      WithoutFillerOfFiller(s[1..]);
    }
  }

  /**
   * Pass 9 only replaces whitespace before a number by `_`: every other character is
   * kept, in order.
   */
  lemma {:induction false} JoinDigitsLeftKeepsText(s: string, afterWord: bool)
    ensures WithoutFiller(JoinDigitsLeft(s, afterWord)) == WithoutFiller(s)
    decreases |s|
  {
    if |s| > 0 {
      var k := LeadingSpaces(s);
      if afterWord && k > 0 && k < |s| && IsDigit(s[k]) {
        var d := LeadingDigits(s[k..]);
        JoinDigitsLeftKeepsText(s[k + d..], true);
        JoinDigitsLeftMatchedText(s, k, d, JoinDigitsLeft(s[k + d..], true));
      } else {
        JoinDigitsLeftKeepsText(s[1..], IsWord(s[0]));
        JoinDigitsLeftCopiedText(s, afterWord, k, JoinDigitsLeft(s[1..], IsWord(s[0])));
      }
    }
  }

  lemma JoinDigitsLeftMatchedText(s: string, k: nat, d: nat, rest: string)
    requires k == LeadingSpaces(s) && 0 < k < |s| && IsDigit(s[k]) && d == LeadingDigits(s[k..])
    requires rest == JoinDigitsLeft(s[k + d..], true) && WithoutFiller(rest) == WithoutFiller(s[k + d..])
    ensures WithoutFiller(JoinDigitsLeft(s, true)) == WithoutFiller(s)
  {
    JoinDigitsLeftMatched(s);
    LeadingSpacesSpan(s);
    FillerSpan(s, 0, k, s[..k]);
    ThreeParts(s, k, k + d);
    FillerBefore(s[..k], s[k..k + d], s[k + d..], rest);
  }

  lemma JoinDigitsLeftCopiedText(s: string, afterWord: bool, k: nat, rest: string)
    requires |s| > 0 && k == LeadingSpaces(s) && !(afterWord && k > 0 && k < |s| && IsDigit(s[k]))
    requires rest == JoinDigitsLeft(s[1..], IsWord(s[0])) && WithoutFiller(rest) == WithoutFiller(s[1..])
    ensures WithoutFiller(JoinDigitsLeft(s, afterWord)) == WithoutFiller(s)
  {
    assert JoinDigitsLeft(s, afterWord) == [s[0]] + rest;
    FillerCopied(s, rest);
  }

  /**
   * Pass 10 only replaces whitespace after a number by `_`: every other character is
   * kept, in order.
   */
  lemma {:induction false} JoinDigitsRightKeepsText(s: string)
    ensures WithoutFiller(JoinDigitsRight(s)) == WithoutFiller(s)
    decreases |s|
  {
    if |s| > 0 {
      var d := LeadingDigits(s);
      var k := LeadingSpaces(s[d..]);
      if d > 0 && k > 0 && d + k < |s| && IsWord(s[d + k]) {
        var t := s[d + k..];
        JoinDigitsRightKeepsText(t);
        JoinDigitsRightMatchedText(s, d, k, JoinDigitsRight(t));
      } else {
        var t := s[1..];
        JoinDigitsRightKeepsText(t);
        JoinDigitsRightCopiedText(s, d, k, JoinDigitsRight(t));
      }
    }
  }

  lemma JoinDigitsRightMatchedText(s: string, d: nat, k: nat, rest: string)
    requires d == LeadingDigits(s) && k == LeadingSpaces(s[d..])
    requires d > 0 && k > 0 && d + k < |s| && IsWord(s[d + k]) && rest == JoinDigitsRight(s[d + k..])
    requires WithoutFiller(rest) == WithoutFiller(s[d + k..])
    ensures WithoutFiller(JoinDigitsRight(s)) == WithoutFiller(s)
  {
    JoinDigitsRightMatched(s, d, k);
    JoinDigitsRightSpaceSpan(s);
    FillerSpan(s, d, k, s[d..d + k]);
    ThreeParts(s, d, d + k);
    FillerAfter(s[..d], s[d..d + k], s[d + k..], rest);
  }

  lemma JoinDigitsRightCopiedText(s: string, d: nat, k: nat, rest: string)
    requires |s| > 0 && rest == JoinDigitsRight(s[1..])
    requires d == LeadingDigits(s) && k == LeadingSpaces(s[d..])
    requires !(d > 0 && k > 0 && d + k < |s| && IsWord(s[d + k]))
    requires WithoutFiller(rest) == WithoutFiller(s[1..])
    ensures WithoutFiller(JoinDigitsRight(s)) == WithoutFiller(s)
  {
    assert JoinDigitsRight(s) == [s[0]] + rest;
    FillerCopied(s, rest);
  }

  /** A run of whitespace inside s, taken out of it, is filler. */
  lemma FillerSpan(s: string, lo: nat, n: nat, a: string)
    requires lo + n <= |s| && a == s[lo..lo + n]
    requires forall i :: lo <= i < lo + n ==> IsSpace(s[i])
    ensures forall i :: 0 <= i < |a| ==> IsFiller(a[i])
  {
    assert forall i :: 0 <= i < |a| ==> a[i] == s[lo + i];
  }

  lemma ThreeParts(s: string, i: nat, j: nat)
    requires i <= j <= |s|
    ensures s == s[..i] + s[i..j] + s[j..]
  {
  }

  /** A run of filler before m replaced by one `_`. */
  lemma FillerBefore(a: string, m: string, c: string, c2: string)
    requires forall i :: 0 <= i < |a| ==> IsFiller(a[i])
    requires WithoutFiller(c2) == WithoutFiller(c)
    ensures WithoutFiller(['_'] + m + c2) == WithoutFiller(a + m + c)
  {
    WithoutFillerOfFiller(a);
    WithoutFillerOfFiller(['_']);
    WithoutFillerAppend(a + m, c);
    WithoutFillerAppend(a, m);
    WithoutFillerAppend(['_'] + m, c2);
    WithoutFillerAppend(['_'], m);
  }

  /** A run of filler after m replaced by one `_`. */
  lemma FillerAfter(m: string, a: string, c: string, c2: string)
    requires forall i :: 0 <= i < |a| ==> IsFiller(a[i])
    requires WithoutFiller(c2) == WithoutFiller(c)
    ensures WithoutFiller(m + ['_'] + c2) == WithoutFiller(m + a + c)
  {
    WithoutFillerOfFiller(a);
    WithoutFillerOfFiller(['_']);
    WithoutFillerAppend(m + a, c);
    WithoutFillerAppend(m, a);
    WithoutFillerAppend(m + ['_'], c2);
    WithoutFillerAppend(m, ['_']);
  }

  /** The first character copied in front of a rest that keeps the text. */
  lemma FillerCopied(s: string, rest: string)
    requires |s| > 0 && WithoutFiller(rest) == WithoutFiller(s[1..])
    ensures WithoutFiller([s[0]] + rest) == WithoutFiller(s)
  {
    WithoutFillerAppend([s[0]], rest);
    WithoutFillerAppend([s[0]], s[1..]);
    assert s == [s[0]] + s[1..];
  }
}
