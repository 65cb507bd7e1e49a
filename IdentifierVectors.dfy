/**
 * NormalizeLabel on the labels of the generator's own test table.
 *
 * Each label of the table has a shape: words separated by spaces, a bracketed
 * prefix before words, a quote inside a word, numbers between words, a symbol
 * between words. For each shape a lemma proves what the rewrite makes of EVERY
 * label of that shape; the table's labels are then instances of those lemmas.
 *
 * A label is written as the concatenation of its pieces ("Client" + " " + "or" + ...):
 * the same string, cut where the passes act on it.
 */
module IdentifierVectors {
  import opened Wrappers
  import opened Numbers
  import opened Identifiers

  // ------------------------------------------------- assembling a result

  /** A label that rewrites to a string not starting with a digit is normalized to that string. */
  lemma NormalizedAs(text: string, rewritten: string, fallback: Option<string>)
    requires text != [] && RewriteLabel(text) == rewritten && rewritten != [] && !IsDigit(rewritten[0])
    ensures NormalizeLabel(Some(text), fallback) == Success(rewritten)
  {
  }

  /** A string whose first piece does not start with a digit does not either. */
  lemma StartsWithNonDigit(p: string, rest: string)
    requires |p| > 0 && !IsDigit(p[0])
    ensures p + rest != [] && !IsDigit((p + rest)[0])
  {
  }

  /** Passes 7 to 11, assembled from what each makes of its input. */
  lemma JoinWordsOf(s: string, s7: string, s8: string, s9: string, s10: string, r: string)
    requires BlankSymbols(s) == s7 && CapitalizeWords(s7, false) == s8
    requires JoinDigitsLeft(s8, false) == s9 && JoinDigitsRight(s9) == s10
    requires RemoveWhitespace(s10) == r
    ensures JoinWords(s) == r
  {
  }

  /** A label without `-` and `+` is left alone by passes 5 and 6. */
  lemma NoSigns(s: string)
    requires forall i :: 0 <= i < |s| ==> s[i] != '-' && s[i] != '+'
    ensures SpellOutSigns(s) == s
  {
  }

  /** Characters none of passes 1 to 6 acts on inside a label. */
  predicate Inert(s: string) {
    forall i :: 0 <= i < |s| ==> s[i] != '-' && s[i] != '+' && s[i] != '[' && !IsQuote(s[i])
  }

  /** Passes 1 to 6 leave alone a label that starts and ends with `\w` and holds no inert-breaking character. */
  lemma InertLabelStripped(x: string)
    requires |x| > 0 && IsWord(x[0]) && IsWord(x[|x| - 1]) && Inert(x)
    ensures StripSymbols(x) == x && SpellOutSigns(x) == x
  {
    NoSigns(x);
    StripSymbolsKeeps(x);
  }

  // ------------------------------------------------- pieces

  /** A non-empty run of letters and `_`. */
  predicate IsPlainWord(w: string) {
    |w| > 0 && forall i :: 0 <= i < |w| ==> IsWord(w[i]) && !IsDigit(w[i])
  }

  /** A non-empty run of decimal digits. */
  predicate IsNumber(d: string) {
    |d| > 0 && AllDigits(d)
  }

  /** A word with its first character upper-cased. */
  function Capitalized(w: string): (r: string)
    requires |w| > 0
    ensures |r| == |w| && r[0] == ToUpper(w[0]) && r[1..] == w[1..]
  {
    [ToUpper(w[0])] + w[1..]
  }

  /** What a concatenation inherits from its two parts, one property at a time. */
  lemma NoDigitsJoined(x: string, y: string)
    requires NoDigits(x) && NoDigits(y)
    ensures NoDigits(x + y)
  {
    forall i | |x| <= i < |x + y|
      ensures (x + y)[i] == y[i - |x|]
    {
    }
  }

  lemma NoSpacesJoined(x: string, y: string)
    requires NoSpaces(x) && NoSpaces(y)
    ensures NoSpaces(x + y)
  {
    forall i | |x| <= i < |x + y|
      ensures (x + y)[i] == y[i - |x|]
    {
    }
  }

  lemma CapitalizedJoined(x: string, y: string)
    requires CapitalizedRuns(x, false) && CapitalizedRuns(y, false)
    ensures CapitalizedRuns(x + y, false)
  {
    CapitalizedRunsSplit(x, y, false);
    CapitalizedRunsWeaken(y);
  }

  /** Inert characters only, on both sides. */
  lemma InertJoined(x: string, y: string)
    requires Inert(x) && Inert(y)
    ensures Inert(x + y)
  {
    forall i | |x| <= i < |x + y|
      ensures (x + y)[i] == y[i - |x|]
    {
    }
  }

  lemma PlainWordPiece(w: string)
    requires IsPlainWord(w)
    ensures WordsAndSpaces(w) && NoDigits(w) && NoSpaces(w) && Inert(w)
    ensures CapitalizeWords(w, false) == Capitalized(w)
    ensures IsPlainWord(Capitalized(w)) && NoSpaces(Capitalized(w))
    ensures !IsLower(w[0]) ==> Capitalized(w) == w
  {
    PlainWordInert(w);
    PlainWordCapitalizedOnce(w);
    PlainWordCapitalizedPlain(w);
    if !IsLower(w[0]) {
      assert [w[0]] + w[1..] == w;
    }
  }

  lemma PlainWordInert(w: string)
    requires IsPlainWord(w)
    ensures WordsAndSpaces(w) && NoDigits(w) && NoSpaces(w) && Inert(w)
  {
    forall i | 0 <= i < |w|
      ensures !IsDigit(w[i]) && !IsSpace(w[i]) && w[i] != '-' && w[i] != '+' && w[i] != '[' && !IsQuote(w[i])
    {
      assert IsWord(w[i]);
    }
  }

  /** Pass 8 on a plain word upper-cases its first character only. */
  lemma PlainWordCapitalizedOnce(w: string)
    requires IsPlainWord(w)
    ensures CapitalizeWords(w, false) == Capitalized(w)
  {
    var r := CapitalizeWords(w, false);
    assert StartsRun(w, 0, false);
    forall i | 1 <= i < |w|
      ensures r[i] == w[i]
    {
      assert !StartsRun(w, i, false);
    }
  }

  lemma PlainWordCapitalizedPlain(w: string)
    requires IsPlainWord(w)
    ensures IsPlainWord(Capitalized(w)) && NoSpaces(Capitalized(w))
  {
    var c := Capitalized(w);
    forall i | 0 <= i < |c|
      ensures IsWord(c[i]) && !IsDigit(c[i]) && !IsSpace(c[i])
    {
      if i > 0 {
        assert c[i] == w[i];
      }
    }
  }

  lemma CapitalizedWordPiece(w: string)
    requires IsCapitalizedWord(w)
    ensures IsPlainWord(w) && WordsAndSpaces(w) && NoDigits(w) && NoSpaces(w) && Inert(w)
    ensures CapitalizedRuns(w, false)
  {
    WordsCapitalized(w[1..]);
  }

  lemma NumberPiece(d: string)
    requires IsNumber(d)
    ensures WordsAndSpaces(d) && NoSpaces(d) && Inert(d) && CapitalizedRuns(d, false)
  {
    NoLowercaseCapitalized(d, false);
  }

  /** Regrouping a concatenation. */
  lemma Assoc(p: string, x: string, y: string)
    ensures p + (x + y) == p + x + y
  {
  }

  lemma Shift(p: string, x: string, y: string, rest: string)
    ensures p + (x + y + rest) == p + x + y + rest
  {
  }

  // ------------------------------------------------- words separated by spaces

  /** Words, spaces and `_`, no digits, starting and ending with `\w`. */
  predicate IsPlainLabel(x: string) {
    |x| > 0 && IsWord(x[0]) && IsWord(x[|x| - 1]) && WordsAndSpaces(x) && NoDigits(x)
  }

  /** Passes 8 and 11: words capitalized, whitespace removed. */
  function Glued(x: string): string {
    RemoveWhitespace(CapitalizeWords(x, false))
  }

  /** A plain label is rewritten to its words, capitalized and glued together. */
  lemma PlainLabelRewritten(x: string)
    requires IsPlainLabel(x)
    ensures BlankSymbols(x) == x && JoinWords(x) == Glued(x)
    ensures RewriteLabel(x) == Glued(x)
  {
    PlainLabelGlued(x);
    assert Inert(x);
    InertLabelStripped(x);
    RewriteLabelOf(x, x, x, Glued(x));
  }

  /** Passes 7 to 11 on a plain label: only capitalizing and gluing act. */
  lemma PlainLabelGlued(x: string)
    requires IsPlainLabel(x)
    ensures BlankSymbols(x) == x && JoinWords(x) == Glued(x)
  {
    var s8 := CapitalizeWords(x, false);
    assert NoDigits(s8) by {
      forall i | 0 <= i < |s8|
        ensures !IsDigit(s8[i])
      {
        assert !IsDigit(x[i]);
      }
    }
    JoinDigitsLeftNoDigits(s8, false);
    JoinDigitsRightNoDigits(s8);
    JoinWordsOf(x, x, s8, s8, s8, Glued(x));
  }

  /** A single word is capitalized. */
  lemma PlainWordGlued(w: string)
    requires IsPlainWord(w)
    ensures IsPlainLabel(w) && Glued(w) == Capitalized(w)
  {
    PlainWordPiece(w);
    RemoveWhitespaceNoSpaces(Capitalized(w));
  }

  /** Two plain labels joined by a space are glued each on its own. */
  lemma PlainLabelJoin(x: string, y: string)
    requires IsPlainLabel(x) && IsPlainLabel(y)
    ensures IsPlainLabel(x + " " + y)
    ensures Glued(x + " " + y) == Glued(x) + Glued(y)
  {
    WordsJoined(x, " ");
    WordsJoined(x + " ", y);
    NoDigitsJoined(x, " ");
    NoDigitsJoined(x + " ", y);
    var s := x + " " + y;
    assert s[|s| - 1] == y[|y| - 1];
    var cx, cy := CapitalizeWords(x, false), CapitalizeWords(y, false);
    CapitalizeAround(x, " ", y);
    RemoveWhitespaceAppend(cx + " ", cy);
    RemoveWhitespaceAppend(cx, " ");
    assert RemoveWhitespace(" ") == [];
    assert RemoveWhitespace(cx) + [] == RemoveWhitespace(cx);
  }

  /** Pass 8 capitalizes the two sides of a run of whitespace independently. */
  lemma CapitalizeAround(x: string, sp: string, y: string)
    requires |sp| > 0 && AllSpaces(sp)
    ensures CapitalizeWords(x + sp + y, false) == CapitalizeWords(x, false) + sp + CapitalizeWords(y, false)
  {
    var xs := x + sp;
    assert xs[|xs| - 1] == sp[|sp| - 1];
    assert !EndsInWord(xs, false);
    CapitalizeWordsAppend(xs, y, false);
    CapitalizeWordsAppend(x, sp, false);
    NoLowercaseCapitalized(sp, EndsInWord(x, false));
    assert CapitalizeWords(sp, EndsInWord(x, false)) == sp;
  }

  /** Two words separated by a space: `Client Broker` -> `ClientBroker`. */
  lemma TwoWords(a: string, b: string, fallback: Option<string>)
    requires IsPlainWord(a) && IsPlainWord(b)
    ensures RewriteLabel(a + " " + b) == Capitalized(a) + Capitalized(b)
    ensures NormalizeLabel(Some(a + " " + b), fallback) == Success(Capitalized(a) + Capitalized(b))
  {
    PlainWordGlued(a);
    PlainWordGlued(b);
    PlainLabelJoin(a, b);
    PlainLabelRewritten(a + " " + b);
    StartsWithNonDigit(Capitalized(a), Capitalized(b));
    NormalizedAs(a + " " + b, Capitalized(a) + Capitalized(b), fallback);
  }

  /** Three words separated by spaces: `Client or Broker` -> `ClientOrBroker`. */
  lemma ThreeWords(a: string, b: string, c: string, fallback: Option<string>)
    requires IsPlainWord(a) && IsPlainWord(b) && IsPlainWord(c)
    ensures RewriteLabel(a + " " + b + " " + c) == Capitalized(a) + Capitalized(b) + Capitalized(c)
    ensures NormalizeLabel(Some(a + " " + b + " " + c), fallback) ==
            Success(Capitalized(a) + Capitalized(b) + Capitalized(c))
  {
    ThreeWordsGlued(a, b, c);
    PlainLabelRewritten(a + " " + b + " " + c);
    StartsWithNonDigit(Capitalized(a), Capitalized(b));
    StartsWithNonDigit(Capitalized(a) + Capitalized(b), Capitalized(c));
    NormalizedAs(a + " " + b + " " + c, Capitalized(a) + Capitalized(b) + Capitalized(c), fallback);
  }

  lemma ThreeWordsGlued(a: string, b: string, c: string)
    requires IsPlainWord(a) && IsPlainWord(b) && IsPlainWord(c)
    ensures IsPlainLabel(a + " " + b + " " + c)
    ensures Glued(a + " " + b + " " + c) == Capitalized(a) + Capitalized(b) + Capitalized(c)
  {
    PlainWordGlued(a);
    PlainWordGlued(b);
    PlainWordGlued(c);
    PlainLabelJoin(a, b);
    PlainLabelJoin(a + " " + b, c);
  }

  /**
   * A bracketed word before three words:
   * `[DEPRECATED] Sunrise Time Units` -> `_DEPRECATED_SunriseTimeUnits`.
   */
  lemma BracketThenWords(c: string, x: string, y: string, z: string, fallback: Option<string>)
    requires IsPlainWord(c) && IsPlainWord(x) && IsPlainWord(y) && IsPlainWord(z)
    ensures RewriteLabel("[" + c + "]" + " " + x + " " + y + " " + z) ==
            "_" + c + "_" + Capitalized(x) + Capitalized(y) + Capitalized(z)
    ensures NormalizeLabel(Some("[" + c + "]" + " " + x + " " + y + " " + z), fallback) ==
            Success("_" + c + "_" + Capitalized(x) + Capitalized(y) + Capitalized(z))
  {
    var w := "_" + c + "_";
    var u := w + " " + x + " " + y + " " + z;
    UnderscoredWord(c);
    PlainWordPiece(w);
    ThreeWordsGlued(x, y, z);
    FourWordsGlued(w, x, y, z);
    PlainLabelRewritten(u);
    BracketThenWordsStripped(c, x, y, z);
    SameStripped("[" + c + "]" + " " + x + " " + y + " " + z, u);
    Assoc(w, Capitalized(x) + Capitalized(y), Capitalized(z));
    Assoc(w, Capitalized(x), Capitalized(y));
    NormalizedAs("[" + c + "]" + " " + x + " " + y + " " + z,
                 "_" + c + "_" + Capitalized(x) + Capitalized(y) + Capitalized(z), fallback);
  }

  /** A word between two `_` is still a plain word. */
  lemma UnderscoredWord(c: string)
    requires IsPlainWord(c)
    ensures IsPlainWord("_" + c + "_")
  {
    var w := "_" + c + "_";
    forall i | 0 <= i < |w|
      ensures IsWord(w[i]) && !IsDigit(w[i])
    {
      if 0 < i <= |c| {
        assert w[i] == c[i - 1];
      }
    }
  }

  /** Two labels that passes 1 to 4 bring to the same string are rewritten alike. */
  lemma SameStripped(t: string, u: string)
    requires StripSymbols(t) == StripSymbols(u)
    ensures RewriteLabel(t) == RewriteLabel(u)
  {
  }

  lemma FourWordsGlued(w: string, x: string, y: string, z: string)
    requires IsPlainWord(w) && IsPlainLabel(x + " " + y + " " + z)
    ensures IsPlainLabel(w + " " + x + " " + y + " " + z)
    ensures Glued(w + " " + x + " " + y + " " + z) == Capitalized(w) + Glued(x + " " + y + " " + z)
  {
    PlainWordGlued(w);
    PlainLabelJoin(w, x + " " + y + " " + z);
    Assoc(w + " ", x + " " + y + " ", z);
    Assoc(w + " ", x + " " + y, " ");
    Assoc(w + " ", x + " ", y);
    Assoc(w + " ", x, " ");
  }

  /** Passes 1 to 4 see `[c] x y z` as they would see `_c_ x y z`. */
  lemma BracketThenWordsStripped(c: string, x: string, y: string, z: string)
    requires IsPlainWord(c) && IsPlainWord(x) && IsPlainWord(y) && IsPlainWord(z)
    ensures StripSymbols("[" + c + "]" + " " + x + " " + y + " " + z) ==
            StripSymbols("_" + c + "_" + " " + x + " " + y + " " + z)
  {
    var rest := " " + x + " " + y + " " + z;
    PlainWordPiece(x);
    PlainWordPiece(y);
    PlainWordPiece(z);
    InertJoined(" ", x);
    InertJoined(" " + x, " ");
    InertJoined(" " + x + " ", y);
    InertJoined(" " + x + " " + y, " ");
    InertJoined(" " + x + " " + y + " ", z);
    BracketedLabel(c, rest);
    Reassociated("[" + c + "]", x, y, z);
    Reassociated("_" + c + "_", x, y, z);
  }

  lemma Reassociated(p: string, x: string, y: string, z: string)
    ensures p + (" " + x + " " + y + " " + z) == p + " " + x + " " + y + " " + z
  {
    Assoc(p, " " + x + " " + y + " ", z);
    Assoc(p, " " + x + " " + y, " ");
    Assoc(p, " " + x + " ", y);
    Assoc(p, " " + x, " ");
    Assoc(p, " ", x);
  }

  /**
   * A bracketed prefix `[c]` becomes `_c_` in pass 1, and the rest of passes 1 to 4
   * see `_c_rest` as they would see it written so.
   */
  lemma BracketedLabel(c: string, rest: string)
    requires IsPlainWord(c) && Inert(rest)
    ensures StripSymbols("[" + c + "]" + rest) == StripSymbols("_" + c + "_" + rest)
  {
    PlainWordPiece(c);
    BracketedSegment(c, rest);
    var w := "_" + c + "_";
    InertJoined("_", c);
    InertJoined("_" + c, "_");
    InertJoined(w, rest);
    assert UnderscoreBrackets(w + rest) == w + rest;
  }

  // ------------------------------------------------- a quote inside a word

  /** A quote inside a word is dropped by pass 4: `Doctor's` -> `Doctors`. */
  lemma QuoteInWord(a: string, b: string, fallback: Option<string>)
    requires IsCapitalizedWord(a) && |b| > 0 && forall i :: 0 <= i < |b| ==> IsLetter(b[i])
    ensures RewriteLabel(a + "'" + b) == a + b
    ensures NormalizeLabel(Some(a + "'" + b), fallback) == Success(a + b)
  {
    assert IsCapitalizedWord(a + b) by {
      forall i | 0 <= i < |a + b|
        ensures IsLetter((a + b)[i])
      {
        if i >= |a| {
          assert (a + b)[i] == b[i - |a|];
        }
      }
    }
    CapitalizedWordSpelled(a + b);
    JoinWordsKeeps(a + b);
    QuoteInWordStripped(a, b);
    RewriteLabelOf(a + "'" + b, a + b, a + b, a + b);
    NormalizedAs(a + "'" + b, a + b, fallback);
  }

  lemma QuoteInWordStripped(a: string, b: string)
    requires IsCapitalizedWord(a) && |b| > 0 && forall i :: 0 <= i < |b| ==> IsLetter(b[i])
    ensures StripSymbols(a + "'" + b) == a + b
  {
    QuoteInWordEnds(a, b);
    NoQuotesKept(a);
    NoQuotesKept(b);
    QuoteDropped(a, b);
  }

  /** Pass 4 leaves alone a label without quotes. */
  lemma NoQuotesKept(s: string)
    requires forall i :: 0 <= i < |s| ==> IsLetter(s[i])
    ensures RemoveQuotes(s) == s
  {
  }

  /** Pass 4 drops the quote between two quote-free pieces. */
  lemma QuoteDropped(a: string, b: string)
    requires RemoveQuotes(a) == a && RemoveQuotes(b) == b
    ensures RemoveQuotes(a + "'" + b) == a + b
  {
    RemoveQuotesAppend(a + "'", b);
    RemoveQuotesAppend(a, "'");
    assert RemoveQuotes("'") == [];
    assert a + [] == a;
  }

  /** Passes 1 to 3 have nothing to do on `a'b`. */
  lemma QuoteInWordEnds(a: string, b: string)
    requires IsCapitalizedWord(a) && |b| > 0 && forall i :: 0 <= i < |b| ==> IsLetter(b[i])
    ensures TrimTrailingSymbols(TrimLeadingSymbols(UnderscoreBrackets(a + "'" + b))) == a + "'" + b
  {
    QuoteInWordShape(a, b);
    NoBracketsKept(a + "'" + b);
    WordEndsKept(a + "'" + b);
  }

  lemma QuoteInWordShape(a: string, b: string)
    requires IsCapitalizedWord(a) && |b| > 0 && forall i :: 0 <= i < |b| ==> IsLetter(b[i])
    ensures var s := a + "'" + b;
            (forall i :: 0 <= i < |s| ==> s[i] != '[') && IsWord(s[0]) && IsWord(s[|s| - 1])
  {
    var q := "'" + b;
    forall j | 0 <= j < |q|
      ensures q[j] != '['
    {
      if j > 0 {
        assert q[j] == b[j - 1];
      }
    }
    var s := a + q;
    forall i | 0 <= i < |s|
      ensures s[i] != '['
    {
      if i < |a| {
        assert s[i] == a[i];
      } else {
        assert s[i] == q[i - |a|];
      }
    }
    Assoc(a, "'", b);
    assert s[0] == a[0] && s[|s| - 1] == b[|b| - 1];
  }

  /** Pass 1 leaves alone a label without `[`. */
  lemma NoBracketsKept(s: string)
    requires forall i :: 0 <= i < |s| ==> s[i] != '['
    ensures UnderscoreBrackets(s) == s
  {
  }

  /** Passes 2 and 3 leave alone a label that starts and ends with `\w`. */
  lemma WordEndsKept(s: string)
    requires |s| > 0 && IsWord(s[0]) && IsWord(s[|s| - 1])
    ensures TrimTrailingSymbols(TrimLeadingSymbols(s)) == s
  {
  }

  // ------------------------------------------------- numbers between words

  /** Numbers between two words: `Foo 5 10 20 Bar` -> `Foo_5_10_20_Bar`. */
  lemma NumbersBetweenWords(a: string, d1: string, d2: string, d3: string, b: string, fallback: Option<string>)
    requires IsCapitalizedWord(a) && IsCapitalizedWord(b) && IsNumber(d1) && IsNumber(d2) && IsNumber(d3)
    ensures RewriteLabel(a + " " + d1 + " " + d2 + " " + d3 + " " + b) ==
            a + "_" + d1 + "_" + d2 + "_" + d3 + "_" + b
    ensures NormalizeLabel(Some(a + " " + d1 + " " + d2 + " " + d3 + " " + b), fallback) == Success(a + "_" + d1 + "_" + d2 + "_" + d3 + "_" + b)
  {
    NumbersBetweenWordsRewritten(a, d1, d2, d3, b);
    NormalizedAs(a + " " + d1 + " " + d2 + " " + d3 + " " + b, a + "_" + d1 + "_" + d2 + "_" + d3 + "_" + b, fallback);
  }

  /** Passes 1 to 11 on `a d1 d2 d3 b`. */
  lemma NumbersBetweenWordsRewritten(a: string, d1: string, d2: string, d3: string, b: string)
    requires IsCapitalizedWord(a) && IsCapitalizedWord(b) && IsNumber(d1) && IsNumber(d2) && IsNumber(d3)
    ensures RewriteLabel(a + " " + d1 + " " + d2 + " " + d3 + " " + b) ==
            a + "_" + d1 + "_" + d2 + "_" + d3 + "_" + b
  {
    var s := a + " " + d1 + " " + d2 + " " + d3 + " " + b;
    var s9 := a + "_" + d1 + "_" + d2 + "_" + d3 + " " + b;
    var r := a + "_" + d1 + "_" + d2 + "_" + d3 + "_" + b;
    NumbersBetweenWordsSpaced(a, d1, d2, d3, b);
    NumbersBetweenWordsLeft(a, d1, d2, d3, b);
    NumbersBetweenWordsRight(a, d1, d2, d3, b);
    NumbersBetweenWordsJoined(a, d1, d2, d3, b);
    JoinWordsOf(s, s, s, s9, r, r);
    InertLabelStripped(s);
    RewriteLabelOf(s, s, s, r);
  }

  /** Passes 1 to 8 leave `a d1 d2 d3 b` alone. */
  lemma NumbersBetweenWordsSpaced(a: string, d1: string, d2: string, d3: string, b: string)
    requires IsCapitalizedWord(a) && IsCapitalizedWord(b) && IsNumber(d1) && IsNumber(d2) && IsNumber(d3)
    ensures var s := a + " " + d1 + " " + d2 + " " + d3 + " " + b;
            IsWord(s[0]) && IsWord(s[|s| - 1]) && Inert(s) &&
            BlankSymbols(s) == s && CapitalizeWords(s, false) == s
  {
    CapitalizedWordPiece(a);
    CapitalizedWordPiece(b);
    NumberPiece(d1);
    NumberPiece(d2);
    NumberPiece(d3);
    WordsJoined(a, " ");
    WordsJoined(a + " ", d1);
    WordsJoined(a + " " + d1, " ");
    WordsJoined(a + " " + d1 + " ", d2);
    WordsJoined(a + " " + d1 + " " + d2, " ");
    WordsJoined(a + " " + d1 + " " + d2 + " ", d3);
    WordsJoined(a + " " + d1 + " " + d2 + " " + d3, " ");
    WordsJoined(a + " " + d1 + " " + d2 + " " + d3 + " ", b);
    CapitalizedJoined(a, " ");
    CapitalizedJoined(a + " ", d1);
    CapitalizedJoined(a + " " + d1, " ");
    CapitalizedJoined(a + " " + d1 + " ", d2);
    CapitalizedJoined(a + " " + d1 + " " + d2, " ");
    CapitalizedJoined(a + " " + d1 + " " + d2 + " ", d3);
    CapitalizedJoined(a + " " + d1 + " " + d2 + " " + d3, " ");
    CapitalizedJoined(a + " " + d1 + " " + d2 + " " + d3 + " ", b);
    InertJoined(a, " ");
    InertJoined(a + " ", d1);
    InertJoined(a + " " + d1, " ");
    InertJoined(a + " " + d1 + " ", d2);
    InertJoined(a + " " + d1 + " " + d2, " ");
    InertJoined(a + " " + d1 + " " + d2 + " ", d3);
    InertJoined(a + " " + d1 + " " + d2 + " " + d3, " ");
    InertJoined(a + " " + d1 + " " + d2 + " " + d3 + " ", b);
    var s := a + " " + d1 + " " + d2 + " " + d3 + " " + b;
    assert s[0] == a[0] && s[|s| - 1] == b[|b| - 1];
  }

  /** Pass 9 joins each number to what precedes it. */
  lemma NumbersBetweenWordsLeft(a: string, d1: string, d2: string, d3: string, b: string)
    requires IsCapitalizedWord(a) && IsCapitalizedWord(b) && IsNumber(d1) && IsNumber(d2) && IsNumber(d3)
    ensures JoinDigitsLeft(a + " " + d1 + " " + d2 + " " + d3 + " " + b, false) ==
            a + "_" + d1 + "_" + d2 + "_" + d3 + " " + b
  {
    var r4 := " " + b;
    var r3 := " " + d3 + r4;
    var r2 := " " + d2 + r3;
    var r1 := " " + d1 + r2;
    CapitalizedWordPiece(b);
    JoinDigitsLeftSpaces(" ", b, true);
    JoinDigitsLeftNoDigits(b, false);
    JoinDigitsLeftMatch(" ", d3, r4);
    JoinDigitsLeftMatch(" ", d2, r3);
    JoinDigitsLeftMatch(" ", d1, r2);
    CapitalizedWordPiece(a);
    JoinDigitsLeftKeeps(a, r1, false);
    var p1 := a + " " + d1;
    var p2 := p1 + " " + d2;
    Shift(a, " ", d1, r2);
    Shift(p1, " ", d2, r3);
    Shift(p2, " ", d3, r4);
    Assoc(p2 + " " + d3, " ", b);
    var q1 := a + "_" + d1;
    var q2 := q1 + "_" + d2;
    var u3 := "_" + d3 + r4;
    var u2 := "_" + d2 + u3;
    Shift(a, "_", d1, u2);
    Shift(q1, "_", d2, u3);
    Shift(q2, "_", d3, r4);
    Assoc(q2 + "_" + d3, " ", b);
  }

  /** Pass 10 joins the last number to the word after it. */
  lemma NumbersBetweenWordsRight(a: string, d1: string, d2: string, d3: string, b: string)
    requires IsCapitalizedWord(a) && IsCapitalizedWord(b) && IsNumber(d1) && IsNumber(d2) && IsNumber(d3)
    ensures JoinDigitsRight(a + "_" + d1 + "_" + d2 + "_" + d3 + " " + b) ==
            a + "_" + d1 + "_" + d2 + "_" + d3 + "_" + b
  {
    var t3 := "_" + (d3 + " " + b);
    var t2 := d2 + t3;
    var t1 := "_" + t2;
    var t0 := d1 + t1;
    CapitalizedWordPiece(a);
    CapitalizedWordPiece(b);
    JoinDigitsRightMatch(d3, " ", b);
    JoinDigitsRightNoDigits(b);
    JoinDigitsRightKeeps("_", d3 + " " + b);
    JoinDigitsRightDigits(d2, t3);
    JoinDigitsRightKeeps("_", t2);
    JoinDigitsRightDigits(d1, t1);
    NoDigitsJoined(a, "_");
    JoinDigitsRightKeeps(a + "_", t0);
    var p1 := a + "_" + d1;
    var p2 := p1 + "_" + d2;
    Assoc(a + "_", d1, t1);
    Assoc(p1, "_", t2);
    Assoc(p1 + "_", d2, t3);
    Assoc(p2, "_", d3 + " " + b);
    Shift(p2 + "_", d3, " ", b);
    var o3 := "_" + (d3 + "_" + b);
    var o2 := d2 + o3;
    var o1 := "_" + o2;
    Assoc(a + "_", d1, o1);
    Assoc(p1, "_", o2);
    Assoc(p1 + "_", d2, o3);
    Assoc(p2, "_", d3 + "_" + b);
    Shift(p2 + "_", d3, "_", b);
  }

  /** Pass 11 has no whitespace left to remove. */
  lemma NumbersBetweenWordsJoined(a: string, d1: string, d2: string, d3: string, b: string)
    requires IsCapitalizedWord(a) && IsCapitalizedWord(b) && IsNumber(d1) && IsNumber(d2) && IsNumber(d3)
    ensures var r := a + "_" + d1 + "_" + d2 + "_" + d3 + "_" + b;
            RemoveWhitespace(r) == r
  {
    CapitalizedWordPiece(a);
    CapitalizedWordPiece(b);
    NumberPiece(d1);
    NumberPiece(d2);
    NumberPiece(d3);
    NoSpacesJoined(a, "_");
    NoSpacesJoined(a + "_", d1);
    NoSpacesJoined(a + "_" + d1, "_");
    NoSpacesJoined(a + "_" + d1 + "_", d2);
    NoSpacesJoined(a + "_" + d1 + "_" + d2, "_");
    NoSpacesJoined(a + "_" + d1 + "_" + d2 + "_", d3);
    NoSpacesJoined(a + "_" + d1 + "_" + d2 + "_" + d3, "_");
    NoSpacesJoined(a + "_" + d1 + "_" + d2 + "_" + d3 + "_", b);
    RemoveWhitespaceNoSpaces(a + "_" + d1 + "_" + d2 + "_" + d3 + "_" + b);
  }

  // ------------------------------------------------- a symbol between words

  /** A symbol that pass 7 turns into a space and passes 1 to 6 leave alone inside a label. */
  predicate IsSeparator(c: char) {
    !IsWord(c) && !IsSpace(c) && c != '-' && c != '+' && c != '[' && !IsQuote(c)
  }

  /** A symbol between two pieces of words and spaces becomes a space in pass 7. */
  lemma BlankBetween(a: string, c: char, b: string)
    requires WordsAndSpaces(a) && WordsAndSpaces(b) && !IsWord(c) && !IsSpace(c)
    ensures BlankSymbols(a + [c] + b) == a + " " + b
  {
    var s := a + [c] + b;
    var r := BlankSymbols(s);
    forall i | 0 <= i < |s|
      ensures r[i] == (a + " " + b)[i]
    {
      if i < |a| {
        assert s[i] == a[i];
      } else if i > |a| {
        assert s[i] == b[i - |a| - 1];
      }
    }
  }

  /** A symbol between two words separates them: `Client/Broker` -> `ClientBroker`. */
  lemma SymbolBetweenWords(a: string, c: char, b: string, fallback: Option<string>)
    requires IsPlainWord(a) && IsPlainWord(b) && IsSeparator(c)
    ensures RewriteLabel(a + [c] + b) == Capitalized(a) + Capitalized(b)
    ensures NormalizeLabel(Some(a + [c] + b), fallback) == Success(Capitalized(a) + Capitalized(b))
  {
    SymbolBetweenWordsRewritten(a, c, b);
    StartsWithNonDigit(Capitalized(a), Capitalized(b));
    NormalizedAs(a + [c] + b, Capitalized(a) + Capitalized(b), fallback);
  }

  /** Passes 1 to 11 on `a/b`. */
  lemma SymbolBetweenWordsRewritten(a: string, c: char, b: string)
    requires IsPlainWord(a) && IsPlainWord(b) && IsSeparator(c)
    ensures RewriteLabel(a + [c] + b) == Capitalized(a) + Capitalized(b)
  {
    var s := a + [c] + b;
    PlainWordPiece(a);
    PlainWordPiece(b);
    BlankBetween(a, c, b);
    PlainWordGlued(a);
    PlainWordGlued(b);
    PlainLabelJoin(a, b);
    PlainLabelRewritten(a + " " + b);
    SameBlanked(s, a + " " + b);
    SymbolBetweenWordsStripped(a, c, b);
    RewriteLabelOf(s, s, s, Capitalized(a) + Capitalized(b));
  }

  lemma SymbolBetweenWordsStripped(a: string, c: char, b: string)
    requires IsPlainWord(a) && IsPlainWord(b) && IsSeparator(c)
    ensures StripSymbols(a + [c] + b) == a + [c] + b && SpellOutSigns(a + [c] + b) == a + [c] + b
  {
    var s := a + [c] + b;
    PlainWordPiece(a);
    PlainWordPiece(b);
    InertJoined(a, [c]);
    InertJoined(a + [c], b);
    assert s[0] == a[0] && s[|s| - 1] == b[|b| - 1];
    InertLabelStripped(s);
  }

  /** Two labels that pass 7 brings to the same string are joined alike. */
  lemma SameBlanked(t: string, u: string)
    requires BlankSymbols(t) == BlankSymbols(u)
    ensures JoinWords(t) == JoinWords(u)
  {
  }

  /**
   * A word, a symbol, a number and a word:
   * `Address: 20 street` -> `Address_20_Street`.
   */
  lemma SymbolBeforeNumber(a: string, c: char, d: string, w: string, fallback: Option<string>)
    requires IsCapitalizedWord(a) && IsSeparator(c) && IsNumber(d) && IsPlainWord(w)
    ensures RewriteLabel(a + [c] + " " + d + " " + w) == a + "_" + d + "_" + Capitalized(w)
    ensures NormalizeLabel(Some(a + [c] + " " + d + " " + w), fallback) == Success(a + "_" + d + "_" + Capitalized(w))
  {
    SymbolBeforeNumberRewritten(a, c, d, w);
    NormalizedAs(a + [c] + " " + d + " " + w, a + "_" + d + "_" + Capitalized(w), fallback);
  }

  /** Passes 1 to 11 on `a: d w`. */
  lemma SymbolBeforeNumberRewritten(a: string, c: char, d: string, w: string)
    requires IsCapitalizedWord(a) && IsSeparator(c) && IsNumber(d) && IsPlainWord(w)
    ensures RewriteLabel(a + [c] + " " + d + " " + w) == a + "_" + d + "_" + Capitalized(w)
  {
    var s := a + [c] + " " + d + " " + w;
    var s7 := a + " " + " " + d + " " + w;
    var cw := Capitalized(w);
    var s8 := a + " " + " " + d + " " + cw;
    var s9 := a + "_" + d + " " + cw;
    var r := a + "_" + d + "_" + cw;
    PlainWordPiece(w);
    SymbolBeforeNumberBlanked(a, c, d, w);
    SymbolBeforeNumberCapitalized(a, d, w);
    SymbolBeforeNumberLeft(a, d, cw);
    SymbolBeforeNumberRight(a, d, cw);
    SymbolBeforeNumberSpaceless(a, d, cw);
    JoinWordsOf(s, s7, s8, s9, r, r);
    SymbolBeforeNumberStripped(a, c, d, w);
    RewriteLabelOf(s, s, s, r);
  }

  lemma SymbolBeforeNumberStripped(a: string, c: char, d: string, w: string)
    requires IsCapitalizedWord(a) && IsSeparator(c) && IsNumber(d) && IsPlainWord(w)
    ensures var s := a + [c] + " " + d + " " + w;
            StripSymbols(s) == s && SpellOutSigns(s) == s
  {
    SymbolBeforeNumberInert(a, c, d, w);
    InertLabelStripped(a + [c] + " " + d + " " + w);
  }

  lemma SymbolBeforeNumberInert(a: string, c: char, d: string, w: string)
    requires IsCapitalizedWord(a) && IsSeparator(c) && IsNumber(d) && IsPlainWord(w)
    ensures var s := a + [c] + " " + d + " " + w;
            Inert(s) && IsWord(s[0]) && IsWord(s[|s| - 1])
  {
    CapitalizedWordPiece(a);
    NumberPiece(d);
    PlainWordPiece(w);
    InertJoined(a, [c]);
    InertJoined(a + [c], " ");
    InertJoined(a + [c] + " ", d);
    InertJoined(a + [c] + " " + d, " ");
    InertJoined(a + [c] + " " + d + " ", w);
    var s := a + [c] + " " + d + " " + w;
    assert s[0] == a[0] && s[|s| - 1] == w[|w| - 1];
  }

  lemma SymbolBeforeNumberBlanked(a: string, c: char, d: string, w: string)
    requires IsCapitalizedWord(a) && IsSeparator(c) && IsNumber(d) && IsPlainWord(w)
    ensures BlankSymbols(a + [c] + " " + d + " " + w) == a + " " + " " + d + " " + w
  {
    CapitalizedWordPiece(a);
    NumberPiece(d);
    PlainWordPiece(w);
    WordsJoined(" ", d);
    WordsJoined(" " + d, " ");
    WordsJoined(" " + d + " ", w);
    BlankBetween(a, c, " " + d + " " + w);
    Assoc(a + [c] + " " + d, " ", w);
    Assoc(a + [c] + " ", d, " " + w);
    Assoc(a + [c], " ", d + (" " + w));
    Assoc(d, " ", w);
    Assoc(a + " " + " " + d, " ", w);
    Assoc(a + " " + " ", d, " " + w);
    Assoc(a + " ", " ", d + (" " + w));
    Assoc(" " + d, " ", w);
    Assoc(" ", d, " " + w);
  }

  lemma SymbolBeforeNumberCapitalized(a: string, d: string, w: string)
    requires IsCapitalizedWord(a) && IsNumber(d) && IsPlainWord(w)
    ensures CapitalizeWords(a + " " + " " + d + " " + w, false) == a + " " + " " + d + " " + Capitalized(w)
  {
    CapitalizedWordPiece(a);
    NumberPiece(d);
    PlainWordPiece(w);
    CapitalizedJoined(a, " ");
    CapitalizedJoined(a + " ", " ");
    CapitalizedJoined(a + " " + " ", d);
    CapitalizeAround(a + " " + " " + d, " ", w);
  }

  /** Pass 9 on `a  d W`: the spaces before the number become `_`. */
  lemma SymbolBeforeNumberLeft(a: string, d: string, cw: string)
    requires IsCapitalizedWord(a) && IsNumber(d) && IsPlainWord(cw)
    ensures JoinDigitsLeft(a + " " + " " + d + " " + cw, false) == a + "_" + d + " " + cw
  {
    CapitalizedWordPiece(a);
    PlainWordPiece(cw);
    var r2 := " " + cw;
    var r1 := " " + " " + d + r2;
    JoinDigitsLeftMatch(" " + " ", d, r2);
    JoinDigitsLeftSpaces(" ", cw, true);
    JoinDigitsLeftNoDigits(cw, false);
    JoinDigitsLeftKeeps(a, r1, false);
    Assoc(a, " " + " " + d, r2);
    Assoc(a, " " + " ", d);
    Assoc(a, " ", " ");
    Assoc(a + " " + " " + d, " ", cw);
    Assoc(a, "_" + d, r2);
    Assoc(a, "_", d);
    Assoc(a + "_" + d, " ", cw);
  }

  /** Pass 10 on `a_d W`: the space after the number becomes `_`. */
  lemma SymbolBeforeNumberRight(a: string, d: string, cw: string)
    requires IsCapitalizedWord(a) && IsNumber(d) && IsPlainWord(cw)
    ensures JoinDigitsRight(a + "_" + d + " " + cw) == a + "_" + d + "_" + cw
  {
    CapitalizedWordPiece(a);
    PlainWordPiece(cw);
    NoDigitsJoined(a, "_");
    JoinDigitsRightMatch(d, " ", cw);
    JoinDigitsRightNoDigits(cw);
    JoinDigitsRightKeeps(a + "_", d + " " + cw);
    Assoc(a + "_", d + " ", cw);
    Assoc(a + "_", d, " ");
    Assoc(a + "_", d + "_", cw);
    Assoc(a + "_", d, "_");
  }

  /** Pass 11 on `a_d_W`: no whitespace is left. */
  lemma SymbolBeforeNumberSpaceless(a: string, d: string, cw: string)
    requires IsCapitalizedWord(a) && IsNumber(d) && IsPlainWord(cw)
    ensures RemoveWhitespace(a + "_" + d + "_" + cw) == a + "_" + d + "_" + cw
  {
    CapitalizedWordPiece(a);
    NumberPiece(d);
    PlainWordPiece(cw);
    NoSpacesJoined(a, "_");
    NoSpacesJoined(a + "_", d);
    NoSpacesJoined(a + "_" + d, "_");
    NoSpacesJoined(a + "_" + d + "_", cw);
    RemoveWhitespaceNoSpaces(a + "_" + d + "_" + cw);
  }

  // ------------------------------------------------- a closing symbol at the end

  /**
   * Two words, then a word inside a pair of symbols: the closing symbol is trimmed,
   * the opening one separates. `Integration Failed (create)` -> `IntegrationFailedCreate`.
   */
  lemma EnclosedLastWord(a: string, b: string, o: char, c: string, cl: char, fallback: Option<string>)
    requires IsPlainWord(a) && IsPlainWord(b) && IsSeparator(o) && IsPlainWord(c) && IsSeparator(cl)
    ensures RewriteLabel(a + " " + b + " " + [o] + c + [cl]) == Capitalized(a) + Capitalized(b) + Capitalized(c)
    ensures NormalizeLabel(Some(a + " " + b + " " + [o] + c + [cl]), fallback) ==
            Success(Capitalized(a) + Capitalized(b) + Capitalized(c))
  {
    var s := a + " " + b + " " + [o] + c + [cl];
    var x := a + " " + b + " " + [o] + c;
    var y := a + " " + b + "  " + c;
    var r := Capitalized(a) + Capitalized(b) + Capitalized(c);
    EnclosedLastWordStripped(a, b, o, c, cl);
    EnclosedLastWordBlanked(a, b, o, c);
    EnclosedLastWordGlued(a, b, c);
    SameBlanked(x, y);
    RewriteLabelOf(s, x, x, r);
    StartsWithNonDigit(Capitalized(a), Capitalized(b));
    StartsWithNonDigit(Capitalized(a) + Capitalized(b), Capitalized(c));
    NormalizedAs(s, r, fallback);
  }

  /** Passes 1 to 6: the closing symbol goes, the rest is left alone. */
  lemma EnclosedLastWordStripped(a: string, b: string, o: char, c: string, cl: char)
    requires IsPlainWord(a) && IsPlainWord(b) && IsSeparator(o) && IsPlainWord(c) && IsSeparator(cl)
    ensures var x := a + " " + b + " " + [o] + c;
            StripSymbols(x + [cl]) == x && SpellOutSigns(x) == x
  {
    var x := a + " " + b + " " + [o] + c;
    EnclosedLastWordInert(a, b, o, c);
    InertLabelStripped(x);
    TrailingSymbolTrimmed(x, cl);
  }

  /** Passes 1 to 4 drop one symbol after a label they leave alone. */
  lemma TrailingSymbolTrimmed(x: string, cl: char)
    requires |x| > 0 && IsWord(x[0]) && IsWord(x[|x| - 1]) && Inert(x) && IsSeparator(cl)
    ensures StripSymbols(x + [cl]) == x
  {
    var s := x + [cl];
    assert forall i :: 0 <= i < |s| ==> s[i] != '[' by {
      assert forall i :: 0 <= i < |x| ==> s[i] == x[i];
    }
    assert UnderscoreBrackets(s) == s;
    assert s[0] == x[0];
    assert TrimLeadingSymbols(s) == s;
    TrailingSymbolTrimmedEnd(x, cl);
    assert RemoveQuotes(x) == x;
  }

  lemma TrailingSymbolTrimmedEnd(x: string, cl: char)
    requires |x| > 0 && IsWord(x[|x| - 1]) && IsSeparator(cl)
    ensures TrimTrailingSymbols(x + [cl]) == x
  {
    var s := x + [cl];
    assert s[..|s| - 1] == x;
    assert TrimTrailingSymbols(x) == x;
  }

  lemma EnclosedLastWordInert(a: string, b: string, o: char, c: string)
    requires IsPlainWord(a) && IsPlainWord(b) && IsSeparator(o) && IsPlainWord(c)
    ensures var x := a + " " + b + " " + [o] + c;
            Inert(x) && IsWord(x[0]) && IsWord(x[|x| - 1])
  {
    PlainWordPiece(a);
    PlainWordPiece(b);
    PlainWordPiece(c);
    InertJoined(a, " ");
    InertJoined(a + " ", b);
    InertJoined(a + " " + b, " ");
    InertJoined(a + " " + b + " ", [o]);
    InertJoined(a + " " + b + " " + [o], c);
    var x := a + " " + b + " " + [o] + c;
    assert x[0] == a[0] && x[|x| - 1] == c[|c| - 1];
  }

  /** Pass 7 turns the opening symbol into a second space. */
  lemma EnclosedLastWordBlanked(a: string, b: string, o: char, c: string)
    requires IsPlainWord(a) && IsPlainWord(b) && IsSeparator(o) && IsPlainWord(c)
    ensures BlankSymbols(a + " " + b + " " + [o] + c) == a + " " + b + "  " + c
    ensures BlankSymbols(a + " " + b + "  " + c) == a + " " + b + "  " + c
  {
    var p := a + " " + b + " ";
    EnclosedLastWordPrefix(a, b, c);
    PlainWordPiece(c);
    BlankBetween(p, o, c);
    Assoc(a + " " + b, " ", " ");
  }

  /** `a b ` and `a b  c` are words and spaces only. */
  lemma EnclosedLastWordPrefix(a: string, b: string, c: string)
    requires IsPlainWord(a) && IsPlainWord(b) && IsPlainWord(c)
    ensures WordsAndSpaces(a + " " + b + " ") && WordsAndSpaces(a + " " + b + "  " + c)
  {
    PlainWordPiece(a);
    PlainWordPiece(b);
    PlainWordPiece(c);
    WordsJoined(a, " ");
    WordsJoined(a + " ", b);
    WordsJoined(a + " " + b, " ");
    WordsJoined(a + " " + b, "  ");
    WordsJoined(a + " " + b + "  ", c);
  }

  /** Passes 8 and 11 on `a b  c`. */
  lemma EnclosedLastWordGlued(a: string, b: string, c: string)
    requires IsPlainWord(a) && IsPlainWord(b) && IsPlainWord(c)
    ensures IsPlainLabel(a + " " + b + "  " + c)
    ensures JoinWords(a + " " + b + "  " + c) == Capitalized(a) + Capitalized(b) + Capitalized(c)
  {
    PlainWordGlued(a);
    PlainWordGlued(b);
    PlainWordGlued(c);
    PlainLabelJoin(a, b);
    assert AllSpaces("  ");
    GluedAround(a + " " + b, "  ", c);
    PlainLabelRewritten(a + " " + b + "  " + c);
  }

  /** Two plain labels with whitespace between them are glued each on its own. */
  lemma GluedAround(x: string, sp: string, y: string)
    requires IsPlainLabel(x) && IsPlainLabel(y) && |sp| > 0 && AllSpaces(sp)
    ensures IsPlainLabel(x + sp + y)
    ensures Glued(x + sp + y) == Glued(x) + Glued(y)
  {
    assert WordsAndSpaces(sp) && NoDigits(sp);
    WordsJoined(x, sp);
    WordsJoined(x + sp, y);
    NoDigitsJoined(x, sp);
    NoDigitsJoined(x + sp, y);
    var s := x + sp + y;
    assert s[0] == x[0] && s[|s| - 1] == y[|y| - 1];
    var cx, cy := CapitalizeWords(x, false), CapitalizeWords(y, false);
    CapitalizeAround(x, sp, y);
    RemoveWhitespaceAppend(cx + sp, cy);
    RemoveWhitespaceAppend(cx, sp);
    RemoveWhitespaceOfSpaces(sp);
    assert RemoveWhitespace(cx) + [] == RemoveWhitespace(cx);
  }

  // ------------------------------------------------- numbers, then a word and a number

  /**
   * Two numbers each followed by a symbol and a space, then a word, a space and a
   * number: `2% 10, Net 30` -> `_2_10_Net_30`. The rewrite starts with a digit, so
   * NormalizeLabel puts `_` in front.
   */
  lemma NumbersThenWord(d1: string, c1: char, d2: string, c2: char, w: string, d3: string, fallback: Option<string>)
    requires IsNumber(d1) && IsSeparator(c1) && IsNumber(d2) && IsSeparator(c2)
    requires IsCapitalizedWord(w) && IsNumber(d3)
    ensures RewriteLabel(d1 + [c1] + " " + d2 + [c2] + " " + w + " " + d3) == d1 + "_" + d2 + "_" + w + "_" + d3
    ensures NormalizeLabel(Some(d1 + [c1] + " " + d2 + [c2] + " " + w + " " + d3), fallback) ==
            Success("_" + d1 + "_" + d2 + "_" + w + "_" + d3)
  {
    var s := d1 + [c1] + " " + d2 + [c2] + " " + w + " " + d3;
    var r := d1 + "_" + d2 + "_" + w + "_" + d3;
    NumbersThenWordRewritten(d1, c1, d2, c2, w, d3);
    NumbersThenWordStarts(d1, d2, w, d3);
    NormalizedWithUnderscore(s, r, fallback);
  }

  /** `d1_d2_W_d3` starts with the first digit of d1. */
  lemma NumbersThenWordStarts(d1: string, d2: string, w: string, d3: string)
    requires IsNumber(d1)
    ensures var r := d1 + "_" + d2 + "_" + w + "_" + d3;
            r != [] && IsDigit(r[0]) && "_" + r == "_" + d1 + "_" + d2 + "_" + w + "_" + d3
  {
    var r := d1 + "_" + d2 + "_" + w + "_" + d3;
    assert r[0] == d1[0];
  }

  /** A label that rewrites to a string starting with a digit is normalized to `_` and that string. */
  lemma NormalizedWithUnderscore(text: string, rewritten: string, fallback: Option<string>)
    requires text != [] && RewriteLabel(text) == rewritten && rewritten != [] && IsDigit(rewritten[0])
    ensures NormalizeLabel(Some(text), fallback) == Success("_" + rewritten)
  {
  }

  lemma NumbersThenWordRewritten(d1: string, c1: char, d2: string, c2: char, w: string, d3: string)
    requires IsNumber(d1) && IsSeparator(c1) && IsNumber(d2) && IsSeparator(c2)
    requires IsCapitalizedWord(w) && IsNumber(d3)
    ensures RewriteLabel(d1 + [c1] + " " + d2 + [c2] + " " + w + " " + d3) == d1 + "_" + d2 + "_" + w + "_" + d3
  {
    var s := d1 + [c1] + " " + d2 + [c2] + " " + w + " " + d3;
    var s7 := d1 + "  " + d2 + "  " + w + " " + d3;
    var s9 := d1 + "_" + d2 + "  " + w + "_" + d3;
    var r := d1 + "_" + d2 + "_" + w + "_" + d3;
    NumbersThenWordStripped(d1, c1, d2, c2, w, d3);
    NumbersThenWordBlanked(d1, c1, d2, c2, w, d3);
    NumbersThenWordCapitalized(d1, d2, w, d3);
    NumbersThenWordLeft(d1, d2, w, d3);
    NumbersThenWordRight(d1, d2, w, d3);
    NumbersThenWordSpaceless(d1, d2, w, d3);
    JoinWordsOf(s, s7, s7, s9, r, r);
    RewriteLabelOf(s, s, s, r);
  }

  /** Passes 1 to 6 leave the label alone: it starts and ends with a digit and holds no sign. */
  lemma NumbersThenWordStripped(d1: string, c1: char, d2: string, c2: char, w: string, d3: string)
    requires IsNumber(d1) && IsSeparator(c1) && IsNumber(d2) && IsSeparator(c2)
    requires IsCapitalizedWord(w) && IsNumber(d3)
    ensures var s := d1 + [c1] + " " + d2 + [c2] + " " + w + " " + d3;
            StripSymbols(s) == s && SpellOutSigns(s) == s
  {
    NumbersThenWordInert(d1, c1, d2, c2, w, d3);
    InertLabelStripped(d1 + [c1] + " " + d2 + [c2] + " " + w + " " + d3);
  }

  lemma NumbersThenWordInert(d1: string, c1: char, d2: string, c2: char, w: string, d3: string)
    requires IsNumber(d1) && IsSeparator(c1) && IsNumber(d2) && IsSeparator(c2)
    requires IsCapitalizedWord(w) && IsNumber(d3)
    ensures var s := d1 + [c1] + " " + d2 + [c2] + " " + w + " " + d3;
            Inert(s) && IsWord(s[0]) && IsWord(s[|s| - 1])
  {
    NumberPiece(d1);
    NumberPiece(d2);
    NumberPiece(d3);
    CapitalizedWordPiece(w);
    InertJoined(d1, [c1]);
    InertJoined(d1 + [c1], " ");
    InertJoined(d1 + [c1] + " ", d2);
    InertJoined(d1 + [c1] + " " + d2, [c2]);
    InertJoined(d1 + [c1] + " " + d2 + [c2], " ");
    InertJoined(d1 + [c1] + " " + d2 + [c2] + " ", w);
    InertJoined(d1 + [c1] + " " + d2 + [c2] + " " + w, " ");
    InertJoined(d1 + [c1] + " " + d2 + [c2] + " " + w + " ", d3);
    var s := d1 + [c1] + " " + d2 + [c2] + " " + w + " " + d3;
    assert s[0] == d1[0] && s[|s| - 1] == d3[|d3| - 1];
  }

  /** Pass 7 works character by character. */
  lemma BlankSymbolsAppend(x: string, y: string)
    ensures BlankSymbols(x + y) == BlankSymbols(x) + BlankSymbols(y)
  {
    var s := x + y;
    var r := BlankSymbols(x) + BlankSymbols(y);
    forall i | 0 <= i < |s|
      ensures BlankSymbols(s)[i] == r[i]
    {
      if i < |x| {
        assert s[i] == x[i];
      } else {
        assert s[i] == y[i - |x|];
      }
    }
  }

  /** Pass 7 on one symbol and on a piece of words and spaces. */
  lemma BlankedPiece(c: char, p: string)
    requires !IsWord(c) && !IsSpace(c) && WordsAndSpaces(p)
    ensures BlankSymbols([c]) == " " && BlankSymbols(p) == p
  {
  }

  /** Pass 7 turns both symbols into spaces. */
  lemma NumbersThenWordBlanked(d1: string, c1: char, d2: string, c2: char, w: string, d3: string)
    requires IsNumber(d1) && IsSeparator(c1) && IsNumber(d2) && IsSeparator(c2)
    requires IsCapitalizedWord(w) && IsNumber(d3)
    ensures BlankSymbols(d1 + [c1] + " " + d2 + [c2] + " " + w + " " + d3) == d1 + "  " + d2 + "  " + w + " " + d3
  {
    NumberPiece(d1);
    NumberPiece(d2);
    NumberPiece(d3);
    CapitalizedWordPiece(w);
    BlankedPiece(c1, d1);
    BlankedPiece(c2, d2);
    BlankedPiece(c1, d3);
    BlankedPiece(c1, w);
    BlankedPiece(c1, " ");
    BlankSymbolsAppend(d1 + [c1] + " " + d2 + [c2] + " " + w + " ", d3);
    BlankSymbolsAppend(d1 + [c1] + " " + d2 + [c2] + " " + w, " ");
    BlankSymbolsAppend(d1 + [c1] + " " + d2 + [c2] + " ", w);
    BlankSymbolsAppend(d1 + [c1] + " " + d2 + [c2], " ");
    BlankSymbolsAppend(d1 + [c1] + " " + d2, [c2]);
    BlankSymbolsAppend(d1 + [c1] + " ", d2);
    BlankSymbolsAppend(d1 + [c1], " ");
    BlankSymbolsAppend(d1, [c1]);
    Assoc(d1, " ", " ");
    Assoc(d1 + "  " + d2, " ", " ");
  }

  /** Pass 8 leaves `d1  d2  W d3` alone. */
  lemma NumbersThenWordCapitalized(d1: string, d2: string, w: string, d3: string)
    requires IsNumber(d1) && IsNumber(d2) && IsCapitalizedWord(w) && IsNumber(d3)
    ensures CapitalizeWords(d1 + "  " + d2 + "  " + w + " " + d3, false) == d1 + "  " + d2 + "  " + w + " " + d3
  {
    NumberPiece(d1);
    NumberPiece(d2);
    NumberPiece(d3);
    CapitalizedWordPiece(w);
    assert CapitalizedRuns("  ", false) && CapitalizedRuns(" ", false);
    CapitalizedJoined(d1, "  ");
    CapitalizedJoined(d1 + "  ", d2);
    CapitalizedJoined(d1 + "  " + d2, "  ");
    CapitalizedJoined(d1 + "  " + d2 + "  ", w);
    CapitalizedJoined(d1 + "  " + d2 + "  " + w, " ");
    CapitalizedJoined(d1 + "  " + d2 + "  " + w + " ", d3);
  }

  /** Pass 9 on `d1  d2  W d3`: the spaces before each later number become `_`. */
  lemma NumbersThenWordLeft(d1: string, d2: string, w: string, d3: string)
    requires IsNumber(d1) && IsNumber(d2) && IsCapitalizedWord(w) && IsNumber(d3)
    ensures JoinDigitsLeft(d1 + "  " + d2 + "  " + w + " " + d3, false) == d1 + "_" + d2 + "  " + w + "_" + d3
  {
    NumberPiece(d1);
    CapitalizedWordPiece(w);
    var r3 := " " + d3;
    var r2 := w + r3;
    var r1 := "  " + r2;
    var r0 := "  " + d2 + r1;
    JoinDigitsLeftMatch(" ", d3, []);
    assert " " + d3 + [] == r3 && "_" + d3 + [] == "_" + d3;
    JoinDigitsLeftKeeps(w, r3, false);
    JoinDigitsLeftSpaces("  ", r2, true);
    JoinDigitsLeftMatch("  ", d2, r1);
    JoinDigitsLeftKeeps(d1, r0, false);
    NumbersThenWordLeftShape(d1, d2, w, d3);
  }

  lemma NumbersThenWordLeftShape(d1: string, d2: string, w: string, d3: string)
    ensures d1 + ("  " + d2 + ("  " + (w + (" " + d3)))) == d1 + "  " + d2 + "  " + w + " " + d3
    ensures d1 + ("_" + d2 + ("  " + (w + ("_" + d3)))) == d1 + "_" + d2 + "  " + w + "_" + d3
  {
  }

  /** Pass 10 on `d1_d2  W_d3`: the spaces after the second number become `_`. */
  lemma NumbersThenWordRight(d1: string, d2: string, w: string, d3: string)
    requires IsNumber(d1) && IsNumber(d2) && IsCapitalizedWord(w) && IsNumber(d3)
    ensures JoinDigitsRight(d1 + "_" + d2 + "  " + w + "_" + d3) == d1 + "_" + d2 + "_" + w + "_" + d3
  {
    NumbersThenWordRightTail(d2, w, d3);
    JoinDigitsRightDigits(d1, "_" + (d2 + "  " + (w + "_" + d3)));
    NumbersThenWordRightShape(d1, d2, w, d3);
  }

  lemma NumbersThenWordRightTail(d2: string, w: string, d3: string)
    requires IsNumber(d2) && IsCapitalizedWord(w) && IsNumber(d3)
    ensures JoinDigitsRight("_" + (d2 + "  " + (w + "_" + d3))) == "_" + (d2 + "_" + (w + "_" + d3))
  {
    var t2 := w + "_" + d3;
    WordThenNumberKept(w, d3);
    assert |t2| > 0 && IsWord(t2[0]) by { CapitalizedWordPiece(w); }
    JoinDigitsRightMatch(d2, "  ", t2);
    JoinDigitsRightKeeps("_", d2 + "  " + t2);
  }

  /** Pass 10 leaves `W_d3` alone: its number ends the label. */
  lemma WordThenNumberKept(w: string, d3: string)
    requires IsCapitalizedWord(w) && IsNumber(d3)
    ensures JoinDigitsRight(w + "_" + d3) == w + "_" + d3
  {
    CapitalizedWordPiece(w);
    NoDigitsJoined(w, "_");
    JoinDigitsRightDigits(d3, []);
    assert d3 + [] == d3;
    JoinDigitsRightKeeps(w + "_", d3);
  }

  lemma NumbersThenWordRightShape(d1: string, d2: string, w: string, d3: string)
    ensures d1 + ("_" + (d2 + "  " + (w + "_" + d3))) == d1 + "_" + d2 + "  " + w + "_" + d3
    ensures d1 + ("_" + (d2 + "_" + (w + "_" + d3))) == d1 + "_" + d2 + "_" + w + "_" + d3
  {
  }

  /** Pass 11 on `d1_d2_W_d3`: no whitespace is left. */
  lemma NumbersThenWordSpaceless(d1: string, d2: string, w: string, d3: string)
    requires IsNumber(d1) && IsNumber(d2) && IsCapitalizedWord(w) && IsNumber(d3)
    ensures RemoveWhitespace(d1 + "_" + d2 + "_" + w + "_" + d3) == d1 + "_" + d2 + "_" + w + "_" + d3
  {
    NumberPiece(d1);
    NumberPiece(d2);
    NumberPiece(d3);
    CapitalizedWordPiece(w);
    NoSpacesJoined(d1, "_");
    NoSpacesJoined(d1 + "_", d2);
    NoSpacesJoined(d1 + "_" + d2, "_");
    NoSpacesJoined(d1 + "_" + d2 + "_", w);
    NoSpacesJoined(d1 + "_" + d2 + "_" + w, "_");
    NoSpacesJoined(d1 + "_" + d2 + "_" + w + "_", d3);
    RemoveWhitespaceNoSpaces(d1 + "_" + d2 + "_" + w + "_" + d3);
  }

  // ------------------------------------------------- a numbered word before words

  /**
   * A word and a number, a symbol, then two words:
   * `Address 1: Address Type` -> `Address_1_AddressType`.
   */
  lemma NumberedThenWords(a: string, d: string, c: char, b: string, e: string, fallback: Option<string>)
    requires IsCapitalizedWord(a) && IsNumber(d) && IsSeparator(c) && IsCapitalizedWord(b) && IsCapitalizedWord(e)
    ensures RewriteLabel(a + " " + d + [c] + " " + b + " " + e) == a + "_" + d + "_" + b + e
    ensures NormalizeLabel(Some(a + " " + d + [c] + " " + b + " " + e), fallback) == Success(a + "_" + d + "_" + b + e)
  {
    var s := a + " " + d + [c] + " " + b + " " + e;
    var r := a + "_" + d + "_" + b + e;
    NumberedThenWordsRewritten(a, d, c, b, e);
    StartsWithNonDigit(a, "_" + d + "_" + b + e);
    NumberedThenWordsShape(a, d, b, e);
    NormalizedAs(s, r, fallback);
  }

  lemma NumberedThenWordsRewritten(a: string, d: string, c: char, b: string, e: string)
    requires IsCapitalizedWord(a) && IsNumber(d) && IsSeparator(c) && IsCapitalizedWord(b) && IsCapitalizedWord(e)
    ensures RewriteLabel(a + " " + d + [c] + " " + b + " " + e) == a + "_" + d + "_" + b + e
  {
    var s := a + " " + d + [c] + " " + b + " " + e;
    var s7 := a + " " + d + "  " + b + " " + e;
    var s9 := a + "_" + d + "  " + b + " " + e;
    var s10 := a + "_" + d + "_" + b + " " + e;
    var r := a + "_" + d + "_" + b + e;
    NumberedThenWordsStripped(a, d, c, b, e);
    NumberedThenWordsBlanked(a, d, c, b, e);
    NumberedThenWordsCapitalized(a, d, b, e);
    NumberedThenWordsLeft(a, d, b, e);
    NumberedThenWordsRight(a, d, b, e);
    NumberedThenWordsSpaceless(a, d, b, e);
    JoinWordsOf(s, s7, s7, s9, s10, r);
    RewriteLabelOf(s, s, s, r);
  }

  lemma NumberedThenWordsShape(a: string, d: string, b: string, e: string)
    ensures a + ("_" + d + "_" + b + e) == a + "_" + d + "_" + b + e
  {
  }

  lemma NumberedThenWordsStripped(a: string, d: string, c: char, b: string, e: string)
    requires IsCapitalizedWord(a) && IsNumber(d) && IsSeparator(c) && IsCapitalizedWord(b) && IsCapitalizedWord(e)
    ensures var s := a + " " + d + [c] + " " + b + " " + e;
            StripSymbols(s) == s && SpellOutSigns(s) == s
  {
    NumberedThenWordsInert(a, d, c, b, e);
    InertLabelStripped(a + " " + d + [c] + " " + b + " " + e);
  }

  lemma NumberedThenWordsInert(a: string, d: string, c: char, b: string, e: string)
    requires IsCapitalizedWord(a) && IsNumber(d) && IsSeparator(c) && IsCapitalizedWord(b) && IsCapitalizedWord(e)
    ensures var s := a + " " + d + [c] + " " + b + " " + e;
            Inert(s) && IsWord(s[0]) && IsWord(s[|s| - 1])
  {
    CapitalizedWordPiece(a);
    NumberPiece(d);
    CapitalizedWordPiece(b);
    CapitalizedWordPiece(e);
    InertJoined(a, " ");
    InertJoined(a + " ", d);
    InertJoined(a + " " + d, [c]);
    InertJoined(a + " " + d + [c], " ");
    InertJoined(a + " " + d + [c] + " ", b);
    InertJoined(a + " " + d + [c] + " " + b, " ");
    InertJoined(a + " " + d + [c] + " " + b + " ", e);
    var s := a + " " + d + [c] + " " + b + " " + e;
    assert s[0] == a[0] && s[|s| - 1] == e[|e| - 1];
  }

  /** Pass 7 turns the symbol into a space. */
  lemma NumberedThenWordsBlanked(a: string, d: string, c: char, b: string, e: string)
    requires IsCapitalizedWord(a) && IsNumber(d) && IsSeparator(c) && IsCapitalizedWord(b) && IsCapitalizedWord(e)
    ensures BlankSymbols(a + " " + d + [c] + " " + b + " " + e) == a + " " + d + "  " + b + " " + e
  {
    CapitalizedWordPiece(a);
    NumberPiece(d);
    CapitalizedWordPiece(b);
    CapitalizedWordPiece(e);
    BlankedPiece(c, a);
    BlankedPiece(c, d);
    BlankedPiece(c, b);
    BlankedPiece(c, e);
    BlankedPiece(c, " ");
    BlankSymbolsAppend(a + " " + d + [c] + " " + b + " ", e);
    BlankSymbolsAppend(a + " " + d + [c] + " " + b, " ");
    BlankSymbolsAppend(a + " " + d + [c] + " ", b);
    BlankSymbolsAppend(a + " " + d + [c], " ");
    BlankSymbolsAppend(a + " " + d, [c]);
    BlankSymbolsAppend(a + " ", d);
    BlankSymbolsAppend(a, " ");
    Assoc(a + " " + d, " ", " ");
  }

  /** Pass 8 leaves `A d  B E` alone. */
  lemma NumberedThenWordsCapitalized(a: string, d: string, b: string, e: string)
    requires IsCapitalizedWord(a) && IsNumber(d) && IsCapitalizedWord(b) && IsCapitalizedWord(e)
    ensures CapitalizeWords(a + " " + d + "  " + b + " " + e, false) == a + " " + d + "  " + b + " " + e
  {
    CapitalizedWordPiece(a);
    NumberPiece(d);
    CapitalizedWordPiece(b);
    CapitalizedWordPiece(e);
    assert CapitalizedRuns("  ", false) && CapitalizedRuns(" ", false);
    CapitalizedJoined(a, " ");
    CapitalizedJoined(a + " ", d);
    CapitalizedJoined(a + " " + d, "  ");
    CapitalizedJoined(a + " " + d + "  ", b);
    CapitalizedJoined(a + " " + d + "  " + b, " ");
    CapitalizedJoined(a + " " + d + "  " + b + " ", e);
  }

  /** Pass 9 on `A d  B E`: the space before the number becomes `_`. */
  lemma NumberedThenWordsLeft(a: string, d: string, b: string, e: string)
    requires IsCapitalizedWord(a) && IsNumber(d) && IsCapitalizedWord(b) && IsCapitalizedWord(e)
    ensures JoinDigitsLeft(a + " " + d + "  " + b + " " + e, false) == a + "_" + d + "  " + b + " " + e
  {
    CapitalizedWordPiece(a);
    CapitalizedWordPiece(b);
    CapitalizedWordPiece(e);
    var r3 := " " + e;
    var r2 := b + r3;
    var r1 := "  " + r2;
    var r0 := " " + d + r1;
    JoinDigitsLeftNoDigits(e, false);
    JoinDigitsLeftSpaces(" ", e, true);
    JoinDigitsLeftKeeps(b, r3, false);
    JoinDigitsLeftSpaces("  ", r2, true);
    JoinDigitsLeftMatch(" ", d, r1);
    JoinDigitsLeftKeeps(a, r0, false);
    NumberedThenWordsLeftShape(a, d, b, e);
  }

  lemma NumberedThenWordsLeftShape(a: string, d: string, b: string, e: string)
    ensures a + (" " + d + ("  " + (b + (" " + e)))) == a + " " + d + "  " + b + " " + e
    ensures a + ("_" + d + ("  " + (b + (" " + e)))) == a + "_" + d + "  " + b + " " + e
  {
  }

  /** Pass 10 on `A_d  B E`: the spaces after the number become `_`. */
  lemma NumberedThenWordsRight(a: string, d: string, b: string, e: string)
    requires IsCapitalizedWord(a) && IsNumber(d) && IsCapitalizedWord(b) && IsCapitalizedWord(e)
    ensures JoinDigitsRight(a + "_" + d + "  " + b + " " + e) == a + "_" + d + "_" + b + " " + e
  {
    CapitalizedWordPiece(a);
    CapitalizedWordPiece(b);
    CapitalizedWordPiece(e);
    NoDigitsJoined(a, "_");
    NoDigitsJoined(b, " ");
    NoDigitsJoined(b + " ", e);
    JoinDigitsRightNoDigits(b + " " + e);
    JoinDigitsRightMatch(d, "  ", b + " " + e);
    JoinDigitsRightKeeps(a + "_", d + "  " + (b + " " + e));
    NumberedThenWordsRightShape(a, d, b, e);
  }

  lemma NumberedThenWordsRightShape(a: string, d: string, b: string, e: string)
    ensures a + "_" + (d + "  " + (b + " " + e)) == a + "_" + d + "  " + b + " " + e
    ensures a + "_" + (d + "_" + (b + " " + e)) == a + "_" + d + "_" + b + " " + e
  {
  }

  /** Pass 11 on `A_d_B E`: the last space goes. */
  lemma NumberedThenWordsSpaceless(a: string, d: string, b: string, e: string)
    requires IsCapitalizedWord(a) && IsNumber(d) && IsCapitalizedWord(b) && IsCapitalizedWord(e)
    ensures RemoveWhitespace(a + "_" + d + "_" + b + " " + e) == a + "_" + d + "_" + b + e
  {
    CapitalizedWordPiece(a);
    NumberPiece(d);
    CapitalizedWordPiece(b);
    CapitalizedWordPiece(e);
    NoSpacesJoined(a, "_");
    NoSpacesJoined(a + "_", d);
    NoSpacesJoined(a + "_" + d, "_");
    NoSpacesJoined(a + "_" + d + "_", b);
    assert AllSpaces(" ");
    RemoveWhitespaceBetween(a + "_" + d + "_" + b, " ", e);
    RemoveWhitespaceNoSpaces(e);
  }

  // ------------------------------------------------- a gap between two words

  /**
   * A run of symbols and spaces between two words that passes 1 to 4 leave alone:
   * no `\w`, no line feed, no `[`, no quote.
   */
  predicate IsGap(sep: string) {
    |sep| > 0 && forall i :: 0 <= i < |sep| ==> !IsWord(sep[i]) && sep[i] != '\n' && sep[i] != '[' && !IsQuote(sep[i])
  }

  /**
   * Two words with a gap between them and `+` signs after them: the gap goes, the
   * signs are spelled out. `Semi---Annual` -> `SemiAnnual`, `B-B+++` -> `BBPlusPlusPlus`.
   */
  lemma GapBetweenWords(a: string, sep: string, b: string, n: nat, fallback: Option<string>)
    requires IsCapitalizedWord(a) && IsGap(sep) && IsCapitalizedWord(b)
    ensures RewriteLabel(a + sep + b + Repeat('+', n)) == a + b + RepeatWord("Plus", n)
    ensures NormalizeLabel(Some(a + sep + b + Repeat('+', n)), fallback) == Success(a + b + RepeatWord("Plus", n))
  {
    var s := a + sep + b + Repeat('+', n);
    var bp := b + RepeatWord("Plus", n);
    GapBetweenWordsStripped(a, sep, b, n);
    GapBetweenWordsSpelled(a, sep, b, n);
    GapBetweenWordsJoined(a, sep, bp);
    Assoc(a, b, RepeatWord("Plus", n));
    RewriteLabelOf(s, s, a + sep + bp, a + bp);
    StartsWithNonDigit(a, bp);
    NormalizedAs(s, a + bp, fallback);
  }

  /** Passes 1 to 4 leave `a sep b+++` alone. */
  lemma GapBetweenWordsStripped(a: string, sep: string, b: string, n: nat)
    requires IsCapitalizedWord(a) && IsGap(sep) && IsCapitalizedWord(b)
    ensures StripSymbols(a + sep + b + Repeat('+', n)) == a + sep + b + Repeat('+', n)
  {
    GapLabelEnds(a, sep, b, n);
    StripSymbolsKeeps(a + sep + b + Repeat('+', n));
  }

  /** `a sep b+++` starts with `\w`, ends with `\w` or `+`, and holds no `[` and no quote. */
  lemma GapLabelEnds(a: string, sep: string, b: string, n: nat)
    requires IsCapitalizedWord(a) && IsGap(sep) && IsCapitalizedWord(b)
    ensures var s := a + sep + b + Repeat('+', n);
      && |s| > 0 && IsWord(s[0]) && KeptAtEnd(s[|s| - 1])
      && forall i :: 0 <= i < |s| ==> s[i] != '[' && !IsQuote(s[i])
  {
    var s := a + sep + b + Repeat('+', n);
    forall i | 0 <= i < |s|
      ensures s[i] != '[' && !IsQuote(s[i])
    {
      if i < |a| {
        assert s[i] == a[i];
      } else if i < |a| + |sep| {
        assert s[i] == sep[i - |a|];
      } else if i < |a| + |sep| + |b| {
        assert s[i] == b[i - |a| - |sep|];
      } else {
        assert s[i] == Repeat('+', n)[i - |a| - |sep| - |b|];
      }
    }
    assert s[0] == a[0];
    if n == 0 {
      assert s[|s| - 1] == b[|b| - 1];
    } else {
      assert s[|s| - 1] == '+';
    }
  }

  /** Passes 5 and 6: the gap's signs have a word after them and stay; the trailing `+` are spelled out. */
  lemma GapBetweenWordsSpelled(a: string, sep: string, b: string, n: nat)
    requires IsCapitalizedWord(a) && IsGap(sep) && IsCapitalizedWord(b)
    ensures SpellOutSigns(a + sep + b + Repeat('+', n)) == a + sep + (b + RepeatWord("Plus", n))
    ensures IsCapitalizedWord(b + RepeatWord("Plus", n))
  {
    var x := a + sep;
    var y := b + Repeat('+', n);
    assert a + sep + b + Repeat('+', n) == x + y;
    GapSpelledPieces(a, sep, b, n);
    MinusBeforeWordKept(x, y);
    PlusAfterWordSpelled(x, b, n);
  }

  /** Pass 6 on `x + b+++`: the trailing `+` signs after the word b are spelled out. */
  lemma PlusAfterWordSpelled(x: string, b: string, n: nat)
    requires forall i :: 0 <= i < |x| ==> x[i] != '\n'
    requires IsCapitalizedWord(b)
    ensures SpellOutTrailing(x + (b + Repeat('+', n)), '+', "Plus") == x + (b + RepeatWord("Plus", n))
    ensures IsCapitalizedWord(b + RepeatWord("Plus", n))
  {
    var y := b + Repeat('+', n);
    assert WordAhead(y) by {
      assert y[0] == b[0];
    }
    SpellOutBeforeWord(x, y, '+', "Plus");
    SpellOutTrailingWord(b, '+', "Plus", n);
  }

  /** Pass 5 keeps `x + y` when every `-` of it lies in x and y starts with a word. */
  lemma MinusBeforeWordKept(x: string, y: string)
    requires forall i :: 0 <= i < |x| ==> x[i] != '\n'
    requires WordAhead(y) && forall i :: 0 <= i < |y| ==> y[i] != '-'
    ensures SpellOutTrailing(x + y, '-', "Minus") == x + y
  {
    SpellOutBeforeWord(x, y, '-', "Minus");
  }

  lemma GapSpelledPieces(a: string, sep: string, b: string, n: nat)
    requires IsCapitalizedWord(a) && IsGap(sep) && IsCapitalizedWord(b)
    ensures forall i :: 0 <= i < |a + sep| ==> (a + sep)[i] != '\n'
    ensures WordAhead(b + Repeat('+', n))
    ensures forall i :: 0 <= i < |b + Repeat('+', n)| ==> (b + Repeat('+', n))[i] != '-'
  {
    var x := a + sep;
    var y := b + Repeat('+', n);
    assert forall i :: |a| <= i < |x| ==> x[i] == sep[i - |a|];
    assert y[0] == b[0];
    assert forall i :: |b| <= i < |y| ==> y[i] == '+';
  }

  /** Passes 7 to 11: the gap becomes spaces, which are then removed. */
  lemma GapBetweenWordsJoined(a: string, sep: string, bp: string)
    requires IsCapitalizedWord(a) && IsGap(sep) && IsCapitalizedWord(bp)
    ensures JoinWords(a + sep + bp) == a + bp
  {
    var sp := BlankSymbols(sep);
    var s7 := a + sp + bp;
    GapBlanked(a, sep, bp);
    GapCapitalized(a, sp, bp);
    GapNoDigits(a, sp, bp);
    JoinDigitsLeftNoDigits(s7, false);
    JoinDigitsRightNoDigits(s7);
    CapitalizedWordPiece(a);
    CapitalizedWordPiece(bp);
    RemoveWhitespaceBetween(a, sp, bp);
    RemoveWhitespaceNoSpaces(bp);
    JoinWordsOf(a + sep + bp, s7, s7, s7, s7, a + bp);
  }

  /** Pass 7 turns the gap into as many spaces. */
  lemma GapBlanked(a: string, sep: string, bp: string)
    requires IsCapitalizedWord(a) && IsGap(sep) && IsCapitalizedWord(bp)
    ensures |BlankSymbols(sep)| > 0 && AllSpaces(BlankSymbols(sep))
    ensures BlankSymbols(a + sep + bp) == a + BlankSymbols(sep) + bp
  {
    var s := a + sep + bp;
    var sp := BlankSymbols(sep);
    var u := a + sp + bp;
    var r := BlankSymbols(s);
    forall i | 0 <= i < |s|
      ensures r[i] == u[i]
    {
      if i < |a| {
        assert s[i] == a[i] && u[i] == a[i];
      } else if i < |a| + |sep| {
        assert s[i] == sep[i - |a|] && u[i] == sp[i - |a|];
      } else {
        assert s[i] == bp[i - |a| - |sep|] && u[i] == bp[i - |a| - |sep|];
      }
    }
  }

  /** Pass 8 leaves two capitalized words alone, whatever spaces are between them. */
  lemma GapCapitalized(a: string, sp: string, bp: string)
    requires IsCapitalizedWord(a) && |sp| > 0 && AllSpaces(sp) && IsCapitalizedWord(bp)
    ensures CapitalizeWords(a + sp + bp, false) == a + sp + bp
  {
    CapitalizedWordPiece(a);
    CapitalizedWordPiece(bp);
    CapitalizeAround(a, sp, bp);
  }

  lemma GapNoDigits(a: string, sp: string, bp: string)
    requires IsCapitalizedWord(a) && AllSpaces(sp) && IsCapitalizedWord(bp)
    ensures NoDigits(a + sp + bp)
  {
    var s := a + sp + bp;
    forall i | 0 <= i < |s|
      ensures !IsDigit(s[i])
    {
      if i < |a| {
        assert s[i] == a[i];
      } else if i < |a| + |sp| {
        assert s[i] == sp[i - |a|];
      } else {
        assert s[i] == bp[i - |a| - |sp|];
      }
    }
  }

  // ------------------------------------------------- a bracketed code before words

  /** No character passes 1 to 6 treat specially, but for `-`: no bracket, line feed, `+` or quote. */
  predicate Unmarked(s: string) {
    forall i :: 0 <= i < |s| ==> s[i] != '[' && s[i] != ']' && s[i] != '\n' && s[i] != '+' && !IsQuote(s[i])
  }

  lemma UnmarkedJoined(x: string, y: string)
    requires Unmarked(x) && Unmarked(y)
    ensures Unmarked(x + y)
  {
    assert forall i :: |x| <= i < |x + y| ==> (x + y)[i] == y[i - |x|];
  }

  /** Word characters and plain spaces are unmarked. */
  lemma WordsUnmarked(s: string)
    requires forall i :: 0 <= i < |s| ==> IsWord(s[i]) || s[i] == ' '
    ensures Unmarked(s)
  {
  }

  /** A code such as `DEPRECATED - 2019.R05`: a word, a number, a capital and a number. */
  predicate IsCode(c: string, d: string, l: char, n: string) {
    IsCapitalizedWord(c) && IsNumber(d) && IsLetter(l) && !IsLower(l) && IsNumber(n)
  }

  /** Words after a bracket, each after a space, as passes 1 to 10 see them. */
  predicate IsWordsTail(t: string) {
    |t| > 0 && t[0] == ' ' && IsWord(t[|t| - 1]) &&
    WordsAndSpaces(t) && NoDigits(t) && Inert(t) && Unmarked(t) && CapitalizedRuns(t, false)
  }

  lemma WordsTail(x: string, y: string, z: string)
    requires IsCapitalizedWord(x) && IsCapitalizedWord(y) && IsCapitalizedWord(z)
    ensures IsWordsTail(" " + x + " " + y + " " + z)
  {
    CapitalizedWordPiece(x);
    CapitalizedWordPiece(y);
    CapitalizedWordPiece(z);
    WordsUnmarked(x);
    WordsUnmarked(y);
    WordsUnmarked(z);
    WordsUnmarked(" ");
    assert NoDigits(" ") && Inert(" ") && WordsAndSpaces(" ") && CapitalizedRuns(" ", false);
    var t1 := " " + x;
    var t2 := t1 + " ";
    var t3 := t2 + y;
    var t4 := t3 + " ";
    var t := t4 + z;
    WordsJoined(" ", x); WordsJoined(t1, " "); WordsJoined(t2, y); WordsJoined(t3, " "); WordsJoined(t4, z);
    NoDigitsJoined(" ", x); NoDigitsJoined(t1, " "); NoDigitsJoined(t2, y); NoDigitsJoined(t3, " "); NoDigitsJoined(t4, z);
    InertJoined(" ", x); InertJoined(t1, " "); InertJoined(t2, y); InertJoined(t3, " "); InertJoined(t4, z);
    UnmarkedJoined(" ", x); UnmarkedJoined(t1, " "); UnmarkedJoined(t2, y); UnmarkedJoined(t3, " "); UnmarkedJoined(t4, z);
    CapitalizedJoined(" ", x); CapitalizedJoined(t1, " "); CapitalizedJoined(t2, y);
    CapitalizedJoined(t3, " "); CapitalizedJoined(t4, z);
    assert t[0] == ' ' && t[|t| - 1] == z[|z| - 1];
  }

  /** Pass 11 on the words after the bracket glues them. */
  lemma WordsTailGlued(x: string, y: string, z: string)
    requires IsCapitalizedWord(x) && IsCapitalizedWord(y) && IsCapitalizedWord(z)
    ensures RemoveWhitespace(" " + x + " " + y + " " + z) == x + y + z
  {
    CapitalizedWordPiece(x);
    CapitalizedWordPiece(y);
    CapitalizedWordPiece(z);
    assert AllSpaces(" ") && NoSpaces([]);
    RemoveWhitespaceNoSpaces(z);
    RemoveWhitespaceBetween(y, " ", z);
    RemoveWhitespaceBetween(x, " ", y + " " + z);
    RemoveWhitespaceBetween([], " ", x + " " + (y + " " + z));
    WordsTailParts(x, y, z);
  }

  lemma WordsTailParts(x: string, y: string, z: string)
    ensures [] + " " + (x + " " + (y + " " + z)) == " " + x + " " + y + " " + z
    ensures x + (y + z) == x + y + z
  {
  }

  /**
   * A bracketed code before three words:
   * `[DEPRECATED - 2019.R05] Sunrise Time Units` -> `_DEPRECATED_2019_R05_SunriseTimeUnits`.
   * The `-` stays through passes 5 and 6 because a word follows it; pass 7 blanks it and
   * the `.`; passes 9 and 10 join the number to its neighbours with `_`.
   */
  lemma BracketedCodeThenWords(c: string, d: string, l: char, n: string, x: string, y: string, z: string,
                               fallback: Option<string>)
    requires IsCode(c, d, l, n) && IsCapitalizedWord(x) && IsCapitalizedWord(y) && IsCapitalizedWord(z)
    ensures RewriteLabel("[" + c + " - " + d + "." + [l] + n + "]" + " " + x + " " + y + " " + z) ==
            "_" + c + "_" + d + "_" + [l] + n + "_" + x + y + z
    ensures NormalizeLabel(Some("[" + c + " - " + d + "." + [l] + n + "]" + " " + x + " " + y + " " + z), fallback) ==
            Success("_" + c + "_" + d + "_" + [l] + n + "_" + x + y + z)
  {
    var p := "[" + c + " - " + d + "." + [l] + n + "]";
    var t := " " + x + " " + y + " " + z;
    var w := "_" + c + "_" + d + "_" + [l] + n + "_";
    var r := "_" + c + "_" + d + "_" + [l] + n + "_" + x + y + z;
    WordsTail(x, y, z);
    WordsTailGlued(x, y, z);
    BracketedCodeRewritten(c, d, l, n, t);
    Reassociated(p, x, y, z);
    CodeResultParts(w, x, y, z);
    StartsWithNonDigit("_", c + "_" + d + "_" + [l] + n + "_" + x + y + z);
    CodeResultStart(c, d, l, n, x, y, z);
    NormalizedAs(p + " " + x + " " + y + " " + z, r, fallback);
  }

  lemma CodeResultParts(w: string, x: string, y: string, z: string)
    ensures w + (x + y + z) == w + x + y + z
  {
  }

  lemma CodeResultStart(c: string, d: string, l: char, n: string, x: string, y: string, z: string)
    ensures "_" + (c + "_" + d + "_" + [l] + n + "_" + x + y + z) == "_" + c + "_" + d + "_" + [l] + n + "_" + x + y + z
  {
  }

  /** The code's label rewritten, for any words after it. */
  lemma BracketedCodeRewritten(c: string, d: string, l: char, n: string, t: string)
    requires IsCode(c, d, l, n) && IsWordsTail(t)
    ensures RewriteLabel("[" + c + " - " + d + "." + [l] + n + "]" + t) ==
            "_" + c + "_" + d + "_" + [l] + n + "_" + RemoveWhitespace(t)
  {
    var s1 := "_" + c + " - " + d + "." + [l] + n + "_" + t;
    var s7 := "_" + c + "   " + d + " " + [l] + n + "_" + t;
    var s9 := "_" + c + "_" + d + " " + [l] + n + "_" + t;
    var s10 := "_" + c + "_" + d + "_" + [l] + n + "_" + t;
    var w := "_" + c + "_" + d + "_" + [l] + n + "_";
    CodeStripped(c, d, l, n, t);
    CodeSpelled(c, d, l, n, t);
    CodeBlanked(c, d, l, n, t);
    CodeCapitalized(c, d, l, n, t);
    CodeLeft(c, d, l, n, t);
    CodeRight(c, d, l, n, t);
    CodeSpaceless(c, d, l, n, t);
    JoinWordsOf(s1, s7, s7, s9, s10, w + RemoveWhitespace(t));
    RewriteLabelOf("[" + c + " - " + d + "." + [l] + n + "]" + t, s1, s1, w + RemoveWhitespace(t));
  }

  /** The code between the brackets has no bracket, line feed, `+` or quote. */
  lemma CodeUnmarked(c: string, d: string, l: char, n: string)
    requires IsCode(c, d, l, n)
    ensures Unmarked(c + " - " + d + "." + [l] + n)
  {
    WordsUnmarked(c);
    WordsUnmarked(d);
    WordsUnmarked([l]);
    WordsUnmarked(n);
    assert Unmarked(" - ") && Unmarked(".");
    UnmarkedJoined(c, " - ");
    UnmarkedJoined(c + " - ", d);
    UnmarkedJoined(c + " - " + d, ".");
    UnmarkedJoined(c + " - " + d + ".", [l]);
    UnmarkedJoined(c + " - " + d + "." + [l], n);
  }

  /** Passes 1 to 4: the brackets become `_`, nothing else changes. */
  lemma CodeStripped(c: string, d: string, l: char, n: string, t: string)
    requires IsCode(c, d, l, n) && IsWordsTail(t)
    ensures StripSymbols("[" + c + " - " + d + "." + [l] + n + "]" + t) == "_" + c + " - " + d + "." + [l] + n + "_" + t
  {
    var inner := c + " - " + d + "." + [l] + n;
    var s1 := "_" + inner + "_" + t;
    CodeUnmarked(c, d, l, n);
    BracketedSegment(inner, t);
    assert UnderscoreBrackets(t) == t;
    StrippedCodeUnmarked(c, d, l, n, t);
    assert UnderscoreBrackets(s1) == s1;
    assert s1[0] == '_' && s1[|s1| - 1] == t[|t| - 1];
    StripSymbolsKeeps(s1);
    CodeBracketParts(c, d, l, n, t);
  }

  /** After passes 1 to 4 nothing but the `-` is special. */
  lemma StrippedCodeUnmarked(c: string, d: string, l: char, n: string, t: string)
    requires IsCode(c, d, l, n) && IsWordsTail(t)
    ensures Unmarked("_" + c + " - " + d + "." + [l] + n + "_" + t)
    ensures Unmarked("_" + (c + " - " + d + "." + [l] + n) + "_" + t)
  {
    var inner := c + " - " + d + "." + [l] + n;
    CodeUnmarked(c, d, l, n);
    assert Unmarked("_");
    UnmarkedJoined("_", inner);
    UnmarkedJoined("_" + inner, "_");
    UnmarkedJoined("_" + inner + "_", t);
    CodeBracketParts(c, d, l, n, t);
  }

  lemma CodeBracketParts(c: string, d: string, l: char, n: string, t: string)
    ensures "[" + (c + " - " + d + "." + [l] + n) + "]" + t == "[" + c + " - " + d + "." + [l] + n + "]" + t
    ensures "_" + (c + " - " + d + "." + [l] + n) + "_" + t == "_" + c + " - " + d + "." + [l] + n + "_" + t
  {
  }

  /** Passes 5 and 6: a number follows the `-`, so it stays; there is no `+`. */
  lemma CodeSpelled(c: string, d: string, l: char, n: string, t: string)
    requires IsCode(c, d, l, n) && IsWordsTail(t)
    ensures var s1 := "_" + c + " - " + d + "." + [l] + n + "_" + t;
      SpellOutSigns(s1) == s1
  {
    var s1 := "_" + c + " - " + d + "." + [l] + n + "_" + t;
    var x := "_" + c + " - ";
    var y := d + "." + [l] + n + "_" + t;
    StrippedCodeUnmarked(c, d, l, n, t);
    CodeTailInert(d, l, n, t);
    assert forall i :: 0 <= i < |x| ==> x[i] == s1[i];
    assert WordAhead(y) by {
      assert y[0] == d[0];
    }
    CodeSpelledParts(c, d, l, n, t);
    MinusBeforeWordKept(x, y);
  }

  lemma CodeSpelledParts(c: string, d: string, l: char, n: string, t: string)
    ensures "_" + c + " - " + (d + "." + [l] + n + "_" + t) == "_" + c + " - " + d + "." + [l] + n + "_" + t
  {
  }

  /** What follows the `-` holds no sign. */
  lemma CodeTailInert(d: string, l: char, n: string, t: string)
    requires IsNumber(d) && IsLetter(l) && IsNumber(n) && IsWordsTail(t)
    ensures Inert(d + "." + [l] + n + "_" + t)
  {
    NumberPiece(d);
    NumberPiece(n);
    assert Inert(".") && Inert([l]) && Inert("_");
    InertJoined(d, ".");
    InertJoined(d + ".", [l]);
    InertJoined(d + "." + [l], n);
    InertJoined(d + "." + [l] + n, "_");
    InertJoined(d + "." + [l] + n + "_", t);
  }

  /** Pass 7: the `-` and the `.` become spaces. */
  lemma CodeBlanked(c: string, d: string, l: char, n: string, t: string)
    requires IsCode(c, d, l, n) && IsWordsTail(t)
    ensures BlankSymbols("_" + c + " - " + d + "." + [l] + n + "_" + t) == "_" + c + "   " + d + " " + [l] + n + "_" + t
  {
    CapitalizedWordPiece(c);
    NumberPiece(d);
    NumberPiece(n);
    assert WordsAndSpaces("_") && WordsAndSpaces([l]);
    BlankedPiece('.', "_");
    BlankedPiece('.', c);
    BlankedPiece('.', d);
    BlankedPiece('.', [l]);
    BlankedPiece('.', n);
    BlankedPiece('.', t);
    BlankedDash();
    BlankSymbolsAppend("_" + c + " - " + d + "." + [l] + n + "_", t);
    BlankSymbolsAppend("_" + c + " - " + d + "." + [l] + n, "_");
    BlankSymbolsAppend("_" + c + " - " + d + "." + [l], n);
    BlankSymbolsAppend("_" + c + " - " + d + ".", [l]);
    BlankSymbolsAppend("_" + c + " - " + d, ".");
    BlankSymbolsAppend("_" + c + " - ", d);
    BlankSymbolsAppend("_" + c, " - ");
    BlankSymbolsAppend("_", c);
  }

  lemma BlankedDash()
    ensures BlankSymbols(" - ") == "   "
  {
    var r := BlankSymbols(" - ");
    assert r[0] == ' ' && r[1] == ' ' && r[2] == ' ';
  }

  /** Pass 8 leaves `_c   d lN_ t` alone: no run starts with a lowercase letter. */
  lemma CodeCapitalized(c: string, d: string, l: char, n: string, t: string)
    requires IsCode(c, d, l, n) && IsWordsTail(t)
    ensures var s7 := "_" + c + "   " + d + " " + [l] + n + "_" + t;
      CapitalizeWords(s7, false) == s7
  {
    CapitalizedWordPiece(c);
    NumberPiece(d);
    NumberPiece(n);
    assert CapitalizedRuns("_", false) && CapitalizedRuns("   ", false) && CapitalizedRuns(" ", false);
    assert CapitalizedRuns([l], false);
    CapitalizedJoined("_", c);
    CapitalizedJoined("_" + c, "   ");
    CapitalizedJoined("_" + c + "   ", d);
    CapitalizedJoined("_" + c + "   " + d, " ");
    CapitalizedJoined("_" + c + "   " + d + " ", [l]);
    CapitalizedJoined("_" + c + "   " + d + " " + [l], n);
    CapitalizedJoined("_" + c + "   " + d + " " + [l] + n, "_");
    CapitalizedJoined("_" + c + "   " + d + " " + [l] + n + "_", t);
  }

  /** Pass 9: the spaces between the word and the number become `_`. */
  lemma CodeLeft(c: string, d: string, l: char, n: string, t: string)
    requires IsCode(c, d, l, n) && IsWordsTail(t)
    ensures JoinDigitsLeft("_" + c + "   " + d + " " + [l] + n + "_" + t, false) ==
            "_" + c + "_" + d + " " + [l] + n + "_" + t
  {
    CapitalizedWordPiece(c);
    NumberPiece(n);
    var v := [l] + n + "_";
    var r3 := v + t;
    assert NoSpaces([l]) && NoSpaces("_");
    NoSpacesJoined([l], n);
    NoSpacesJoined([l] + n, "_");
    assert v[|v| - 1] == '_';
    JoinDigitsLeftNoDigits(t, true);
    JoinDigitsLeftKeeps(v, t, false);
    assert r3[0] == l;
    JoinDigitsLeftSpaces(" ", r3, true);
    assert AllSpaces("   ") && AllDigits(d);
    JoinDigitsLeftMatch("   ", d, " " + r3);
    NoSpacesJoined("_", c);
    assert ("_" + c)[|"_" + c| - 1] == c[|c| - 1];
    JoinDigitsLeftKeeps("_" + c, "   " + d + (" " + r3), false);
    CodeLeftParts(c, d, l, n, t);
  }

  lemma CodeLeftParts(c: string, d: string, l: char, n: string, t: string)
    ensures ("_" + c) + ("   " + d + (" " + ([l] + n + "_" + t))) == "_" + c + "   " + d + " " + [l] + n + "_" + t
    ensures ("_" + c) + ("_" + d + (" " + ([l] + n + "_" + t))) == "_" + c + "_" + d + " " + [l] + n + "_" + t
  {
  }

  /** Pass 10: the space between the number and the capital becomes `_`. */
  lemma CodeRight(c: string, d: string, l: char, n: string, t: string)
    requires IsCode(c, d, l, n) && IsWordsTail(t)
    ensures JoinDigitsRight("_" + c + "_" + d + " " + [l] + n + "_" + t) == "_" + c + "_" + d + "_" + [l] + n + "_" + t
  {
    CapitalizedWordPiece(c);
    var r3 := [l] + n + "_" + t;
    CodeNumberTail(l, n, t);
    assert r3[0] == l;
    assert NoDigits("_");
    assert AllSpaces(" ");
    JoinDigitsRightMatch(d, " ", r3);
    NoDigitsJoined("_", c);
    NoDigitsJoined("_" + c, "_");
    JoinDigitsRightKeeps("_" + c + "_", d + " " + r3);
    CodeRightParts(c, d, l, n, t);
  }

  /** Pass 10 leaves the capital, its number and the words alone. */
  lemma CodeNumberTail(l: char, n: string, t: string)
    requires IsLetter(l) && IsNumber(n) && IsWordsTail(t)
    ensures JoinDigitsRight([l] + n + "_" + t) == [l] + n + "_" + t
  {
    var u := "_" + t;
    var v := n + u;
    assert NoDigits("_") && NoDigits([l]);
    NoDigitsJoined("_", t);
    JoinDigitsRightNoDigits(u);
    JoinDigitsRightDigits(n, u);
    assert JoinDigitsRight(v) == v;
    JoinDigitsRightKeeps([l], v);
    CodeNumberParts(l, n, t);
  }

  lemma CodeNumberParts(l: char, n: string, t: string)
    ensures [l] + (n + ("_" + t)) == [l] + n + "_" + t
  {
  }

  lemma CodeRightParts(c: string, d: string, l: char, n: string, t: string)
    ensures ("_" + c + "_") + (d + " " + ([l] + n + "_" + t)) == "_" + c + "_" + d + " " + [l] + n + "_" + t
    ensures ("_" + c + "_") + (d + "_" + ([l] + n + "_" + t)) == "_" + c + "_" + d + "_" + [l] + n + "_" + t
  {
  }

  /** Pass 11: only the words' spaces are left to remove. */
  lemma CodeSpaceless(c: string, d: string, l: char, n: string, t: string)
    requires IsCode(c, d, l, n) && IsWordsTail(t)
    ensures RemoveWhitespace("_" + c + "_" + d + "_" + [l] + n + "_" + t) ==
            "_" + c + "_" + d + "_" + [l] + n + "_" + RemoveWhitespace(t)
  {
    CapitalizedWordPiece(c);
    NumberPiece(d);
    NumberPiece(n);
    var w := "_" + c + "_" + d + "_" + [l] + n + "_";
    assert NoSpaces("_") && NoSpaces([l]);
    NoSpacesJoined("_", c);
    NoSpacesJoined("_" + c, "_");
    NoSpacesJoined("_" + c + "_", d);
    NoSpacesJoined("_" + c + "_" + d, "_");
    NoSpacesJoined("_" + c + "_" + d + "_", [l]);
    NoSpacesJoined("_" + c + "_" + d + "_" + [l], n);
    NoSpacesJoined("_" + c + "_" + d + "_" + [l] + n, "_");
    RemoveWhitespaceNoSpaces(w);
    RemoveWhitespaceAppend(w, t);
  }

  // ------------------------------------------------- the test table

  /** `Client Broker` -> `ClientBroker` */
  lemma ClientBroker(fallback: Option<string>)
    ensures NormalizeLabel(Some("Client" + " " + "Broker"), fallback) == Success("Client" + "Broker")
  {
    ClientAndBroker();
    TwoWords("Client", "Broker", fallback);
  }

  /** `Client/Broker` -> `ClientBroker` */
  lemma ClientSlashBroker(fallback: Option<string>)
    ensures NormalizeLabel(Some("Client" + "/" + "Broker"), fallback) == Success("Client" + "Broker")
  {
    ClientAndBroker();
    SymbolBetweenWords("Client", '/', "Broker", fallback);
  }

  /** `Client or Broker` -> `ClientOrBroker` */
  lemma ClientOrBroker(fallback: Option<string>)
    ensures NormalizeLabel(Some("Client" + " " + "or" + " " + "Broker"), fallback) ==
            Success("Client" + "Or" + "Broker")
  {
    ClientAndBroker();
    assert IsPlainWord("or") && Capitalized("or") == "Or";
    ThreeWords("Client", "or", "Broker", fallback);
  }

  lemma ClientAndBroker()
    ensures IsPlainWord("Client") && Capitalized("Client") == "Client"
    ensures IsPlainWord("Broker") && Capitalized("Broker") == "Broker"
  {
    PlainWordPiece("Client");
    PlainWordPiece("Broker");
  }

  /** `Account` -> `Account`, `ReConnect` -> `ReConnect`, `SemiAnnual` -> `SemiAnnual` */
  lemma SingleWords(fallback: Option<string>)
    ensures NormalizeLabel(Some("Account"), fallback) == Success("Account")
    ensures NormalizeLabel(Some("ReConnect"), fallback) == Success("ReConnect")
    ensures NormalizeLabel(Some("SemiAnnual"), fallback) == Success("SemiAnnual")
  {
    assert IsCapitalizedWord("Account") && IsCapitalizedWord("ReConnect") && IsCapitalizedWord("SemiAnnual");
    CapitalizedWordNormalized("Account", fallback);
    CapitalizedWordNormalized("ReConnect", fallback);
    CapitalizedWordNormalized("SemiAnnual", fallback);
  }

  /** `Semi-Annual` -> `SemiAnnual` */
  lemma SemiHyphenAnnual(fallback: Option<string>)
    ensures NormalizeLabel(Some("Semi" + "-" + "Annual"), fallback) == Success("Semi" + "Annual")
  {
    SemiAnnualWords();
    assert IsGap("-");
    GapBetweenWords("Semi", "-", "Annual", 0, fallback);
    assert "Semi" + "-" + "Annual" + Repeat('+', 0) == "Semi" + "-" + "Annual" && "Semi" + "Annual" + RepeatWord("Plus", 0) == "Semi" + "Annual";
  }

  /** `Semi---Annual` -> `SemiAnnual` */
  lemma SemiHyphensAnnual(fallback: Option<string>)
    ensures NormalizeLabel(Some("Semi" + "---" + "Annual"), fallback) == Success("Semi" + "Annual")
  {
    SemiAnnualWords();
    assert IsGap("---");
    GapBetweenWords("Semi", "---", "Annual", 0, fallback);
    assert "Semi" + "---" + "Annual" + Repeat('+', 0) == "Semi" + "---" + "Annual" && "Semi" + "Annual" + RepeatWord("Plus", 0) == "Semi" + "Annual";
  }

  /** `Semi - Annual` -> `SemiAnnual` */
  lemma SemiSpacedHyphenAnnual(fallback: Option<string>)
    ensures NormalizeLabel(Some("Semi" + " - " + "Annual"), fallback) == Success("Semi" + "Annual")
  {
    SemiAnnualWords();
    assert IsGap(" - ");
    GapBetweenWords("Semi", " - ", "Annual", 0, fallback);
    assert "Semi" + " - " + "Annual" + Repeat('+', 0) == "Semi" + " - " + "Annual" && "Semi" + "Annual" + RepeatWord("Plus", 0) == "Semi" + "Annual";
  }

  lemma SemiAnnualWords()
    ensures IsCapitalizedWord("Semi") && IsCapitalizedWord("Annual")
  {
  }

  /** `A-` -> `AMinus`, `Aa--` -> `AaMinusMinus` */
  lemma TrailingMinus(fallback: Option<string>)
    ensures NormalizeLabel(Some("A" + "-"), fallback) == Success("A" + "Minus")
    ensures NormalizeLabel(Some("Aa" + "--"), fallback) == Success("Aa" + "MinusMinus")
  {
    TrailingMinusPieces();
    TrailingSigns("A", '-', 1);
    TrailingSigns("Aa", '-', 2);
    StartsWithNonDigit("A", "Minus");
    StartsWithNonDigit("Aa", "MinusMinus");
    NormalizedAs("A" + "-", "A" + "Minus", fallback);
    NormalizedAs("Aa" + "--", "Aa" + "MinusMinus", fallback);
  }

  lemma TrailingMinusPieces()
    ensures IsCapitalizedWord("A") && IsCapitalizedWord("Aa")
    ensures Repeat('-', 1) == "-" && Repeat('-', 2) == "--"
    ensures SignWord('-') == "Minus"
    ensures RepeatWord("Minus", 1) == "Minus" && RepeatWord("Minus", 2) == "MinusMinus"
  {
  }

  /** `B-B+++` -> `BBPlusPlusPlus` */
  lemma BBPlusPlusPlus(fallback: Option<string>)
    ensures NormalizeLabel(Some("B" + "-" + "B" + "+++"), fallback) == Success("B" + "B" + "PlusPlusPlus")
  {
    BBPieces();
    GapBetweenWords("B", "-", "B", 3, fallback);
  }

  lemma BBPieces()
    ensures IsCapitalizedWord("B") && IsGap("-")
    ensures Repeat('+', 3) == "+++" && RepeatWord("Plus", 3) == "PlusPlusPlus"
  {
  }

  /** `2% 10, Net 30` -> `_2_10_Net_30` */
  lemma NetThirty(fallback: Option<string>)
    ensures NormalizeLabel(Some("2" + ['%'] + " " + "10" + [','] + " " + "Net" + " " + "30"), fallback) ==
            Success("_" + "2" + "_" + "10" + "_" + "Net" + "_" + "30")
  {
    NetThirtyPieces();
    NumbersThenWord("2", '%', "10", ',', "Net", "30", fallback);
  }

  lemma NetThirtyPieces()
    ensures IsNumber("2") && IsNumber("10") && IsNumber("30") && IsCapitalizedWord("Net")
    ensures IsSeparator('%') && IsSeparator(',')
  {
  }

  /** `Integration Failed (create)` -> `IntegrationFailedCreate` */
  lemma IntegrationFailedCreate(fallback: Option<string>)
    ensures NormalizeLabel(Some("Integration" + " " + "Failed" + " " + ['('] + "create" + [')']), fallback) ==
            Success("Integration" + "Failed" + "Create")
  {
    IntegrationFailedCreateWords();
    assert IsSeparator('(') && IsSeparator(')');
    EnclosedLastWord("Integration", "Failed", '(', "create", ')', fallback);
  }

  lemma IntegrationFailedCreateWords()
    ensures IsPlainWord("Integration") && Capitalized("Integration") == "Integration"
    ensures IsPlainWord("Failed") && Capitalized("Failed") == "Failed"
    ensures IsPlainWord("create") && Capitalized("create") == "Create"
  {
    IntegrationWord();
    FailedWord();
    CreateWord();
  }

  lemma IntegrationWord()
    ensures IsPlainWord("Integration") && Capitalized("Integration") == "Integration"
  {
    PlainWordPiece("Integration");
  }

  lemma FailedWord()
    ensures IsPlainWord("Failed") && Capitalized("Failed") == "Failed"
  {
    PlainWordPiece("Failed");
  }

  lemma CreateWord()
    ensures IsPlainWord("create") && Capitalized("create") == "Create"
  {
    assert ToUpper('c') == 'C';
    assert "create"[1..] == "reate";
  }

  /** `Address 1: Address Type` -> `Address_1_AddressType` */
  lemma AddressType(fallback: Option<string>)
    ensures NormalizeLabel(Some("Address" + " " + "1" + [':'] + " " + "Address" + " " + "Type"), fallback) ==
            Success("Address" + "_" + "1" + "_" + "Address" + "Type")
  {
    AddressTypePieces();
    NumberedThenWords("Address", "1", ':', "Address", "Type", fallback);
  }

  lemma AddressTypePieces()
    ensures IsCapitalizedWord("Address") && IsNumber("1") && IsSeparator(':') && IsCapitalizedWord("Type")
  {
  }

  /** `[DEPRECATED] Sunrise Time Units` -> `_DEPRECATED_SunriseTimeUnits` */
  lemma SunriseTimeUnits(fallback: Option<string>)
    ensures NormalizeLabel(Some("[" + "DEPRECATED" + "]" + " " + "Sunrise" + " " + "Time" + " " + "Units"), fallback) ==
            Success("_" + "DEPRECATED" + "_" + "Sunrise" + "Time" + "Units")
  {
    SunriseTimeUnitsWords();
    assert IsPlainWord("DEPRECATED");
    BracketThenWords("DEPRECATED", "Sunrise", "Time", "Units", fallback);
  }

  lemma SunriseTimeUnitsWords()
    ensures IsPlainWord("Sunrise") && Capitalized("Sunrise") == "Sunrise"
    ensures IsPlainWord("Time") && Capitalized("Time") == "Time"
    ensures IsPlainWord("Units") && Capitalized("Units") == "Units"
  {
    SunriseWord();
    PlainWordPiece("Time");
    PlainWordPiece("Units");
  }

  lemma SunriseWord()
    ensures IsPlainWord("Sunrise") && Capitalized("Sunrise") == "Sunrise"
  {
    PlainWordPiece("Sunrise");
  }

  /** `Doctor's` -> `Doctors` */
  lemma Doctors(fallback: Option<string>)
    ensures NormalizeLabel(Some("Doctor" + "'" + "s"), fallback) == Success("Doctor" + "s")
  {
    assert IsCapitalizedWord("Doctor") && IsLetter("s"[0]);
    QuoteInWord("Doctor", "s", fallback);
  }

  /** `Foo 5 10 20 Bar` -> `Foo_5_10_20_Bar` */
  lemma FooBar(fallback: Option<string>)
    ensures NormalizeLabel(Some("Foo" + " " + "5" + " " + "10" + " " + "20" + " " + "Bar"), fallback) ==
            Success("Foo" + "_" + "5" + "_" + "10" + "_" + "20" + "_" + "Bar")
  {
    NumbersBetweenWords("Foo", "5", "10", "20", "Bar", fallback);
  }

  /** `Address: 20 street` -> `Address_20_Street` */
  lemma AddressStreet(fallback: Option<string>)
    ensures NormalizeLabel(Some("Address" + ":" + " " + "20" + " " + "street"), fallback) ==
            Success("Address" + "_" + "20" + "_" + "Street")
  {
    AddressStreetWords();
    SymbolBeforeNumber("Address", ':', "20", "street", fallback);
  }

  lemma AddressStreetWords()
    ensures IsCapitalizedWord("Address") && IsNumber("20")
    ensures IsPlainWord("street") && Capitalized("street") == "Street"
  {
  }

  /** `Is Preferred` -> `IsPreferred` */
  lemma IsPreferred(fallback: Option<string>)
    ensures NormalizeLabel(Some("Is" + " " + "Preferred"), fallback) == Success("Is" + "Preferred")
  {
    IsPreferredWords();
    TwoWords("Is", "Preferred", fallback);
  }

  lemma IsPreferredWords()
    ensures IsPlainWord("Is") && Capitalized("Is") == "Is"
    ensures IsPlainWord("Preferred") && Capitalized("Preferred") == "Preferred"
  {
    PlainWordPiece("Is");
    PlainWordPiece("Preferred");
  }

  /** `Active` -> `Active` */
  lemma Active(fallback: Option<string>)
    ensures NormalizeLabel(Some("Active"), fallback) == Success("Active")
  {
    assert IsCapitalizedWord("Active");
    CapitalizedWordNormalized("Active", fallback);
  }

  /** A null or empty label with a null or empty fallback: ArgumentNullException. */
  lemma MissingFallback(text: Option<string>, fallback: Option<string>)
    requires NullOrEmpty(text) && NullOrEmpty(fallback)
    ensures NormalizeLabel(text, fallback) == Failure(ArgumentNull("fallback"))
  {
  }

  /** `5bears` starts with a digit: ArgumentException. */
  lemma FallbackStartsWithDigit(text: Option<string>)
    requires NullOrEmpty(text)
    ensures NormalizeLabel(text, Some("5bears")) == Failure(ArgumentInvalid("fallback"))
  {
    assert !IsIdentifierShaped("5bears");
  }

  /** `Three bears` holds a space: ArgumentException. */
  lemma FallbackWithSpace(text: Option<string>)
    requires NullOrEmpty(text)
    ensures NormalizeLabel(text, Some("Three" + " " + "bears")) == Failure(ArgumentInvalid("fallback"))
  {
    assert ("Three" + " " + "bears")[5] == ' ';
  }

  /** `ThreeBears&FiveWolves` holds a `&`: ArgumentException. */
  lemma FallbackWithAmpersand(text: Option<string>)
    requires NullOrEmpty(text)
    ensures NormalizeLabel(text, Some("ThreeBears" + "&" + "FiveWolves")) == Failure(ArgumentInvalid("fallback"))
  {
    assert ("ThreeBears" + "&" + "FiveWolves")[10] == '&';
  }

  /**
   * A valid fallback comes back as it is, so a result need not be identifier-shaped:
   * the `@`-escaped keyword `@class` is accepted and returned.
   */
  lemma EscapedFallback(text: Option<string>)
    requires NullOrEmpty(text)
    ensures NormalizeLabel(text, Some("@" + "class")) == Success("@" + "class")
    ensures !IsIdentifierShaped("@" + "class")
  {
    assert ("@" + "class")[0] == '@' && ("@" + "class")[1..] == "class";
  }

  /** `[DEPRECATED - 2019.R05] Sunrise Time Units` -> `_DEPRECATED_2019_R05_SunriseTimeUnits` */
  lemma DeprecatedSunriseTimeUnits(fallback: Option<string>)
    ensures NormalizeLabel(Some("[" + "DEPRECATED" + " - " + "2019" + "." + ['R'] + "05" + "]" + " " +
                                "Sunrise" + " " + "Time" + " " + "Units"), fallback) ==
            Success("_" + "DEPRECATED" + "_" + "2019" + "_" + ['R'] + "05" + "_" + "Sunrise" + "Time" + "Units")
  {
    assert IsCapitalizedWord("DEPRECATED") && IsNumber("2019") && IsNumber("05");
    assert IsCapitalizedWord("Sunrise") && IsCapitalizedWord("Time") && IsCapitalizedWord("Units");
    BracketedCodeThenWords("DEPRECATED", "2019", 'R', "05", "Sunrise", "Time", "Units", fallback);
  }
}
