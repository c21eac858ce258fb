/**
 * The symbol validator of src/utils.py: each input symbol is stripped of
 * surrounding whitespace and upper-cased, and kept when it is non-empty, at
 * most ten characters long and made only of letters, digits, '.' and '-'.
 * Characters are classified as in ASCII.
 */
module Utils {
  import opened Sequences

  const MaxSymbolLength: nat := 10

  /** The ASCII characters `str.isspace` accepts. */
  predicate IsSpace(c: char) {
    c == ' ' || ('\t' <= c <= '\r') || ('\U{1C}' <= c <= '\U{1F}')
  }

  /** The number of whitespace characters `s` starts with. */
  function LeadingSpaces(s: string): (n: nat)
    ensures n <= |s| && (n == |s| || !IsSpace(s[n]))
    ensures forall k :: 0 <= k < n ==> IsSpace(s[k])
  {
    if s != [] && IsSpace(s[0]) then
      var n := 1 + LeadingSpaces(s[1..]);
      assert forall k :: 1 <= k < |s| ==> s[k] == s[1..][k - 1];
      n
    else 0
  }

  /** The number of whitespace characters `s` ends with. */
  function TrailingSpaces(s: string): (n: nat)
    ensures n <= |s| && (n == |s| || !IsSpace(s[|s| - 1 - n]))
    ensures forall k :: |s| - n <= k < |s| ==> IsSpace(s[k])
  {
    if s != [] && IsSpace(s[|s| - 1]) then 1 + TrailingSpaces(s[..|s| - 1]) else 0
  }

  /**
   * `str.strip()`: the slice `s[i..j]` where `s[..i]` is the longest
   * whitespace prefix and `s[j..]` the longest whitespace suffix of the rest.
   */
  function Strip(s: string): (r: string)
    ensures r == [] || (!IsSpace(r[0]) && !IsSpace(r[|r| - 1]))
    ensures exists i, j :: 0 <= i <= j <= |s| && r == s[i..j] &&
                           (forall k :: 0 <= k < i ==> IsSpace(s[k])) &&
                           (forall k :: j <= k < |s| ==> IsSpace(s[k]))
  {
    var i := LeadingSpaces(s);
    var t := s[i..];
    var n := TrailingSpaces(t);
    var j := i + |t| - n;
    var r := s[i..j];
    assert forall k :: j <= k < |s| ==> IsSpace(s[k]) by {
      forall k | j <= k < |s| ensures IsSpace(s[k]) {
        assert s[k] == t[k - i];
      }
    }
    assert r != [] ==> !IsSpace(r[0]) && !IsSpace(r[|r| - 1]) by {
      if r != [] {
        assert r[0] == s[i];
        assert r[|r| - 1] == t[|t| - 1 - n];
      }
    }
    r
  }

  function UpperChar(c: char): char {
    if 'a' <= c <= 'z' then (c as int - 32) as char else c
  }

  /** `str.upper()` on ASCII letters. */
  function Upper(s: string): (r: string)
    ensures |r| == |s|
  {
    seq(|s|, i requires 0 <= i < |s| => UpperChar(s[i]))
  }

  function Clean(s: string): string {
    Upper(Strip(s))
  }

  predicate IsSymbolChar(c: char) {
    ('A' <= c <= 'Z') || ('a' <= c <= 'z') || ('0' <= c <= '9') || c == '.' || c == '-'
  }

  predicate IsValidSymbol(s: string) {
    s != [] && (forall i :: 0 <= i < |s| ==> IsSymbolChar(s[i])) && |s| <= MaxSymbolLength
  }

  /** What validate_symbols returns. */
  function ValidSymbolsOf(symbols: seq<string>): (r: seq<string>)
    ensures |r| <= |symbols|
    ensures forall k :: 0 <= k < |r| ==> IsValidSymbol(r[k])
  {
    if symbols == [] then []
    else
      var cleaned := Clean(symbols[|symbols| - 1]);
      ValidSymbolsOf(symbols[..|symbols| - 1]) + (if IsValidSymbol(cleaned) then [cleaned] else [])
  }

  /** validate_symbols. */
  method ValidateSymbols(symbols: seq<string>) returns (validSymbols: seq<string>)
    ensures validSymbols == ValidSymbolsOf(symbols)
  {
    validSymbols := [];
    for n := 0 to |symbols|
      invariant validSymbols == ValidSymbolsOf(symbols[..n])
    {
      assert symbols[..n + 1][..n] == symbols[..n];
      ValidSymbolsSnoc(symbols[..n + 1]);
      var cleaned := Upper(Strip(symbols[n]));
      if cleaned != [] && forall i :: 0 <= i < |cleaned| ==> IsSymbolChar(cleaned[i]) {
        if |cleaned| <= MaxSymbolLength {
          validSymbols := validSymbols + [cleaned];
        }
      }
    }
    assert symbols[..|symbols|] == symbols;
  }

  /** The cleaned form of every input, in input order. */
  function CleanAll(symbols: seq<string>): (r: seq<string>)
    ensures |r| == |symbols|
  {
    seq(|symbols|, i requires 0 <= i < |symbols| => Clean(symbols[i]))
  }

  lemma CleanAllSnoc(symbols: seq<string>)
    requires symbols != []
    ensures CleanAll(symbols) == CleanAll(symbols[..|symbols| - 1]) + [Clean(symbols[|symbols| - 1])]
  {
    var init := symbols[..|symbols| - 1];
    assert forall k :: 0 <= k < |init| ==> CleanAll(symbols)[k] == CleanAll(init)[k];
  }

  /** Valid and with no lower-case letter: what cleaning a valid symbol yields. */
  predicate IsCleanSymbol(s: string) {
    IsValidSymbol(s) && forall j :: 0 <= j < |s| ==> !('a' <= s[j] <= 'z')
  }

  lemma UpperHasNoLowercase(s: string)
    ensures forall j :: 0 <= j < |Upper(s)| ==> !('a' <= Upper(s)[j] <= 'z')
  {
  }

  /**
   * Every output is the cleaned form of an input, in input order, and
   * nothing is added.
   */
  lemma {:induction false} ValidSymbolsOrder(symbols: seq<string>)
    ensures IsSubsequence(ValidSymbolsOf(symbols), CleanAll(symbols))
    ensures |ValidSymbolsOf(symbols)| <= |symbols|
  {
    if symbols != [] {
      var init, last := symbols[..|symbols| - 1], symbols[|symbols| - 1];
      var cleaned := Clean(last);
      ValidSymbolsOrder(init);
      var r, all := ValidSymbolsOf(init), CleanAll(init);
      CleanAllSnoc(symbols);
      if IsValidSymbol(cleaned) {
        assert ValidSymbolsOf(symbols) == r + [cleaned];
        SubsequenceKeep(r, all, cleaned);
      } else {
        assert ValidSymbolsOf(symbols) == r;
        SubsequenceSkip(r, all, cleaned);
      }
    }
  }

  /** Every output is non-empty, at most ten characters of [A-Z0-9.-]. */
  lemma {:induction false} ValidSymbolsClean(symbols: seq<string>)
    ensures forall k :: 0 <= k < |ValidSymbolsOf(symbols)| ==> IsCleanSymbol(ValidSymbolsOf(symbols)[k])
  {
    if symbols != [] {
      var init := symbols[..|symbols| - 1];
      ValidSymbolsClean(init);
      UpperHasNoLowercase(Strip(symbols[|symbols| - 1]));
    }
  }

  /** A string is kept exactly when it is the valid cleaned form of some input. */
  lemma {:induction false} ValidSymbolsMembers(symbols: seq<string>, s: string)
    ensures s in ValidSymbolsOf(symbols) <==> IsValidSymbol(s) && s in CleanAll(symbols)
  {
    if symbols != [] {
      var n := |symbols| - 1;
      var init, cleaned := symbols[..n], Clean(symbols[n]);
      ValidSymbolsMembers(init, s);
      ValidSymbolsSnoc(symbols);
      CleanAllSnoc(symbols);
      var extra := if IsValidSymbol(cleaned) then [cleaned] else [];
      assert s in ValidSymbolsOf(symbols) <==> s in ValidSymbolsOf(init) || s in extra;
      assert s in CleanAll(symbols) <==> s in CleanAll(init) || s == cleaned;
    }
  }

  /** A clean symbol is its own cleaned form. */
  lemma CleanFixesCleanSymbol(s: string)
    requires IsCleanSymbol(s)
    ensures Clean(s) == s
  {
    assert LeadingSpaces(s) == 0;
    assert TrailingSpaces(s) == 0;
  }

  /** One more input adds its cleaned form when that is valid. */
  lemma ValidSymbolsSnoc(symbols: seq<string>)
    requires symbols != []
    ensures var cleaned := Clean(symbols[|symbols| - 1]);
            ValidSymbolsOf(symbols) ==
              ValidSymbolsOf(symbols[..|symbols| - 1]) + (if IsValidSymbol(cleaned) then [cleaned] else [])
  {
  }

  /** A clean symbol appended to a list that validation keeps is kept too. */
  lemma CleanSymbolAppended(init: seq<string>, last: string)
    requires ValidSymbolsOf(init) == init && IsCleanSymbol(last)
    ensures ValidSymbolsOf(init + [last]) == init + [last]
  {
    var symbols := init + [last];
    assert symbols[..|symbols| - 1] == init;
    CleanFixesCleanSymbol(last);
    ValidSymbolsSnoc(symbols);
  }

  /** A list of clean symbols passes validation unchanged. */
  lemma {:induction false} CleanSymbolsKept(symbols: seq<string>)
    requires forall k :: 0 <= k < |symbols| ==> IsCleanSymbol(symbols[k])
    ensures ValidSymbolsOf(symbols) == symbols
  {
    if symbols != [] {
      var init, last := symbols[..|symbols| - 1], symbols[|symbols| - 1];
      assert forall k :: 0 <= k < |init| ==> IsCleanSymbol(init[k]) by {
        forall k | 0 <= k < |init| ensures IsCleanSymbol(init[k]) {
          assert init[k] == symbols[k];
        }
      }
      CleanSymbolsKept(init);
      CleanSymbolAppended(init, last);
      SplitLast(symbols);
    }
  }

  /** Validating already validated symbols changes nothing. */
  lemma ValidateIdempotent(symbols: seq<string>)
    ensures ValidSymbolsOf(ValidSymbolsOf(symbols)) == ValidSymbolsOf(symbols)
  {
    ValidSymbolsClean(symbols);
    CleanSymbolsKept(ValidSymbolsOf(symbols));
  }
}
