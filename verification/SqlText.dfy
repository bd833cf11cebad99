/**
 Quote- and parenthesis-aware scanners over SQL text, one byte per character.

 Every scanner is a plain scanner over masked text: text in which whatever stands
 between quotes, and the quotes themselves, are blanked out.
 */
module SqlText {
  import opened Options

  // ----- Bytes

  predicate IsQuote(c: char) { c == '\'' || c == '"' || c == '`' }

  predicate IsSpace(c: char) {
    c == ' ' || c == '\t' || c == '\n' || c == '\r' || c == 11 as char || c == 12 as char
  }

  function UpperChar(c: char): char {
    if 'a' <= c <= 'z' then (c as int - 32) as char else c
  }

  function Upper(s: string): (u: string)
    ensures |u| == |s|
  {
    seq(|s|, i requires 0 <= i < |s| => UpperChar(s[i]))
  }

  /** An identifier byte, in upper-cased text. */
  predicate IsIdentifier(c: char) {
    c == '_' || 'A' <= c <= 'Z' || '0' <= c <= '9'
  }

  /** A byte whose upper case belongs to an identifier. */
  predicate InWord(c: char) { IsIdentifier(UpperChar(c)) }

  function TrimLeft(s: string): string {
    if s != "" && IsSpace(s[0]) then TrimLeft(s[1..]) else s
  }

  function TrimRight(s: string): string {
    if s != "" && IsSpace(s[|s| - 1]) then TrimRight(s[..|s| - 1]) else s
  }

  function Trim(s: string): string {
    TrimRight(TrimLeft(s))
  }

  function IndexOf(s: string, c: char): (i: Option<nat>)
    ensures i.Some? ==> i.value < |s| && s[i.value] == c && c !in s[..i.value]
    ensures i.None? ==> c !in s
  {
    if s == "" then None
    else if s[0] == c then Some(0)
    else match IndexOf(s[1..], c)
         case Some(i) => assert s[..i + 1] == [s[0]] + s[1..][..i]; Some(i + 1)
         case None => None
  }

  function Shift(n: nat, i: Option<nat>): Option<nat> {
    if i.Some? then Some(n + i.value) else None
  }

  // ----- Masking

  /** What a quoted byte is blanked to: no identifier byte, parenthesis, comma or placeholder. */
  const BLANK: char := '\''

  /** Text with its quoted parts blanked. Inside quotes a doubled quote stands for itself; some
      scanners also let a backslash protect the byte after it. */
  function Mask(s: string, quote: Option<char>, backslash: bool): (m: string)
    ensures |m| == |s|
  {
    if s == "" then ""
    else if quote.Some? then
      if s[0] == quote.value then
        if |s| > 1 && s[1] == quote.value then [BLANK, BLANK] + Mask(s[2..], quote, backslash)
        else [BLANK] + Mask(s[1..], None, backslash)
      else if backslash && s[0] == '\\' && |s| > 1 then [BLANK, BLANK] + Mask(s[2..], quote, backslash)
      else [BLANK] + Mask(s[1..], quote, backslash)
    else if IsQuote(s[0]) then [BLANK] + Mask(s[1..], Some(s[0]), backslash)
    else [s[0]] + Mask(s[1..], None, backslash)
  }

  /** One byte that is not half of a pair, and what the scan is in behind it. */
  lemma MaskByte(s: string, quote: Option<char>)
    requires s != "" && (quote.Some? ==> s[0] != quote.value || |s| == 1 || s[1] != quote.value)
    ensures var quote' := if quote.None? && IsQuote(s[0]) then Some(s[0]) else if quote == Some(s[0]) then None else quote;
            Mask(s, quote, false) == [if quote.None? && !IsQuote(s[0]) then s[0] else BLANK] + Mask(s[1..], quote', false)
  {
  }

  lemma MaskStep(c: char, s: string, backslash: bool)
    requires !IsQuote(c)
    ensures Mask([c] + s, None, backslash) == [c] + Mask(s, None, backslash)
  {
    assert ([c] + s)[1..] == s;
  }

  lemma MaskOpening(quote: char, rest: string, backslash: bool)
    requires IsQuote(quote)
    ensures Mask([quote] + rest, None, backslash) == [BLANK] + Mask(rest, Some(quote), backslash)
  {
    assert ([quote] + rest)[1..] == rest;
  }

  lemma MaskDoubled(quote: char, rest: string, backslash: bool)
    ensures Mask([quote] + ([quote] + rest), Some(quote), backslash) == [BLANK] + ([BLANK] + Mask(rest, Some(quote), backslash))
  {
    var s := [quote] + ([quote] + rest);
    assert s[2..] == rest;
    assert Mask(s, Some(quote), backslash) == [BLANK, BLANK] + Mask(rest, Some(quote), backslash);
  }

  lemma MaskClosing(quote: char, rest: string, backslash: bool)
    requires rest == "" || rest[0] != quote
    ensures Mask([quote] + rest, Some(quote), backslash) == [BLANK] + Mask(rest, None, backslash)
  {
    assert ([quote] + rest)[1..] == rest;
  }

  lemma MaskInside(quote: char, c: char, rest: string, backslash: bool)
    requires c != quote && c != '\\'
    ensures Mask([c] + rest, Some(quote), backslash) == [BLANK] + Mask(rest, Some(quote), backslash)
  {
    assert ([c] + rest)[1..] == rest;
  }

  // ----- Plain scanners over masked text

  /** The offset at which the parenthesis opened `depth` levels ago closes. */
  function Closing(m: string, depth: int): (i: Option<nat>)
    ensures i.Some? ==> i.value < |m|
  {
    if m == "" then None
    else if m[0] == '(' then Shift(1, Closing(m[1..], depth + 1))
    else if m[0] == ')' then if depth == 1 then Some(0) else Shift(1, Closing(m[1..], depth - 1))
    else Shift(1, Closing(m[1..], depth))
  }

  function Deeper(c: char, depth: nat): nat {
    if c == '(' then depth + 1 else if c == ')' && depth > 0 then depth - 1 else depth
  }

  /** The parts of s between the commas its mask shows outside parentheses. */
  function Parts(s: string, m: string, depth: nat, current: string): seq<string>
    requires |s| == |m|
  {
    if s == "" then [Trim(current)]
    else if m[0] == ',' && depth == 0 then [Trim(current)] + Parts(s[1..], m[1..], 0, "")
    else Parts(s[1..], m[1..], Deeper(m[0], depth), current + [s[0]])
  }

  function Placeholders(m: string): nat {
    if m == "" then 0 else (if m[0] == '?' then 1 else 0) + Placeholders(m[1..])
  }

  /** In upper case the text starts with this word, and the word ends there. */
  predicate StartsWord(s: string, word: string) {
    if word == "" then s == "" || !InWord(s[0])
    else s != "" && UpperChar(s[0]) == word[0] && StartsWord(s[1..], word[1..])
  }

  /** The offset of the first occurrence of a word outside parentheses; `before` is the byte
      in front of the text. */
  function FirstWord(m: string, word: string, depth: nat, before: Option<char>): (i: Option<nat>)
    ensures i.Some? ==> i.value < |m|
  {
    if m == "" then None
    else if m[0] != '(' && m[0] != ')' && m[0] != BLANK && depth == 0 && StartsWord(m, word)
            && (before.None? || !InWord(before.value)) then Some(0)
    else Shift(1, FirstWord(m[1..], word, Deeper(m[0], depth), Some(m[0])))
  }

  // ----- What the scanners compute

  function MatchParenthesis(s: string): (i: Option<nat>)
    ensures i.Some? ==> i.value < |s| && (s[0] == '(' ==> i.value > 0)
  {
    Closing(Mask(s, None, false), 0)
  }

  function SplitList(s: string): seq<string> {
    Parts(s, Mask(s, None, false), 0, "")
  }

  function CountPlaceholders(s: string): nat {
    Placeholders(Mask(s, None, true))
  }

  function FindKeyword(s: string, word: string): (i: Option<nat>)
    ensures i.Some? ==> i.value < |s|
  {
    FirstWord(Mask(s, None, true), word, 0, None)
  }

  // ----- The scanners

  /** An offset from `start` as a position, or -1. */
  function Position(start: nat, i: Option<nat>): int {
    if i.Some? then start + i.value else -1
  }

  /** Where the parenthesis closes, as the scan knows it at `index`. */
  ghost function CloseFrom(query: string, index: nat, depth: int, quote: Option<char>): Option<nat>
    requires index <= |query|
  {
    Shift(index, Closing(Mask(query[index..], quote, false), depth))
  }

  lemma CloseByte(query: string, index: nat, depth: int, quote: Option<char>)
    requires index < |query|
    requires quote.Some? ==> query[index] != quote.value || index + 1 == |query| || query[index + 1] != quote.value
    ensures var quote' := if quote.None? && IsQuote(query[index]) then Some(query[index])
                          else if quote == Some(query[index]) then None else quote;
            var depth' := if quote.Some? then depth else if query[index] == '(' then depth + 1
                          else if query[index] == ')' then depth - 1 else depth;
            CloseFrom(query, index, depth, quote)
              == if quote.None? && query[index] == ')' && depth' == 0 then Some(index)
                 else CloseFrom(query, index + 1, depth', quote')
  {
    assert query[index..][1..] == query[index + 1..];
  }

  lemma CloseDoubled(query: string, index: nat, depth: int, quote: char)
    requires index + 1 < |query| && query[index] == query[index + 1] == quote
    ensures CloseFrom(query, index, depth, Some(quote)) == CloseFrom(query, index + 2, depth, Some(quote))
  {
    var rest := query[index..];
    assert rest[2..] == query[index + 2..];
    var m := Mask(rest[2..], Some(quote), false);
    assert Mask(rest, Some(quote), false) == [BLANK, BLANK] + m;
    assert ([BLANK, BLANK] + m)[1..] == [BLANK] + m && ([BLANK] + m)[1..] == m;
    assert Closing([BLANK, BLANK] + m, depth) == Shift(1, Closing([BLANK] + m, depth));
  }

  method MatchingParenthesis(query: string, start: nat) returns (at: int)
    requires start <= |query|
    ensures at == Position(start, MatchParenthesis(query[start..]))
  {
    var depth: int := 0;
    var quote: Option<char> := None;
    var index := start;
    while index < |query|
      invariant start <= index <= |query|
      invariant Shift(start, MatchParenthesis(query[start..])) == CloseFrom(query, index, depth, quote)
    {
      var character := query[index];
      if quote.Some? {
        if character == quote.value {
          if index + 1 < |query| && query[index + 1] == quote.value {
            CloseDoubled(query, index, depth, quote.value);
            index := index + 2;
            continue;
          }
          CloseByte(query, index, depth, quote);
          quote := None;
        } else {
          CloseByte(query, index, depth, quote);
        }
      } else {
        CloseByte(query, index, depth, quote);
        if IsQuote(character) {
          quote := Some(character);
        } else if character == '(' {
          depth := depth + 1;
        } else if character == ')' {
          depth := depth - 1;
          if depth == 0 { return index; }
        }
      }
      index := index + 1;
    }
    at := -1;
  }

  /** What is left to split after the loop has reached `index` with the current part begun at `from`. */
  ghost function Pending(value: string, from: nat, index: nat, depth: nat, quote: Option<char>): seq<string>
    requires from <= index <= |value|
  {
    Parts(value[index..], Mask(value[index..], quote, false), depth, value[from..index])
  }

  lemma PendingByte(value: string, from: nat, index: nat, depth: nat, quote: Option<char>)
    requires from <= index < |value|
    requires quote.None? ==> value[index] != ',' || depth > 0
    requires quote.Some? ==> value[index] != quote.value || index + 1 == |value| || value[index + 1] != quote.value
    ensures var quote' := if quote.None? && IsQuote(value[index]) then Some(value[index])
                          else if quote == Some(value[index]) then None else quote;
            var depth' := if quote.None? then Deeper(value[index], depth) else depth;
            Pending(value, from, index, depth, quote) == Pending(value, from, index + 1, depth', quote')
  {
    hide Mask, Parts;
    var rest := value[index..];
    assert rest[0] == value[index] && (index + 1 < |value| ==> rest[1] == value[index + 1]);
    MaskByte(rest, quote);
    var quote' := if quote.None? && IsQuote(rest[0]) then Some(rest[0]) else if quote == Some(rest[0]) then None else quote;
    assert rest[1..] == value[index + 1..];
    assert value[from..index] + [value[index]] == value[from..index + 1];
    PartsByte(rest, if quote.None? && !IsQuote(rest[0]) then rest[0] else BLANK, Mask(rest[1..], quote', false), depth, value[from..index]);
  }

  lemma PendingEnds(value: string, from: nat, depth: nat, quote: Option<char>)
    requires from <= |value|
    ensures Pending(value, from, |value|, depth, quote) == [Trim(value[from..])]
  {
    assert value[from..|value|] == value[from..];
  }

  lemma PartsByte(s: string, b: char, m: string, depth: nat, current: string)
    requires s != "" && |m| == |s| - 1 && (b != ',' || depth > 0)
    ensures Parts(s, [b] + m, depth, current) == Parts(s[1..], m, Deeper(b, depth), current + [s[0]])
  {
    assert ([b] + m)[1..] == m;
  }

  lemma PendingDoubled(value: string, from: nat, index: nat, depth: nat, quote: char)
    requires from <= index && index + 1 < |value| && value[index] == value[index + 1] == quote
    ensures Pending(value, from, index, depth, Some(quote)) == Pending(value, from, index + 2, depth, Some(quote))
  {
    var rest := value[index..];
    assert rest[2..] == value[index + 2..] && rest[1..][1..] == value[index + 2..];
    var m := Mask(rest[2..], Some(quote), false);
    assert Mask(rest, Some(quote), false) == [BLANK, BLANK] + m;
    assert ([BLANK, BLANK] + m)[1..] == [BLANK] + m && ([BLANK] + m)[1..] == m;
    var current := value[from..index];
    assert current + [quote] + [quote] == value[from..index + 2];
    assert Parts(rest, [BLANK, BLANK] + m, depth, current) == Parts(rest[1..], [BLANK] + m, depth, current + [quote]);
    assert Parts(rest[1..], [BLANK] + m, depth, current + [quote]) == Parts(rest[2..], m, depth, current + [quote] + [quote]);
  }

  lemma PendingComma(value: string, from: nat, index: nat)
    requires from <= index < |value| && value[index] == ','
    ensures Pending(value, from, index, 0, None) == [Trim(value[from..index])] + Pending(value, index + 1, index + 1, 0, None)
  {
    var rest := value[index..];
    assert rest[1..] == value[index + 1..];
    assert value[index + 1..index + 1] == "";
  }

  method SplitTopLevelList(value: string) returns (parts: seq<string>)
    ensures parts == SplitList(value)
  {
    hide Mask, Parts, Trim;
    parts := [];
    var start := 0;
    var depth: nat := 0;
    var quote: Option<char> := None;
    var index := 0;
    assert value[0..] == value;
    while index < |value|
      invariant start <= index <= |value|
      invariant parts + Pending(value, start, index, depth, quote) == SplitList(value)
    {
      var character := value[index];
      if quote.Some? {
        if character == quote.value {
          if index + 1 < |value| && value[index + 1] == quote.value {
            PendingDoubled(value, start, index, depth, quote.value);
            index := index + 2;
            continue;
          }
          PendingByte(value, start, index, depth, quote);
          quote := None;
        } else {
          PendingByte(value, start, index, depth, quote);
        }
      } else if character == ',' && depth == 0 {
        PendingComma(value, start, index);
        parts := parts + [Trim(value[start..index])];
        start := index + 1;
      } else {
        PendingByte(value, start, index, depth, quote);
        if IsQuote(character) {
          quote := Some(character);
        } else if character == '(' {
          depth := depth + 1;
        } else if character == ')' && depth > 0 {
          depth := depth - 1;
        }
      }
      index := index + 1;
    }
    PendingEnds(value, start, depth, quote);
    parts := parts + [Trim(value[start..])];
  }

  method CountSqlPlaceholders(query: string) returns (count: nat)
    ensures count == CountPlaceholders(query)
  {
    count := 0;
    var quote: Option<char> := None;
    var index := 0;
    assert query[0..] == query;
    while index < |query|
      invariant 0 <= index <= |query|
      invariant count + Placeholders(Mask(query[index..], quote, true)) == CountPlaceholders(query)
    {
      var character := query[index];
      ghost var rest := query[index..];
      assert rest[1..] == query[index + 1..];
      if quote.Some? {
        if (character == quote.value && index + 1 < |query| && query[index + 1] == quote.value)
           || (character != quote.value && character == '\\' && index + 1 < |query|) {
          assert rest[2..] == query[index + 2..];
          ghost var m := Mask(rest[2..], quote, true);
          assert ([BLANK, BLANK] + m)[1..] == [BLANK] + m && ([BLANK] + m)[1..] == m;
          index := index + 1;
        } else if character == quote.value {
          quote := None;
        }
      } else if IsQuote(character) {
        quote := Some(character);
      } else if character == '?' {
        count := count + 1;
      }
      index := index + 1;
    }
  }

  // ----- Finding a keyword

  predicate Letters(word: string) {
    word != "" && forall i :: 0 <= i < |word| ==> 'A' <= word[i] <= 'Z'
  }

  /** Outside quotes, the text and its mask start with the same words. */
  lemma {:induction false} MaskKeepsWord(s: string, word: string)
    requires forall i :: 0 <= i < |word| ==> 'A' <= word[i] <= 'Z'
    ensures StartsWord(s, word) <==> StartsWord(Mask(s, None, true), word)
  {
    if s != "" && !IsQuote(s[0]) && word != "" { MaskKeepsWord(s[1..], word[1..]); }
  }

  lemma {:induction false} WordStarts(s: string, word: string)
    ensures StartsWord(s, word) <==> word <= Upper(s) && (|s| == |word| || !IsIdentifier(Upper(s)[|word|]))
  {
    if s != "" && word != "" {
      WordStarts(s[1..], word[1..]);
      assert Upper(s) == [UpperChar(s[0])] + Upper(s[1..]);
      assert word == [word[0]] + word[1..];
    }
  }

  /** Where the search stands at `index`. */
  ghost function Search(query: string, word: string, index: nat, depth: nat, quote: Option<char>, before: Option<char>): Option<nat>
    requires index <= |query|
  {
    Shift(index, FirstWord(Mask(query[index..], quote, true), word, depth, before))
  }

  predicate Harmless(before: Option<char>, actual: Option<char>) {
    (before.None? <==> actual.None?)
    && (before.Some? && actual.Some? ==> (InWord(before.value) <==> InWord(actual.value)))
  }

  lemma SearchBlank(m: string, word: string, depth: nat, before: Option<char>)
    ensures FirstWord([BLANK] + m, word, depth, before) == Shift(1, FirstWord(m, word, depth, Some(BLANK)))
  {
  }

  /** Inside quotes the scan moves past one byte, or past two that belong together. */
  function QuotedWidth(query: string, index: nat, quote: char): nat
    requires index < |query|
  {
    if index + 1 < |query| && (if query[index] == quote then query[index + 1] == quote else query[index] == '\\') then 2 else 1
  }

  function QuotedEnd(query: string, index: nat, quote: char): Option<char>
    requires index < |query|
  {
    if query[index] == quote && QuotedWidth(query, index, quote) == 1 then None else Some(quote)
  }

  lemma SearchQuoted(query: string, word: string, index: nat, depth: nat, quote: char, before: Option<char>)
    requires index < |query|
    ensures Search(query, word, index, depth, Some(quote), before)
         == Search(query, word, index + QuotedWidth(query, index, quote), depth, QuotedEnd(query, index, quote), Some(BLANK))
  {
    var rest := query[index..];
    var n := QuotedWidth(query, index, quote);
    var m := Mask(query[index + n..], QuotedEnd(query, index, quote), true);
    assert rest[n..] == query[index + n..];
    if n == 1 {
      assert Mask(rest, Some(quote), true) == [BLANK] + m;
    } else {
      assert Mask(rest, Some(quote), true) == [BLANK] + ([BLANK] + m);
      SearchBlank([BLANK] + m, word, depth, before);
    }
    SearchBlank(m, word, depth, if n == 1 then before else Some(BLANK));
  }

  lemma SearchOpens(query: string, word: string, index: nat, depth: nat, before: Option<char>)
    requires index < |query| && IsQuote(query[index])
    ensures Search(query, word, index, depth, None, before)
         == Search(query, word, index + 1, depth, Some(query[index]), Some(BLANK))
  {
    assert query[index..][1..] == query[index + 1..];
    SearchBlank(Mask(query[index + 1..], Some(query[index]), true), word, depth, before);
  }

  lemma SearchSteps(query: string, word: string, index: nat, depth: nat, before: Option<char>)
    requires index < |query| && !IsQuote(query[index]) && Letters(word)
    requires !(query[index] != '(' && query[index] != ')' && depth == 0 && StartsWord(query[index..], word)
               && (before.None? || !InWord(before.value)))
    ensures Search(query, word, index, depth, None, before)
         == Search(query, word, index + 1, Deeper(query[index], depth), None, Some(query[index]))
  {
    MaskKeepsWord(query[index..], word);
    assert query[index..][1..] == query[index + 1..];
  }

  lemma SearchFinds(query: string, word: string, index: nat, before: Option<char>)
    requires index < |query| && !IsQuote(query[index]) && Letters(word)
    requires StartsWord(query[index..], word) && (before.None? || !InWord(before.value))
    ensures Search(query, word, index, 0, None, before) == Some(index)
  {
    MaskKeepsWord(query[index..], word);
    assert UpperChar(query[index]) == word[0];
  }

  lemma SearchBegins(query: string, word: string)
    ensures Search(query, word, 0, 0, None, None) == FindKeyword(query, word)
  {
    assert query[0..] == query;
  }

  lemma SearchEnds(query: string, word: string, depth: nat, quote: Option<char>, before: Option<char>)
    ensures Search(query, word, |query|, depth, quote, before) == None
  {
  }

  method FindTopLevelKeyword(query: string, keyword: string) returns (at: int)
    requires Letters(keyword)
    ensures at == Position(0, FindKeyword(query, keyword))
  {
    hide Mask, FirstWord, StartsWord, Search;
    var upper := Upper(query);
    var depth: nat := 0;
    var quote: Option<char> := None;
    var index := 0;
    ghost var before: Option<char> := None;
    SearchBegins(query, keyword);
    while index < |query|
      invariant 0 <= index <= |query|
      invariant FindKeyword(query, keyword) == Search(query, keyword, index, depth, quote, before)
      invariant quote.Some? ==> IsQuote(quote.value)
      invariant quote.None? ==> Harmless(before, if index == 0 then None else Some(query[index - 1]))
    {
      var character := query[index];
      if quote.Some? {
        SearchQuoted(query, keyword, index, depth, quote.value, before);
        before := Some(BLANK);
        if character == quote.value {
          if index + 1 < |query| && query[index + 1] == quote.value {
            index := index + 2;
            continue;
          }
          quote := None;
        } else if character == '\\' && index + 1 < |query| {
          index := index + 1;
        }
      } else if IsQuote(character) {
        SearchOpens(query, keyword, index, depth, before);
        quote := Some(character);
        before := Some(BLANK);
      } else {
        assert Upper(query[index..]) == upper[index..];
        WordStarts(query[index..], keyword);
        if character == '(' {
          SearchSteps(query, keyword, index, depth, before);
          depth := depth + 1;
        } else if character == ')' {
          SearchSteps(query, keyword, index, depth, before);
          if depth > 0 { depth := depth - 1; }
        } else if depth == 0 && keyword <= upper[index..]
                  && (index == 0 || !IsIdentifier(upper[index - 1]))
                  && (index + |keyword| == |upper| || !IsIdentifier(upper[index + |keyword|])) {
          SearchFinds(query, keyword, index, before);
          return index;
        } else {
          SearchSteps(query, keyword, index, depth, before);
        }
        before := Some(character);
      }
      index := index + 1;
    }
    SearchEnds(query, keyword, depth, quote, before);
    at := -1;
  }
}
