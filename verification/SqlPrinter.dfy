/**
 Balanced SQL text as a tree, how it prints, and how the scanners read it back.
 */
module SqlPrinter {
  import opened Options
  import opened SqlText

  /** SQL text: plain bytes, quoted parts, and parenthesised parts. */
  datatype Sql =
    | End
    | Plain(c: char, rest: Sql)
    | Quoted(quote: char, body: string, rest: Sql)
    | Paren(inner: Sql, rest: Sql)

  /** A quoted body, its quotes doubled, in front of s. */
  function EscapeThen(quote: char, body: string, s: string): string {
    if body == "" then s
    else if body[0] == quote then [quote] + ([quote] + EscapeThen(quote, body[1..], s))
    else [body[0]] + EscapeThen(quote, body[1..], s)
  }

  /** The printed text in front of s. */
  function ShowThen(t: Sql, s: string): string
    decreases t
  {
    match t
    case End => s
    case Plain(c, rest) => [c] + ShowThen(rest, s)
    case Quoted(q, body, rest) => [q] + EscapeThen(q, body, [q] + ShowThen(rest, s))
    case Paren(inner, rest) => "(" + ShowThen(inner, ")" + ShowThen(rest, s))
  }

  function Show(t: Sql): string { ShowThen(t, "") }

  function EscapedSize(quote: char, body: string): nat {
    if body == "" then 0 else (if body[0] == quote then 2 else 1) + EscapedSize(quote, body[1..])
  }

  function Size(t: Sql): nat {
    match t
    case End => 0
    case Plain(_, rest) => 1 + Size(rest)
    case Quoted(q, body, rest) => 2 + EscapedSize(q, body) + Size(rest)
    case Paren(inner, rest) => 2 + Size(inner) + Size(rest)
  }

  function BlanksThen(n: nat, m: string): string {
    if n == 0 then m else [BLANK] + BlanksThen(n - 1, m)
  }

  /** The text's mask in front of m. */
  function MaskedThen(t: Sql, m: string): string
    decreases t
  {
    match t
    case End => m
    case Plain(c, rest) => [c] + MaskedThen(rest, m)
    case Quoted(q, body, rest) => BlanksThen(2 + EscapedSize(q, body), MaskedThen(rest, m))
    case Paren(inner, rest) => "(" + MaskedThen(inner, ")" + MaskedThen(rest, m))
  }

  function Masked(t: Sql): string { MaskedThen(t, "") }

  /** The quote byte the text ends with, if it ends with a quoted part. */
  function Ends(t: Sql): Option<char> {
    match t
    case End => None
    case Plain(_, rest) => Ends(rest)
    case Quoted(q, _, rest) => if rest.End? then Some(q) else Ends(rest)
    case Paren(_, rest) => Ends(rest)
  }

  /** Plain bytes are no quotes and no parentheses, quoted bodies hold no backslash, and two
      quoted parts of one kind never touch: together they would read as one. */
  predicate Balanced(t: Sql) {
    match t
    case End => true
    case Plain(c, rest) => !IsQuote(c) && c != '(' && c != ')' && Balanced(rest)
    case Quoted(q, body, rest) => IsQuote(q) && '\\' !in body && !(rest.Quoted? && rest.quote == q) && Balanced(rest)
    case Paren(inner, rest) => Balanced(inner) && Balanced(rest)
  }

  /** s may follow t without continuing t's last quoted part. */
  predicate Clear(t: Sql, s: string) {
    s == "" || Ends(t) != Some(s[0])
  }

  predicate NoComma(t: Sql) {
    match t
    case End => true
    case Plain(c, rest) => c != ',' && NoComma(rest)
    case Quoted(_, _, rest) => NoComma(rest)
    case Paren(_, rest) => NoComma(rest)
  }

  function Holes(t: Sql): nat {
    match t
    case End => 0
    case Plain(c, rest) => (if c == '?' then 1 else 0) + Holes(rest)
    case Quoted(_, _, rest) => Holes(rest)
    case Paren(inner, rest) => Holes(inner) + Holes(rest)
  }

  // ----- Sizes

  lemma {:induction false} EscapeThenIs(quote: char, body: string, s: string)
    ensures |EscapeThen(quote, body, s)| == EscapedSize(quote, body) + |s|
    ensures EscapeThen(quote, body, s) == EscapeThen(quote, body, "") + s
  {
    if body != "" { EscapeThenIs(quote, body[1..], s); }
  }

  /** Three pieces before s regroup. */
  lemma Regroup(a: string, b: string, c: string, d: string, s: string)
    ensures a + (b + (c + (d + s))) == a + (b + (c + d)) + s
    ensures |a + (b + (c + (d + s)))| == |a| + |b| + |c| + |d| + |s|
  {
  }

  lemma {:induction false} ShowThenIs(t: Sql, s: string)
    ensures ShowThen(t, s) == Show(t) + s && |Show(t)| == Size(t)
    ensures |ShowThen(t, s)| == Size(t) + |s|
  {
    match t
    case End =>
    case Plain(c, rest) => ShowThenIs(rest, s);
    case Quoted(q, body, rest) =>
      ShowThenIs(rest, s);
      EscapeThenIs(q, body, [q] + ShowThen(rest, s));
      EscapeThenIs(q, body, [q] + Show(rest));
      EscapeThenIs(q, body, "");
      Regroup([q], EscapeThen(q, body, ""), [q], Show(rest), s);
      Regroup([q], EscapeThen(q, body, ""), [q], Show(rest), "");
    case Paren(inner, rest) =>
      ShowThenIs(rest, s);
      ShowThenIs(inner, ")" + ShowThen(rest, s));
      ShowThenIs(inner, ")" + Show(rest));
      Regroup("(", Show(inner), ")", Show(rest), s);
      Regroup("(", Show(inner), ")", Show(rest), "");
  }

  lemma {:induction false} BlanksThenIs(n: nat, m: string)
    ensures |BlanksThen(n, m)| == n + |m|
    ensures BlanksThen(n, m) == BlanksThen(n, "") + m
  {
    if n > 0 { BlanksThenIs(n - 1, m); }
  }

  lemma {:induction false} MaskedThenIs(t: Sql, m: string)
    ensures |MaskedThen(t, m)| == Size(t) + |m|
    ensures MaskedThen(t, m) == Masked(t) + m
  {
    match t
    case End =>
    case Plain(c, rest) => MaskedThenIs(rest, m);
    case Quoted(q, body, rest) =>
      hide BlanksThen, EscapedSize;
      MaskedThenIs(rest, m);
      BlanksThenIs(2 + EscapedSize(q, body), MaskedThen(rest, m));
      BlanksThenIs(2 + EscapedSize(q, body), Masked(rest));
    case Paren(inner, rest) =>
      MaskedThenIs(rest, m);
      MaskedThenIs(rest, "");
      MaskedThenIs(inner, ")" + MaskedThen(rest, m));
      MaskedThenIs(inner, ")" + Masked(rest));
  }

  // ----- Masking undoes printing

  lemma {:induction false} EndsWithQuote(t: Sql)
    requires Balanced(t)
    ensures Ends(t).Some? ==> IsQuote(Ends(t).value)
  {
    if !t.End? { EndsWithQuote(t.rest); }
  }

  lemma {:induction false} MaskBody(q: char, body: string, s: string, backslash: bool)
    requires IsQuote(q) && '\\' !in body && (s == "" || s[0] != q)
    ensures Mask(EscapeThen(q, body, [q] + s), Some(q), backslash)
         == BlanksThen(1 + EscapedSize(q, body), Mask(s, None, backslash))
  {
    hide Mask;
    if body != "" {
      var rest := EscapeThen(q, body[1..], [q] + s);
      MaskBody(q, body[1..], s, backslash);
      if body[0] == q { MaskDoubled(q, rest, backslash); } else { MaskInside(q, body[0], rest, backslash); }
    } else {
      MaskClosing(q, s, backslash);
    }
  }

  /** Scanning printed text reads exactly its mask, whatever follows. */
  lemma {:induction false} MaskShow(t: Sql, s: string, backslash: bool)
    requires Balanced(t) && Clear(t, s)
    ensures Mask(ShowThen(t, s), None, backslash) == MaskedThen(t, Mask(s, None, backslash))
    decreases t
  {
    hide Mask;
    match t
    case End =>
    case Plain(c, rest) =>
      MaskStep(c, ShowThen(rest, s), backslash);
      MaskShow(rest, s, backslash);
    case Quoted(q, body, rest) =>
      MaskShow(rest, s, backslash);
      MaskOpening(q, EscapeThen(q, body, [q] + ShowThen(rest, s)), backslash);
      MaskBody(q, body, ShowThen(rest, s), backslash);
    case Paren(inner, rest) =>
      EndsWithQuote(inner);
      MaskStep('(', ShowThen(inner, ")" + ShowThen(rest, s)), backslash);
      MaskStep(')', ShowThen(rest, s), backslash);
      MaskShow(rest, s, backslash);
      MaskShow(inner, ")" + ShowThen(rest, s), backslash);
  }

  lemma MaskWhole(t: Sql, backslash: bool)
    requires Balanced(t)
    ensures Mask(Show(t), None, backslash) == Masked(t)
  {
    MaskShow(t, "", backslash);
  }

  // ----- The plain scanners over a mask

  lemma {:induction false} ClosingBlanks(n: nat, m: string, depth: int)
    ensures Closing(BlanksThen(n, m), depth) == Shift(n, Closing(m, depth))
  {
    if n > 0 { ClosingBlanks(n - 1, m, depth); }
  }

  lemma ClosingStep(c: char, m: string, depth: int)
    ensures Closing([c] + m, depth)
         == if c == ')' && depth == 1 then Some(0)
            else Shift(1, Closing(m, if c == '(' then depth + 1 else if c == ')' then depth - 1 else depth))
  {
    assert ([c] + m)[1..] == m;
  }

  /** Inside parentheses the search for the closer passes over balanced text. */
  lemma {:induction false} ClosingPasses(t: Sql, m: string, depth: int)
    requires Balanced(t) && depth >= 1
    ensures Closing(MaskedThen(t, m), depth) == Shift(Size(t), Closing(m, depth))
    decreases t
  {
    hide Closing, BlanksThen;
    match t
    case End =>
    case Plain(c, rest) =>
      ClosingPasses(rest, m, depth);
      ClosingStep(c, MaskedThen(rest, m), depth);
    case Quoted(q, body, rest) =>
      ClosingPasses(rest, m, depth);
      ClosingBlanks(2 + EscapedSize(q, body), MaskedThen(rest, m), depth);
    case Paren(inner, rest) =>
      ClosingPasses(rest, m, depth);
      ClosingPasses(inner, ")" + MaskedThen(rest, m), depth + 1);
      ClosingStep(')', MaskedThen(rest, m), depth + 1);
      ClosingStep('(', MaskedThen(inner, ")" + MaskedThen(rest, m)), depth);
  }

  /** The parenthesis around balanced text closes right behind it. */
  lemma MatchFindsCloser(t: Sql, s: string)
    requires Balanced(t)
    ensures MatchParenthesis("(" + ShowThen(t, ")" + s)) == Some(1 + Size(t))
  {
    hide ShowThen, MaskedThen, Size;
    var after := Mask(s, None, false);
    EndsWithQuote(t);
    MaskStep(')', s, false);
    MaskShow(t, ")" + s, false);
    MaskStep('(', ShowThen(t, ")" + s), false);
    ClosingStep('(', MaskedThen(t, ")" + after), 0);
    ClosingPasses(t, ")" + after, 1);
    ClosingStep(')', after, 1);
  }

  lemma {:induction false} PartsBody(q: char, body: string, s: string, m: string, depth: nat, current: string)
    requires |s| == |m|
    ensures |EscapeThen(q, body, s)| == |BlanksThen(EscapedSize(q, body), m)|
    ensures Parts(EscapeThen(q, body, s), BlanksThen(EscapedSize(q, body), m), depth, current)
         == Parts(s, m, depth, current + EscapeThen(q, body, ""))
  {
    if body == "" {
      assert current + "" == current;
    } else {
      var n := EscapedSize(q, body[1..]);
      var rest := EscapeThen(q, body[1..], "");
      if body[0] == q {
        PartsBody(q, body[1..], s, m, depth, current + [q] + [q]);
        assert current + [q] + [q] + rest == current + ([q] + ([q] + rest));
        assert BlanksThen(n + 2, m) == [BLANK] + ([BLANK] + BlanksThen(n, m));
      } else {
        PartsBody(q, body[1..], s, m, depth, current + [body[0]]);
        assert current + [body[0]] + rest == current + ([body[0]] + rest);
      }
    }
  }

  lemma PartsQuoted(q: char, body: string, s: string, m: string, depth: nat, current: string)
    requires |s| == |m|
    ensures |[q] + EscapeThen(q, body, [q] + s)| == |BlanksThen(2 + EscapedSize(q, body), m)|
    ensures Parts([q] + EscapeThen(q, body, [q] + s), BlanksThen(2 + EscapedSize(q, body), m), depth, current)
         == Parts(s, m, depth, current + ([q] + EscapeThen(q, body, [q])))
  {
    hide EscapeThen, EscapedSize, BlanksThen, Parts;
    var n := EscapedSize(q, body);
    var inner := EscapeThen(q, body, "");
    BlanksSnoc(n, m);
    BlanksThenIs(n, [BLANK] + m);
    EscapeThenIs(q, body, [q] + s);
    EscapeThenIs(q, body, [q]);
    BlankByte(q, EscapeThen(q, body, [q] + s), BlanksThen(n, [BLANK] + m), depth, current);
    PartsBody(q, body, [q] + s, [BLANK] + m, depth, current + [q]);
    BlankByte(q, s, m, depth, current + [q] + inner);
    assert current + [q] + inner + [q] == current + ([q] + (inner + [q]));
  }

  /** A blanked byte goes with the current part. */
  lemma BlankByte(c: char, s: string, m: string, depth: nat, current: string)
    requires |s| == |m|
    ensures Parts([c] + s, [BLANK] + m, depth, current) == Parts(s, m, depth, current + [c])
  {
    assert ([c] + s)[1..] == s && ([BLANK] + m)[1..] == m;
  }

  lemma {:induction false} BlanksSnoc(n: nat, m: string)
    ensures BlanksThen(n, [BLANK] + m) == BlanksThen(n + 1, m)
    ensures BlanksThen(2 + n, m) == [BLANK] + BlanksThen(n, [BLANK] + m)
  {
    if n > 0 { BlanksSnoc(n - 1, m); }
  }

  lemma PartsStep(c: char, s: string, m: string, depth: nat, current: string)
    requires |s| == |m| && (c != ',' || depth > 0)
    ensures Parts([c] + s, [c] + m, depth, current) == Parts(s, m, Deeper(c, depth), current + [c])
  {
    assert ([c] + s)[1..] == s && ([c] + m)[1..] == m;
  }

  /** Splitting passes over balanced text without a comma outside its parentheses. */
  lemma {:induction false} PartsPass(t: Sql, s: string, m: string, depth: nat, current: string)
    requires Balanced(t) && (depth > 0 || NoComma(t)) && |s| == |m|
    ensures |ShowThen(t, s)| == |MaskedThen(t, m)|
    ensures Parts(ShowThen(t, s), MaskedThen(t, m), depth, current) == Parts(s, m, depth, current + Show(t))
    decreases t
  {
    hide Parts, EscapeThen, BlanksThen, Holes;
    match t
    case End =>
      assert current + "" == current;
    case Plain(c, rest) =>
      PartsPass(rest, s, m, depth, current + [c]);
      PartsStep(c, ShowThen(rest, s), MaskedThen(rest, m), depth, current);
      assert current + [c] + Show(rest) == current + ([c] + Show(rest));
    case Quoted(q, body, rest) =>
      var x := [q] + EscapeThen(q, body, [q]);
      ShowThenIs(rest, s);
      MaskedThenIs(rest, m);
      PartsQuoted(q, body, ShowThen(rest, s), MaskedThen(rest, m), depth, current);
      PartsPass(rest, s, m, depth, current + x);
      EscapeThenIs(q, body, [q] + Show(rest));
      EscapeThenIs(q, body, [q]);
      assert Show(t) == x + Show(rest);
      assert current + x + Show(rest) == current + (x + Show(rest));
    case Paren(inner, rest) =>
      ShowThenIs(rest, s);
      MaskedThenIs(rest, m);
      var s1, m1 := ")" + ShowThen(rest, s), ")" + MaskedThen(rest, m);
      PartsPass(inner, s1, m1, depth + 1, current + "(");
      PartsPass(rest, s, m, depth, current + "(" + Show(inner) + ")");
      PartsStep(')', ShowThen(rest, s), MaskedThen(rest, m), depth + 1, current + "(" + Show(inner));
      PartsStep('(', ShowThen(inner, s1), MaskedThen(inner, m1), depth, current);
      ShowThenIs(inner, ")" + Show(rest));
      assert current + "(" + Show(inner) + ")" + Show(rest) == current + ("(" + (Show(inner) + (")" + Show(rest))));
  }

  lemma {:induction false} BlanksHaveNoHoles(n: nat, m: string)
    ensures Placeholders(BlanksThen(n, m)) == Placeholders(m)
  {
    if n > 0 { BlanksHaveNoHoles(n - 1, m); }
  }

  lemma {:induction false} HolesAreCounted(t: Sql, m: string)
    ensures Placeholders(MaskedThen(t, m)) == Holes(t) + Placeholders(m)
    decreases t
  {
    match t
    case End =>
    case Plain(c, rest) => HolesAreCounted(rest, m);
    case Quoted(q, body, rest) =>
      HolesAreCounted(rest, m);
      BlanksHaveNoHoles(2 + EscapedSize(q, body), MaskedThen(rest, m));
    case Paren(inner, rest) =>
      HolesAreCounted(rest, m);
      HolesAreCounted(inner, ")" + MaskedThen(rest, m));
  }

  /** Counting placeholders counts those outside quotes, at any depth. */
  lemma CountFindsHoles(t: Sql)
    requires Balanced(t)
    ensures CountPlaceholders(Show(t)) == Holes(t)
  {
    MaskWhole(t, true);
    HolesAreCounted(t, "");
  }

  // ----- Trimming

  predicate Spaces(s: string) { forall i :: 0 <= i < |s| ==> IsSpace(s[i]) }

  /** The text neither begins nor ends with a space. */
  predicate Tight(s: string) { s != "" && !IsSpace(s[0]) && !IsSpace(s[|s| - 1]) }

  lemma {:induction false} TrimSpaces(gap: string, s: string)
    requires Spaces(gap)
    ensures Trim(gap + s) == Trim(s)
  {
    if gap == "" {
      assert gap + s == s;
    } else {
      TrimSpaces(gap[1..], s);
      assert (gap + s)[1..] == gap[1..] + s;
    }
  }

  lemma TrimTight(s: string)
    requires Tight(s)
    ensures Trim(s) == s
  {
  }

  lemma {:induction false} TrimRightSpaces(s: string, gap: string)
    requires Spaces(gap) && Tight(s)
    ensures TrimRight(s + gap) == s
  {
    if gap == "" {
      assert s + gap == s;
    } else {
      TrimRightSpaces(s, gap[..|gap| - 1]);
      assert (s + gap)[..|s + gap| - 1] == s + gap[..|gap| - 1];
    }
  }

  /** Space on either side is trimmed away. */
  lemma TrimBoth(left: string, s: string, right: string)
    requires Spaces(left) && Spaces(right) && Tight(s)
    ensures Trim(left + (s + right)) == s
  {
    TrimSpaces(left, s + right);
    assert (s + right)[0] == s[0];
    TrimRightSpaces(s, right);
  }

  // ----- Lists

  function Append(a: Sql, b: Sql): Sql {
    match a
    case End => b
    case Plain(c, rest) => Plain(c, Append(rest, b))
    case Quoted(q, body, rest) => Quoted(q, body, Append(rest, b))
    case Paren(inner, rest) => Paren(inner, Append(rest, b))
  }

  function Chars(s: string): Sql {
    if s == "" then End else Plain(s[0], Chars(s[1..]))
  }

  /** An item of a list, and the space around it. */
  datatype Spaced = Spaced(before: string, item: Sql, after: string)

  /** An item and its space, in front of t. */
  function Around(x: Spaced, t: Sql): Sql {
    Append(Chars(x.before), Append(x.item, Append(Chars(x.after), t)))
  }

  /** Items separated by commas, each with its own space on both sides. */
  function Listed(items: seq<Spaced>): Sql {
    if items == [] then End
    else Around(items[0], if |items| == 1 then End else Plain(',', Listed(items[1..])))
  }

  lemma {:induction false} AppendThen(a: Sql, b: Sql, s: string)
    ensures ShowThen(Append(a, b), s) == ShowThen(a, ShowThen(b, s))
    ensures MaskedThen(Append(a, b), s) == MaskedThen(a, MaskedThen(b, s))
    ensures Size(Append(a, b)) == Size(a) + Size(b)
  {
    if !a.End? { AppendThen(a.rest, b, s); }
  }

  predicate PlainText(s: string) {
    forall i :: 0 <= i < |s| ==> !IsQuote(s[i]) && s[i] != '(' && s[i] != ')'
  }

  lemma {:induction false} CharsThen(text: string, s: string)
    ensures ShowThen(Chars(text), s) == text + s
    ensures MaskedThen(Chars(text), s) == text + s
    ensures Size(Chars(text)) == |text|
  {
    if text != "" {
      CharsThen(text[1..], s);
      assert text + s == [text[0]] + (text[1..] + s);
    }
  }

  lemma {:induction false} CharsAre(text: string)
    ensures PlainText(text) ==> Balanced(Chars(text))
    ensures ',' !in text ==> NoComma(Chars(text))
    ensures '?' !in text ==> Holes(Chars(text)) == 0
    ensures Ends(Chars(text)).None?
  {
    if text != "" { CharsAre(text[1..]); }
  }

  lemma {:induction false} AppendBalanced(a: Sql, b: Sql)
    requires Balanced(a) && Balanced(b) && (!b.Quoted? || Ends(a).None?)
    ensures Balanced(Append(a, b))
  {
    if !a.End? && !a.rest.End? { AppendBalanced(a.rest, b); }
  }

  /** Items a list can hold. */
  predicate Item(t: Sql) {
    Balanced(t) && NoComma(t) && Tight(Show(t))
  }

  predicate Items(items: seq<Spaced>) {
    items == [] || (Item(items[0].item) && Spaces(items[0].before) && Spaces(items[0].after) && Items(items[1..]))
  }

  lemma AroundBalanced(x: Spaced, t: Sql)
    requires Item(x.item) && Spaces(x.before) && Spaces(x.after) && Balanced(t) && !t.Quoted?
    ensures Balanced(Around(x, t))
  {
    hide Tight, Show;
    CharsAre(x.before);
    CharsAre(x.after);
    var behind := Append(Chars(x.after), t);
    AppendBalanced(Chars(x.after), t);
    AppendBalanced(x.item, behind);
    AppendBalanced(Chars(x.before), Append(x.item, behind));
  }

  lemma {:induction false} ListedBalanced(items: seq<Spaced>)
    requires Items(items)
    ensures Balanced(Listed(items))
  {
    hide Around, Item;
    if items != [] {
      if |items| > 1 { ListedBalanced(items[1..]); }
      AroundBalanced(items[0], if |items| == 1 then End else Plain(',', Listed(items[1..])));
    }
  }

  lemma AroundThen(x: Spaced, t: Sql, s: string)
    ensures ShowThen(Around(x, t), s) == x.before + ShowThen(x.item, x.after + ShowThen(t, s))
    ensures MaskedThen(Around(x, t), s) == x.before + MaskedThen(x.item, x.after + MaskedThen(t, s))
    ensures Size(Around(x, t)) == |x.before| + Size(x.item) + |x.after| + Size(t)
  {
    hide ShowThen, MaskedThen, Size;
    var behind := Append(Chars(x.after), t);
    AppendThen(Chars(x.before), Append(x.item, behind), s);
    AppendThen(x.item, behind, s);
    AppendThen(Chars(x.after), t, s);
    CharsThen(x.after, ShowThen(t, s));
    CharsThen(x.after, MaskedThen(t, s));
    CharsThen(x.before, ShowThen(x.item, x.after + ShowThen(t, s)));
    CharsThen(x.before, MaskedThen(x.item, x.after + MaskedThen(t, s)));
  }

  lemma OneListed(items: seq<Spaced>, s: string)
    requires |items| == 1
    ensures var x := items[0];
            && ShowThen(Listed(items), s) == x.before + ShowThen(x.item, x.after + s)
            && MaskedThen(Listed(items), s) == x.before + MaskedThen(x.item, x.after + s)
            && Size(Listed(items)) == |x.before| + Size(x.item) + |x.after|
  {
    AroundThen(items[0], End, s);
  }

  lemma ListedThen(items: seq<Spaced>, s: string)
    requires |items| > 1
    ensures var x := items[0];
            var rest := Listed(items[1..]);
            && ShowThen(Listed(items), s) == x.before + ShowThen(x.item, x.after + ([','] + ShowThen(rest, s)))
            && MaskedThen(Listed(items), s) == x.before + MaskedThen(x.item, x.after + ([','] + MaskedThen(rest, s)))
            && Size(Listed(items)) == |x.before| + Size(x.item) + |x.after| + (1 + Size(rest))
  {
    AroundThen(items[0], Plain(',', Listed(items[1..])), s);
  }

  function Shown(items: seq<Spaced>): (texts: seq<string>)
    ensures |texts| == |items|
  {
    if items == [] then [] else [Show(items[0].item)] + Shown(items[1..])
  }

  lemma GapThenParts(gap: string, s: string, m: string, current: string)
    requires Spaces(gap) && |s| == |m|
    ensures |gap + s| == |gap + m|
    ensures Parts(gap + s, gap + m, 0, current) == Parts(s, m, 0, current + gap)
  {
    CharsAre(gap);
    CharsThen(gap, s);
    CharsThen(gap, m);
    CharsThen(gap, "");
    PartsPass(Chars(gap), s, m, 0, current);
    assert gap + "" == gap;
  }

  /** Splitting passes over an item and its space. */
  lemma PartsOfItem(x: Spaced, s: string, m: string, current: string)
    requires Item(x.item) && Spaces(x.before) && Spaces(x.after) && |s| == |m|
    ensures |x.before + ShowThen(x.item, x.after + s)| == |x.before + MaskedThen(x.item, x.after + m)|
    ensures Parts(x.before + ShowThen(x.item, x.after + s), x.before + MaskedThen(x.item, x.after + m), 0, current)
         == Parts(s, m, 0, current + x.before + Show(x.item) + x.after)
  {
    hide Parts, ShowThen, MaskedThen, Show, Tight;
    PartsPass(x.item, x.after + s, x.after + m, 0, current + x.before);
    GapThenParts(x.before, ShowThen(x.item, x.after + s), MaskedThen(x.item, x.after + m), current);
    GapThenParts(x.after, s, m, current + x.before + Show(x.item));
  }

  /** The space around an item is trimmed away. */
  lemma TrimItem(x: Spaced, current: string)
    requires Item(x.item) && Spaces(x.before) && Spaces(x.after) && Spaces(current)
    ensures Trim(current + x.before + Show(x.item) + x.after) == Show(x.item)
  {
    hide Trim, Show;
    var left := current + x.before;
    assert current + x.before + Show(x.item) + x.after == left + (Show(x.item) + x.after);
    TrimBoth(left, Show(x.item), x.after);
  }

  lemma PartsEnd(current: string)
    ensures Parts("", "", 0, current) == [Trim(current)]
  {
  }

  lemma PartsComma(s: string, m: string, current: string)
    requires |s| == |m|
    ensures Parts([','] + s, [','] + m, 0, current) == [Trim(current)] + Parts(s, m, 0, "")
  {
    assert ([','] + s)[1..] == s && ([','] + m)[1..] == m;
  }

  lemma FirstOfItems(items: seq<Spaced>)
    requires items != [] && Items(items)
    ensures Item(items[0].item) && Spaces(items[0].before) && Spaces(items[0].after) && Items(items[1..])
    ensures Shown(items) == [Show(items[0].item)] + Shown(items[1..])
    ensures |items| == 1 ==> Shown(items[1..]) == []
  {
  }

  lemma ShowIs(t: Sql)
    ensures Show(t) == ShowThen(t, "") && Masked(t) == MaskedThen(t, "") && Spaces("")
  {
  }

  lemma {:induction false} PartsOfList(items: seq<Spaced>, current: string)
    requires items != [] && Items(items) && Spaces(current)
    ensures |Show(Listed(items))| == |Masked(Listed(items))|
    ensures Parts(Show(Listed(items)), Masked(Listed(items)), 0, current) == Shown(items)
  {
    hide *;
    var x := items[0];
    FirstOfItems(items);
    ShowIs(Listed(items));
    TrimItem(x, current);
    var all := current + x.before + Show(x.item) + x.after;
    if |items| == 1 {
      OneListed(items, "");
      PartsOfItem(x, "", "", current);
      PartsEnd(all);
      assert [Show(x.item)] + [] == [Show(x.item)];
    } else {
      var rest := Listed(items[1..]);
      ShowIs(rest);
      ListedThen(items, "");
      PartsOfList(items[1..], "");
      PartsOfItem(x, [','] + Show(rest), [','] + Masked(rest), current);
      PartsComma(Show(rest), Masked(rest), all);
    }
  }

  /** Splitting a printed list gives its items back, however they are spaced. */
  lemma SplitReadsList(items: seq<Spaced>)
    requires items != [] && Items(items)
    ensures SplitList(Show(Listed(items))) == Shown(items)
  {
    hide Parts, Items, Listed, Shown, Show, Masked, Mask;
    ListedBalanced(items);
    MaskWhole(Listed(items), false);
    PartsOfList(items, "");
  }

  /** No space in front of the first item, and none behind the last. */
  predicate Flush(items: seq<Spaced>) {
    items != [] && items[0].before == "" && items[|items| - 1].after == ""
  }

  lemma EndsAs(a: string, b: string)
    requires b != ""
    ensures (a + b) != "" && (a + b)[|a + b| - 1] == b[|b| - 1]
    ensures a != "" ==> (a + b)[0] == a[0]
  {
  }

  /** A list ends as its last item does. */
  lemma {:induction false} ListEnds(items: seq<Spaced>)
    requires items != [] && Items(items) && items[|items| - 1].after == ""
    ensures var text := Show(Listed(items));
            text != "" && !IsSpace(text[|text| - 1])
  {
    hide *;
    var x := items[0];
    FirstOfItems(items);
    ItemIsTight(x.item);
    ShowIs(Listed(items));
    if |items| == 1 {
      OneListed(items, "");
      assert x.after + "" == "";
      ShowIs(x.item);
      EndsAs(x.before, Show(x.item));
    } else {
      var rest := Listed(items[1..]);
      ListEnds(items[1..]);
      ShowIs(rest);
      ListedThen(items, "");
      var after := x.after + ([','] + Show(rest));
      ShowThenIs(x.item, after);
      EndsAs([','], Show(rest));
      EndsAs(x.after, [','] + Show(rest));
      EndsAs(Show(x.item), after);
      EndsAs(x.before, Show(x.item) + after);
    }
  }

  lemma ItemIsTight(t: Sql)
    requires Item(t)
    ensures Show(t) != "" && !IsSpace(Show(t)[0]) && !IsSpace(Show(t)[|Show(t)| - 1]) && Balanced(t)
  {
  }

  /** A flush list is as tight as its items. */
  lemma ListedTight(items: seq<Spaced>)
    requires Flush(items) && Items(items)
    ensures Tight(Show(Listed(items)))
  {
    hide Items, Listed, ShowThen, Show;
    var x := items[0];
    FirstOfItems(items);
    ItemIsTight(x.item);
    ListEnds(items);
    ShowIs(Listed(items));
    var after := if |items| == 1 then x.after else x.after + ([','] + ShowThen(Listed(items[1..]), ""));
    if |items| == 1 {
      OneListed(items, "");
      assert x.after + "" == x.after;
    } else {
      ListedThen(items, "");
    }
    ShowThenIs(x.item, after);
    assert "" + (Show(x.item) + after) == Show(x.item) + after;
    assert (Show(x.item) + after)[0] == Show(x.item)[0];
  }

  // ----- Keywords

  function DepthAfter(m: string, depth: nat): nat {
    if m == "" then depth else DepthAfter(m[1..], Deeper(m[0], depth))
  }

  function LastOf(m: string, before: Option<char>): Option<char> {
    if m == "" then before else Some(m[|m| - 1])
  }

  /** x begins with a byte that belongs to no word. */
  predicate Separates(x: string) { x != "" && !InWord(x[0]) }

  lemma {:induction false} StartsInside(u: string, x: string, word: string)
    requires Separates(x) && forall i :: 0 <= i < |word| ==> 'A' <= word[i] <= 'Z'
    ensures StartsWord(u + x, word) <==> StartsWord(u, word)
  {
    if u == "" {
      assert u + x == x;
    } else if word != "" {
      assert (u + x)[1..] == u[1..] + x;
      StartsInside(u[1..], x, word[1..]);
    }
  }

  /** Text without the word, followed by a separator, is passed over. */
  lemma {:induction false} WordPasses(u: string, x: string, word: string, depth: nat, before: Option<char>)
    requires Letters(word) && Separates(x)
    requires FirstWord(u, word, depth, before).None?
    ensures FirstWord(u + x, word, depth, before)
         == Shift(|u|, FirstWord(x, word, DepthAfter(u, depth), LastOf(u, before)))
  {
    if u == "" {
      assert u + x == x;
    } else {
      StartsInside(u, x, word);
      assert (u + x)[1..] == u[1..] + x;
      WordPasses(u[1..], x, word, Deeper(u[0], depth), Some(u[0]));
      assert LastOf(u[1..], Some(u[0])) == LastOf(u, before);
    }
  }

  lemma {:induction false} GapPasses(gap: string, rest: string, word: string, before: Option<char>)
    requires Letters(word) && Spaces(gap)
    ensures FirstWord(gap + rest, word, 0, before) == Shift(|gap|, FirstWord(rest, word, 0, LastOf(gap, before)))
  {
    if gap == "" {
      assert gap + rest == rest;
    } else {
      assert (gap + rest)[1..] == gap[1..] + rest;
      GapPasses(gap[1..], rest, word, Some(gap[0]));
      assert LastOf(gap[1..], Some(gap[0])) == LastOf(gap, before);
    }
  }

  lemma {:induction false} BlanksKeepDepth(n: nat, m: string, depth: nat)
    ensures DepthAfter(BlanksThen(n, m), depth) == DepthAfter(m, depth)
  {
    if n > 0 { BlanksKeepDepth(n - 1, m, depth); }
  }

  /** Balanced text ends at the depth it began. */
  lemma {:induction false} BalancedKeepsDepth(t: Sql, m: string, depth: nat)
    requires Balanced(t)
    ensures DepthAfter(MaskedThen(t, m), depth) == DepthAfter(m, depth)
    decreases t
  {
    match t
    case End =>
    case Plain(c, rest) =>
      BalancedKeepsDepth(rest, m, depth);
    case Quoted(q, body, rest) =>
      BalancedKeepsDepth(rest, m, depth);
      BlanksKeepDepth(2 + EscapedSize(q, body), MaskedThen(rest, m), depth);
    case Paren(inner, rest) =>
      BalancedKeepsDepth(rest, m, depth);
      BalancedKeepsDepth(inner, ")" + MaskedThen(rest, m), depth + 1);
  }

  /** Text whose own scan finds no such keyword. */
  predicate Lacks(t: Sql, word: string) {
    FirstWord(Masked(t), word, 0, None).None?
  }

  predicate AllLack(items: seq<Spaced>, word: string) {
    items == [] || (Lacks(items[0].item, word) && AllLack(items[1..], word))
  }

  /** Passing over one item, at the start of the text or behind a separator. */
  lemma ItemPasses(t: Sql, m: string, word: string, before: Option<char>)
    requires Letters(word) && Balanced(t) && Lacks(t, word) && Separates(m)
    requires before.None? || !InWord(before.value)
    ensures FirstWord(MaskedThen(t, m), word, 0, before)
         == Shift(Size(t), FirstWord(m, word, 0, LastOf(Masked(t), before)))
  {
    var u := Masked(t);
    MaskedThenIs(t, m);
    MaskedThenIs(t, "");
    BalancedKeepsDepth(t, "", 0);
    assert FirstWord(u, word, 0, before) == FirstWord(u, word, 0, None);
    WordPasses(u, m, word, 0, before);
  }

  /** Space and a comma are passed over. */
  lemma SeparatorPasses(gap: string, m: string, word: string, before: Option<char>)
    requires Letters(word) && Spaces(gap)
    ensures FirstWord(gap + ([','] + m), word, 0, before) == Shift(|gap| + 1, FirstWord(m, word, 0, Some(',')))
  {
    GapPasses(gap, [','] + m, word, before);
    assert ([','] + m)[1..] == m;
  }

  lemma ShiftAdds(a: nat, b: nat, i: Option<nat>)
    ensures Shift(a, Shift(b, i)) == Shift(a + b, i)
  {
  }

  /** Space in front of a separator separates. */
  lemma GapSeparates(gap: string, m: string)
    requires Spaces(gap) && Separates(m)
    ensures Separates(gap + m)
  {
  }

  lemma CommaSeparates(x: string)
    ensures Separates([','] + x)
  {
  }

  /** Space belongs to no word. */
  lemma SpaceEnds(gap: string, before: Option<char>)
    requires Spaces(gap) && (before.None? || !InWord(before.value))
    ensures LastOf(gap, before).None? || !InWord(LastOf(gap, before).value)
  {
  }

  /** Passing over the space in front of an item, and the item. */
  lemma SpacedPasses(x: Spaced, m: string, word: string, before: Option<char>) returns (last: Option<char>)
    requires Letters(word) && Spaces(x.before) && Spaces(x.after) && Balanced(x.item) && Lacks(x.item, word) && Separates(x.after + m)
    requires before.None? || !InWord(before.value)
    ensures FirstWord(x.before + MaskedThen(x.item, x.after + m), word, 0, before)
         == Shift(|x.before| + Size(x.item), FirstWord(x.after + m, word, 0, last))
  {
    hide *;
    var middle := LastOf(x.before, before);
    SpaceEnds(x.before, before);
    GapPasses(x.before, MaskedThen(x.item, x.after + m), word, before);
    ItemPasses(x.item, x.after + m, word, middle);
    last := LastOf(Masked(x.item), middle);
    ShiftAdds(|x.before|, Size(x.item), FirstWord(x.after + m, word, 0, last));
  }

  lemma FirstLacks(items: seq<Spaced>, word: string)
    requires items != [] && Items(items) && AllLack(items, word)
    ensures Balanced(items[0].item) && Lacks(items[0].item, word) && AllLack(items[1..], word)
  {
  }

  lemma NoWordAtComma()
    ensures !InWord(',')
  {
  }

  lemma {:induction false} ListPasses(items: seq<Spaced>, m: string, word: string, before: Option<char>)
    returns (last: Option<char>)
    requires items != [] && Letters(word) && Separates(m)
    requires before.None? || !InWord(before.value)
    requires Items(items) && AllLack(items, word)
    ensures FirstWord(MaskedThen(Listed(items), m), word, 0, before)
         == Shift(Size(Listed(items)), FirstWord(m, word, 0, last))
  {
    hide *;
    var x := items[0];
    FirstOfItems(items);
    FirstLacks(items, word);
    if |items| == 1 {
      OneListed(items, m);
      GapSeparates(x.after, m);
      var middle := SpacedPasses(x, m, word, before);
      GapPasses(x.after, m, word, middle);
      last := LastOf(x.after, middle);
      ShiftAdds(|x.before| + Size(x.item), |x.after|, FirstWord(m, word, 0, last));
    } else {
      var rest := Listed(items[1..]);
      NoWordAtComma();
      last := ListPasses(items[1..], m, word, Some(','));
      ListedThen(items, m);
      var tail := MaskedThen(rest, m);
      CommaSeparates(tail);
      GapSeparates(x.after, [','] + tail);
      var middle := SpacedPasses(x, [','] + tail, word, before);
      SeparatorPasses(x.after, tail, word, middle);
      ShiftAdds(|x.before| + Size(x.item), |x.after| + 1, FirstWord(tail, word, 0, Some(',')));
      ShiftAdds(|x.before| + Size(x.item) + (|x.after| + 1), Size(rest), FirstWord(m, word, 0, last));
    }
  }

  lemma {:induction false} KeywordIsPlain(keyword: string, word: string)
    requires Letters(word) && Upper(keyword) == word
    ensures PlainText(keyword)
  {
    forall i | 0 <= i < |keyword| ensures !IsQuote(keyword[i]) && keyword[i] != '(' && keyword[i] != ')' {
      assert word[i] == UpperChar(keyword[i]);
    }
  }

  lemma MaskKeyword(gap: string, keyword: string, tail: string)
    requires Spaces(gap) && PlainText(keyword)
    ensures Mask(gap + (keyword + tail), None, true) == gap + (keyword + Mask(tail, None, true))
  {
    hide Mask, Chars, ShowThen, MaskedThen, Balanced;
    var plain := gap + keyword;
    CharsAre(plain);
    CharsThen(plain, tail);
    CharsThen(plain, Mask(tail, None, true));
    MaskShow(Chars(plain), tail, true);
    assert plain + tail == gap + (keyword + tail);
    assert plain + Mask(tail, None, true) == gap + (keyword + Mask(tail, None, true));
  }

  /** The byte behind the keyword ends it. */
  predicate EndsWord(tail: string) {
    tail == "" || !InWord(tail[0])
  }

  lemma MaskEndsWord(tail: string)
    requires EndsWord(tail)
    ensures EndsWord(Mask(tail, None, true))
  {
  }

  /** A keyword behind some space is found right there. */
  lemma KeywordFound(gap: string, keyword: string, tail: string, word: string, before: Option<char>)
    requires Spaces(gap) && gap != "" && Letters(word) && Upper(keyword) == word && EndsWord(tail)
    ensures FirstWord(gap + (keyword + tail), word, 0, before) == Some(|gap|)
  {
    GapPasses(gap, keyword + tail, word, before);
    WordStarts(keyword + tail, word);
    assert Upper(keyword + tail) == word + Upper(tail);
    assert UpperChar(keyword[0]) == word[0];
  }

  lemma FindOver(t: Sql, s: string, word: string)
    requires Balanced(t) && Clear(t, s)
    ensures FindKeyword(ShowThen(t, s), word) == FirstWord(MaskedThen(t, Mask(s, None, true)), word, 0, None)
  {
    MaskShow(t, s, true);
  }

  /** The first top-level keyword behind a list is the one that follows it. */
  lemma FindSkipsList(items: seq<Spaced>, gap: string, keyword: string, tail: string, word: string)
    requires items != [] && Spaces(gap) && gap != "" && Letters(word)
    requires Items(items) && AllLack(items, word)
    requires Upper(keyword) == word && EndsWord(tail)
    ensures FindKeyword(ShowThen(Listed(items), gap + (keyword + tail)), word) == Some(Size(Listed(items)) + |gap|)
  {
    hide *;
    var x, m := gap + (keyword + tail), gap + (keyword + Mask(tail, None, true));
    ListedBalanced(items);
    KeywordIsPlain(keyword, word);
    MaskKeyword(gap, keyword, tail);
    MaskEndsWord(tail);
    GapStarts(Listed(items), gap, keyword + tail);
    EndIsBalanced();
    GapStarts(End, gap, keyword + Mask(tail, None, true));
    var last := ListPasses(items, m, word, None);
    KeywordFound(gap, keyword, Mask(tail, None, true), word, last);
    FindBehind(Listed(items), x, m, word, last, |gap|);
  }

  /** Space separates, and it may follow any text. */
  lemma GapStarts(t: Sql, gap: string, x: string)
    requires Spaces(gap) && gap != "" && Balanced(t)
    ensures Separates(gap + x) && Clear(t, gap + x)
  {
    EndsWithQuote(t);
  }

  lemma EndIsBalanced()
    ensures Balanced(End)
  {
  }

  lemma FindBehind(t: Sql, x: string, m: string, word: string, last: Option<char>, n: nat)
    requires Balanced(t) && Clear(t, x) && Mask(x, None, true) == m
    requires FirstWord(MaskedThen(t, m), word, 0, None) == Shift(Size(t), FirstWord(m, word, 0, last))
    requires FirstWord(m, word, 0, last) == Some(n)
    ensures FindKeyword(ShowThen(t, x), word) == Some(Size(t) + n)
  {
    hide ShowThen, MaskedThen, Mask, FirstWord, FindKeyword;
    FindOver(t, x, word);
  }
}
