/**
 The managed site block in a Caddyfile: inserting or replacing it edits the text between
 two marker lines and leaves the other lines alone.
 */
module CaddyBlock {
  import opened Decimals

  const BEGIN_PREFIX := "# BEGIN RenoP managed reverse proxy: "
  const END_PREFIX := "# END RenoP managed reverse proxy: "

  datatype Failure = NoPort | Repeated | Incomplete | WrongOrder

  datatype Result<+T> = Ok(value: T) | Err(failure: Failure)

  /** A normalized hostname: a domain name in ASCII, or an address. */
  predicate Host(h: string) {
    h != "" && forall i :: 0 <= i < |h| ==> 'a' <= h[i] <= 'z' || '0' <= h[i] <= '9' || h[i] == '-' || h[i] == '.' || h[i] == ':'
  }

  function Begin(h: string): string { BEGIN_PREFIX + h }

  function End(h: string): string { END_PREFIX + h }

  function Block(h: string, port: nat): (lines: seq<string>)
    ensures |lines| == 7
  {
    [Begin(h),
     h + " {",
     "    reverse_proxy 127.0.0.1:" + Decimal(port) + " {",
     "        flush_interval -1",
     "    }",
     "}",
     End(h)]
  }

  // ----- Lines

  function Lines(text: string): (lines: seq<string>)
    ensures lines != []
  {
    if text == "" then [""]
    else
      var rest := Lines(text[1..]);
      if text[0] == '\n' then [""] + rest else [[text[0]] + rest[0]] + rest[1..]
  }

  function Join(lines: seq<string>): string
    requires lines != []
  {
    if |lines| == 1 then lines[0] else lines[0] + ("\n" + Join(lines[1..]))
  }

  /** Lines, each with its line feed. */
  function Terminated(lines: seq<string>): string {
    if lines == [] then "" else lines[0] + ("\n" + Terminated(lines[1..]))
  }

  predicate Lacks(lines: seq<string>, c: char) {
    forall i :: 0 <= i < |lines| ==> c !in lines[i]
  }

  lemma {:induction false} JoinLines(text: string)
    ensures Join(Lines(text)) == text && Lacks(Lines(text), '\n')
  {
    if text != "" {
      JoinLines(text[1..]);
      var rest := Lines(text[1..]);
      if text[0] == '\n' {
        assert Lines(text)[1..] == rest;
      } else {
        assert Lines(text)[1..] == rest[1..];
      }
    }
  }

  lemma {:induction false} LinesBehind(line: string, text: string)
    requires '\n' !in line
    ensures Lines(line + ("\n" + text)) == [line] + Lines(text)
  {
    if line == "" {
      assert line + ("\n" + text) == "\n" + text;
    } else {
      assert (line + ("\n" + text))[1..] == line[1..] + ("\n" + text);
      LinesBehind(line[1..], text);
      assert ([line[1..]] + Lines(text))[1..] == Lines(text) && line == [line[0]] + line[1..];
    }
  }

  lemma {:induction false} OneLine(line: string)
    requires '\n' !in line
    ensures Lines(line) == [line]
  {
    if line != "" {
      OneLine(line[1..]);
      assert [line[1..]][1..] == [] && line == [line[0]] + line[1..];
    }
  }

  lemma {:induction false} LinesJoined(lines: seq<string>)
    requires lines != [] && Lacks(lines, '\n')
    ensures Lines(Join(lines)) == lines
  {
    if |lines| == 1 {
      OneLine(lines[0]);
    } else {
      LinesJoined(lines[1..]);
      LinesBehind(lines[0], Join(lines[1..]));
    }
  }

  lemma {:induction false} JoinAppended(a: seq<string>, c: seq<string>)
    requires c != []
    ensures Join(a + c) == Terminated(a) + Join(c)
  {
    if a == [] {
      assert a + c == c;
    } else {
      assert (a + c)[1..] == a[1..] + c;
      JoinAppended(a[1..], c);
    }
  }

  // ----- Line endings

  predicate HasCrlf(text: string) {
    exists i :: 0 <= i < |text| - 1 && text[i] == '\r' && text[i + 1] == '\n'
  }

  /** Every carriage return is followed by a line feed. */
  predicate NoLoneCr(text: string) {
    forall i :: 0 <= i < |text| && text[i] == '\r' ==> i + 1 < |text| && text[i + 1] == '\n'
  }

  /** ReplaceAll of carriage return and line feed by line feed. */
  function FromCrlf(text: string): string {
    if text == "" then ""
    else if |text| > 1 && text[0] == '\r' && text[1] == '\n' then ['\n'] + FromCrlf(text[2..])
    else [text[0]] + FromCrlf(text[1..])
  }

  /** ReplaceAll of line feed by carriage return and line feed. */
  function ToCrlf(text: string): string {
    if text == "" then ""
    else if text[0] == '\n' then ['\r', '\n'] + ToCrlf(text[1..])
    else [text[0]] + ToCrlf(text[1..])
  }

  /** The text in the line ending of the file it came from. */
  function WithEnding(crlf: bool, text: string): string {
    if crlf then ToCrlf(text) else text
  }

  lemma EndingIs(crlf: bool, text: string)
    ensures WithEnding(crlf, text) == if crlf then ToCrlf(text) else text
  {
  }

  lemma {:induction false} FromCrlfHasNoCr(text: string)
    requires NoLoneCr(text)
    ensures '\r' !in FromCrlf(text)
  {
    if text != "" {
      if |text| > 1 && text[0] == '\r' && text[1] == '\n' { FromCrlfHasNoCr(text[2..]); } else { FromCrlfHasNoCr(text[1..]); }
    }
  }

  lemma {:induction false} FromCrlfKeeps(text: string)
    requires '\r' !in text
    ensures FromCrlf(text) == text && !HasCrlf(text)
  {
    if text != "" { FromCrlfKeeps(text[1..]); }
  }

  lemma CrlfFirst(rest: string)
    ensures HasCrlf(['\r', '\n'] + rest)
  {
    var text := ['\r', '\n'] + rest;
    assert text[0] == '\r' && text[1] == '\n';
  }

  lemma CrlfLater(c: char, rest: string)
    requires HasCrlf(rest)
    ensures HasCrlf([c] + rest)
  {
    var i :| 0 <= i < |rest| - 1 && rest[i] == '\r' && rest[i + 1] == '\n';
    assert ([c] + rest)[i + 1] == '\r' && ([c] + rest)[i + 2] == '\n';
  }

  lemma FromPair(rest: string)
    ensures FromCrlf(['\r', '\n'] + rest) == ['\n'] + FromCrlf(rest)
  {
    assert (['\r', '\n'] + rest)[2..] == rest;
  }

  lemma FromOther(c: char, rest: string)
    requires c != '\r'
    ensures FromCrlf([c] + rest) == [c] + FromCrlf(rest)
  {
    assert ([c] + rest)[1..] == rest;
  }

  lemma {:induction false} CrlfRoundTrip(text: string)
    requires '\r' !in text
    ensures FromCrlf(ToCrlf(text)) == text && ('\n' in text ==> HasCrlf(ToCrlf(text)))
  {
    if text != "" {
      hide FromCrlf, HasCrlf;
      var first, rest := text[0], ToCrlf(text[1..]);
      CrlfRoundTrip(text[1..]);
      assert text == [first] + text[1..];
      if first == '\n' {
        FromPair(rest);
        CrlfFirst(rest);
      } else {
        FromOther(first, rest);
        if '\n' in text { CrlfLater(first, rest); }
      }
    }
  }

  // ----- Finding a marker

  datatype Found = Absent | At(index: nat) | Twice

  function Find(lines: seq<string>, marker: string): (found: Found)
    ensures found.Absent? <==> marker !in lines
    ensures found.At? ==> found.index < |lines| && lines[found.index] == marker
    ensures found.At? ==> forall j :: 0 <= j < |lines| && j != found.index ==> lines[j] != marker
  {
    if lines == [] then Absent
    else
      var rest := Find(lines[1..], marker);
      assert forall j :: 0 < j < |lines| ==> lines[j] == lines[1..][j - 1];
      if lines[0] == marker then (if rest.Absent? then At(0) else Twice)
      else if rest.At? then At(rest.index + 1) else rest
  }

  lemma {:induction false} FindOnly(lines: seq<string>, marker: string, i: nat)
    requires i < |lines| && lines[i] == marker && forall j :: 0 <= j < |lines| && j != i ==> lines[j] != marker
    ensures Find(lines, marker) == At(i)
  {
    if i > 0 { FindOnly(lines[1..], marker, i - 1); }
  }

  /** A part of the lines that leaves out the marker. */
  lemma PartLacks(lines: seq<string>, marker: string, from: nat, to: nat)
    requires from <= to <= |lines| && !Find(lines, marker).Twice?
    requires Find(lines, marker).At? ==> !(from <= Find(lines, marker).index < to)
    ensures marker !in lines[from..to]
  {
    hide Find;
    forall i | 0 <= i < to - from ensures lines[from..to][i] != marker {}
  }

  // ----- The edit, line by line

  function DropBlank(lines: seq<string>): seq<string> {
    if lines != [] && lines[|lines| - 1] == "" then DropBlank(lines[..|lines| - 1]) else lines
  }

  /** The lines a new block is put behind. */
  function Ahead(lines: seq<string>): seq<string> {
    var kept := DropBlank(lines);
    if kept == [] then [] else kept + [""]
  }

  function Edit(lines: seq<string>, h: string, port: nat): (result: Result<seq<string>>)
    ensures result.Ok? ==> result.value != []
  {
    var begin, end := Find(lines, Begin(h)), Find(lines, End(h));
    if begin.Twice? || end.Twice? then Err(Repeated)
    else if begin.Absent? != end.Absent? then Err(Incomplete)
    else if begin.Absent? then Ok(Ahead(lines) + Block(h, port) + [""])
    else if end.index <= begin.index then Err(WrongOrder)
    else Ok(lines[..begin.index] + Block(h, port) + lines[end.index + 1..])
  }

  /** Inserting or replacing the block, as text. */
  function Build(text: string, h: string, port: nat): Result<string> {
    if port == 0 then Err(NoPort) else
    match Edit(Lines(FromCrlf(text)), h, port)
    case Err(e) => Err(e)
    case Ok(lines) => Ok(WithEnding(HasCrlf(text), Join(lines)))
  }

  /** Of the block's lines only the first and the last are markers. */
  lemma BlockMarkers(h: string, port: nat)
    requires Host(h)
    ensures Begin(h) != End(h) && Begin(h) != "" && End(h) != "" && Block(h, port)[0] == Begin(h) && Block(h, port)[6] == End(h)
    ensures forall i :: 0 < i < 6 ==> Block(h, port)[i] != Begin(h) && Block(h, port)[i] != End(h)
  {
    assert Begin(h)[2] == 'B' && End(h)[2] == 'E';
    assert Begin(h)[0] == '#' && End(h)[0] == '#';
    var block := Block(h, port);
    assert block[1][0] == h[0] && block[2][0] == ' ' && block[3][0] == ' ' && block[4][0] == ' ' && block[5][0] == '}';
  }

  lemma EditFails(lines: seq<string>, h: string, port: nat)
    ensures var begin, end := Find(lines, Begin(h)), Find(lines, End(h));
            && (begin.Twice? || end.Twice? ==> Edit(lines, h, port) == Err(Repeated))
            && (begin.Absent? && end.At? ==> Edit(lines, h, port) == Err(Incomplete))
            && (begin.At? && end.Absent? ==> Edit(lines, h, port) == Err(Incomplete))
            && (begin.At? && end.At? && end.index <= begin.index ==> Edit(lines, h, port) == Err(WrongOrder))
  {
    hide Begin, End, Block, Ahead, Find;
  }

  lemma EditAppends(lines: seq<string>, h: string, port: nat)
    requires Find(lines, Begin(h)).Absent? && Find(lines, End(h)).Absent?
    ensures Edit(lines, h, port) == Ok(Ahead(lines) + Block(h, port) + [""])
  {
    hide Begin, End, Block, Ahead, Find;
  }

  lemma EditReplaces(lines: seq<string>, h: string, port: nat, b: nat, e: nat)
    requires b < e < |lines| && Find(lines, Begin(h)) == At(b) && Find(lines, End(h)) == At(e)
    ensures Edit(lines, h, port) == Ok(lines[..b] + Block(h, port) + lines[e + 1..])
  {
    hide Begin, End, Block, Ahead, Find;
  }

  lemma FoundThere(lines: seq<string>, marker: string)
    ensures var found := Find(lines, marker);
            found.At? ==> found.index < |lines| && lines[found.index] == marker
  {
    hide Find;
  }

  /** Replacing the block between lines without markers. */
  lemma EditBetween(a: seq<string>, c: seq<string>, h: string, earlier: nat, port: nat)
    requires Host(h) && Begin(h) !in a && End(h) !in a && Begin(h) !in c && End(h) !in c
    ensures Edit(a + Block(h, earlier) + c, h, port) == Ok(a + Block(h, port) + c)
  {
    var lines := a + Block(h, earlier) + c;
    BlockMarkers(h, earlier);
    FindOnly(lines, Begin(h), |a|);
    FindOnly(lines, End(h), |a| + 6);
    assert lines[..|a|] == a && lines[|a| + 7..] == c;
  }

  lemma {:induction false} DropBlankIsPrefix(lines: seq<string>)
    ensures DropBlank(lines) <= lines && forall i :: |DropBlank(lines)| <= i < |lines| ==> lines[i] == ""
  {
    if lines != [] && lines[|lines| - 1] == "" { DropBlankIsPrefix(lines[..|lines| - 1]); }
  }

  lemma AheadKeeps(lines: seq<string>, marker: string)
    requires marker !in lines && marker != ""
    ensures marker !in Ahead(lines) && DropBlank(lines) <= Ahead(lines) && DropBlank(lines) <= lines
  {
    hide DropBlank;
    DropBlankIsPrefix(lines);
  }

  /** The lines are a block, from its first marker to its last, between a and c. */
  ghost predicate Around(lines: seq<string>, a: seq<string>, c: seq<string>, h: string) {
    exists block: seq<string> :: lines == a + block + c && |block| >= 2 && block[0] == Begin(h) && block[|block| - 1] == End(h)
  }

  lemma IsAround(lines: seq<string>, a: seq<string>, block: seq<string>, c: seq<string>, h: string)
    requires lines == a + block + c && |block| >= 2 && block[0] == Begin(h) && block[|block| - 1] == End(h)
    ensures Around(lines, a, c, h)
  {
    hide Begin, End;
  }

  lemma SplitBlock(lines: seq<string>, b: nat, e: nat)
    requires b < e < |lines|
    ensures var block := lines[b..e + 1];
            lines == lines[..b] + block + lines[e + 1..] && |block| >= 2 && block[0] == lines[b] && block[|block| - 1] == lines[e]
  {
  }

  /** What an edit leaves around the block: every line outside it, in place, up to blank lines at the
      end of a text that had no block. */
  lemma EditKeepsLines(lines: seq<string>, h: string, port: nat) returns (a: seq<string>, c: seq<string>)
    requires Host(h) && Edit(lines, h, port).Ok?
    ensures Edit(lines, h, port) == Ok(a + Block(h, port) + c)
    ensures Begin(h) !in a && End(h) !in a && Begin(h) !in c && End(h) !in c
    ensures if Begin(h) in lines
            then Around(lines, a, c, h)
            else c == [""] && a == Ahead(lines) && DropBlank(lines) <= a && DropBlank(lines) <= lines
    ensures forall other :: Edit(lines, h, other) == Ok(a + Block(h, other) + c)
  {
    hide *;
    BlockMarkers(h, port);
    EditFails(lines, h, port);
    var begin, end := Find(lines, Begin(h)), Find(lines, End(h));
    if begin.Absent? {
      a, c := Ahead(lines), [""];
      AheadKeeps(lines, Begin(h));
      AheadKeeps(lines, End(h));
      forall other ensures Edit(lines, h, other) == Ok(a + Block(h, other) + c) { EditAppends(lines, h, other); }
    } else {
      FoundThere(lines, Begin(h));
      FoundThere(lines, End(h));
      a, c := lines[..begin.index], lines[end.index + 1..];
      PartLacks(lines, Begin(h), 0, begin.index);
      PartLacks(lines, End(h), 0, begin.index);
      PartLacks(lines, Begin(h), end.index + 1, |lines|);
      PartLacks(lines, End(h), end.index + 1, |lines|);
      SplitBlock(lines, begin.index, end.index);
      IsAround(lines, a, lines[begin.index..end.index + 1], c, h);
      forall other ensures Edit(lines, h, other) == Ok(a + Block(h, other) + c) {
        EditReplaces(lines, h, other, begin.index, end.index);
      }
    }
  }

  // ----- Building twice

  /** No control characters: nothing below the space. */
  predicate Printable(s: string) {
    forall i :: 0 <= i < |s| ==> s[i] >= ' '
  }

  lemma PrintableParts(a: string, b: string)
    requires Printable(a) && Printable(b)
    ensures Printable(a + b)
  {
  }

  lemma PrintableLacks(s: string)
    requires Printable(s)
    ensures '\n' !in s && '\r' !in s
  {
  }

  lemma BeginIsPrintable()
    ensures Printable(BEGIN_PREFIX)
  {
  }

  lemma EndIsPrintable()
    ensures Printable(END_PREFIX)
  {
  }

  lemma FixedArePrintable()
    ensures Printable(" {") && Printable("    reverse_proxy 127.0.0.1:")
    ensures Printable("        flush_interval -1") && Printable("    }") && Printable("}")
  {
  }

  lemma BlockIsPrintable(h: string, port: nat)
    requires Host(h)
    ensures forall i :: 0 <= i < 7 ==> Printable(Block(h, port)[i])
  {
    BeginIsPrintable();
    EndIsPrintable();
    FixedArePrintable();
    assert Printable(h) && Printable(Decimal(port));
    hide Printable, Decimal;
    PrintableParts(BEGIN_PREFIX, h);
    PrintableParts(END_PREFIX, h);
    PrintableParts(h, " {");
    PrintableParts("    reverse_proxy 127.0.0.1:", Decimal(port));
    PrintableParts("    reverse_proxy 127.0.0.1:" + Decimal(port), " {");
  }

  lemma BlockLacks(h: string, port: nat)
    requires Host(h)
    ensures Lacks(Block(h, port), '\n') && Lacks(Block(h, port), '\r')
  {
    hide Block, Printable;
    BlockIsPrintable(h, port);
    forall i | 0 <= i < 7 ensures '\n' !in Block(h, port)[i] && '\r' !in Block(h, port)[i] {
      PrintableLacks(Block(h, port)[i]);
    }
  }

  lemma PartsLack(a: seq<string>, block: seq<string>, c: seq<string>, ch: char)
    requires Lacks(a, ch) && Lacks(block, ch) && Lacks(c, ch)
    ensures Lacks(a + block + c, ch)
  {
  }

  lemma SidesLack(lines: seq<string>, b: nat, e: nat, ch: char)
    requires Lacks(lines, ch) && b < e < |lines|
    ensures Lacks(lines[..b], ch) && Lacks(lines[e + 1..], ch)
  {
  }

  lemma AheadLacks(lines: seq<string>, ch: char)
    requires Lacks(lines, ch)
    ensures Lacks(Ahead(lines), ch) && Lacks([""], ch)
  {
    hide DropBlank;
    DropBlankIsPrefix(lines);
  }

  /** Edited lines hold no line feeds and no carriage returns, if the lines did not. */
  lemma EditLacks(lines: seq<string>, h: string, port: nat, ch: char)
    requires Host(h) && Edit(lines, h, port).Ok? && Lacks(lines, ch) && (ch == '\n' || ch == '\r')
    ensures Lacks(Edit(lines, h, port).value, ch)
  {
    hide *;
    BlockLacks(h, port);
    EditFails(lines, h, port);
    var begin, end := Find(lines, Begin(h)), Find(lines, End(h));
    if begin.Absent? {
      EditAppends(lines, h, port);
      AheadLacks(lines, ch);
      PartsLack(Ahead(lines), Block(h, port), [""], ch);
    } else {
      FoundThere(lines, End(h));
      EditReplaces(lines, h, port, begin.index, end.index);
      SidesLack(lines, begin.index, end.index, ch);
      PartsLack(lines[..begin.index], Block(h, port), lines[end.index + 1..], ch);
    }
  }

  lemma {:induction false} JoinLacks(lines: seq<string>, c: char)
    requires lines != [] && c != '\n'
    ensures Lacks(lines, c) <==> c !in Join(lines)
  {
    if |lines| > 1 {
      JoinLacks(lines[1..], c);
      assert forall i :: 0 < i < |lines| ==> lines[i] == lines[1..][i - 1];
    }
  }

  lemma JoinHasLineFeed(lines: seq<string>)
    requires |lines| > 1
    ensures '\n' in Join(lines)
  {
    assert Join(lines)[|lines[0]|] == '\n';
  }

  lemma EditHasLines(lines: seq<string>, h: string, port: nat)
    requires Edit(lines, h, port).Ok?
    ensures |Edit(lines, h, port).value| > 1
  {
  }

  /** Editing twice is editing once, with the later port. */
  lemma EditTwice(lines: seq<string>, h: string, first: nat, second: nat)
    requires Host(h) && Edit(lines, h, first).Ok?
    ensures Edit(lines, h, second).Ok? && Edit(Edit(lines, h, first).value, h, second) == Edit(lines, h, second)
  {
    hide *;
    var a, c := EditKeepsLines(lines, h, first);
    EditBetween(a, c, h, first, second);
  }

  /** What is read back from a text that was built: its lines, and its line ending. */
  lemma BuiltReadsBack(lines: seq<string>, crlf: bool)
    requires |lines| > 1 && Lacks(lines, '\n') && Lacks(lines, '\r')
    ensures var text := WithEnding(crlf, Join(lines));
            HasCrlf(text) == crlf && Lines(FromCrlf(text)) == lines
  {
    hide *;
    JoinLacks(lines, '\r');
    JoinHasLineFeed(lines);
    CrlfRoundTrip(Join(lines));
    FromCrlfKeeps(Join(lines));
    LinesJoined(lines);
    EndingIs(crlf, Join(lines));
  }

  lemma BuildIs(text: string, h: string, port: nat)
    ensures port == 0 ==> Build(text, h, port) == Err(NoPort)
    ensures port > 0 ==> var edited := Edit(Lines(FromCrlf(text)), h, port);
              && (edited.Err? ==> Build(text, h, port) == Err(edited.failure))
              && (edited.Ok? ==> Build(text, h, port) == Ok(WithEnding(HasCrlf(text), Join(edited.value))))
  {
  }

  /** The last build wins: building for a hostname again, with another port, gives what building once
      would have given, and it never fails. */
  lemma LastBuildWins(text: string, h: string, first: nat, second: nat)
    requires NoLoneCr(text) && Host(h) && second > 0 && Build(text, h, first).Ok?
    ensures Build(text, h, second).Ok? && Build(Build(text, h, first).value, h, second) == Build(text, h, second)
  {
    hide *;
    var lines := Lines(FromCrlf(text));
    BuildIs(text, h, first);
    BuildIs(text, h, second);
    BuildIs(Build(text, h, first).value, h, second);
    FromCrlfHasNoCr(text);
    JoinLines(FromCrlf(text));
    JoinLacks(lines, '\r');
    EditLacks(lines, h, first, '\n');
    EditLacks(lines, h, first, '\r');
    EditHasLines(lines, h, first);
    BuiltReadsBack(Edit(lines, h, first).value, HasCrlf(text));
    EditTwice(lines, h, first, second);
  }

  // ----- The editor

  function Offset(lines: seq<string>, i: nat): nat
    requires i <= |lines|
  {
    |Terminated(lines[..i])|
  }

  /** Where the one line that is the marker begins. */
  method UniqueLineOffset(content: string, marker: string) returns (repeated: bool, offset: int)
    ensures match Find(Lines(content), marker)
            case Absent => !repeated && offset == -1
            case At(i) => !repeated && offset == Offset(Lines(content), i)
            case Twice => repeated
  {
    offset := -1;
    var cursor := 0;
    var lines := Lines(content);
    ghost var at := 0;
    for i := 0 to |lines|
      invariant cursor == Offset(lines, i)
      invariant if offset < 0 then offset == -1 && marker !in lines[..i]
                else at < i && lines[at] == marker && offset == Offset(lines, at) && forall j :: 0 <= j < i && j != at ==> lines[j] != marker
    {
      TerminatedOneMore(lines, i);
      if lines[i] == marker {
        if offset >= 0 {
          FindTwice(lines, marker, at, i);
          return true, -1;
        }
        offset := cursor;
        at := i;
      }
      cursor := cursor + |lines[i]| + 1;
    }
    repeated := false;
    if offset >= 0 { FindOnly(lines, marker, at); }
    assert lines[..|lines|] == lines;
  }

  lemma FindTwice(lines: seq<string>, marker: string, i: nat, j: nat)
    requires i < j < |lines| && lines[i] == lines[j] == marker
    ensures Find(lines, marker) == Twice
  {
    assert lines[i] in lines;
  }

  lemma {:induction false} TerminatedAppended(a: seq<string>, c: seq<string>)
    ensures Terminated(a + c) == Terminated(a) + Terminated(c)
  {
    if a == [] {
      assert a + c == c;
    } else {
      assert (a + c)[1..] == a[1..] + c;
      TerminatedAppended(a[1..], c);
    }
  }

  lemma TerminatedOneMore(lines: seq<string>, i: nat)
    requires i < |lines|
    ensures Offset(lines, i + 1) == Offset(lines, i) + |lines[i]| + 1
  {
    assert lines[..i + 1] == lines[..i] + [lines[i]];
    TerminatedAppended(lines[..i], [lines[i]]);
    assert [lines[i]][1..] == [];
  }

  /** TrimRight of line feeds. */
  function TrimFeeds(text: string): string {
    if text != "" && text[|text| - 1] == '\n' then TrimFeeds(text[..|text| - 1]) else text
  }

  lemma {:induction false} TerminatedIs(lines: seq<string>)
    requires lines != []
    ensures Terminated(lines) == Join(lines) + "\n"
  {
    if |lines| > 1 { TerminatedIs(lines[1..]); }
  }

  lemma LastLine(lines: seq<string>)
    requires lines != []
    ensures Join(lines) == Terminated(lines[..|lines| - 1]) + lines[|lines| - 1]
  {
    hide Terminated;
    var front, last := lines[..|lines| - 1], lines[|lines| - 1];
    assert lines == front + [last];
    JoinAppended(front, [last]);
  }

  lemma TrimStep(text: string)
    ensures TrimFeeds(text + "\n") == TrimFeeds(text)
  {
    assert (text + "\n")[..|text|] == text;
  }

  /** Dropping the line feeds at the end drops the blank lines there. */
  lemma {:induction false} TrimDropsBlank(lines: seq<string>)
    requires lines != [] && Lacks(lines, '\n')
    ensures var kept := DropBlank(lines);
            if kept == [] then TrimFeeds(Join(lines)) == "" else TrimFeeds(Join(lines)) == Join(kept) != ""
  {
    var n := |lines| - 1;
    LastLine(lines);
    if lines[n] == "" {
      assert Terminated(lines[..n]) + "" == Terminated(lines[..n]);
      if n > 0 {
        TerminatedIs(lines[..n]);
        TrimStep(Join(lines[..n]));
        TrimDropsBlank(lines[..n]);
      }
    }
  }

  /** The appended block, as text. */
  lemma AppendedText(kept: seq<string>, block: seq<string>)
    requires block != []
    ensures Join(block + [""]) == Join(block) + "\n"
    ensures kept != [] ==> Join(kept + [""] + block + [""]) == Join(kept) + "\n\n" + (Join(block) + "\n")
  {
    var tail := block + [""];
    JoinAppended(block, [""]);
    TerminatedIs(block);
    if kept != [] {
      TerminatedIs(kept);
      assert kept + [""] + block + [""] == kept + ([""] + tail);
      JoinAppended(kept, [""] + tail);
      assert ([""] + tail)[1..] == tail;
    }
  }

  lemma Cut(front: string, middle: string, line: string, rest: string)
    ensures var text := front + middle + (line + ("\n" + rest));
            var to := |front| + |middle| + |line|;
            && to < |text| && text[to] == '\n' && text[..|front|] == front && text[to + 1..] == rest
  {
  }

  lemma CutLast(front: string, middle: string, line: string)
    ensures var text := front + middle + line;
            var to := |front| + |middle| + |line|;
            to == |text| && text[..|front|] == front && text[to..] == ""
  {
  }

  lemma SplitMiddle(lines: seq<string>, b: nat, e: nat)
    requires b <= e <= |lines|
    ensures lines[..e] == lines[..b] + lines[b..e]
  {
  }

  lemma SplitAt(lines: seq<string>, e: nat)
    requires e < |lines|
    ensures lines == lines[..e] + lines[e..] && lines[e..] == [lines[e]] + lines[e + 1..]
  {
  }

  lemma JoinHead(line: string, rest: seq<string>)
    ensures Join([line] + rest) == if rest == [] then line else line + ("\n" + Join(rest))
  {
    assert ([line] + rest)[1..] == rest;
  }

  /** Where the block and its last line begin. */
  lemma MarkersSplit(lines: seq<string>, b: nat, e: nat)
    requires b < e < |lines|
    ensures Terminated(lines[..e]) == Terminated(lines[..b]) + Terminated(lines[b..e])
    ensures Join(lines) == Terminated(lines[..e]) + Join(lines[e..])
    ensures Join(lines[e..]) == if e + 1 == |lines| then lines[e] else lines[e] + ("\n" + Join(lines[e + 1..]))
  {
    hide *;
    SplitMiddle(lines, b, e);
    TerminatedAppended(lines[..b], lines[b..e]);
    SplitAt(lines, e);
    JoinAppended(lines[..e], lines[e..]);
    JoinHead(lines[e], lines[e + 1..]);
  }

  lemma BlockBetween(a: seq<string>, block: seq<string>, c: seq<string>)
    requires block != []
    ensures Join(a + block + c) == if c == [] then Terminated(a) + Join(block)
                                   else Terminated(a) + (Join(block) + "\n") + Join(c)
  {
    if c == [] {
      assert a + block + c == a + block;
      JoinAppended(a, block);
    } else {
      JoinAppended(a + block, c);
      TerminatedAppended(a, block);
      TerminatedIs(block);
    }
  }

  /** The replaced block, as text: a line feed behind the old block stays behind the new one. */
  lemma ReplacedText(lines: seq<string>, b: nat, e: nat, block: seq<string>)
    requires b < e < |lines| && block != []
    ensures var text := Join(lines);
            var from, to := Offset(lines, b), Offset(lines, e) + |lines[e]|;
            var more := to < |text| && text[to] == '\n';
            && from <= to <= |text|
            && text[..from] + (if more then Join(block) + "\n" else Join(block)) + text[if more then to + 1 else to..]
            == Join(lines[..b] + block + lines[e + 1..])
  {
    hide Join, Terminated;
    var a, c := lines[..b], lines[e + 1..];
    var front, middle := Terminated(a), Terminated(lines[b..e]);
    MarkersSplit(lines, b, e);
    BlockBetween(a, block, c);
    if c == [] {
      CutLast(front, middle, lines[e]);
      assert front + Join(block) + "" == front + Join(block);
    } else {
      Cut(front, middle, lines[e], Join(c));
    }
  }

  /** Inserts or replaces the block in the text. */
  method BuildCaddyfile(original: string, h: string, port: nat) returns (result: Result<string>)
    requires Host(h)
    ensures result == Build(original, h, port)
  {
    hide *;
    BuildIs(original, h, port);
    if port == 0 { return Err(NoPort); }
    var normalized := FromCrlf(original);
    ghost var lines := Lines(normalized);
    JoinLines(normalized);
    var block := Join(Block(h, port));
    var repeated, beginOffset := UniqueLineOffset(normalized, Begin(h));
    EditFails(lines, h, port);
    if repeated { return Err(Repeated); }
    var endOffset: int;
    repeated, endOffset := UniqueLineOffset(normalized, End(h));
    if repeated { return Err(Repeated); }
    if (beginOffset < 0 && endOffset >= 0) || (beginOffset >= 0 && endOffset < 0) { return Err(Incomplete); }
    if beginOffset >= 0 {
      ghost var b, e := Find(lines, Begin(h)).index, Find(lines, End(h)).index;
      FoundThere(lines, Begin(h));
      FoundThere(lines, End(h));
      OffsetsOrder(lines, b, e);
      if endOffset <= beginOffset { return Err(WrongOrder); }
      EditReplaces(lines, h, port, b, e);
      ReplacedText(lines, b, e, Block(h, port));
      endOffset := endOffset + |End(h)|;
      if endOffset < |normalized| && normalized[endOffset] == '\n' {
        endOffset := endOffset + 1;
        block := block + "\n";
      }
      normalized := normalized[..beginOffset] + block + normalized[endOffset..];
    } else {
      EditAppends(lines, h, port);
      TrimDropsBlank(lines);
      AppendedText(DropBlank(lines), Block(h, port));
      AheadIs(lines, Block(h, port));
      normalized := TrimFeeds(normalized);
      if normalized != "" { normalized := normalized + "\n\n"; }
      NothingAhead(block + "\n");
      normalized := normalized + (block + "\n");
    }
    result := Ok(WithEnding(HasCrlf(original), normalized));
  }

  lemma NothingAhead(text: string)
    ensures "" + text == text
  {
  }

  lemma {:induction false} OffsetsOrder(lines: seq<string>, b: nat, e: nat)
    requires b < |lines| && e < |lines|
    ensures b < e <==> Offset(lines, b) < Offset(lines, e)
  {
    if b < e { OffsetsGrow(lines, b, e); } else if e < b { OffsetsGrow(lines, e, b); }
  }

  lemma {:induction false} OffsetsGrow(lines: seq<string>, b: nat, e: nat)
    requires b < e <= |lines|
    ensures Offset(lines, b) < Offset(lines, e)
  {
    TerminatedOneMore(lines, e - 1);
    if b < e - 1 { OffsetsGrow(lines, b, e - 1); }
  }

  lemma AheadIs(lines: seq<string>, block: seq<string>)
    ensures var kept := DropBlank(lines);
            Ahead(lines) + block + [""] == if kept == [] then block + [""] else kept + [""] + block + [""]
  {
    assert [] + block == block;
  }
}
