/** Rendering a command vector as a line that a POSIX shell reads back as that vector. */
module CommandFormat {
  import opened ShellSyntax

  predicate IsSafe(c: char)
  {
    'a' <= c <= 'z' || 'A' <= c <= 'Z' || '0' <= c <= '9' || c in "@%+=:,./-_"
  }

  predicate AllSafe(arg: string)
  {
    forall i :: 0 <= i < |arg| ==> IsSafe(arg[i])
  }

  method NeedsQuoting(arg: string) returns (needs: bool)
    ensures needs <==> !AllSafe(arg)
  {
    for i := 0 to |arg|
      invariant forall j :: 0 <= j < i ==> IsSafe(arg[j])
    {
      if !IsSafe(arg[i]) {
        return true;
      }
    }
    return false;
  }

  // strings.ReplaceAll(arg, "'", `'\''`)
  function EscapeQuotes(arg: string): string
  {
    if arg == "" then ""
    else (if arg[0] == '\'' then "'\\''" else arg[..1]) + EscapeQuotes(arg[1..])
  }

  function Quote(arg: string): string
  {
    if arg == "" then "''"
    else if AllSafe(arg) then arg
    else "'" + EscapeQuotes(arg) + "'"
  }

  method QuoteArg(arg: string) returns (quoted: string)
    ensures quoted == Quote(arg)
  {
    if arg == "" {
      return "''";
    }
    var needs := NeedsQuoting(arg);
    if !needs {
      return arg;
    }
    return "'" + EscapeQuotes(arg) + "'";
  }

  // The quoted words joined with single spaces.
  function Line(argv: seq<string>): string
    requires argv != []
  {
    if |argv| == 1 then Quote(argv[0]) else Quote(argv[0]) + " " + Line(argv[1..])
  }

  function Join(parts: seq<string>, sep: string): string
  {
    if parts == [] then "" else if |parts| == 1 then parts[0] else parts[0] + sep + Join(parts[1..], sep)
  }

  lemma {:induction false} JoinIsLine(argv: seq<string>, quoted: seq<string>)
    requires argv != [] && |quoted| == |argv|
    requires forall i :: 0 <= i < |argv| ==> quoted[i] == Quote(argv[i])
    ensures Join(quoted, " ") == Line(argv)
  {
    if |argv| > 1 {
      JoinIsLine(argv[1..], quoted[1..]);
    }
  }

  method FormatCommand(command: string, arg: seq<string>) returns (line: string)
    ensures line == Line([command] + arg)
  {
    var argv := [command] + arg;
    var first := QuoteArg(command);
    var quoted := [first];
    for i := 0 to |arg|
      invariant |quoted| == i + 1
      invariant forall j :: 0 <= j <= i ==> quoted[j] == Quote(argv[j])
    {
      var q := QuoteArg(arg[i]);
      quoted := quoted + [q];
    }
    JoinIsLine(argv, quoted);
    return Join(quoted, " ");
  }

  // ----- Single steps of the scanner -----

  lemma SafeStep(s: string, cur: Current)
    requires s != "" && IsSafe(s[0])
    ensures Scan(s, cur) == Scan(s[1..], InWord(Extend(WordOf(cur), s[..1], s[..1])))
  {
    hide ScanSingle, ScanDouble, ScanComment, Extend, WordOf, Prepend, Finish;
    SafeIsOrdinary(s[0]);
    hide IsSafe, StartsExpansion, IsOperator, IsBlank;
  }

  lemma SafeIsOrdinary(c: char)
    requires IsSafe(c)
    ensures c != '\'' && c != '\"' && c != '\\' && c != '\n' && c != '#'
    ensures !StartsExpansion(c) && !IsOperator(c) && !IsBlank(c)
  {
  }

  lemma OpenStep(rest: string, cur: Current)
    ensures Scan("'" + rest, cur) == ScanSingle(rest, Extend(WordOf(cur), "'", ""))
  {
    var s := "'" + rest;
    assert s[1..] == rest;
  }

  lemma CloseStep(rest: string, w: Word)
    ensures ScanSingle("'" + rest, w) == Scan(rest, InWord(Extend(w, "'", "")))
  {
    var s := "'" + rest;
    assert s[1..] == rest;
  }

  lemma EscapeStep(rest: string, w: Word)
    ensures Scan("\\'" + rest, InWord(w)) == Scan(rest, InWord(Extend(w, "\\'", "'")))
  {
    var s := "\\'" + rest;
    assert s[2..] == rest && s[..2] == "\\'" && s[1..2] == "'";
  }

  lemma QuotedStep(s: string, w: Word)
    requires s != "" && s[0] != '\''
    ensures ScanSingle(s, w) == ScanSingle(s[1..], Extend(w, s[..1], s[..1]))
  {
  }

  lemma EndStep(w: Word)
    ensures Scan("", InWord(w)) == Tokens([WordToken(w)])
  {
  }

  lemma SpaceStep(rest: string, w: Word)
    ensures Scan(" " + rest, InWord(w)) == Prepend([WordToken(w)], Scan(rest, NoWord))
  {
    var s := " " + rest;
    assert s[1..] == rest;
  }

  // ----- Reading one quoted word back -----

  lemma ExtendTwice(w: Word, raw: string, value: string, raw': string, value': string)
    ensures Extend(Extend(w, raw, value), raw', value') == Extend(w, raw + raw', value + value')
  {
    assert w.raw + raw + raw' == w.raw + (raw + raw');
    assert w.value + value + value' == w.value + (value + value');
  }

  lemma {:induction false} ScanSafe(arg: string, rest: string, w: Word)
    requires AllSafe(arg)
    ensures Scan(arg + rest, InWord(w)) == Scan(rest, InWord(Extend(w, arg, arg)))
  {
    hide Scan;
    if arg == "" {
      assert arg + rest == rest;
      assert Extend(w, arg, arg) == w;
    } else {
      hide IsSafe, Extend;
      var s, w' := arg + rest, Extend(w, arg[..1], arg[..1]);
      assert s[1..] == arg[1..] + rest && s[..1] == arg[..1];
      SafeStep(s, InWord(w));
      ScanSafe(arg[1..], rest, w');
      assert arg == arg[..1] + arg[1..];
      ExtendTwice(w, arg[..1], arg[..1], arg[1..], arg[1..]);
    }
  }

  // A quote inside quotes: the run is closed, the quote escaped, a new run opened.
  lemma ScanEscapedQuote(rest: string, w: Word)
    ensures ScanSingle("'\\''" + rest, w) == ScanSingle(rest, Extend(w, "'\\''", "'"))
  {
    hide Scan, ScanSingle;
    var w1 := Extend(w, "'", "");
    var w2 := Extend(w1, "\\'", "'");
    assert "'\\''" + rest == "'" + ("\\'" + ("'" + rest));
    CloseStep("\\'" + ("'" + rest), w);
    EscapeStep("'" + rest, w1);
    OpenStep(rest, InWord(w2));
    assert Extend(w2, "'", "") == Extend(w, "'\\''", "'");
  }

  lemma {:induction false} ScanEscaped(arg: string, rest: string, w: Word)
    ensures ScanSingle(EscapeQuotes(arg) + "'" + rest, w)
         == Scan(rest, InWord(Extend(w, EscapeQuotes(arg) + "'", arg)))
  {
    hide Scan, ScanSingle;
    var text := EscapeQuotes(arg) + "'" + rest;
    if arg == "" {
      assert text == "'" + rest && EscapeQuotes(arg) + "'" == "'";
      CloseStep(rest, w);
    } else {
      hide Extend;
      var last := EscapeQuotes(arg[1..]) + "'";
      var tail := last + rest;
      var piece := if arg[0] == '\'' then "'\\''" else arg[..1];
      var w' := Extend(w, piece, arg[..1]);
      assert EscapeQuotes(arg) + "'" == piece + last;
      hide EscapeQuotes;
      assert text == piece + tail;
      if arg[0] == '\'' {
        ScanEscapedQuote(tail, w);
        assert arg[..1] == "'";
      } else {
        assert text[1..] == tail && text[..1] == arg[..1];
        QuotedStep(text, w);
      }
      ScanEscaped(arg[1..], rest, w');
      assert arg == arg[..1] + arg[1..];
      ExtendTwice(w, piece, arg[..1], last, arg[1..]);
    }
  }

  lemma ScanSafeWord(arg: string, rest: string)
    requires arg != "" && AllSafe(arg)
    ensures Scan(arg + rest, NoWord) == Scan(rest, InWord(Word(arg, arg)))
  {
    hide Scan;
    var s, w := arg + rest, Extend(EMPTY, arg[..1], arg[..1]);
    assert s[0] == arg[0] && s[..1] == arg[..1] && s[1..] == arg[1..] + rest;
    SafeStep(s, NoWord);
    ScanSafe(arg[1..], rest, w);
    assert w.raw == w.value == arg[..1];
    assert Extend(w, arg[1..], arg[1..]) == Word(arg, arg);
  }

  lemma ScanQuotedWord(arg: string, rest: string)
    ensures var quoted := "'" + EscapeQuotes(arg) + "'";
            Scan(quoted + rest, NoWord) == Scan(rest, InWord(Word(quoted, arg)))
  {
    hide Scan, ScanSingle, EscapeQuotes;
    var quoted := "'" + EscapeQuotes(arg) + "'";
    var tail := EscapeQuotes(arg) + "'" + rest;
    assert quoted + rest == "'" + tail;
    OpenStep(tail, NoWord);
    assert Extend(EMPTY, "'", "") == Word("'", "");
    ScanEscaped(arg, rest, Word("'", ""));
    assert Extend(Word("'", ""), EscapeQuotes(arg) + "'", arg) == Word(quoted, arg);
  }

  // Whatever follows, a quoted argument reads as one word with the argument as its value.
  lemma ScanQuoted(arg: string, rest: string)
    ensures Scan(Quote(arg) + rest, NoWord) == Scan(rest, InWord(Word(Quote(arg), arg)))
  {
    hide Scan;
    if arg != "" && AllSafe(arg) {
      ScanSafeWord(arg, rest);
    } else {
      ScanQuotedWord(arg, rest);
      assert "'" + EscapeQuotes(arg) + "'" == Quote(arg);
    }
  }

  // ----- Reading the line back -----

  function WordsOf(argv: seq<string>): seq<Token>
  {
    seq(|argv|, i requires 0 <= i < |argv| => WordToken(Word(Quote(argv[i]), argv[i])))
  }

  // The shell splits the line into exactly the given arguments, whatever characters they hold.
  lemma {:induction false} LineReadsBack(argv: seq<string>)
    requires argv != []
    ensures Tokenize(Line(argv)) == Tokens(WordsOf(argv))
  {
    hide Scan, Quote;
    var first := Quote(argv[0]);
    var w := Word(first, argv[0]);
    if |argv| == 1 {
      ScanQuoted(argv[0], "");
      assert first + "" == first;
      EndStep(w);
      assert WordsOf(argv) == [WordToken(w)];
    } else {
      var tail := Line(argv[1..]);
      var rest := " " + tail;
      ScanQuoted(argv[0], rest);
      assert Line(argv) == first + rest;
      SpaceStep(tail, w);
      LineReadsBack(argv[1..]);
      assert WordsOf(argv) == [WordToken(w)] + WordsOf(argv[1..]);
    }
  }

  // Different vectors print as different lines.
  lemma LineInjective(a: seq<string>, b: seq<string>)
    requires a != [] && b != [] && Line(a) == Line(b)
    ensures a == b
  {
    LineReadsBack(a);
    LineReadsBack(b);
    assert |WordsOf(a)| == |WordsOf(b)|;
    forall i | 0 <= i < |a| ensures a[i] == b[i] {
      assert WordsOf(a)[i].word.value == a[i] && WordsOf(b)[i].word.value == b[i];
    }
  }

  // ----- Reading the line as a command -----

  // A quoted word is neither an assignment nor a reserved word.
  lemma QuotedIsPlain(arg: string)
    requires arg == "" || !AllSafe(arg)
    ensures !IsAssignment(Quote(arg)) && Quote(arg) !in RESERVED
  {
    var q := Quote(arg);
    assert q[0] == '\'';
    forall k | 0 <= k < |q| && q[k] == '=' ensures !IsName(q[..k]) {
      assert q[..k][0] == '\'';
    }
  }

  // Whether the shell would take the unquoted command name for something else.
  predicate Misread(command: string)
  {
    AllSafe(command) && (IsAssignment(command) || command in RESERVED)
  }

  // The printed line runs the command with exactly the given arguments, except when the command's
  // name is left unquoted and reads as an assignment or a reserved word.
  lemma LineRunsCommand(command: string, arg: seq<string>)
    ensures ReadCommand(Line([command] + arg)) == Simple([], [command] + arg) <==> !Misread(command)
  {
    hide Scan, Line;
    var argv := [command] + arg;
    LineReadsBack(argv);
    var tokens := WordsOf(argv);
    var words := seq(|tokens|, i requires 0 <= i < |tokens| => tokens[i].word);
    assert ReadCommand(Line(argv)) == ReadWords(words);
    assert words[0].raw == Quote(command);
    assert Values(words) == argv;
    if command == "" || !AllSafe(command) {
      QuotedIsPlain(command);
      assert "" !in RESERVED && !IsAssignment("");
    }
  }

  lemma AssignmentReads(words: seq<Word>)
    requires words == [Word("A=b", "A=b"), Word("x", "x")]
    ensures ReadWords(words) == Simple(["A=b"], ["x"])
  {
    assert "A=b"[1] == '=' && IsName("A=b"[..1]);
    var rest := words[1..];
    assert rest == [Word("x", "x")] && !IsAssignment("x");
    assert Values(rest) == ["x"];
    assert ReadSimple(rest) == Simple([], ["x"]);
  }

  // The exception is real: this line assigns a variable and runs `x`.
  lemma AssignmentIsNotRun()
    ensures ReadCommand(Line(["A=b", "x"])) == Simple(["A=b"], ["x"])
  {
    var argv := ["A=b", "x"];
    var words := [Word("A=b", "A=b"), Word("x", "x")];
    AssignmentReads(words);
    hide Scan, Line, ReadWords;
    LineReadsBack(argv);
    var tokens := WordsOf(argv);
    assert AllSafe("A=b") && AllSafe("x");
    assert seq(|tokens|, i requires 0 <= i < |tokens| => tokens[i].word) == words;
  }
}
