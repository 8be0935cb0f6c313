/**
 How a POSIX shell reads a command line: token recognition with quoting and quote removal (sections 2.2
 and 2.3 of the Shell Command Language, IEEE Std 1003.1), and the reading of a line of words as a simple
 command (sections 2.4, 2.9.1 and 2.10.2, rule 7).
 */
module ShellSyntax {

  // A word as written and as it reads after quote removal.
  datatype Word = Word(raw: string, value: string)

  datatype Token = WordToken(word: Word) | Operator(c: char) | Newline

  // Expands: an unquoted or double-quoted character starts an expansion, so the line does not stand
  // for fixed words.
  datatype Lexed = Tokens(tokens: seq<Token>) | Expands | Unterminated

  datatype Current = NoWord | InWord(word: Word)

  const EMPTY := Word("", "")

  function WordOf(cur: Current): Word
  {
    if cur.NoWord? then EMPTY else cur.word
  }

  function Finish(cur: Current): seq<Token>
  {
    if cur.NoWord? then [] else [WordToken(cur.word)]
  }

  function Prepend(tokens: seq<Token>, rest: Lexed): Lexed
  {
    if rest.Tokens? then Tokens(tokens + rest.tokens) else rest
  }

  // `raw` is the text consumed, `value` what remains of it after quote removal.
  function Extend(w: Word, raw: string, value: string): Word
  {
    Word(w.raw + raw, w.value + value)
  }

  predicate IsBlank(c: char)
  {
    c == ' ' || c == '\t'
  }

  predicate IsOperator(c: char)
  {
    c in "&|;<>()"
  }

  // Parameter and command expansion, arithmetic, patterns and tildes.
  predicate StartsExpansion(c: char)
  {
    c in "$`*?[~"
  }

  function Scan(s: string, cur: Current): Lexed
    decreases |s|
  {
    if s == "" then Tokens(Finish(cur))
    else
      var c := s[0];
      if c == '\'' then ScanSingle(s[1..], Extend(WordOf(cur), "'", ""))
      else if c == '\"' then ScanDouble(s[1..], Extend(WordOf(cur), "\"", ""))
      else if c == '\\' then
        if |s| == 1 then Unterminated
        else if s[1] == '\n' then Scan(s[2..], cur)
        else Scan(s[2..], InWord(Extend(WordOf(cur), s[..2], s[1..2])))
      else if StartsExpansion(c) then Expands
      else if c == '\n' then Prepend(Finish(cur) + [Newline], Scan(s[1..], NoWord))
      else if IsOperator(c) then Prepend(Finish(cur) + [Operator(c)], Scan(s[1..], NoWord))
      else if IsBlank(c) then Prepend(Finish(cur), Scan(s[1..], NoWord))
      else if c == '#' && cur.NoWord? then ScanComment(s[1..])
      else Scan(s[1..], InWord(Extend(WordOf(cur), s[..1], s[..1])))
  }

  function ScanSingle(s: string, w: Word): Lexed
    decreases |s|
  {
    if s == "" then Unterminated
    else if s[0] == '\'' then Scan(s[1..], InWord(Extend(w, "'", "")))
    else ScanSingle(s[1..], Extend(w, s[..1], s[..1]))
  }

  function ScanDouble(s: string, w: Word): Lexed
    decreases |s|
  {
    if s == "" then Unterminated
    else if s[0] == '\"' then Scan(s[1..], InWord(Extend(w, "\"", "")))
    else if s[0] == '$' || s[0] == '`' then Expands
    else if s[0] == '\\' && |s| > 1 && s[1] == '\n' then ScanDouble(s[2..], w)
    else if s[0] == '\\' && |s| > 1 && s[1] in "$`\"\\" then ScanDouble(s[2..], Extend(w, s[..2], s[1..2]))
    else ScanDouble(s[1..], Extend(w, s[..1], s[..1]))
  }

  function ScanComment(s: string): Lexed
    decreases |s|
  {
    if s == "" then Tokens([])
    else if s[0] == '\n' then Prepend([Newline], Scan(s[1..], NoWord))
    else ScanComment(s[1..])
  }

  function Tokenize(line: string): Lexed
  {
    Scan(line, NoWord)
  }

  // ----- Simple commands -----

  predicate IsNameStart(c: char)
  {
    'a' <= c <= 'z' || 'A' <= c <= 'Z' || c == '_'
  }

  predicate IsName(s: string)
  {
    s != "" && IsNameStart(s[0]) && forall i :: 0 <= i < |s| ==> IsNameStart(s[i]) || '0' <= s[i] <= '9'
  }

  // A name, an unquoted equals sign, and anything: such a word before the command name is an assignment.
  predicate IsAssignment(raw: string)
  {
    exists k :: 0 <= k < |raw| && raw[k] == '=' && IsName(raw[..k])
  }

  const RESERVED: set<string> :=
    {"!", "{", "}", "case", "do", "done", "elif", "else", "esac", "fi", "for", "if", "in", "then", "until", "while"}

  datatype Command =
    | Simple(assignments: seq<string>, argv: seq<string>)
    | Compound      // starts with a reserved word
    | NotWords      // operators, newlines, expansions or an open quote

  function Values(words: seq<Word>): seq<string>
  {
    seq(|words|, i requires 0 <= i < |words| => words[i].value)
  }

  function ReadSimple(words: seq<Word>): Command
  {
    if words != [] && IsAssignment(words[0].raw) then
      var rest := ReadSimple(words[1..]);
      if rest.Simple? then Simple([words[0].raw] + rest.assignments, rest.argv) else rest
    else Simple([], Values(words))
  }

  function ReadWords(words: seq<Word>): Command
  {
    if words != [] && words[0].raw in RESERVED then Compound else ReadSimple(words)
  }

  predicate OnlyWords(tokens: seq<Token>)
  {
    forall i :: 0 <= i < |tokens| ==> tokens[i].WordToken?
  }

  function ReadCommand(line: string): Command
  {
    var lexed := Tokenize(line);
    if lexed.Tokens? && OnlyWords(lexed.tokens)
    then ReadWords(seq(|lexed.tokens|, i requires 0 <= i < |lexed.tokens| => lexed.tokens[i].word))
    else NotWords
  }
}
