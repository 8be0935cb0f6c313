/**
 Turning any string into a DNS label: the in-place buffer algorithm, against a specification by words
 and section 2.3.1 of RFC 1035. A Go byte is a character here; only ASCII letters and digits matter.
 */
module DnsLabel {

  const MAX_LENGTH := 63

  predicate IsLower(c: char) { 'a' <= c <= 'z' }

  predicate IsUpper(c: char) { 'A' <= c <= 'Z' }

  predicate IsDigit(c: char) { '0' <= c <= '9' }

  predicate IsAlnum(c: char) { IsLower(c) || IsUpper(c) || IsDigit(c) }

  predicate IsLabelChar(c: char) { IsLower(c) || IsDigit(c) || c == '-' }

  function ToLower(c: char): (r: char)
    ensures IsAlnum(c) ==> (IsLower(r) || IsDigit(r)) && (IsDigit(r) <==> IsDigit(c))
    ensures if IsUpper(c) then r as int == c as int + 32 else r == c
  {
    if IsUpper(c) then (c as int - 'A' as int + 'a' as int) as char else c
  }

  // Section 2.3.1 of RFC 1035, in lower case: [a-z]([-a-z0-9]*[a-z0-9])?, at most 63 characters.
  predicate ValidLabel(s: string)
  {
    && 0 < |s| <= MAX_LENGTH
    && IsLower(s[0]) && s[|s| - 1] != '-'
    && forall i :: 0 <= i < |s| ==> IsLabelChar(s[i])
  }

  // ----- The specification: lower-cased alphanumeric runs joined by single dashes -----

  // The maximal runs of letters and digits, in lower case.
  function Words(input: string): seq<string>
  {
    if input == "" then []
    else
      var init, c := input[..|input| - 1], input[|input| - 1];
      var words := Words(init);
      if !IsAlnum(c) then words
      else if words != [] && EndsInWord(init) then words[..|words| - 1] + [words[|words| - 1] + [ToLower(c)]]
      else words + [[ToLower(c)]]
  }

  predicate EndsInWord(input: string)
  {
    input != "" && IsAlnum(input[|input| - 1])
  }

  function JoinWithDash(words: seq<string>): string
  {
    if words == [] then ""
    else if |words| == 1 then words[0]
    else JoinWithDash(words[..|words| - 1]) + "-" + words[|words| - 1]
  }

  // The label before it is cut to length: the words, with a 'd' in front of a leading digit.
  function Label(input: string): string
  {
    Prefixed(JoinWithDash(Words(input)))
  }

  function Prefixed(s: string): string
  {
    if s != "" && IsDigit(s[0]) then "d" + s else s
  }

  function CutMiddle(input: string, toSize: nat): string
    requires toSize >= 4
  {
    if |input| <= toSize then input
    else input[..toSize / 2 - 1] + "--" + input[|input| - (toSize / 2 + toSize % 2) + 1..]
  }

  function DnsLabelOf(input: string): string
  {
    CutMiddle(Label(input), MAX_LENGTH)
  }

  // ----- The buffer after a prefix of the input -----

  function Buffered(input: string): string
  {
    if input == "" then "" else Push(Buffered(input[..|input| - 1]), input[|input| - 1])
  }

  function Push(b: string, c: char): string
  {
    if IsAlnum(c) then (if b == "" && IsDigit(c) then "d" else b) + [ToLower(c)]
    else if b == "" || b[|b| - 1] == '-' then b
    else b + "-"
  }

  predicate SingleDashes(s: string)
  {
    forall i :: 0 <= i < |s| - 1 ==> !(s[i] == '-' && s[i + 1] == '-')
  }

  lemma {:induction false} BufferedShape(input: string)
    ensures var b := Buffered(input);
            && |b| <= |input| + 1
            && (forall i :: 0 <= i < |b| ==> IsLabelChar(b[i])) && SingleDashes(b)
            && (b != "" ==> IsLower(b[0]) && (b[|b| - 1] != '-' <==> EndsInWord(input)))
            && (b == "" <==> forall i :: 0 <= i < |input| ==> !IsAlnum(input[i]))
            && (b == "" || !IsDigit(input[0]) ==> |b| <= |input|)
  {
    if input != "" {
      BufferedShape(input[..|input| - 1]);
    }
  }

  lemma {:induction false} WordsShape(input: string)
    ensures var words := Words(input);
            && (forall i :: 0 <= i < |words| ==> words[i] != "")
            && (words == [] <==> Buffered(input) == "")
  {
    if input != "" {
      hide ToLower, IsAlnum;
      var words := Words(input[..|input| - 1]);
      WordsShape(input[..|input| - 1]);
      assert Words(input) == [] <==> words == [] && !EndsInWord(input);
    }
  }

  lemma JoinExtendLast(words: seq<string>, c: char)
    requires words != []
    ensures JoinWithDash(words[..|words| - 1] + [words[|words| - 1] + [c]]) == JoinWithDash(words) + [c]
  {
    hide *;
    var init, last := words[..|words| - 1], words[|words| - 1];
    assert words == init + [last];
    JoinAppend(init, last);
    JoinAppend(init, last + [c]);
    Associative(JoinWithDash(init) + "-", last, [c]);
  }

  lemma Associative(a: string, b: string, c: string)
    ensures a + (b + c) == a + b + c
  {
  }

  lemma JoinAppend(words: seq<string>, w: string)
    ensures JoinWithDash(words + [w]) == if words == [] then w else JoinWithDash(words) + "-" + w
  {
    assert (words + [w])[..|words|] == words;
  }

  lemma {:induction false} JoinNonEmpty(words: seq<string>)
    requires words != [] && forall i :: 0 <= i < |words| ==> words[i] != ""
    ensures JoinWithDash(words) != "" && JoinWithDash(words)[0] == words[0][0]
  {
    if |words| > 1 {
      JoinNonEmpty(words[..|words| - 1]);
    }
  }

  lemma PrefixedAppend(s: string, t: string)
    requires s != ""
    ensures Prefixed(s + t) == Prefixed(s) + t
  {
    assert (s + t)[0] == s[0];
  }

  lemma WordsStep(init: string, c: char)
    requires IsAlnum(c)
    ensures var words := Words(init);
            Words(init + [c]) ==
            if words != [] && EndsInWord(init) then words[..|words| - 1] + [words[|words| - 1] + [ToLower(c)]]
            else words + [[ToLower(c)]]
  {
    assert (init + [c])[..|init|] == init;
  }

  // One more letter or digit lengthens the label, after a dash if it starts a new word.
  lemma LabelStep(init: string, c: char)
    requires IsAlnum(c)
    ensures Label(init + [c]) ==
            if Words(init) == [] then Prefixed([ToLower(c)])
            else Label(init) + (if EndsInWord(init) then "" else "-") + [ToLower(c)]
  {
    hide Words, JoinWithDash, Prefixed, ToLower, IsAlnum, EndsInWord;
    var words, x := Words(init), ToLower(c);
    WordsStep(init, c);
    WordsShape(init);
    if words == [] {
      JoinAppend(words, [x]);
    } else {
      var joined := JoinWithDash(words);
      JoinNonEmpty(words);
      if EndsInWord(init) {
        JoinExtendLast(words, x);
        PrefixedAppend(joined, [x]);
        assert Label(init + [c]) == Label(init) + "" + [x];
      } else {
        JoinAppend(words, [x]);
        assert joined + "-" + [x] == joined + ("-" + [x]);
        PrefixedAppend(joined, "-" + [x]);
        assert Label(init + [c]) == Label(init) + "-" + [x];
      }
    }
  }

  lemma LabelSkip(init: string, c: char)
    requires !IsAlnum(c)
    ensures Label(init + [c]) == Label(init)
  {
    var input := init + [c];
    assert input[..|input| - 1] == init;
  }

  lemma BufferedStep(init: string, c: char)
    ensures Buffered(init + [c]) == Push(Buffered(init), c)
  {
    assert (init + [c])[..|init|] == init;
  }

  function Pending(b: string, input: string): string
  {
    if b != "" && !EndsInWord(input) then "-" else ""
  }

  lemma BufferedWord(init: string, c: char)
    requires IsAlnum(c) && Buffered(init) == Label(init) + Pending(Buffered(init), init)
    ensures Buffered(init + [c]) == Label(init + [c])
  {
    hide Label, Words, Buffered, ToLower, IsAlnum;
    var b, l, x := Buffered(init), Label(init), ToLower(c);
    assert IsDigit(x) <==> IsDigit(c);
    BufferedStep(init, c);
    LabelStep(init, c);
    assert Words(init) == [] <==> b == "" by { WordsShape(init); }
    if b == "" {
      assert Prefixed([x]) == (if IsDigit(c) then "d" else "") + [x];
    } else {
      assert l + (if EndsInWord(init) then "" else "-") + [x] == b + [x];
    }
  }

  lemma BufferedSeparator(init: string, c: char)
    requires !IsAlnum(c) && Buffered(init) == Label(init) + Pending(Buffered(init), init)
    ensures Buffered(init + [c]) == Label(init + [c]) + Pending(Buffered(init + [c]), init + [c])
  {
    hide Label, Buffered, ToLower, IsAlnum;
    var b := Buffered(init);
    BufferedStep(init, c);
    LabelSkip(init, c);
    assert b != "" ==> (b[|b| - 1] != '-' <==> EndsInWord(init)) by { BufferedShape(init); }
  }

  // The buffer holds the joined words, and a dash if a separator came after the last one.
  lemma {:induction false} BufferedIsWords(input: string)
    ensures Buffered(input) == Label(input) + Pending(Buffered(input), input)
  {
    if input != "" {
      hide Label, Buffered;
      var init, c := input[..|input| - 1], input[|input| - 1];
      assert input == init + [c];
      BufferedIsWords(init);
      if IsAlnum(c) {
        BufferedWord(init, c);
      } else {
        BufferedSeparator(init, c);
      }
    }
  }

  // ----- The label -----

  // Before cutting: empty exactly when there is no letter or digit, and otherwise a label of RFC 1035
  // but for its length, without adjacent dashes.
  lemma LabelShape(input: string)
    ensures var l := Label(input);
            && (l == "" <==> forall i :: 0 <= i < |input| ==> !IsAlnum(input[i]))
            && (forall i :: 0 <= i < |l| ==> IsLabelChar(l[i])) && SingleDashes(l)
            && (l != "" ==> IsLower(l[0]) && l[|l| - 1] != '-')
            && (input != "" && !IsDigit(input[0]) ==> |l| <= |input|)
  {
    hide Label, Buffered;
    BufferedShape(input);
    BufferedIsWords(input);
    var b, l := Buffered(input), Label(input);
    if b != "" && !EndsInWord(input) {
      assert l == b[..|b| - 1];
      assert |b| > 1;
    } else {
      assert l == b;
    }
  }

  // The letters and digits of the input, in order, the letters in lower case.
  function Lowered(input: string): string
  {
    if input == "" then ""
    else
      var c := input[|input| - 1];
      Lowered(input[..|input| - 1])
      + if 'A' <= c <= 'Z' then [(c as int + 32) as char]
        else if 'a' <= c <= 'z' || '0' <= c <= '9' then [c]
        else ""
  }

  function WithoutDashes(s: string): string
  {
    if s == "" then ""
    else WithoutDashes(s[..|s| - 1]) + if s[|s| - 1] == '-' then "" else [s[|s| - 1]]
  }

  lemma WithoutDashesNext(s: string, c: char)
    ensures WithoutDashes(s + [c]) == WithoutDashes(s) + if c == '-' then "" else [c]
  {
    assert (s + [c])[..|s|] == s;
  }

  lemma {:induction false} BufferedKeepsLetters(input: string)
    ensures var letters, b := Lowered(input), WithoutDashes(Buffered(input));
            && (letters == "" <==> Buffered(input) == "")
            && b == (if letters != "" && '0' <= letters[0] <= '9' then "d" else "") + letters
  {
    if input != "" {
      var init, c := input[..|input| - 1], input[|input| - 1];
      BufferedKeepsLetters(init);
      var b, letters := Buffered(init), Lowered(init);
      hide Buffered, WithoutDashes, Lowered;
      NextLetters(init, c, b, letters);
      assert input == init + [c];
    }
  }

  lemma NextLetters(init: string, c: char, b: string, letters: string)
    requires b == Buffered(init) && letters == Lowered(init) && (letters == "" <==> b == "")
    requires WithoutDashes(b) == (if letters != "" && '0' <= letters[0] <= '9' then "d" else "") + letters
    ensures var l, b' := Lowered(init + [c]), Buffered(init + [c]);
            && (l == "" <==> b' == "")
            && WithoutDashes(b') == (if l != "" && '0' <= l[0] <= '9' then "d" else "") + l
  {
    hide Buffered, WithoutDashes, Lowered;
    BufferedStep(init, c);
    LoweredNext(init, c);
    if IsAlnum(c) {
      var front := if b == "" && IsDigit(c) then "d" else b;
      WithoutDashesNext(front, ToLower(c));
      NoDashes();
      assert letters != "" ==> (letters + [ToLower(c)])[0] == letters[0];
    } else if !(b == "" || b[|b| - 1] == '-') {
      WithoutDashesNext(b, '-');
    }
  }

  lemma LoweredNext(init: string, c: char)
    ensures Lowered(init + [c]) == Lowered(init) + if IsAlnum(c) then [ToLower(c)] else ""
  {
    assert (init + [c])[..|init|] == init;
  }

  lemma NoDashes()
    ensures WithoutDashes("d") == "d" && WithoutDashes("") == ""
  {
    assert "d"[..0] == "";
  }

  // The label keeps all letters and digits of the input, in order and in lower case, and adds nothing but
  // dashes and the 'd' in front of a digit.
  lemma LabelKeepsLetters(input: string)
    ensures var letters := Lowered(input);
            WithoutDashes(Label(input)) == (if letters != "" && '0' <= letters[0] <= '9' then "d" else "") + letters
  {
    hide Buffered, Label, Lowered, WithoutDashes;
    BufferedKeepsLetters(input);
    BufferedIsWords(input);
    var b, l := Buffered(input), Label(input);
    if b != "" && !EndsInWord(input) {
      WithoutDashesNext(l, '-');
    } else {
      assert l == b;
    }
  }

  // The two ends of the input, in equal parts up to one character, around two dashes.
  ghost predicate EndsKept(input: string, out: string, a: nat, b: nat)
  {
    && a <= b <= a + 1 && a <= |input| && b <= |input|
    && out == input[..a] + "--" + input[|input| - b..]
  }

  // Cutting keeps as much as it can of both ends.
  lemma CutKeepsEnds(input: string, toSize: nat)
    requires toSize >= 4 && |input| > toSize
    ensures |CutMiddle(input, toSize)| == toSize
    ensures exists a, b :: EndsKept(input, CutMiddle(input, toSize), a, b)
  {
    var a, b := toSize / 2 - 1, toSize / 2 + toSize % 2 - 1;
    assert |input| - b == |input| - (toSize / 2 + toSize % 2) + 1;
    assert EndsKept(input, CutMiddle(input, toSize), a, b);
  }

  // The result is empty or a valid label, for every input.
  lemma AlwaysValid(input: string)
    ensures var out := DnsLabelOf(input);
            if forall i :: 0 <= i < |input| ==> !IsAlnum(input[i]) then out == "" else ValidLabel(out)
  {
    hide Label;
    LabelShape(input);
  }

  // A string of label characters that starts with a letter and has no adjacent dashes is kept.
  lemma {:induction false} BufferedKeeps(s: string)
    requires (forall i :: 0 <= i < |s| ==> IsLabelChar(s[i])) && SingleDashes(s)
    requires s != "" ==> IsLower(s[0])
    ensures Buffered(s) == s
  {
    if s != "" {
      BufferedKeeps(s[..|s| - 1]);
      assert s == s[..|s| - 1] + [s[|s| - 1]];
    }
  }

  lemma ValidLabelsKept(s: string)
    requires ValidLabel(s) && SingleDashes(s)
    ensures DnsLabelOf(s) == s
  {
    hide Label, Buffered;
    BufferedKeeps(s);
    BufferedIsWords(s);
  }

  // Converting twice is converting once exactly when nothing was cut.
  lemma IdempotentUnlessCut(input: string)
    ensures DnsLabelOf(DnsLabelOf(input)) == DnsLabelOf(input) <==> |Label(input)| <= MAX_LENGTH
  {
    hide Label;
    LabelShape(input);
    var out := DnsLabelOf(input);
    if |Label(input)| <= MAX_LENGTH {
      if out == "" {
        LabelShape("");
      } else {
        ValidLabelsKept(out);
      }
    } else {
      LabelShape(out);
      assert out[30] == out[31] == '-';
      assert |Label(out)| <= |out| == MAX_LENGTH;
      assert !SingleDashes(out);
    }
  }

  // 64 letters: the label is cut, and cut again it changes.
  lemma CutLabelIsNotStable(s: string)
    requires |s| == 64 && forall i :: 0 <= i < |s| ==> s[i] == 'a'
    ensures DnsLabelOf(DnsLabelOf(s)) != DnsLabelOf(s)
  {
    hide Label, Buffered, DnsLabelOf;
    BufferedKeeps(s);
    BufferedIsWords(s);
    assert Label(s) == s;
    IdempotentUnlessCut(s);
  }

  // ----- The algorithm -----

  function TrimDashes(s: string): string
  {
    if s != "" && s[0] == '-' then TrimDashes(s[1..])
    else if s != "" && s[|s| - 1] == '-' then TrimDashes(s[..|s| - 1])
    else s
  }

  lemma TrimmedBuffer(input: string)
    ensures TrimDashes(Buffered(input)) == Label(input)
  {
    hide Label, Buffered;
    BufferedShape(input);
    BufferedIsWords(input);
    LabelShape(input);
    var b, l := Buffered(input), Label(input);
    if b != "" && !EndsInWord(input) {
      assert l == b[..|b| - 1];
    } else {
      assert l == b;
    }
  }

  // One byte of the input written at the end of the buffer.
  method WriteByte(outbuf: array<char>, from: nat, c: char, last: char) returns (j: nat, next: char)
    requires from + 1 < outbuf.Length || (0 < from < outbuf.Length)
    requires last == if from == 0 then '-' else outbuf[from - 1]
    modifies outbuf
    ensures j <= outbuf.Length && outbuf[..j] == Push(old(outbuf[..from]), c)
    ensures next == if j == 0 then '-' else outbuf[j - 1]
  {
    ghost var before := outbuf[..from];
    j, next := from, last;
    if IsLower(c) {
      outbuf[j] := c;
    } else if IsDigit(c) {
      if j == 0 {
        outbuf[j] := 'd';
        j := j + 1;
      }
      outbuf[j] := c;
    } else if IsUpper(c) {
      outbuf[j] := (c as int - 'A' as int + 'a' as int) as char;
    } else {
      if last == '-' {
        return;
      }
      outbuf[j] := '-';
    }
    next := outbuf[j];
    j := j + 1;
    assert outbuf[..j] == (if before == "" && IsDigit(c) then "d" else before) + [next];
  }

  // The buffer has one place more than the input; every write is in bounds.
  method ToValidDNSLabel(input: string) returns (out: string)
    ensures out == DnsLabelOf(input)
  {
    if input == "" {
      return "";
    }
    var outbuf := new char[|input| + 1];
    var j: nat := 0;
    var last := '-';
    for i := 0 to |input|
      invariant j <= i + 1 && outbuf[..j] == Buffered(input[..i])
      invariant last == if j == 0 then '-' else outbuf[j - 1]
    {
      assert input[..i + 1][..i] == input[..i];
      j, last := WriteByte(outbuf, j, input[i], last);
      assert j == |Buffered(input[..i + 1])| <= i + 2 by { BufferedShape(input[..i + 1]); }
    }
    assert input[..|input|] == input;
    TrimmedBuffer(input);
    out := TrimDashes(outbuf[..j]);
    if |out| > MAX_LENGTH {
      out := CutMiddle(out, MAX_LENGTH);
    }
  }
}
