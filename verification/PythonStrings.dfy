/** The string operations of Python that the external cluster script relies on, for ASCII text. */
module PythonStrings {
  import opened Wrappers

  predicate IsSpace(c: char)
  {
    c in " \t\n\r" || c == '\U{000B}' || c == '\U{000C}'
  }

  function Strip(s: string): string
    decreases |s|
  {
    if s != "" && IsSpace(s[0]) then Strip(s[1..])
    else if s != "" && IsSpace(s[|s| - 1]) then Strip(s[..|s| - 1])
    else s
  }

  predicate IsStripped(s: string)
  {
    s != "" ==> !IsSpace(s[0]) && !IsSpace(s[|s| - 1])
  }

  lemma {:induction false} StripStrips(s: string)
    ensures IsStripped(Strip(s)) && (IsStripped(s) ==> Strip(s) == s)
    ensures forall c :: c in Strip(s) ==> c in s
    decreases |s|
  {
    if s != "" && IsSpace(s[0]) {
      StripStrips(s[1..]);
    } else if s != "" && IsSpace(s[|s| - 1]) {
      StripStrips(s[..|s| - 1]);
    }
  }

  // The part t of s from i to j, with nothing but white space around it.
  ghost predicate IsMiddle(s: string, t: string, i: int, j: int)
  {
    0 <= i <= j <= |s| && t == s[i..j] && forall k :: 0 <= k < i || j <= k < |s| ==> IsSpace(s[k])
  }

  // Stripping takes nothing but white space away.
  lemma {:induction false} StripKeepsMiddle(s: string)
    ensures exists i, j :: IsMiddle(s, Strip(s), i, j)
    decreases |s|
  {
    hide IsSpace;
    if s != "" && IsSpace(s[0]) {
      StripKeepsMiddle(s[1..]);
      var i, j :| IsMiddle(s[1..], Strip(s), i, j);
      assert s[1..][i..j] == s[i + 1..j + 1];
      assert forall k :: 1 <= k < |s| ==> s[k] == s[1..][k - 1];
      assert IsMiddle(s, Strip(s), i + 1, j + 1);
    } else if s != "" && IsSpace(s[|s| - 1]) {
      StripKeepsMiddle(s[..|s| - 1]);
      var i, j :| IsMiddle(s[..|s| - 1], Strip(s), i, j);
      assert s[..|s| - 1][i..j] == s[i..j];
      assert IsMiddle(s, Strip(s), i, j);
    } else {
      assert s[0..|s|] == s == Strip(s);
      assert IsMiddle(s, Strip(s), 0, |s|);
    }
  }

  function Split(s: string, sep: char): (parts: seq<string>)
    ensures parts != []
  {
    if s == "" then [""]
    else
      var rest := Split(s[1..], sep);
      if s[0] == sep then [""] + rest else [[s[0]] + rest[0]] + rest[1..]
  }

  lemma {:induction false} SplitFree(s: string, sep: char)
    requires sep !in s
    ensures Split(s, sep) == [s]
  {
    if s != "" {
      assert s[0] in s;
      SplitFree(s[1..], sep);
      assert s == [s[0]] + s[1..];
    }
  }

  lemma {:induction false} SplitAt(a: string, rest: string, sep: char)
    requires sep !in a
    ensures Split(a + [sep] + rest, sep) == [a] + Split(rest, sep)
  {
    var s := a + [sep] + rest;
    if a == "" {
      assert s[1..] == rest;
    } else {
      assert a[0] in a;
      assert s[1..] == a[1..] + [sep] + rest;
      SplitAt(a[1..], rest, sep);
      assert a == [a[0]] + a[1..];
      var tail := Split(s[1..], sep);
      assert tail[0] == a[1..] && tail[1..] == Split(rest, sep);
    }
  }

  // Two lists of parts as one: the last part of the first and the first of the second become one.
  function Glue(x: seq<string>, y: seq<string>): seq<string>
    requires x != [] && y != []
  {
    if |x| == 1 then [x[0] + y[0]] + y[1..] else [x[0]] + Glue(x[1..], y)
  }

  lemma {:induction false} GlueIs(x: seq<string>, y: seq<string>)
    requires x != [] && y != []
    ensures Glue(x, y) == x[..|x| - 1] + [x[|x| - 1] + y[0]] + y[1..]
  {
    if |x| > 1 {
      var tail := x[1..];
      GlueIs(tail, y);
      assert x[..|x| - 1] == [x[0]] + tail[..|tail| - 1];
    }
  }

  lemma GlueParts(x: seq<string>, y: seq<string>)
    requires x != [] && y != []
    ensures var g := Glue(x, y);
            && |g| == |x| + |y| - 1
            && (forall i :: 0 <= i < |x| - 1 ==> g[i] == x[i])
            && g[|x| - 1] == x[|x| - 1] + y[0]
            && (forall i :: 1 <= i < |y| ==> g[|x| - 1 + i] == y[i])
  {
    hide Glue;
    GlueIs(x, y);
  }

  lemma GlueChar(c: char, x: seq<string>, y: seq<string>)
    requires x != [] && y != []
    ensures var g := Glue(x, y);
            g != [] && Glue([[c] + x[0]] + x[1..], y) == [[c] + g[0]] + g[1..]
  {
    var longer := [[c] + x[0]] + x[1..];
    if |x| == 1 {
      assert [c] + x[0] + y[0] == [c] + (x[0] + y[0]);
    } else {
      assert longer[1..] == x[1..];
    }
  }

  lemma {:induction false} SplitConcat(a: string, b: string, sep: char)
    ensures Split(a + b, sep) == Glue(Split(a, sep), Split(b, sep))
  {
    if a == "" {
      var y := Split(b, sep);
      assert a + b == b && "" + y[0] == y[0];
      assert y == [y[0]] + y[1..];
    } else {
      var rest := Split(a[1..], sep);
      assert (a + b)[0] == a[0] && (a + b)[1..] == a[1..] + b;
      SplitConcat(a[1..], b, sep);
      if a[0] == sep {
        assert ([""] + rest)[1..] == rest;
      } else {
        GlueChar(a[0], rest, Split(b, sep));
      }
    }
  }

  lemma {:induction false} SplitPartsFree(s: string, sep: char)
    ensures forall i :: 0 <= i < |Split(s, sep)| ==> sep !in Split(s, sep)[i]
  {
    if s != "" {
      SplitPartsFree(s[1..], sep);
    }
  }

  // ----- Decimal numbers -----

  predicate IsDigit(c: char)
  {
    '0' <= c <= '9'
  }

  function Decimal(n: nat): string
  {
    (if n < 10 then "" else Decimal(n / 10)) + [('0' as int + n % 10) as char]
  }

  // The value of digits, with underscores skipped.
  function DigitsValue(s: string): int
  {
    if s == "" then 0
    else
      var before, c := DigitsValue(s[..|s| - 1]), s[|s| - 1];
      if c == '_' then before else 10 * before + (c as int - '0' as int)
  }

  // Digits, possibly with single underscores between them.
  predicate IsDigits(s: string)
  {
    && s != "" && IsDigit(s[0]) && IsDigit(s[|s| - 1])
    && (forall i :: 0 <= i < |s| ==> IsDigit(s[i]) || s[i] == '_')
    && (forall i :: 0 <= i < |s| - 1 ==> IsDigit(s[i]) || IsDigit(s[i + 1]))
  }

  // int(s): surrounding white space and a sign are allowed.
  function ParseInt(s: string): Option<int>
  {
    var t := Strip(s);
    if t == "" then None
    else if t[0] == '-' then (if IsDigits(t[1..]) then Some(-DigitsValue(t[1..])) else None)
    else if t[0] == '+' then (if IsDigits(t[1..]) then Some(DigitsValue(t[1..])) else None)
    else if IsDigits(t) then Some(DigitsValue(t))
    else None
  }

  lemma {:induction false} DecimalDigits(n: nat)
    ensures var d := Decimal(n);
            d != "" && (forall i :: 0 <= i < |d| ==> IsDigit(d[i])) && DigitsValue(d) == n
  {
    var d := Decimal(n);
    assert d[..|d| - 1] == if n < 10 then "" else Decimal(n / 10);
    if n >= 10 {
      DecimalDigits(n / 10);
    }
  }

  lemma ParseDecimal(n: nat)
    ensures ParseInt(Decimal(n)) == Some(n) && '.' !in Decimal(n)
  {
    hide Decimal, DigitsValue, Strip;
    DecimalDigits(n);
    var d := Decimal(n);
    assert IsDigit(d[0]) && IsDigit(d[|d| - 1]);
    assert IsStripped(d);
    StripStrips(d);
    assert Strip(d) == d && IsDigits(d);
  }
}
