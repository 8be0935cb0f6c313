/**
 Daemon names a, b, ..., z, aa, ab, ...: a bijection between the naturals and the non-empty names of
 lower-case letters, in shortlex order.
 */
module DaemonNames {

  const BASE: int := 26   // maxPerChar

  datatype Result = Ok(index: int) | InvalidChar

  predicate IsLetter(c: char)
  {
    'a' <= c <= 'z'
  }

  predicate IsName(s: string)
  {
    forall i :: 0 <= i < |s| ==> IsLetter(s[i])
  }

  // 1 for 'a' to 26 for 'z'
  function CharVal(c: char): int
  {
    BASE - ('z' as int - c as int)
  }

  function Letter(i: int): (c: char)
    requires 0 <= i < BASE
    ensures IsLetter(c) && CharVal(c) == i + 1
  {
    ('z' as int - BASE + i + 1) as char
  }

  // The number a name stands for in bijective base 26; the empty name stands for 0.
  function Value(s: string): int
  {
    if s == "" then 0 else BASE * Value(s[..|s| - 1]) + CharVal(s[|s| - 1])
  }

  // The name of an index: its last letter is the remainder, the rest the name of what is left.
  function Name(index: nat): string
  {
    (if index < BASE then "" else Name(index / BASE - 1)) + [Letter(index % BASE)]
  }

  // Go's remainder has the sign of the dividend.
  function GoRem(a: int, b: int): int
    requires b > 0
  {
    if a >= 0 then a % b else -((-a) % b)
  }

  // A negative index is not rejected; it gives a single character.
  method IndexToName(index: int) returns (name: string)
    ensures index >= 0 ==> name == Name(index)
    ensures index < 0 ==> name == [('z' as int - BASE + GoRem(index, BASE) + 1) as char]
  {
    name := "";
    var rest := index;
    while true
      invariant rest < 0 ==> rest == index && name == ""
      invariant rest >= 0 ==> index >= 0 && Name(rest) + name == Name(index)
      decreases rest
    {
      var c := ('z' as int - BASE + GoRem(rest, BASE) + 1) as char;
      ghost var front := if rest < BASE then "" else Name(rest / BASE - 1);
      assert rest >= 0 ==> c == Letter(rest % BASE) && Name(rest) + name == front + ([c] + name);
      name := [c] + name;
      if rest < BASE {
        assert front + name == name;
        break;
      }
      rest := rest / BASE - 1;
    }
  }

  function Pow(n: nat): int
  {
    if n == 0 then 1 else BASE * Pow(n - 1)
  }

  lemma {:induction false} PowIsOne(n: nat)
    ensures Pow(n) >= 1 && (Pow(n) == 1 <==> n == 0)
    ensures Pow(n) / BASE == if n == 0 then 0 else Pow(n - 1)
  {
    if n > 0 {
      PowIsOne(n - 1);
    }
  }

  // The running sum: the prefix's value, scaled by the weight of the letters still to come.
  lemma NextLetter(name: string, i: nat)
    requires i < |name|
    ensures Value(name[..i + 1]) * Pow(|name| - 1 - i)
         == Value(name[..i]) * Pow(|name| - i) + CharVal(name[i]) * Pow(|name| - 1 - i)
  {
    assert name[..i + 1][..i] == name[..i];
    var v, p := Value(name[..i]), Pow(|name| - 1 - i);
    assert Pow(|name| - i) == BASE * p;
    assert (BASE * v + CharVal(name[i])) * p == v * (BASE * p) + CharVal(name[i]) * p;
  }

  method NameToIndex(name: string) returns (r: Result)
    ensures r == if !IsName(name) then InvalidChar else if name == "" then Ok(0) else Ok(Value(name) - 1)
  {
    var factor := 1;
    var i := 1;
    while i < |name|
      invariant 1 <= i && (i == 1 || i <= |name|) && factor == Pow(i - 1)
    {
      factor := factor * BASE;
      i := i + 1;
    }
    var result := 0;
    for k := 0 to |name|
      invariant IsName(name[..k])
      invariant factor == if k < |name| then Pow(|name| - 1 - k) else if name == "" then 1 else 0
      invariant result == if k < |name| || name == "" then Value(name[..k]) * Pow(|name| - k) else Value(name) - 1
    {
      var charVal := CharVal(name[k]);
      if charVal < 1 || charVal > BASE {
        assert !IsLetter(name[k]);
        return InvalidChar;
      }
      NextLetter(name, k);
      PowIsOne(|name| - 1 - k);
      if factor == 1 {
        assert name[..k + 1] == name;
        result := result + charVal - 1;
      } else {
        result := result + charVal * factor;
      }
      factor := factor / BASE;
      assert name[..k + 1] == name[..k] + [name[k]];
    }
    assert name[..|name|] == name;
    return Ok(result);
  }

  // ----- The two conversions undo each other -----

  lemma {:induction false} NameOfIndex(index: nat)
    ensures Name(index) != "" && IsName(Name(index)) && Value(Name(index)) - 1 == index
  {
    var front := if index < BASE then "" else Name(index / BASE - 1);
    assert Name(index)[..|Name(index)| - 1] == front;
    if index >= BASE {
      NameOfIndex(index / BASE - 1);
    }
  }

  lemma {:induction false} IndexOfName(name: string)
    requires name != "" && IsName(name)
    ensures Value(name) >= 1 && Name(Value(name) - 1) == name
  {
    var init, c := name[..|name| - 1], name[|name| - 1];
    var index := Value(name) - 1;
    assert name == init + [c];
    if init == "" {
      assert index == CharVal(c) - 1 && index % BASE == index;
    } else {
      IndexOfName(init);
      assert index == BASE * Value(init) + (CharVal(c) - 1);
      assert index / BASE == Value(init) && index % BASE == CharVal(c) - 1;
    }
    assert CharVal(Letter(CharVal(c) - 1)) == CharVal(c);
  }

  // ----- Index order is shortlex order -----

  // Shorter names first, names of one length by their first difference.
  ghost predicate ShortLex(a: string, b: string)
  {
    |a| < |b| || (|a| == |b| && exists k :: 0 <= k < |a| && a[..k] == b[..k] && a[k] < b[k])
  }

  // The least value of a name of length n.
  function Low(n: nat): int
  {
    if n == 0 then 0 else BASE * Low(n - 1) + 1
  }

  lemma {:induction false} ValueBounds(name: string)
    requires IsName(name)
    ensures Low(|name|) <= Value(name) < Low(|name| + 1)
  {
    if name != "" {
      ValueBounds(name[..|name| - 1]);
    }
  }

  lemma {:induction false} LowGrows(m: nat, n: nat)
    requires m <= n
    ensures 0 <= Low(m) <= Low(n)
    decreases n
  {
    if m < n {
      LowGrows(m, n - 1);
    } else if n > 0 {
      LowGrows(n - 1, n - 1);
    }
  }

  // With one length, the first difference decides.
  lemma {:induction false} FirstDifferenceDecides(a: string, b: string, k: nat)
    requires IsName(a) && IsName(b) && |a| == |b|
    requires k < |a| && a[..k] == b[..k] && a[k] < b[k]
    ensures Value(a) < Value(b)
    decreases |a|
  {
    var a', b' := a[..|a| - 1], b[..|b| - 1];
    if k == |a| - 1 {
      assert a' == b';
    } else {
      assert a'[..k] == a[..k] && b'[..k] == b[..k];
      FirstDifferenceDecides(a', b', k);
    }
  }

  lemma ShortLexIncreases(a: string, b: string)
    requires IsName(a) && IsName(b) && ShortLex(a, b)
    ensures Value(a) < Value(b)
  {
    if |a| < |b| {
      ValueBounds(a);
      ValueBounds(b);
      LowGrows(|a| + 1, |b|);
    } else {
      var k :| 0 <= k < |a| && a[..k] == b[..k] && a[k] < b[k];
      FirstDifferenceDecides(a, b, k);
    }
  }

  lemma {:induction false} ShortLexTotal(a: string, b: string)
    requires a != b
    ensures ShortLex(a, b) || ShortLex(b, a)
  {
    if |a| == |b| {
      var k := 0;
      while k < |a| && a[k] == b[k]
        invariant k <= |a| && a[..k] == b[..k]
      {
        k := k + 1;
      }
      assert k < |a|;
    }
  }

  lemma IndexOrderIsShortLex(i: nat, j: nat)
    ensures i < j <==> ShortLex(Name(i), Name(j))
  {
    NameOfIndex(i);
    NameOfIndex(j);
    var a, b := Name(i), Name(j);
    if ShortLex(a, b) {
      ShortLexIncreases(a, b);
    } else if a != b {
      ShortLexTotal(a, b);
      ShortLexIncreases(b, a);
    }
  }
}
