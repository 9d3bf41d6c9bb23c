/** Absence and failure as values, in place of Java's `null` and exceptions. */
module Results {
  datatype Option<+T> = None | Some(value: T)

  datatype Result<+T, +E> = Ok(value: T) | Err(error: E)
}

/** The parts of `java.lang.String` and `Integer` the plugin relies on:
    decimal rendering and parsing of ints, literal `replace`, and case-insensitive
    comparison of ASCII names. */
module JavaStrings {
  import opened JavaInts
  import opened Results

  predicate IsDigit(c: char) { '0' <= c <= '9' }

  predicate AllDigits(s: string) { forall i :: 0 <= i < |s| ==> IsDigit(s[i]) }

  /** The text the regular expression `-?\d+` matches in full. */
  predicate IsSignedDigits(s: string)
  {
    if |s| > 0 && s[0] == '-' then |s| > 1 && AllDigits(s[1..]) else |s| > 0 && AllDigits(s)
  }

  function DigitChar(d: nat): (c: char)
    requires d < 10
    ensures IsDigit(c)
  {
    (('0' as int) + d) as char
  }

  function DigitValue(c: char): (d: nat)
    requires IsDigit(c)
    ensures d < 10 && DigitChar(d) == c
  {
    (c as int) - ('0' as int)
  }

  /** Decimal digits of `n`, most significant first, no leading zero. */
  function NatToString(n: nat): (s: string)
    ensures |s| >= 1 && AllDigits(s)
    ensures |s| > 1 ==> s[0] != '0'
    decreases n
  {
    if n < 10 then [DigitChar(n)] else NatToString(n / 10) + [DigitChar(n % 10)]
  }

  /** The number a string of decimal digits denotes. */
  function DigitsValue(s: string): nat
    requires AllDigits(s)
    decreases |s|
  {
    if |s| == 0 then 0 else 10 * DigitsValue(s[..|s| - 1]) + DigitValue(s[|s| - 1])
  }

  lemma {:induction false} NatToStringValue(n: nat)
    ensures DigitsValue(NatToString(n)) == n
    decreases n
  {
    if n >= 10 {
      var s := NatToString(n);
      NatToStringValue(n / 10);
      assert s[..|s| - 1] == NatToString(n / 10);
    }
  }

  /** `Integer.toString(x)`, which is also what string concatenation produces for an int. */
  function IntToString(x: int): (s: string)
    ensures IsSignedDigits(s)
  {
    if x < 0 then "-" + NatToString(-x) else NatToString(x)
  }

  /** `Integer.parseInt` on text already known to match `-?\d+`: the value, or
      `None` where the method throws `NumberFormatException` because the value
      does not fit in an int. */
  function ParseSignedDigits(s: string): (r: Option<int32>)
    requires IsSignedDigits(s)
  {
    var v: int := if s[0] == '-' then -(DigitsValue(s[1..]) as int) else DigitsValue(s);
    if IsInt32(v) then Some(v) else None
  }

  lemma ParseIntToString(x: int32)
    ensures ParseSignedDigits(IntToString(x)) == Some(x)
  {
    if x < 0 {
      var n: nat := -(x as int);
      assert IntToString(x)[1..] == NatToString(n);
      NatToStringValue(n);
    } else {
      NatToStringValue(x);
    }
  }

  lemma IntToStringInjective(x: int, y: int)
    requires IntToString(x) == IntToString(y)
    ensures x == y
  {
    IntToStringValue(x);
    IntToStringValue(y);
  }

  /** The text of `x` starts with '-' exactly when `x` is negative, and its digits read back `|x|`. */
  lemma IntToStringValue(x: int)
    ensures IntToString(x)[0] == '-' <==> x < 0
    ensures x < 0 ==> AllDigits(IntToString(x)[1..]) && DigitsValue(IntToString(x)[1..]) == -x
    ensures x >= 0 ==> AllDigits(IntToString(x)) && DigitsValue(IntToString(x)) == x
  {
    if x < 0 {
      NegativeText(x);
    } else {
      NonNegativeText(x);
    }
  }

  lemma NegativeText(x: int)
    requires x < 0
    ensures IntToString(x)[0] == '-' && AllDigits(IntToString(x)[1..]) && DigitsValue(IntToString(x)[1..]) == -x
  {
    assert IntToString(x)[1..] == NatToString(-x);
    NatToStringValue(-x);
  }

  lemma NonNegativeText(x: int)
    requires x >= 0
    ensures IntToString(x)[0] != '-' && AllDigits(IntToString(x)) && DigitsValue(IntToString(x)) == x
  {
    assert IsDigit(NatToString(x)[0]);
    NatToStringValue(x);
  }

  /** Neither `IntToString` nor any other signed digit string contains `c`
      unless it is a digit or '-'. */
  lemma SignedDigitsChars(s: string, c: char)
    requires IsSignedDigits(s) && !IsDigit(c) && c != '-'
    ensures c !in s
  {
    forall i | 0 <= i < |s| ensures s[i] != c {
      if s[0] == '-' && i > 0 { assert s[1..][i - 1] == s[i]; }
    }
  }

  /** Two strings joined by a separator that neither first part contains split the same way. */
  lemma SplitAtSeparator(a1: string, a2: string, b1: string, b2: string, sep: char)
    requires sep !in a1 && sep !in b1
    requires a1 + [sep] + a2 == b1 + [sep] + b2
    ensures a1 == b1 && a2 == b2
  {
    var s := a1 + [sep] + a2;
    IndexOfAfter(a1, sep, a2);
    IndexOfAfter(b1, sep, b2);
    assert a1 == s[..|a1|] == b1;
    assert a2 == s[|a1| + 1..] == b2;
  }

  lemma {:induction false} IndexOfAfter(a: string, sep: char, rest: string)
    requires sep !in a
    ensures IndexOf(a + [sep] + rest, sep) == |a|
    decreases |a|
  {
    if |a| > 0 {
      assert (a + [sep] + rest)[1..] == a[1..] + [sep] + rest;
      IndexOfAfter(a[1..], sep, rest);
    }
  }

  /** Index of the first occurrence of `c`, or `|s|` when there is none. */
  function IndexOf(s: string, c: char): (k: nat)
    ensures k <= |s|
    ensures c !in s[..k]
    ensures k < |s| ==> s[k] == c
    ensures k == |s| <==> c !in s
  {
    if |s| == 0 then 0 else if s[0] == c then 0 else 1 + IndexOf(s[1..], c)
  }

  predicate StartsWith(s: string, p: string) { |p| <= |s| && s[..|p|] == p }
  predicate EndsWith(s: string, p: string) { |p| <= |s| && s[|s| - |p|..] == p }

  /** `s` contains `t` starting at position `i`. */
  predicate OccursAt(s: string, t: string, i: nat) { i + |t| <= |s| && s[i..i + |t|] == t }

  /** `String.replace(target, replacement)` for a non-empty target: every
      occurrence, found left to right without overlap, is replaced. */
  function Replace(s: string, target: string, repl: string): string
    requires |target| > 0
    decreases |s|
  {
    if |s| < |target| then s
    else if s[..|target|] == target then repl + Replace(s[|target|..], target, repl)
    else [s[0]] + Replace(s[1..], target, repl)
  }

  lemma {:induction false} ReplaceAbsent(s: string, target: string, repl: string)
    requires |target| > 0
    requires forall i :: 0 <= i <= |s| ==> !OccursAt(s, target, i)
    ensures Replace(s, target, repl) == s
    decreases |s|
  {
    if |s| >= |target| {
      assert !OccursAt(s, target, 0);
      forall i | 0 <= i <= |s[1..]| ensures !OccursAt(s[1..], target, i) {
        assert !OccursAt(s, target, i + 1);
        if i + |target| <= |s[1..]| {
          assert s[1..][i..i + |target|] == s[i + 1..i + 1 + |target|];
        }
      }
      ReplaceAbsent(s[1..], target, repl);
    }
  }

  /** Dropping the first character moves every occurrence one place left. */
  lemma OccursShift(s: string, t: string, i: nat)
    requires |s| > 0
    ensures OccursAt(s[1..], t, i) <==> OccursAt(s, t, i + 1)
  {
    if i + |t| <= |s[1..]| {
      assert s[1..][i..i + |t|] == s[i + 1..i + 1 + |t|];
    }
  }

  /** Replacing a target that occurs exactly once, at the end. */
  lemma {:induction false} ReplaceAtEnd(a: string, target: string, repl: string)
    requires |target| > 0
    requires forall i :: 0 <= i < |a| ==> !OccursAt(a + target, target, i)
    ensures Replace(a + target, target, repl) == a + repl
    decreases |a|
  {
    var s := a + target;
    if |a| == 0 {
      assert s == target;
      ReplaceWhole(target, repl);
    } else {
      assert !OccursAt(s, target, 0);
      ReplaceSkip(s, target, repl);
      assert s[1..] == a[1..] + target;
      forall i | 0 <= i < |a[1..]| ensures !OccursAt(a[1..] + target, target, i) {
        OccursShift(s, target, i);
      }
      ReplaceAtEnd(a[1..], target, repl);
      assert [s[0]] + a[1..] + repl == a + repl;
    }
  }

  lemma ReplaceWhole(target: string, repl: string)
    requires |target| > 0
    ensures Replace(target, target, repl) == repl
  {
    assert target[..|target|] == target;
    assert target[|target|..] == [];
  }

  /** Where the target does not start the text, its first character is kept. */
  lemma ReplaceSkip(s: string, target: string, repl: string)
    requires 0 < |target| <= |s| && !OccursAt(s, target, 0)
    ensures Replace(s, target, repl) == [s[0]] + Replace(s[1..], target, repl)
  {
  }

  /** Replacing a target that occurs exactly once, between a prefix and a suffix that do not produce another occurrence. */
  lemma {:induction false} ReplaceOnce(a: string, target: string, b: string, repl: string)
    requires |target| > 0
    requires forall i :: 0 <= i < |a| ==> !OccursAt(a + target + b, target, i)
    requires forall i :: 0 <= i <= |b| ==> !OccursAt(b, target, i)
    ensures Replace(a + target + b, target, repl) == a + repl + b
    decreases |a|
  {
    var s := a + target + b;
    if |a| == 0 {
      assert s[..|target|] == target;
      assert s[|target|..] == b;
      ReplaceAbsent(b, target, repl);
    } else {
      assert !OccursAt(s, target, 0);
      assert s[1..] == a[1..] + target + b;
      forall i | 0 <= i < |a[1..]| ensures !OccursAt(a[1..] + target + b, target, i) {
        assert !OccursAt(s, target, i + 1);
        assert (a[1..] + target + b)[i..i + |target|] == s[i + 1..i + 1 + |target|];
      }
      ReplaceOnce(a[1..], target, b, repl);
      assert [s[0]] + (a[1..] + repl + b) == a + repl + b;
    }
  }

  /** `Character.toLowerCase` restricted to ASCII letters. */
  function LowerChar(c: char): (r: char)
    ensures 'A' <= c <= 'Z' ==> 'a' <= r <= 'z' && r as int - 'a' as int == c as int - 'A' as int
    ensures !('A' <= c <= 'Z') ==> r == c
  {
    if 'A' <= c <= 'Z' then (c as int + 32) as char else c
  }

  /** `String.toLowerCase` on ASCII text. */
  function ToLower(s: string): (r: string)
    ensures |r| == |s|
    ensures forall i :: 0 <= i < |s| ==> r[i] == LowerChar(s[i])
  {
    if |s| == 0 then [] else [LowerChar(s[0])] + ToLower(s[1..])
  }

  /** `String.equalsIgnoreCase` on ASCII text. */
  predicate EqualsIgnoreCase(a: string, b: string)
  {
    ToLower(a) == ToLower(b)
  }

  /** Text without upper-case ASCII letters is its own lower-case form. */
  lemma ToLowerIdentity(s: string)
    requires forall i :: 0 <= i < |s| ==> !('A' <= s[i] <= 'Z')
    ensures ToLower(s) == s
  {
  }
}
