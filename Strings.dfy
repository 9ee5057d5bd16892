/**
 * The few string operations of the JavaScript runtime that the application relies on:
 * `Number.prototype.toString()` on non-negative integers, `padStart`, `split` on one
 * character and `replace` of every occurrence of one character.
 */
module Strings {

  predicate IsDigit(c: char)
  {
    '0' <= c <= '9'
  }

  predicate AllDigits(s: string)
  {
    forall i :: 0 <= i < |s| ==> IsDigit(s[i])
  }

  function DigitChar(n: nat): char
    requires n < 10
  {
    "0123456789"[n]
  }

  function DigitValue(c: char): nat
    requires IsDigit(c)
  {
    (c as int - '0' as int) as nat
  }

  /** The value of a string of decimal digits (leading zeros allowed, "" reads as 0). */
  function ParseDecimal(s: string): nat
    requires AllDigits(s)
  {
    if s == [] then 0 else 10 * ParseDecimal(s[..|s| - 1]) + DigitValue(s[|s| - 1])
  }

  /** `n.toString()` for a non-negative integer: its decimal digits without leading zeros. */
  function DecimalString(n: nat): (r: string)
    ensures 1 <= |r| && AllDigits(r)
    ensures |r| > 1 ==> r[0] != '0'
    ensures n < 10 <==> |r| == 1
    ensures n < 100 <==> |r| <= 2
  {
    if n < 10 then [DigitChar(n)] else DecimalString(n / 10) + [DigitChar(n % 10)]
  }

  /** Reading back what `DecimalString` writes gives the number. */
  lemma {:induction false} ParseDecimalString(n: nat)
    ensures ParseDecimal(DecimalString(n)) == n
  {
    var r := DecimalString(n);
    if n >= 10 {
      assert r[..|r| - 1] == DecimalString(n / 10);
      ParseDecimalString(n / 10);
    }
  }

  /** Distinct numbers have distinct decimal strings. */
  lemma DecimalStringInjective(m: nat, n: nat)
    ensures DecimalString(m) == DecimalString(n) <==> m == n
  {
    ParseDecimalString(m);
    ParseDecimalString(n);
  }

  function Repeat(c: char, k: nat): (r: string)
    ensures |r| == k && forall i :: 0 <= i < k ==> r[i] == c
  {
    if k == 0 then [] else [c] + Repeat(c, k - 1)
  }

  /** `s.padStart(width, fill)`: `fill` is added in front until `s` is `width` long. */
  function PadStart(s: string, width: nat, fill: char): (r: string)
    ensures |r| == if |s| >= width then |s| else width
    ensures r[|r| - |s|..] == s
    ensures forall i :: 0 <= i < |r| - |s| ==> r[i] == fill
  {
    if |s| >= width then s else Repeat(fill, width - |s|) + s
  }

  /** Leading zeros do not change the value of a digit string. */
  lemma {:induction false} ParseLeadingZero(s: string)
    requires AllDigits(s)
    ensures AllDigits("0" + s) && ParseDecimal("0" + s) == ParseDecimal(s)
    decreases |s|
  {
    if s != [] {
      assert ("0" + s)[..|"0" + s| - 1] == "0" + s[..|s| - 1];
      ParseLeadingZero(s[..|s| - 1]);
    }
  }

  /** Any number of leading zeros leaves the value of a digit string as it is. */
  lemma {:induction false} ParseLeadingZeros(k: nat, s: string)
    requires AllDigits(s)
    ensures AllDigits(Repeat('0', k) + s) && ParseDecimal(Repeat('0', k) + s) == ParseDecimal(s)
  {
    if k > 0 {
      var t := Repeat('0', k - 1) + s;
      ParseLeadingZeros(k - 1, s);
      assert Repeat('0', k) + s == "0" + t;
      ParseLeadingZero(t);
    } else {
      assert Repeat('0', k) + s == s;
    }
  }

  /** Zero-padding a digit string keeps its value. */
  lemma ParseZeroPadded(s: string, width: nat)
    requires AllDigits(s)
    ensures AllDigits(PadStart(s, width, '0'))
    ensures ParseDecimal(PadStart(s, width, '0')) == ParseDecimal(s)
  {
    if |s| < width {
      ParseLeadingZeros(width - |s|, s);
    }
  }

  /**
   * `s.split([sep])`: the pieces between occurrences of `sep`; no piece contains the
   * separator.
   */
  function Split(s: string, sep: char): (r: seq<string>)
    ensures |r| >= 1
    ensures forall i :: 0 <= i < |r| ==> sep !in r[i]
  {
    if s == [] then [""]
    else
      var rest := Split(s[1..], sep);
      if s[0] == sep then [""] + rest else [[s[0]] + rest[0]] + rest[1..]
  }

  /** There is exactly one more piece than there are separators in the text. */
  lemma {:induction false} SplitPieceCount(s: string, sep: char)
    ensures |Split(s, sep)| == multiset(s)[sep] + 1
  {
    if s != [] {
      SplitPieceCount(s[1..], sep);
      assert s == [s[0]] + s[1..];
    }
  }

  /** `parts.join([sep])` for a non-empty list of parts, the partner of `Split`. */
  function Join(parts: seq<string>, sep: char): string
    requires |parts| >= 1
  {
    if |parts| == 1 then parts[0] else parts[0] + [sep] + Join(parts[1..], sep)
  }

  /** Splitting and joining again gives back the original text. */
  lemma {:induction false} JoinSplit(s: string, sep: char)
    ensures Join(Split(s, sep), sep) == s
  {
    if s != [] {
      var rest := Split(s[1..], sep);
      JoinSplit(s[1..], sep);
      if s[0] != sep {
        var r := Split(s, sep);
        assert r[0] == [s[0]] + rest[0] && r[1..] == rest[1..];
        if |rest| > 1 {
          assert Join(rest, sep) == rest[0] + [sep] + Join(rest[1..], sep);
        }
      }
    }
  }

  /** One step of `Split` on a text that starts with the separator. */
  lemma SplitSepFirst(t: string, sep: char)
    ensures Split([sep] + t, sep) == [""] + Split(t, sep)
  {
    assert ([sep] + t)[1..] == t;
  }

  /** One step of `Split` on a text that starts with another character. */
  lemma SplitOtherFirst(c: char, t: string, sep: char)
    requires c != sep
    ensures Split([c] + t, sep) == [[c] + Split(t, sep)[0]] + Split(t, sep)[1..]
  {
    assert ([c] + t)[1..] == t;
  }

  /** Moving the first character of the first piece out of a join. */
  lemma JoinFirstChar(parts: seq<string>, sep: char)
    requires |parts| >= 1 && parts[0] != []
    ensures Join(parts, sep) == [parts[0][0]] + Join([parts[0][1..]] + parts[1..], sep)
  {
    var shorter := [parts[0][1..]] + parts[1..];
    assert parts[0] == [parts[0][0]] + shorter[0];
    if |parts| > 1 {
      assert shorter[1..] == parts[1..];
    }
  }

  /** Joining pieces free of the separator and splitting again gives back the pieces. */
  lemma {:induction false} SplitJoin(parts: seq<string>, sep: char)
    requires |parts| >= 1
    requires forall i :: 0 <= i < |parts| ==> sep !in parts[i]
    ensures Split(Join(parts, sep), sep) == parts
    decreases |parts|, |parts[0]|
  {
    if parts[0] == [] && |parts| > 1 {
      var tail := Join(parts[1..], sep);
      SplitJoin(parts[1..], sep);
      SplitSepFirst(tail, sep);
      assert Join(parts, sep) == [sep] + tail;
    } else if parts[0] != [] {
      var shorter := [parts[0][1..]] + parts[1..];
      assert forall i :: 1 <= i < |shorter| ==> shorter[i] == parts[i];
      SplitJoin(shorter, sep);
      JoinFirstChar(parts, sep);
      SplitOtherFirst(parts[0][0], Join(shorter, sep), sep);
      assert [parts[0][0]] + shorter[0] == parts[0];
      assert shorter[1..] == parts[1..];
    } else {
      assert parts == [""];
    }
  }

  /** `s.replace(/c/g, '')`: every occurrence of `c` removed, everything else kept. */
  function RemoveAll(s: string, c: char): (r: string)
    ensures c !in r
  {
    if s == [] then [] else (if s[0] == c then [] else [s[0]]) + RemoveAll(s[1..], c)
  }

  /** Exactly the occurrences of `c` go; every other character keeps its count. */
  lemma {:induction false} RemoveAllCounts(s: string, c: char)
    ensures |RemoveAll(s, c)| == |s| - multiset(s)[c]
    ensures forall x :: x != c ==> multiset(RemoveAll(s, c))[x] == multiset(s)[x]
  {
    if s != [] {
      RemoveAllCounts(s[1..], c);
      assert s == [s[0]] + s[1..];
    }
  }

  /** Removal works piece by piece, so the remaining characters keep their order. */
  lemma {:induction false} RemoveAllConcat(a: string, b: string, c: char)
    ensures RemoveAll(a + b, c) == RemoveAll(a, c) + RemoveAll(b, c)
  {
    if a != [] {
      var ab := a + b;
      assert ab[0] == a[0] && ab[1..] == a[1..] + b;
      RemoveAllConcat(a[1..], b, c);
      var head := if a[0] == c then [] else [a[0]];
      assert RemoveAll(ab, c) == head + RemoveAll(a[1..] + b, c);
      assert RemoveAll(a, c) == head + RemoveAll(a[1..], c);
    } else {
      assert a + b == b;
    }
  }

  /** A string without `c` is left as it is. */
  lemma {:induction false} RemoveAllAbsent(s: string, c: char)
    requires c !in s
    ensures RemoveAll(s, c) == s
  {
    if s != [] {
      assert c !in s[1..];
      RemoveAllAbsent(s[1..], c);
    }
  }
}
