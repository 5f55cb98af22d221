/** Failure-carrying results shared by every module. */
module Wrappers {
  datatype Option<+T> = None | Some(value: T)

  datatype Result<+T, +E> = Ok(value: T) | Err(error: E)
}

/** Strings as the source builds and takes apart: decimal rendering, splitting on a separator. */
module Text {
  import opened Wrappers

  function Digit(d: nat): char
    requires d < 10
  {
    "0123456789"[d]
  }

  function Decimal(n: nat): string {
    if n < 10 then [Digit(n)] else Decimal(n / 10) + [Digit(n % 10)]
  }

  lemma {:induction false} DecimalIsDigits(n: nat)
    ensures Decimal(n) != ""
    ensures forall c <- Decimal(n) :: '0' <= c <= '9'
  {
    if n >= 10 {
      DecimalIsDigits(n / 10);
    }
  }

  lemma {:induction false} DecimalInjective(a: nat, b: nat)
    requires Decimal(a) == Decimal(b)
    ensures a == b
  {
    var s, t := Decimal(a), Decimal(b);
    if a < 10 && b >= 10 {
      DecimalIsDigits(b / 10);
    } else if a >= 10 && b < 10 {
      DecimalIsDigits(a / 10);
    } else {
      assert s[|s| - 1] == Digit(a % 10) && t[|t| - 1] == Digit(b % 10);
      if a >= 10 {
        assert s[..|s| - 1] == Decimal(a / 10) && t[..|t| - 1] == Decimal(b / 10);
        DecimalInjective(a / 10, b / 10);
      }
    }
  }

  predicate StartsWith(s: string, prefix: string) {
    prefix <= s
  }

  predicate EndsWith(s: string, suffix: string) {
    |suffix| <= |s| && s[|s| - |suffix|..] == suffix
  }

  function Lower(c: char): char {
    if 'A' <= c <= 'Z' then (c as int + 32) as char else c
  }

  /** Equal up to the case of ASCII letters. */
  predicate EqIgnoreCase(a: string, b: string) {
    |a| == |b| && forall i | 0 <= i < |a| :: Lower(a[i]) == Lower(b[i])
  }

  predicate Contains(s: string, sub: string) {
    exists i | 0 <= i <= |s| :: sub <= s[i..]
  }

  /** Index of the first occurrence of `pat`. */
  function Find(s: string, pat: string): (r: Option<nat>)
    ensures r.Some? ==> r.value <= |s| && pat <= s[r.value..]
  {
    if pat <= s then Some(0)
    else if s == "" then None
    else var r := Find(s[1..], pat); if r.None? then None else Some(r.value + 1)
  }

  lemma {:induction false} FindFirst(s: string, pat: string)
    ensures Find(s, pat).Some? ==> forall i | 0 <= i < Find(s, pat).value :: !(pat <= s[i..])
    ensures Find(s, pat).None? ==> forall i | 0 <= i <= |s| :: !(pat <= s[i..])
  {
    if !(pat <= s) && s != "" {
      FindFirst(s[1..], pat);
      assert forall i | 1 <= i <= |s| :: s[i..] == s[1..][i - 1..];
    }
  }

  lemma {:induction false} FindAt(s: string, pat: string, k: nat)
    requires k <= |s| && pat <= s[k..] && forall i | 0 <= i < k :: !(pat <= s[i..])
    ensures Find(s, pat) == Some(k)
  {
    if k > 0 {
      assert s == s[0..];
      assert s[1..][k - 1..] == s[k..];
      assert forall i | 0 <= i < k - 1 :: s[1..][i..] == s[i + 1..];
      FindAt(s[1..], pat, k - 1);
    }
  }

  function Split(s: string, sep: char): (parts: seq<string>)
    ensures |parts| > 0
  {
    if s == "" then [""]
    else
      var rest := Split(s[1..], sep);
      if s[0] == sep then [""] + rest else [[s[0]] + rest[0]] + rest[1..]
  }

  lemma {:induction false} SplitAtom(a: string, sep: char)
    requires sep !in a
    ensures Split(a, sep) == [a]
  {
    if a != "" {
      SplitAtom(a[1..], sep);
      assert a == [a[0]] + a[1..];
    }
  }

  lemma {:induction false} SplitAppend(a: string, b: string, sep: char)
    ensures Split(a + [sep] + b, sep) == Split(a, sep) + Split(b, sep)
  {
    var s := a + [sep] + b;
    if a == "" {
      assert s[1..] == b;
    } else {
      assert s[1..] == a[1..] + [sep] + b;
      SplitAppend(a[1..], b, sep);
    }
  }

  lemma SplitCons(a: string, b: string, sep: char)
    requires sep !in a
    ensures Split(a + [sep] + b, sep) == [a] + Split(b, sep)
  {
    SplitAppend(a, b, sep);
    SplitAtom(a, sep);
  }

  /** Every character but the separator is in one of the parts. */
  lemma {:induction false} CharInPart(s: string, sep: char, k: nat) returns (i: nat)
    requires k < |s| && s[k] != sep
    ensures i < |Split(s, sep)| && s[k] in Split(s, sep)[i]
  {
    if k == 0 {
      i := 0;
    } else {
      i := CharInPart(s[1..], sep, k - 1);
      if s[0] == sep {
        i := i + 1;
      }
    }
  }

  /** A separator-free head is determined by the whole string. */
  lemma HeadIsDetermined(a: string, b: string, x: string, y: string, sep: char)
    requires sep !in a && sep !in b
    requires a + [sep] + x == b + [sep] + y
    ensures a == b && x == y
  {
    var s, t := a + [sep] + x, b + [sep] + y;
    assert s[|a|] == sep && t[|b|] == sep;
    assert forall i | 0 <= i < |a| :: s[i] == a[i];
    assert forall i | 0 <= i < |b| :: t[i] == b[i];
    assert a == s[..|a|] && b == t[..|b|];
    assert x == s[|a| + 1..] && y == t[|b| + 1..];
  }

  // ----- Trimming -----

  function TrimStart(s: string, space: char -> bool): string {
    if s == "" || !space(s[0]) then s else TrimStart(s[1..], space)
  }

  function TrimEnd(s: string, space: char -> bool): string {
    if s == "" || !space(s[|s| - 1]) then s else TrimEnd(s[..|s| - 1], space)
  }

  function Trim(s: string, space: char -> bool): string {
    TrimEnd(TrimStart(s, space), space)
  }

  /** `core` is `s` with all surrounding white space taken off. */
  ghost predicate Trimmed(s: string, core: string, space: char -> bool) {
    && (exists a, b :: s == a + core + b && (forall c <- a :: space(c)) && (forall c <- b :: space(c)))
    && (core != "" ==> !space(core[0]) && !space(core[|core| - 1]))
  }

  lemma {:induction false} TrimStartSplits(s: string, space: char -> bool) returns (a: string)
    ensures s == a + TrimStart(s, space) && forall c <- a :: space(c)
    ensures TrimStart(s, space) == "" || !space(TrimStart(s, space)[0])
  {
    if s == "" || !space(s[0]) {
      a := "";
    } else {
      var t := TrimStartSplits(s[1..], space);
      a := [s[0]] + t;
      assert a + TrimStart(s, space) == [s[0]] + (t + TrimStart(s[1..], space)) == [s[0]] + s[1..] == s;
    }
  }

  lemma {:induction false} TrimEndSplits(s: string, space: char -> bool) returns (b: string)
    ensures s == TrimEnd(s, space) + b && forall c <- b :: space(c)
    ensures TrimEnd(s, space) != "" ==> !space(TrimEnd(s, space)[|TrimEnd(s, space)| - 1]) && TrimEnd(s, space)[0] == s[0]
  {
    if s == "" || !space(s[|s| - 1]) {
      b := "";
      assert s == s + b;
    } else {
      var t := TrimEndSplits(s[..|s| - 1], space);
      b := t + [s[|s| - 1]];
      assert TrimEnd(s, space) + b == TrimEnd(s[..|s| - 1], space) + t + [s[|s| - 1]] == s[..|s| - 1] + [s[|s| - 1]] == s;
    }
  }

  lemma TrimIsTrimmed(s: string, space: char -> bool)
    ensures Trimmed(s, Trim(s, space), space)
  {
    var a := TrimStartSplits(s, space);
    var b := TrimEndSplits(TrimStart(s, space), space);
    assert s == a + Trim(s, space) + b;
  }

  lemma {:induction false} TrimStartPadded(a: string, s: string, space: char -> bool)
    requires (forall c <- a :: space(c)) && s != "" && !space(s[0])
    ensures TrimStart(a + s, space) == s
  {
    if a == "" {
      assert a + s == s;
    } else {
      assert (a + s)[1..] == a[1..] + s && a[0] in a;
      TrimStartPadded(a[1..], s, space);
    }
  }

  lemma {:induction false} TrimEndPadded(s: string, b: string, space: char -> bool)
    requires (forall c <- b :: space(c)) && s != "" && !space(s[|s| - 1])
    ensures TrimEnd(s + b, space) == s
  {
    if b == "" {
      assert s + b == s;
    } else {
      var n := |b| - 1;
      assert (s + b)[..|s + b| - 1] == s + b[..n] && b[n] in b;
      TrimEndPadded(s, b[..n], space);
    }
  }

  lemma TrimPadded(a: string, s: string, b: string, space: char -> bool)
    requires (forall c <- a :: space(c)) && (forall c <- b :: space(c)) && s != "" && !space(s[0]) && !space(s[|s| - 1])
    ensures Trim(a + s + b, space) == s
  {
    assert a + s + b == a + (s + b);
    TrimStartPadded(a, s + b, space);
    TrimEndPadded(s, b, space);
  }

  /** Unicode White_Space. */
  predicate WhiteSpace(c: char) {
    var n := c as int;
    || 0x09 <= n <= 0x0D || n == 0x20 || n == 0x85 || n == 0xA0 || n == 0x1680 || 0x2000 <= n <= 0x200A
    || n == 0x2028 || n == 0x2029 || n == 0x202F || n == 0x205F || n == 0x3000
  }

  predicate IsBlank(s: string) {
    Trim(s, WhiteSpace) == ""
  }
}
