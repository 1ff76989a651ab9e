/**
  * The Python `str` operations the invoice code is built from: `isspace`,
  * `upper`, `strip`, `splitlines`, `split`, `replace`, `join` and the
  * decimal rendering of integers (`str(n)`, `f"{n:010d}"`).
  *
  * Characters are Unicode scalar values. Upper-casing is ASCII only: the few
  * non-ASCII characters whose Python upper case is an ASCII letter are not
  * modelled.
  */
module Text {

  /** `str.isspace()`: what the regex class `\s` matches and what `strip()` removes. */
  predicate IsSpace(c: char) {
    ('\t' <= c <= '\r') || ('\U{1C}' <= c <= '\U{1F}') || c == ' ' || c == '\U{85}'
    || c == '\U{A0}' || c == '\U{1680}' || ('\U{2000}' <= c <= '\U{200A}')
    || c == '\U{2028}' || c == '\U{2029}' || c == '\U{202F}' || c == '\U{205F}' || c == '\U{3000}'
  }

  /** The line boundaries of `str.splitlines()` (`\r\n` is handled by SplitLines). */
  predicate IsLineBreak(c: char) {
    c == '\n' || c == '\r' || c == '\U{0B}' || c == '\U{0C}' || ('\U{1C}' <= c <= '\U{1E}')
    || c == '\U{85}' || c == '\U{2028}' || c == '\U{2029}'
  }

  predicate IsDigit(c: char) { '0' <= c <= '9' }
  predicate IsUpper(c: char) { 'A' <= c <= 'Z' }
  predicate IsLower(c: char) { 'a' <= c <= 'z' }

  predicate AllDigits(s: string) { forall k :: 0 <= k < |s| ==> IsDigit(s[k]) }

  function UpperChar(c: char): char {
    if IsLower(c) then (c as int - 32) as char else c
  }

  /** `s.upper()`, restricted to ASCII letters. */
  function Upper(s: string): (u: string)
    ensures |u| == |s|
  {
    seq(|s|, k requires 0 <= k < |s| => UpperChar(s[k]))
  }

  /** Whether `lit` occurs at position `i` of `s`, letters compared without regard to case. */
  predicate LiteralAtIgnoreCase(s: string, i: nat, lit: string) {
    i + |lit| <= |s| && forall k :: 0 <= k < |lit| ==> UpperChar(s[i + k]) == UpperChar(lit[k])
  }

  /** Whether `lit` occurs at position `i` of `s`, exactly. */
  predicate LiteralAt(s: string, i: nat, lit: string) {
    i + |lit| <= |s| && s[i..i + |lit|] == lit
  }

  /** `sub in s`. */
  predicate Contains(s: string, sub: string)
    decreases |s|
  {
    |sub| <= |s| && (s[..|sub|] == sub || Contains(s[1..], sub))
  }

  /** The position just after the run of characters satisfying `p` that starts at `i`. */
  function RunEnd(s: string, i: nat, p: char -> bool): (j: nat)
    requires i <= |s|
    ensures i <= j <= |s|
    ensures forall k :: i <= k < j ==> p(s[k])
    ensures j < |s| ==> !p(s[j])
    decreases |s| - i
  {
    if i < |s| && p(s[i]) then RunEnd(s, i + 1, p) else i
  }

  /** The position where the run of characters satisfying `p` that ends at `j` starts. */
  function RunStart(s: string, j: nat, p: char -> bool): (i: nat)
    requires j <= |s|
    ensures i <= j
    ensures forall k :: i <= k < j ==> p(s[k])
    ensures i > 0 ==> !p(s[i - 1])
  {
    if j > 0 && p(s[j - 1]) then RunStart(s, j - 1, p) else j
  }

  /** `s.strip(chars)` where `drop` says which characters are in `chars`. */
  function StripBy(s: string, drop: char -> bool): (r: string)
    ensures |r| <= |s|
    ensures |r| > 0 ==> !drop(r[0]) && !drop(r[|r| - 1])
    ensures r == [] <==> forall k :: 0 <= k < |s| ==> drop(s[k])
  {
    var i := RunEnd(s, 0, drop);
    if i == |s| then [] else s[i..RunStart(s, |s|, drop)]
  }

  /** `s.strip()`. */
  function Strip(s: string): string {
    StripBy(s, IsSpace)
  }

  /** `s.replace(c, rep)` for a one-character `c`. */
  function ReplaceChar(s: string, c: char, rep: string): string {
    if s == [] then [] else (if s[0] == c then rep else [s[0]]) + ReplaceChar(s[1..], c, rep)
  }

  /** `s.replace(",", "")`. */
  function RemoveCommas(s: string): (r: string)
    ensures ',' !in r
    ensures |r| <= |s|
  {
    if s == [] then [] else (if s[0] == ',' then [] else [s[0]]) + RemoveCommas(s[1..])
  }

  /** `s.splitlines()`: no line keeps its terminator and a final terminator adds no empty line. */
  function SplitLines(s: string): (lines: seq<string>)
    ensures forall k, m :: 0 <= k < |lines| && 0 <= m < |lines[k]| ==> !IsLineBreak(lines[k][m])
    decreases |s|
  {
    if s == [] then []
    else
      var j := RunEnd(s, 0, c => !IsLineBreak(c));
      if j == |s| then [s]
      else
        var next := if s[j] == '\r' && j + 1 < |s| && s[j + 1] == '\n' then j + 2 else j + 1;
        [s[..j]] + SplitLines(s[next..])
  }

  /** `s.split(sep)` for a one-character separator. */
  function SplitOn(s: string, sep: char): (parts: seq<string>)
    ensures |parts| >= 1
    ensures forall k :: 0 <= k < |parts| ==> sep !in parts[k]
    decreases |s|
  {
    var j := RunEnd(s, 0, c => c != sep);
    if j == |s| then [s] else [s[..j]] + SplitOn(s[j + 1..], sep)
  }

  /** `sep.join(parts)`. */
  function Join(parts: seq<string>, sep: string): string {
    if |parts| == 0 then []
    else if |parts| == 1 then parts[0]
    else parts[0] + sep + Join(parts[1..], sep)
  }

  /** Splitting on a separator and joining with it gives back the text. */
  lemma {:induction false} JoinSplitOn(s: string, sep: char)
    ensures Join(SplitOn(s, sep), [sep]) == s
    decreases |s|
  {
    var j := SplitOnStep(s, sep);
    if j < |s| {
      var rest := s[j + 1..];
      JoinSplitOn(rest, sep);
      JoinCons(s[..j], SplitOn(rest, sep), [sep]);
      assert s == s[..j] + [sep] + rest;
    }
  }

  /** One step of `SplitOn`: the text up to the first separator `j`, then the rest split. */
  lemma SplitOnStep(s: string, sep: char) returns (j: nat)
    ensures j <= |s|
    ensures j == |s| ==> SplitOn(s, sep) == [s]
    ensures j < |s| ==> s[j] == sep && SplitOn(s, sep) == [s[..j]] + SplitOn(s[j + 1..], sep)
  {
    j := RunEnd(s, 0, c => c != sep);
  }

  lemma JoinCons(p: string, rest: seq<string>, sep: string)
    requires |rest| >= 1
    ensures Join([p] + rest, sep) == p + sep + Join(rest, sep)
  {
    assert ([p] + rest)[1..] == rest;
  }

  /** `replace` works character by character, so it distributes over concatenation. */
  lemma {:induction false} ReplaceCharConcat(a: string, b: string, c: char, rep: string)
    ensures ReplaceChar(a + b, c, rep) == ReplaceChar(a, c, rep) + ReplaceChar(b, c, rep)
  {
    if a == [] {
      assert a + b == b;
    } else {
      assert (a + b)[1..] == a[1..] + b;
      assert (a + b)[0] == a[0];
      ReplaceCharConcat(a[1..], b, c, rep);
    }
  }

  /** Every part followed by `sep`. */
  function Terminated(parts: seq<string>, sep: string): string {
    if parts == [] then [] else Terminated(parts[..|parts| - 1], sep) + parts[|parts| - 1] + sep
  }

  /** `sep.join(parts) + sep` ends every part with `sep`. */
  lemma {:induction false} JoinThenSep(parts: seq<string>, sep: string)
    requires |parts| >= 1
    ensures Join(parts, sep) + sep == Terminated(parts, sep)
  {
    if |parts| > 1 {
      var rest := parts[1..];
      JoinThenSep(rest, sep);
      TerminatedCons(parts[0], rest, sep);
      assert [parts[0]] + rest == parts;
      calc {
        Join(parts, sep) + sep;
        parts[0] + sep + Join(rest, sep) + sep;
        parts[0] + sep + (Join(rest, sep) + sep);
      }
    } else {
      assert parts[..0] == [];
      assert Terminated(parts, sep) == Terminated([], sep) + parts[0] + sep;
    }
  }

  lemma {:induction false} TerminatedCons(p: string, parts: seq<string>, sep: string)
    ensures Terminated([p] + parts, sep) == p + sep + Terminated(parts, sep)
  {
    if parts == [] {
      assert ([p] + parts)[..0] == [];
    } else {
      var init := parts[..|parts| - 1];
      var last := parts[|parts| - 1];
      TerminatedCons(p, init, sep);
      var all := [p] + parts;
      assert all[..|all| - 1] == [p] + init;
      assert all[|all| - 1] == last;
      calc {
        Terminated(all, sep);
        Terminated([p] + init, sep) + last + sep;
        p + sep + Terminated(init, sep) + last + sep;
        p + sep + (Terminated(init, sep) + last + sep);
      }
    }
  }

  /** A run ends exactly where its characters stop satisfying `p`. */
  lemma {:induction false} RunEndAt(s: string, i: nat, e: nat, p: char -> bool)
    requires i <= e <= |s|
    requires forall k :: i <= k < e ==> p(s[k])
    requires e < |s| ==> !p(s[e])
    ensures RunEnd(s, i, p) == e
    decreases e - i
  {
    if i < e {
      RunEndAt(s, i + 1, e, p);
    }
  }

  /** A run that ends at `j` starts exactly where its characters start satisfying `p`. */
  lemma {:induction false} RunStartAt(s: string, b: nat, j: nat, p: char -> bool)
    requires b <= j <= |s|
    requires forall k :: b <= k < j ==> p(s[k])
    requires b > 0 ==> !p(s[b - 1])
    ensures RunStart(s, j, p) == b
    decreases j - b
  {
    if b < j {
      RunStartAt(s, b, j - 1, p);
    }
  }

  /** Stripping takes off exactly the dropped characters at both ends. */
  lemma StripByAt(s: string, drop: char -> bool, b: nat, e: nat)
    requires b < e <= |s|
    requires forall k :: 0 <= k < b ==> drop(s[k])
    requires forall k :: e <= k < |s| ==> drop(s[k])
    requires !drop(s[b]) && !drop(s[e - 1])
    ensures StripBy(s, drop) == s[b..e]
  {
    RunEndAt(s, 0, b, drop);
    RunStartAt(s, e, |s|, drop);
  }

  /** Text without commas is left alone by `replace(",", "")`. */
  lemma {:induction false} RemoveCommasNone(s: string)
    requires ',' !in s
    ensures RemoveCommas(s) == s
  {
    if s != [] {
      assert s[0] in s && forall c :: c in s[1..] ==> c in s;
      RemoveCommasNone(s[1..]);
      assert [s[0]] + s[1..] == s;
    }
  }

  /** `replace(",", "")` keeps a first character that is not a comma. */
  lemma RemoveCommasFirst(s: string)
    requires |s| > 0 && s[0] != ','
    ensures |RemoveCommas(s)| > 0 && RemoveCommas(s)[0] == s[0]
  {
  }

  /** `replace(",", "")` keeps a last character that is not a comma. */
  lemma {:induction false} RemoveCommasLast(s: string)
    requires |s| > 0 && s[|s| - 1] != ','
    ensures |RemoveCommas(s)| > 0 && RemoveCommas(s)[|RemoveCommas(s)| - 1] == s[|s| - 1]
  {
    if |s| > 1 {
      assert s[1..][|s| - 2] == s[|s| - 1];
      RemoveCommasLast(s[1..]);
    }
  }

  // ---------------------------------------------------------------- integers

  function DigitChar(d: nat): char
    requires d < 10
  {
    ('0' as int + d) as char
  }

  function DigitValue(c: char): nat
    requires IsDigit(c)
  {
    c as int - '0' as int
  }

  /** `str(n)` for a non-negative integer: the shortest decimal numeral. */
  function NatToString(n: nat): (s: string)
    ensures |s| >= 1 && AllDigits(s)
    ensures |s| > 1 ==> s[0] != '0'
  {
    if n < 10 then [DigitChar(n)] else NatToString(n / 10) + [DigitChar(n % 10)]
  }

  /** `str(n)` for any integer. */
  function IntToString(n: int): string {
    if n < 0 then "-" + NatToString(-n) else NatToString(n)
  }

  /** The value of a decimal numeral (an empty numeral reads as 0). */
  function DigitsValue(s: string): nat
    requires AllDigits(s)
  {
    if s == [] then 0 else DigitsValue(s[..|s| - 1]) * 10 + DigitValue(s[|s| - 1])
  }

  function Zeros(n: nat): (z: string)
    ensures |z| == n && AllDigits(z)
  {
    seq(n, _ => '0')
  }

  /** `f"{n:0{width}d}"` for a non-negative `n`: zero-padded to at least `width` digits. */
  function ZeroPad(n: nat, width: nat): (s: string)
    ensures AllDigits(s)
    ensures |s| == if |NatToString(n)| >= width then |NatToString(n)| else width
  {
    var d := NatToString(n);
    if |d| >= width then d else Zeros(width - |d|) + d
  }

  /** Reading back a rendered numeral gives the number. */
  lemma {:induction false} NatToStringValue(n: nat)
    ensures DigitsValue(NatToString(n)) == n
  {
    if n >= 10 {
      NatToStringValue(n / 10);
      var s := NatToString(n);
      assert s[..|s| - 1] == NatToString(n / 10);
    }
  }

  /** Leading zeros do not change the value of a numeral. */
  lemma {:induction false} DigitsValueLeadingZeros(m: nat, s: string)
    requires AllDigits(s)
    ensures DigitsValue(Zeros(m) + s) == DigitsValue(s)
    decreases |s|
  {
    if s == [] {
      ZerosValue(m);
      assert Zeros(m) + s == Zeros(m);
    } else {
      var t := Zeros(m) + s;
      assert t[..|t| - 1] == Zeros(m) + s[..|s| - 1];
      DigitsValueLeadingZeros(m, s[..|s| - 1]);
    }
  }

  lemma {:induction false} ZerosValue(m: nat)
    ensures DigitsValue(Zeros(m)) == 0
  {
    if m > 0 {
      assert Zeros(m)[..m - 1] == Zeros(m - 1);
      ZerosValue(m - 1);
    }
  }

  /** Reading back a zero-padded numeral gives the number. */
  lemma {:induction false} ZeroPadValue(n: nat, width: nat)
    ensures DigitsValue(ZeroPad(n, width)) == n
  {
    var d := NatToString(n);
    NatToStringValue(n);
    if |d| < width {
      assert ZeroPad(n, width) == Zeros(width - |d|) + d;
      DigitsValueLeadingZeros(width - |d|, d);
    } else {
      assert ZeroPad(n, width) == d;
    }
  }

  /** A number below 10^w renders in at most w digits. */
  lemma {:induction false} NatToStringLength(n: nat, w: nat)
    requires n < Pow10(w)
    ensures |NatToString(n)| <= w || (n == 0 && w == 0)
  {
    if n >= 10 {
      assert w >= 1;
      NatToStringLength(n / 10, w - 1);
    } else if w == 0 {
      assert n == 0;
    }
  }

  function Pow10(w: nat): (p: nat)
    ensures p >= 1
  {
    if w == 0 then 1 else 10 * Pow10(w - 1)
  }
}
