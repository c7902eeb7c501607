/**
 * The JavaScript string primitives the core relies on, over `string` = `seq<char>`:
 * character classes of the regular expressions, `trim`, `toUpperCase`, `split`,
 * `join`, `includes`, `startsWith`, `substring`, and two scanning helpers used by
 * every hand-written regular-expression matcher (`Run` and `LitAt`).
 */
module Text {

  // ---------------------------------------------------------------- characters

  /** `\d` of a JavaScript regular expression: an ASCII digit. */
  predicate IsDigit(c: char) { '0' <= c <= '9' }

  /** `[A-Z]`: an ASCII capital letter. */
  predicate IsUpper(c: char) { 'A' <= c <= 'Z' }

  predicate IsLower(c: char) { 'a' <= c <= 'z' }

  /** `[A-Z0-9]`. */
  predicate IsUpperOrDigit(c: char) { IsUpper(c) || IsDigit(c) }

  /** `\w`: the characters on the word side of a `\b` boundary. */
  predicate IsWordChar(c: char) { IsUpper(c) || IsLower(c) || IsDigit(c) || c == '_' }

  /** The characters `.` does not match: the ECMAScript LineTerminator code points. */
  predicate IsLineTerminator(c: char) {
    c == '\n' || c == '\r' || c == '\U{2028}' || c == '\U{2029}'
  }

  /** `.` in a regular expression without the `s` flag. */
  predicate IsNotLineTerminator(c: char) { !IsLineTerminator(c) }

  /**
   * What `String.prototype.trim` and `parseInt` strip: the ECMAScript WhiteSpace
   * code points (tab, vertical tab, form feed, ZWNBSP and the Unicode space
   * separators) and the LineTerminators.
   */
  predicate IsJsSpace(c: char) {
    || c == '\t' || c == '\U{000B}' || c == '\U{000C}' || c == ' ' || c == '\U{00A0}'
    || c == '\U{1680}' || ('\U{2000}' <= c <= '\U{200A}') || c == '\U{202F}'
    || c == '\U{205F}' || c == '\U{3000}' || c == '\U{FEFF}'
    || IsLineTerminator(c)
  }

  predicate AllDigits(s: string) { forall i :: 0 <= i < |s| ==> IsDigit(s[i]) }

  predicate AllUpper(s: string) { forall i :: 0 <= i < |s| ==> IsUpper(s[i]) }

  function Min(a: int, b: int): int { if a <= b then a else b }

  // ---------------------------------------------------------------- trim

  /** Leading JavaScript white space removed. */
  function TrimStart(s: string): (r: string)
    ensures |r| <= |s|
  {
    s[Run(s, 0, IsJsSpace)..]
  }

  /** Trailing JavaScript white space removed. */
  function TrimEnd(s: string): (r: string)
    ensures |r| <= |s| && r == s[..|r|]
    ensures forall i :: |r| <= i < |s| ==> IsJsSpace(s[i])
    ensures r != [] ==> !IsJsSpace(r[|r| - 1])
  {
    if s != [] && IsJsSpace(s[|s| - 1]) then TrimEnd(s[..|s| - 1]) else s
  }

  /** `s.trim()`. */
  function Trim(s: string): string { TrimEnd(TrimStart(s)) }

  /** `s.trim()` is falsy exactly when every character of `s` is white space. */
  lemma TrimEmptyIffBlank(s: string)
    ensures Trim(s) == [] <==> forall i :: 0 <= i < |s| ==> IsJsSpace(s[i])
  {
    var n := Run(s, 0, IsJsSpace);
    var t := TrimStart(s);
    if Trim(s) == [] {
      forall i | n <= i < |s| ensures IsJsSpace(s[i]) {
        assert s[i] == t[i - n];
      }
    } else {
      var r := Trim(s);
      assert r[0] == t[0] == s[n];
    }
  }

  /** Trimming twice changes nothing more. */
  lemma TrimIdempotent(s: string)
    ensures Trim(Trim(s)) == Trim(s)
  {
    var r := Trim(s);
    if r != [] {
      assert TrimStart(r) == r;
      assert TrimEnd(r) == r;
    }
  }

  // ---------------------------------------------------------------- upper case

  /**
   * `toUpperCase` of one character, for the characters whose upper case is made
   * only of letters A-Z: the ASCII lower-case letters, sharp s, dotless i, long s
   * and the Latin ligatures U+FB00..U+FB06. Every other character is kept.
   */
  function UpperChar(c: char): string {
    if IsLower(c) then [(c as int - 32) as char]
    else if c == '\U{00DF}' then "SS"
    else if c == '\U{0131}' then "I"
    else if c == '\U{017F}' then "S"
    else if c == '\U{FB00}' then "FF"
    else if c == '\U{FB01}' then "FI"
    else if c == '\U{FB02}' then "FL"
    else if c == '\U{FB03}' then "FFI"
    else if c == '\U{FB04}' then "FFL"
    else if c == '\U{FB05}' || c == '\U{FB06}' then "ST"
    else [c]
  }

  /** `s.toUpperCase()`, character by character. */
  function ToUpper(s: string): string {
    if s == [] then [] else UpperChar(s[0]) + ToUpper(s[1..])
  }

  /** Upper-casing leaves a string of capital letters as it is. */
  lemma {:induction false} ToUpperOfUpper(s: string)
    requires AllUpper(s)
    ensures ToUpper(s) == s
  {
    if s != [] {
      ToUpperOfUpper(s[1..]);
      assert s == [s[0]] + s[1..];
    }
  }

  /** Upper-casing ASCII letters of either case gives capital letters, one for one. */
  lemma {:induction false} ToUpperOfAsciiLetters(s: string)
    requires forall i :: 0 <= i < |s| ==> IsUpper(s[i]) || IsLower(s[i])
    ensures |ToUpper(s)| == |s| && AllUpper(ToUpper(s))
    ensures forall i :: 0 <= i < |s| && IsUpper(s[i]) ==> ToUpper(s)[i] == s[i]
  {
    if s != [] {
      ToUpperOfAsciiLetters(s[1..]);
      var r := ToUpper(s);
      assert r == UpperChar(s[0]) + ToUpper(s[1..]);
      forall i | 0 <= i < |s| && IsUpper(s[i]) ensures r[i] == s[i] {
        if i > 0 { assert r[i] == ToUpper(s[1..])[i - 1]; assert s[1..][i - 1] == s[i]; }
      }
    }
  }

  // ---------------------------------------------------------------- search

  /** `lit` occurs in `s` at position `p`. */
  predicate LitAt(s: string, p: nat, lit: string) {
    p + |lit| <= |s| && s[p..p + |lit|] == lit
  }

  /** Two adjacent slices make one. */
  lemma SliceConcat(s: string, a: nat, b: nat, c: nat)
    requires a <= b <= c <= |s|
    ensures s[a..b] + s[b..c] == s[a..c]
  {
  }

  /** A slice of a slice is a slice of the whole. */
  lemma SliceOfSlice(s: string, a: nat, b: nat, i: nat, j: nat)
    requires a <= b <= |s| && i <= j <= b - a
    ensures s[a..b][i..j] == s[a + i..a + j]
  {
    forall k | 0 <= k < j - i ensures s[a..b][i..j][k] == s[a + i..a + j][k] {
      assert s[a..b][i..j][k] == s[a..b][i + k] == s[a + i + k];
    }
  }

  /** A concatenation occurs where its first part occurs with the second part right after it. */
  lemma LitAtSplit(s: string, p: nat, a: string, b: string)
    requires LitAt(s, p, a + b)
    ensures LitAt(s, p, a) && LitAt(s, p + |a|, b)
  {
    SliceOfSlice(s, p, p + |a| + |b|, 0, |a|);
    SliceOfSlice(s, p, p + |a| + |b|, |a|, |a| + |b|);
    assert (a + b)[..|a|] == a && (a + b)[|a|..] == b;
  }

  /** An occurrence of a string of class characters is a stretch of class characters. */
  lemma LitAtClass(s: string, p: nat, lit: string, cls: char -> bool)
    requires LitAt(s, p, lit) && forall i :: 0 <= i < |lit| ==> cls(lit[i])
    ensures forall i :: p <= i < p + |lit| ==> cls(s[i])
  {
    forall i | p <= i < p + |lit| ensures cls(s[i]) {
      assert s[p..p + |lit|][i - p] == s[i];
    }
  }

  /** The first character of an occurrence. */
  lemma LitAtFirst(s: string, p: nat, lit: string)
    requires LitAt(s, p, lit) && lit != []
    ensures p < |s| && s[p] == lit[0]
  {
    assert s[p..p + |lit|][0] == s[p];
  }

  /** `s.startsWith(prefix)`. */
  predicate StartsWith(s: string, prefix: string) { LitAt(s, 0, prefix) }

  /** `s.includes(t)`. */
  predicate Contains(s: string, t: string) {
    exists i :: 0 <= i <= |s| && LitAt(s, i, t)
  }

  /**
   * The length of the longest run of characters of class `cls` starting at `p`:
   * what a greedy `cls+` consumes.
   */
  function Run(s: string, p: nat, cls: char -> bool): (n: nat)
    ensures n > 0 ==> p + n <= |s|
    ensures forall i :: p <= i < p + n ==> cls(s[i])
    ensures p + n < |s| ==> !cls(s[p + n])
    decreases |s| - p
  {
    if p < |s| && cls(s[p]) then 1 + Run(s, p + 1, cls) else 0
  }

  /** A run that starts inside a prefix of the class carries on past it. */
  lemma {:induction false} RunAcrossPrefix(a: string, b: string, p: nat, cls: char -> bool)
    requires p <= |a|
    requires forall k :: p <= k < |a| ==> cls(a[k])
    ensures Run(a + b, p, cls) == |a| - p + Run(b, 0, cls)
    decreases |a| - p
  {
    var s := a + b;
    if p < |a| {
      assert s[p] == a[p];
      RunAcrossPrefix(a, b, p + 1, cls);
    } else {
      RunShifted(a, b, 0, cls);
    }
  }

  /** Scanning a suffix behind a prefix is scanning the suffix. */
  lemma {:induction false} RunShifted(a: string, b: string, q: nat, cls: char -> bool)
    ensures Run(a + b, |a| + q, cls) == Run(b, q, cls)
    decreases |b| - q
  {
    var s := a + b;
    if q < |b| {
      assert s[|a| + q] == b[q];
      RunShifted(a, b, q + 1, cls);
    }
  }

  /** A run of `n` characters of the class followed by one outside it is a run of exactly `n`. */
  lemma {:induction false} RunUpTo(s: string, p: nat, n: nat, cls: char -> bool)
    requires p + n < |s| && !cls(s[p + n])
    requires forall i :: p <= i < p + n ==> cls(s[i])
    ensures Run(s, p, cls) == n
    decreases n
  {
    if n > 0 {
      RunUpTo(s, p + 1, n - 1, cls);
    }
  }

  /** The run that starts `a` characters into a run is the rest of it. */
  lemma {:induction false} RunSuffix(s: string, p: nat, a: nat, cls: char -> bool)
    requires a <= Run(s, p, cls)
    ensures Run(s, p + a, cls) == Run(s, p, cls) - a
    decreases a
  {
    if a > 0 {
      RunSuffix(s, p + 1, a - 1, cls);
    }
  }

  /**
   * `s.substring(start, end)`: both indices clamped to the length, swapped when
   * the start is past the end.
   */
  function Substring(s: string, start: nat, end: nat): (r: string)
    ensures |r| <= |s|
  {
    var a := Min(start, |s|);
    var b := Min(end, |s|);
    if a <= b then s[a..b] else s[b..a]
  }

  // ---------------------------------------------------------------- split and join

  /** `s.split(sep)` for a one-character separator: there is always at least one part. */
  function Split(s: string, sep: char): (parts: seq<string>)
    ensures |parts| >= 1
    ensures forall i :: 0 <= i < |parts| ==> sep !in parts[i]
  {
    if s == [] then [""]
    else
      var rest := Split(s[1..], sep);
      if s[0] == sep then [""] + rest
      else [[s[0]] + rest[0]] + rest[1..]
  }

  /** `parts.join(sep)`; the empty list joins to the empty string. */
  function Join(parts: seq<string>, sep: string): string {
    if |parts| == 0 then ""
    else if |parts| == 1 then parts[0]
    else parts[0] + sep + Join(parts[1..], sep)
  }

  /** Joining the parts of a split with the separator gives back the input. */
  lemma {:induction false} JoinSplit(s: string, sep: char)
    ensures Join(Split(s, sep), [sep]) == s
  {
    if s != [] {
      var rest := Split(s[1..], sep);
      JoinSplit(s[1..], sep);
      var parts := Split(s, sep);
      if s[0] == sep {
        assert parts[1..] == rest;
      } else {
        assert parts[1..] == rest[1..];
        if |rest| > 1 {
          assert rest[1..] == rest[1..];
          assert Join(rest, [sep]) == rest[0] + [sep] + Join(rest[1..], [sep]);
        }
      }
      assert s == [s[0]] + s[1..];
    }
  }

  lemma {:induction false} SplitNoSeparator(a: string, sep: char)
    requires sep !in a
    ensures Split(a, sep) == [a]
  {
    if a != [] {
      SplitNoSeparator(a[1..], sep);
      assert a == [a[0]] + a[1..];
    }
  }

  lemma {:induction false} SplitAfterPart(a: string, sep: char, t: string)
    requires sep !in a
    ensures Split(a + [sep] + t, sep) == [a] + Split(t, sep)
  {
    var s := a + [sep] + t;
    if a == [] {
      assert s[1..] == t;
    } else {
      assert s[1..] == a[1..] + [sep] + t;
      SplitAfterPart(a[1..], sep, t);
      assert a == [a[0]] + a[1..];
    }
  }

  /** Splitting a join of separator-free parts gives back the parts. */
  lemma {:induction false} SplitJoin(parts: seq<string>, sep: char)
    requires |parts| >= 1
    requires forall i :: 0 <= i < |parts| ==> sep !in parts[i]
    ensures Split(Join(parts, [sep]), sep) == parts
  {
    if |parts| == 1 {
      SplitNoSeparator(parts[0], sep);
    } else {
      SplitJoin(parts[1..], sep);
      SplitAfterPart(parts[0], sep, Join(parts[1..], [sep]));
      assert parts == [parts[0]] + parts[1..];
    }
  }
}
