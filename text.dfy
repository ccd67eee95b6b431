/**
 * String primitives of the JavaScript runtime that the pipeline relies on:
 * `trim`, `split`, `join`, ASCII character classes, decimal rendering and padding.
 * Strings are sequences of characters; lengths count characters.
 */
module Text {

  /** The characters `String.prototype.trim` removes and the regular-expression class `\s` matches. */
  predicate IsWhitespace(c: char) {
    || c == ' ' || c == '\t' || c == '\n' || c == '\r' || c == '\U{000B}' || c == '\U{000C}'
    || c == '\U{00A0}' || c == '\U{1680}' || ('\U{2000}' <= c <= '\U{200A}')
    || c == '\U{2028}' || c == '\U{2029}' || c == '\U{202F}' || c == '\U{205F}'
    || c == '\U{3000}' || c == '\U{FEFF}'
  }

  predicate IsAsciiDigit(c: char) {
    '0' <= c <= '9'
  }

  /** The class `[a-z0-9]` under the case-insensitive flag. */
  predicate IsAsciiAlnum(c: char) {
    ('a' <= c <= 'z') || ('A' <= c <= 'Z') || IsAsciiDigit(c)
  }

  /** The class `[A-Za-z0-9_]` that decides a `\b` word boundary. */
  predicate IsWordChar(c: char) {
    IsAsciiAlnum(c) || c == '_'
  }

  function AsciiUpper(c: char): (r: char)
    ensures 'a' <= c <= 'z' ==> 'A' <= r <= 'Z'
    ensures !('a' <= c <= 'z') ==> r == c
  {
    if 'a' <= c <= 'z' then (c as int - 32) as char else c
  }

  function AsciiLower(c: char): (r: char)
    ensures 'A' <= c <= 'Z' ==> 'a' <= r <= 'z'
    ensures !('A' <= c <= 'Z') ==> r == c
  {
    if 'A' <= c <= 'Z' then (c as int + 32) as char else c
  }

  function ToAsciiUpper(s: string): (r: string)
    ensures |r| == |s|
    ensures forall i :: 0 <= i < |s| ==> r[i] == AsciiUpper(s[i])
  {
    if s == [] then [] else [AsciiUpper(s[0])] + ToAsciiUpper(s[1..])
  }

  function ToAsciiLower(s: string): (r: string)
    ensures |r| == |s|
    ensures forall i :: 0 <= i < |s| ==> r[i] == AsciiLower(s[i])
  {
    if s == [] then [] else [AsciiLower(s[0])] + ToAsciiLower(s[1..])
  }

  predicate StartsWith(s: string, prefix: string) {
    |prefix| <= |s| && s[..|prefix|] == prefix
  }

  predicate EndsWith(s: string, suffix: string) {
    |suffix| <= |s| && s[|s| - |suffix|..] == suffix
  }

  /** `s.includes(sub)`. */
  predicate Contains(s: string, sub: string)
    decreases |s|
  {
    StartsWith(s, sub) || (s != [] && Contains(s[1..], sub))
  }

  lemma {:induction false} ContainsAt(s: string, sub: string, i: nat)
    requires i + |sub| <= |s| && s[i..i + |sub|] == sub
    ensures Contains(s, sub)
    decreases i
  {
    if i > 0 {
      assert s[1..][i - 1..i - 1 + |sub|] == s[i..i + |sub|];
      ContainsAt(s[1..], sub, i - 1);
    }
  }

  /** True when `s` has no whitespace at either end (every result of `Trim` is). */
  predicate IsTrimmed(s: string) {
    s == [] || (!IsWhitespace(s[0]) && !IsWhitespace(s[|s| - 1]))
  }

  function TrimStart(s: string): (r: string)
    ensures |r| <= |s| && r == s[|s| - |r|..]
    ensures r == [] || !IsWhitespace(r[0])
    ensures forall k :: 0 <= k < |s| - |r| ==> IsWhitespace(s[k])
  {
    if s != [] && IsWhitespace(s[0]) then TrimStart(s[1..]) else s
  }

  function TrimEnd(s: string): (r: string)
    ensures |r| <= |s| && r == s[..|r|]
    ensures r == [] || !IsWhitespace(r[|r| - 1])
    ensures forall k :: |r| <= k < |s| ==> IsWhitespace(s[k])
  {
    if s != [] && IsWhitespace(s[|s| - 1]) then TrimEnd(s[..|s| - 1]) else s
  }

  /** `s.trim()`: the longest infix of `s` that starts and ends with a non-whitespace character. */
  function Trim(s: string): (r: string)
    ensures IsTrimmed(r)
    ensures |r| <= |s|
    ensures r == [] <==> forall k :: 0 <= k < |s| ==> IsWhitespace(s[k])
  {
    TrimFacts(s);
    TrimEnd(TrimStart(s))
  }

  lemma TrimFacts(s: string)
    ensures IsTrimmed(TrimEnd(TrimStart(s)))
    ensures TrimEnd(TrimStart(s)) == [] <==> forall k :: 0 <= k < |s| ==> IsWhitespace(s[k])
  {
    var t := TrimStart(s);
    var r := TrimEnd(t);
    assert r != [] ==> r[0] == t[0];
    if r == [] {
      assert t == [];
    } else {
      assert !IsWhitespace(s[|s| - |t|]);
    }
  }

  lemma TrimOfTrimmed(s: string)
    requires IsTrimmed(s)
    ensures Trim(s) == s
  {
  }

  /** `lines.map((line) => line.trim())`. */
  function TrimAll(lines: seq<string>): (r: seq<string>)
    ensures |r| == |lines|
    ensures forall i :: 0 <= i < |lines| ==> r[i] == Trim(lines[i])
  {
    seq(|lines|, i requires 0 <= i < |lines| => Trim(lines[i]))
  }

  /** Trimming every line of a list with one more line in front. */
  lemma TrimAllCons(line: string, lines: seq<string>)
    ensures TrimAll([line] + lines) == [Trim(line)] + TrimAll(lines)
  {
  }

  /** Trimming never introduces a character. */
  lemma TrimKeepsOut(s: string, c: char)
    requires c !in s
    ensures c !in Trim(s)
  {
    var t := TrimStart(s);
    var r := TrimEnd(t);
    forall k | 0 <= k < |r| ensures r[k] != c {
      assert r[k] == t[k] == s[|s| - |t| + k];
    }
  }

  /** `s.split(sep)` for a one-character separator: never empty, no piece holds `sep`. */
  function Split(s: string, sep: char): (r: seq<string>)
    ensures |r| >= 1
    ensures forall i :: 0 <= i < |r| ==> sep !in r[i]
  {
    if s == [] then [""]
    else
      var rest := Split(s[1..], sep);
      if s[0] == sep then [""] + rest else [[s[0]] + rest[0]] + rest[1..]
  }

  /** `parts.join(sep)`. */
  function Join(parts: seq<string>, sep: char): string
  {
    if |parts| == 0 then ""
    else if |parts| == 1 then parts[0]
    else parts[0] + [sep] + Join(parts[1..], sep)
  }

  /** Joining pieces whose first is non-empty gives a non-empty string. */
  lemma JoinNonEmpty(parts: seq<string>, sep: char)
    requires |parts| >= 1 && parts[0] != ""
    ensures Join(parts, sep) != ""
  {
  }

  /** A join of non-empty pieces starts with the first piece's first character and ends with the last piece's last. */
  lemma {:induction false} JoinEnds(parts: seq<string>, sep: char)
    requires |parts| >= 1 && forall i :: 0 <= i < |parts| ==> parts[i] != ""
    ensures var j := Join(parts, sep);
      |j| > 0 && j[0] == parts[0][0] && j[|j| - 1] == parts[|parts| - 1][|parts[|parts| - 1]| - 1]
  {
    if |parts| > 1 {
      var rest := parts[1..];
      forall i | 0 <= i < |rest| ensures rest[i] != "" {
        assert rest[i] == parts[i + 1];
      }
      JoinEnds(rest, sep);
      var tail := Join(rest, sep);
      var j := parts[0] + [sep] + tail;
      assert Join(parts, sep) == j;
      assert j[0] == parts[0][0];
      assert j[|j| - 1] == tail[|tail| - 1];
      assert rest[|rest| - 1] == parts[|parts| - 1];
    }
  }

  /** Joining trimmed non-empty pieces gives a trimmed string, so a final `trim()` changes nothing. */
  lemma JoinTrimmed(parts: seq<string>, sep: char)
    requires forall i :: 0 <= i < |parts| ==> parts[i] != "" && IsTrimmed(parts[i])
    ensures IsTrimmed(Join(parts, sep))
    ensures Trim(Join(parts, sep)) == Join(parts, sep)
    ensures Join(parts, sep) == "" <==> parts == []
  {
    if |parts| >= 1 {
      JoinEnds(parts, sep);
    }
    TrimOfTrimmed(Join(parts, sep));
  }

  function Last<T>(s: seq<T>): T
    requires |s| > 0
  {
    s[|s| - 1]
  }

  /** Splitting a concatenation glues the last piece of the left part to the first of the right. */
  lemma {:induction false} SplitAppend(a: string, b: string, sep: char)
    ensures Split(a + b, sep)
         == Split(a, sep)[..|Split(a, sep)| - 1]
          + [Last(Split(a, sep)) + Split(b, sep)[0]]
          + Split(b, sep)[1..]
  {
    if a == [] {
      var B := Split(b, sep);
      assert a + b == b;
      assert [""][..0] == [] && "" + B[0] == B[0];
      assert [B[0]] + B[1..] == B;
    } else {
      assert (a + b)[0] == a[0] && (a + b)[1..] == a[1..] + b;
      SplitAppend(a[1..], b, sep);
      if a[0] == sep {
        GlueSeparator(Split(a[1..], sep), Split(b, sep), Split(a[1..] + b, sep));
      } else {
        GlueChar(a[0], Split(a[1..], sep), Split(b, sep), Split(a[1..] + b, sep));
      }
    }
  }

  /** The sequence step of `SplitAppend` when the left part starts with the separator. */
  lemma GlueSeparator(A: seq<string>, B: seq<string>, R: seq<string>)
    requires |A| >= 1 && |B| >= 1
    requires R == A[..|A| - 1] + [Last(A) + B[0]] + B[1..]
    ensures [""] + R == ([""] + A)[..|A|] + [Last([""] + A) + B[0]] + B[1..]
  {
    assert ([""] + A)[..|A|] == [""] + A[..|A| - 1];
  }

  /** The sequence step of `SplitAppend` when the left part starts with another character. */
  lemma GlueChar(c: char, A: seq<string>, B: seq<string>, R: seq<string>)
    requires |A| >= 1 && |B| >= 1
    requires R == A[..|A| - 1] + [Last(A) + B[0]] + B[1..]
    ensures [[c] + R[0]] + R[1..]
         == ([[c] + A[0]] + A[1..])[..|A| - 1] + [Last([[c] + A[0]] + A[1..]) + B[0]] + B[1..]
  {
    var S := [[c] + A[0]] + A[1..];
    if |A| == 1 {
      assert R == [A[0] + B[0]] + B[1..];
      assert [c] + (A[0] + B[0]) == ([c] + A[0]) + B[0];
      assert S[..0] == [];
    } else {
      assert R[0] == A[0];
      assert R[1..] == A[1..|A| - 1] + [Last(A) + B[0]] + B[1..];
      assert S[..|A| - 1] == [[c] + A[0]] + A[1..|A| - 1];
    }
  }

  lemma {:induction false} SplitWithout(s: string, sep: char)
    requires sep !in s
    ensures Split(s, sep) == [s]
  {
    if s != [] {
      assert sep !in s[1..];
      SplitWithout(s[1..], sep);
      assert [s[0]] + s[1..] == s;
    }
  }

  /** Joining and splitting again gives the pieces back, as long as no piece holds the separator. */
  lemma {:induction false} SplitJoin(parts: seq<string>, sep: char)
    requires |parts| >= 1
    requires forall i :: 0 <= i < |parts| ==> sep !in parts[i]
    ensures Split(Join(parts, sep), sep) == parts
  {
    SplitWithout(parts[0], sep);
    if |parts| > 1 {
      SplitJoin(parts[1..], sep);
      var tail := Join(parts[1..], sep);
      var st := [sep] + tail;
      assert st[0] == sep && st[1..] == tail;
      assert Split(st, sep) == [""] + parts[1..];
      assert Join(parts, sep) == parts[0] + st;
      SplitAppend(parts[0], st, sep);
      assert parts[0] + "" == parts[0];
      assert parts == [parts[0]] + parts[1..];
    }
  }

  /** Splitting and joining again gives the string back. */
  lemma {:induction false} JoinSplit(s: string, sep: char)
    ensures Join(Split(s, sep), sep) == s
  {
    if s != [] {
      JoinSplit(s[1..], sep);
      var rest := Split(s[1..], sep);
      if s[0] == sep {
        assert Split(s, sep) == [""] + rest;
        assert s == [sep] + s[1..];
      } else {
        var r := Split(s, sep);
        assert r == [[s[0]] + rest[0]] + rest[1..];
        if |rest| == 1 {
          assert Join(rest, sep) == rest[0];
        } else {
          assert Join(rest, sep) == rest[0] + [sep] + Join(rest[1..], sep);
          assert r[1..] == rest[1..];
        }
        assert s == [s[0]] + s[1..];
      }
    }
  }

  /** Removes one `\r` at the end of a piece. */
  function DropTrailingCr(p: string): (r: string)
    ensures r == p || (p == r + ['\r'])
  {
    if p != [] && p[|p| - 1] == '\r' then p[..|p| - 1] else p
  }

  /** Every piece with one trailing `\r` removed. */
  function DropTrailingCrs(ps: seq<string>): (r: seq<string>)
    ensures |r| == |ps|
    ensures forall i :: 0 <= i < |ps| ==> r[i] == DropTrailingCr(ps[i])
  {
    if ps == [] then [] else [DropTrailingCr(ps[0])] + DropTrailingCrs(ps[1..])
  }

  lemma {:induction false} DropTrailingCrsAppend(a: seq<string>, b: seq<string>)
    ensures DropTrailingCrs(a + b) == DropTrailingCrs(a) + DropTrailingCrs(b)
  {
  }

  /**
   * The pieces of `s.split(/\r?\n/)` that a newline terminates: all but the last,
   * each without the `\r` that belongs to its line break.
   */
  function CompleteLines(s: string): (r: seq<string>)
    ensures |r| == |Split(s, '\n')| - 1
  {
    var ps := Split(s, '\n');
    DropTrailingCrs(ps[..|ps| - 1])
  }

  /** The text after the last newline of `s` (the last piece of the split). */
  function Residue(s: string): (r: string)
    ensures '\n' !in r
  {
    Last(Split(s, '\n'))
  }

  /** `s.split(/\r?\n/)`. */
  function SplitLines(s: string): (r: seq<string>)
    ensures |r| >= 1
  {
    CompleteLines(s) + [Residue(s)]
  }

  /** `s.replace(/\r\n/g, '\n')`. */
  function ReplaceCrLf(s: string): (r: string)
    ensures |r| <= |s|
    ensures '\r' !in s ==> r == s
    ensures multiset(r)['\n'] == multiset(s)['\n']
  {
    if |s| >= 2 && s[0] == '\r' && s[1] == '\n' then
      assert s == [s[0], s[1]] + s[2..];
      "\n" + ReplaceCrLf(s[2..])
    else if s == [] then []
    else
      assert s == [s[0]] + s[1..];
      [s[0]] + ReplaceCrLf(s[1..])
  }

  function DigitChar(d: nat): char
    requires d < 10
  {
    ('0' as int + d) as char
  }

  /** `String(n)` for a natural number: its decimal digits, without leading zeros. */
  function NatToString(n: nat): (r: string)
    ensures |r| >= 1
    ensures forall i :: 0 <= i < |r| ==> IsAsciiDigit(r[i])
    ensures n >= 10 ==> r[0] != '0'
    ensures n < 10 <==> |r| == 1
  {
    if n < 10 then [DigitChar(n)] else NatToString(n / 10) + [DigitChar(n % 10)]
  }

  /** `s.padStart(width, c)`. */
  function PadStart(s: string, width: nat, c: char): (r: string)
    ensures |r| == if |s| < width then width else |s|
    ensures EndsWith(r, s)
    ensures forall i :: 0 <= i < |r| - |s| ==> r[i] == c
  {
    if |s| >= width then s else seq(width - |s|, _ => c) + s
  }
}
