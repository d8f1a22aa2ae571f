/**
 * The few java.lang.String and java.io.File operations the export processor relies on, with
 * Java's semantics written out: `split` on a one-character separator (trailing empty pieces
 * dropped), `Integer.parseInt`, `compareTo`, `endsWith` and `File.getName`.
 */
module JavaStrings {
  import opened Wrappers

  /** Every piece of `s` between occurrences of `c`, empty pieces included. */
  function SplitAll(s: string, c: char): (parts: seq<string>)
    ensures |parts| >= 1
    ensures forall p <- parts :: c !in p
  {
    if s == [] then [""]
    else
      var rest := SplitAll(s[1..], c);
      if s[0] == c then [""] + rest
      else [[s[0]] + rest[0]] + rest[1..]
  }

  /** The pieces glued back together with `c` between them. */
  function Join(parts: seq<string>, c: char): string
    requires |parts| >= 1
  {
    if |parts| == 1 then parts[0] else parts[0] + [c] + Join(parts[1..], c)
  }

  /** Splitting and joining again gives back the original string. */
  lemma {:induction false} JoinSplitAll(s: string, c: char)
    ensures Join(SplitAll(s, c), c) == s
  {
    if s != [] {
      var rest := SplitAll(s[1..], c);
      JoinSplitAll(s[1..], c);
      if s[0] == c {
        assert SplitAll(s, c)[1..] == rest;
      } else if |rest| > 1 {
        assert SplitAll(s, c)[1..] == rest[1..];
        assert Join(rest, c) == rest[0] + [c] + Join(rest[1..], c);
        assert s == [s[0]] + s[1..];
      } else {
        assert s == [s[0]] + s[1..];
      }
    }
  }

  /** A string without the separator is a single piece. */
  lemma {:induction false} SplitAllOfPiece(s: string, c: char)
    requires c !in s
    ensures SplitAll(s, c) == [s]
  {
    if s != [] {
      assert s[0] in s;
      assert forall x <- s[1..] :: x in s;
      SplitAllOfPiece(s[1..], c);
      assert [s[0]] + s[1..] == s;
    }
  }

  /** Splitting at one occurrence of the separator concatenates the pieces of both sides. */
  lemma {:induction false} SplitAllAt(x: string, y: string, c: char)
    ensures SplitAll(x + [c] + y, c) == SplitAll(x, c) + SplitAll(y, c)
  {
    var s := x + [c] + y;
    if x == [] {
      assert s[0] == c && s[1..] == y;
    } else {
      assert s[0] == x[0] && s[1..] == x[1..] + [c] + y;
      SplitAllAt(x[1..], y, c);
    }
  }

  /** `pieces` with its trailing empty strings removed, as `String.split` does. */
  function DropTrailingEmpty(pieces: seq<string>): (r: seq<string>)
    ensures r <= pieces
    ensures r == [] || r[|r| - 1] != ""
    ensures forall i | |r| <= i < |pieces| :: pieces[i] == ""
  {
    if pieces == [] then []
    else if pieces[|pieces| - 1] == "" then DropTrailingEmpty(pieces[..|pieces| - 1])
    else pieces
  }

  /**
   * `s.split(regex)` for a regex that matches exactly the character `c`: a string without `c`
   * gives itself; otherwise the pieces, minus trailing empty ones.
   */
  function JavaSplit(s: string, c: char): (r: seq<string>)
    ensures c !in s ==> r == [s]
    ensures c in s ==> r <= SplitAll(s, c)
  {
    if c !in s then [s] else DropTrailingEmpty(SplitAll(s, c))
  }

  predicate IsDigit(ch: char) {
    '0' <= ch <= '9'
  }

  predicate AllDigits(s: string) {
    forall i | 0 <= i < |s| :: IsDigit(s[i])
  }

  /** `\w` in a Java regex. */
  predicate IsWordChar(ch: char) {
    ('a' <= ch <= 'z') || ('A' <= ch <= 'Z') || ('0' <= ch <= '9') || ch == '_'
  }

  /** `\w+`. */
  predicate IsWord(s: string) {
    |s| > 0 && forall i | 0 <= i < |s| :: IsWordChar(s[i])
  }

  /** `[a-zA-Z0-9]*`. */
  predicate AllAlphanumeric(s: string) {
    forall i | 0 <= i < |s| :: IsWordChar(s[i]) && s[i] != '_'
  }

  /** The characters that `.` in a Java regex does not match. */
  predicate IsLineTerminator(ch: char) {
    ch == '\n' || ch == '\r' || ch == '\U{85}' || ch == '\U{2028}' || ch == '\U{2029}'
  }

  /** `.*` in a Java regex. */
  predicate NoLineTerminator(s: string) {
    forall i | 0 <= i < |s| :: !IsLineTerminator(s[i])
  }

  function DigitsValue(s: string): nat
    requires AllDigits(s)
  {
    if s == [] then 0 else DigitsValue(s[..|s| - 1]) * 10 + (s[|s| - 1] as int - '0' as int)
  }

  /** `Integer.parseInt(s)`; None where Java throws NumberFormatException. */
  function ParseInt(s: string): (r: Option<int>)
    ensures r.Some? <==>
      || (|s| > 0 && IsDigit(s[0]) && AllDigits(s))
      || (|s| > 1 && (s[0] == '-' || s[0] == '+') && AllDigits(s[1..]))
    ensures r.Some? && s[0] != '-' ==> r.value >= 0
  {
    if |s| > 0 && (s[0] == '-' || s[0] == '+') then
      if |s| > 1 && AllDigits(s[1..]) then
        var magnitude: int := DigitsValue(s[1..]);
        Some(if s[0] == '-' then -magnitude else magnitude)
      else None
    else if |s| > 0 && AllDigits(s) then Some(DigitsValue(s))
    else None
  }

  /** The decimal representation of `n`, as `Integer.toString` writes it. */
  function FormatNat(n: nat): (s: string)
    ensures |s| > 0 && AllDigits(s)
  {
    if n < 10 then ['0' + n as char]
    else FormatNat(n / 10) + ['0' + (n % 10) as char]
  }

  lemma {:induction false} DigitsValueOfFormat(n: nat)
    ensures DigitsValue(FormatNat(n)) == n
  {
    if n >= 10 {
      var s := FormatNat(n);
      assert s[..|s| - 1] == FormatNat(n / 10);
      DigitsValueOfFormat(n / 10);
    }
  }

  /** Parsing a formatted number gives the number back. */
  lemma ParseFormat(n: nat)
    ensures ParseInt(FormatNat(n)) == Some(n)
  {
    DigitsValueOfFormat(n);
  }

  /** `a.compareTo(b)`: the difference of the first differing characters, else of the lengths. */
  function Compare(a: string, b: string): int
  {
    if a == [] || b == [] then |a| - |b|
    else if a[0] != b[0] then a[0] as int - b[0] as int
    else Compare(a[1..], b[1..])
  }

  /** compareTo is zero exactly on equal strings. */
  lemma {:induction false} CompareZero(a: string, b: string)
    ensures Compare(a, b) == 0 <==> a == b
  {
    if a != [] && b != [] && a[0] == b[0] {
      CompareZero(a[1..], b[1..]);
      assert a == [a[0]] + a[1..] && b == [b[0]] + b[1..];
    }
  }

  /** Swapping the arguments negates compareTo. */
  lemma {:induction false} CompareSwap(a: string, b: string)
    ensures Compare(b, a) == -Compare(a, b)
  {
    if a != [] && b != [] && a[0] == b[0] {
      CompareSwap(a[1..], b[1..]);
    }
  }

  /** "compareTo is negative" is a transitive relation. */
  lemma {:induction false} CompareTransitive(a: string, b: string, c: string)
    requires Compare(a, b) < 0 && Compare(b, c) < 0
    ensures Compare(a, c) < 0
  {
    if a != [] && b != [] && c != [] && a[0] == b[0] && b[0] == c[0] {
      CompareTransitive(a[1..], b[1..], c[1..]);
    }
  }

  /** `s.endsWith(suffix)`. */
  predicate EndsWith(s: string, suffix: string) {
    |suffix| <= |s| && s[|s| - |suffix|..] == suffix
  }

  /** `path.substring(1)` when `path.startsWith("/")`. */
  function StripLeadingSlash(path: string): (r: string)
    ensures path == r || path == "/" + r
  {
    if |path| > 0 && path[0] == '/' then path[1..] else path
  }

  /** java.io.File's normalisation of a Unix path drops trailing slashes (but keeps a lone root). */
  function StripTrailingSlashes(path: string): (r: string)
    ensures r <= path
    ensures |r| <= 1 || r[|r| - 1] != '/'
  {
    if |path| > 1 && path[|path| - 1] == '/' then StripTrailingSlashes(path[..|path| - 1]) else path
  }

  /** The text after the last slash: the longest suffix of `path` without a slash. */
  function AfterLastSlash(path: string): (r: string)
    ensures '/' !in r
    ensures |r| <= |path| && r == path[|path| - |r|..]
    ensures |r| < |path| ==> path[|path| - |r| - 1] == '/'
  {
    if path == [] || path[|path| - 1] == '/' then []
    else AfterLastSlash(path[..|path| - 1]) + [path[|path| - 1]]
  }

  /** `new File(path).getName()` on a Unix file system. */
  function BaseName(path: string): (r: string)
    ensures '/' !in r
  {
    AfterLastSlash(StripTrailingSlashes(path))
  }
}
