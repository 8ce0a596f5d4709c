/** String operations of Python's `str` and JavaScript's `String` that the
    modelled code relies on: whitespace stripping, substring search, `split`,
    `join`, `replace`, decimal rendering of integers and `splitlines()[0]`. */
module Text {
  import opened Wrappers

  // ---------------------------------------------------------------- whitespace

  /** Characters for which Python's `str.isspace()` holds; `str.strip()`,
      `str.rstrip()` and the regular-expression class `\s` use this set. */
  predicate IsPySpace(c: char)
  {
    ('\U{0009}' <= c <= '\U{000D}') || ('\U{001C}' <= c <= '\U{0020}') ||
    c == '\U{0085}' || c == '\U{00A0}' || c == '\U{1680}' ||
    ('\U{2000}' <= c <= '\U{200A}') || c == '\U{2028}' || c == '\U{2029}' ||
    c == '\U{202F}' || c == '\U{205F}' || c == '\U{3000}'
  }

  /** Characters that JavaScript's `String.prototype.trim` removes: white space
      (tab, vertical tab, form feed, space, no-break space, byte order mark and
      the space separators) and line terminators. */
  predicate IsJsSpace(c: char)
  {
    ('\U{0009}' <= c <= '\U{000D}') || c == '\U{0020}' || c == '\U{00A0}' ||
    c == '\U{1680}' || ('\U{2000}' <= c <= '\U{200A}') || c == '\U{2028}' ||
    c == '\U{2029}' || c == '\U{202F}' || c == '\U{205F}' || c == '\U{3000}' ||
    c == '\U{FEFF}'
  }

  /** `s` without its longest prefix of `ws` characters. */
  function TrimStart(s: string, ws: char -> bool): (r: string)
    ensures |r| <= |s|
    decreases |s|
  {
    if s != [] && ws(s[0]) then TrimStart(s[1..], ws) else s
  }

  /** `TrimStart` removes a prefix made of white space only, and what is left
      does not start with white space. */
  lemma {:induction false} TrimStartSpec(s: string, ws: char -> bool)
    ensures var r := TrimStart(s, ws);
            r == s[|s| - |r|..] && (forall i :: 0 <= i < |s| - |r| ==> ws(s[i])) && (r != [] ==> !ws(r[0]))
    decreases |s|
  {
    if s != [] && ws(s[0]) {
      TrimStartSpec(s[1..], ws);
      var r := TrimStart(s, ws);
      forall i | 1 <= i < |s| - |r| ensures ws(s[i]) {
        assert s[i] == s[1..][i - 1];
      }
    }
  }

  /** `s` without its longest suffix of `ws` characters. */
  function TrimEnd(s: string, ws: char -> bool): (r: string)
    ensures |r| <= |s|
    decreases |s|
  {
    if s != [] && ws(s[|s| - 1]) then TrimEnd(s[..|s| - 1], ws) else s
  }

  /** `TrimEnd` removes a suffix made of white space only, and what is left
      does not end with white space. */
  lemma {:induction false} TrimEndSpec(s: string, ws: char -> bool)
    ensures var r := TrimEnd(s, ws);
            r == s[..|r|] && (forall i :: |r| <= i < |s| ==> ws(s[i])) && (r != [] ==> !ws(r[|r| - 1]))
    decreases |s|
  {
    if s != [] && ws(s[|s| - 1]) {
      TrimEndSpec(s[..|s| - 1], ws);
      var r := TrimEnd(s, ws);
      forall i | |r| <= i < |s| - 1 ensures ws(s[i]) {
        assert s[i] == s[..|s| - 1][i];
      }
    }
  }

  function Trim(s: string, ws: char -> bool): string
  {
    TrimEnd(TrimStart(s, ws), ws)
  }

  /** Python's `s.strip()`. */
  function PyStrip(s: string): string
  {
    Trim(s, IsPySpace)
  }

  /** Python's `s.rstrip()`. */
  function PyRStrip(s: string): string
  {
    TrimEnd(s, IsPySpace)
  }

  /** JavaScript's `s.trim()`. */
  function JsTrim(s: string): string
  {
    Trim(s, IsJsSpace)
  }

  predicate AllSpace(s: string, ws: char -> bool)
  {
    forall i :: 0 <= i < |s| ==> ws(s[i])
  }

  /** Trimming leaves nothing exactly when every character is white space. */
  lemma TrimEmptyIff(s: string, ws: char -> bool)
    ensures Trim(s, ws) == [] <==> AllSpace(s, ws)
  {
    var t := TrimStart(s, ws);
    TrimStartSpec(s, ws);
    TrimEndSpec(t, ws);
    if t != [] {
      assert !ws(s[|s| - |t|]);
    }
  }

  /** A trimmed string has no white space at either end, so a second trim
      changes nothing. */
  lemma TrimIdempotent(s: string, ws: char -> bool)
    ensures Trim(Trim(s, ws), ws) == Trim(s, ws)
  {
    var t := Trim(s, ws);
    if t != [] {
      var u := TrimStart(s, ws);
      TrimStartSpec(s, ws);
      TrimEndSpec(u, ws);
      assert t == u[..|t|];
      assert !ws(t[0]);
      assert TrimStart(t, ws) == t;
      assert TrimEnd(t, ws) == t;
    }
  }

  /** White space in front of a trimmed, non-empty string is all that a trim
      removes. */
  lemma {:induction false} TrimAfterSpace(w: string, t: string, ws: char -> bool)
    requires AllSpace(w, ws)
    requires t != [] && Trim(t, ws) == t
    ensures Trim(w + t, ws) == t
    decreases |w|
  {
    if w == [] {
      assert w + t == t;
    } else {
      assert (w + t)[1..] == w[1..] + t;
      TrimAfterSpace(w[1..], t, ws);
    }
  }

  // ---------------------------------------------------------------- search

  /** `pat` occurs in `s` at index `i`. */
  predicate OccursAt(s: string, pat: string, i: nat)
  {
    i + |pat| <= |s| && s[i..i + |pat|] == pat
  }

  /** `i` is the first index at which `pat` occurs in `s`. */
  predicate FirstOccurrence(s: string, pat: string, i: nat)
  {
    OccursAt(s, pat, i) && forall j: nat :: j < i ==> !OccursAt(s, pat, j)
  }

  lemma OccursInTail(s: string, pat: string, j: nat)
    requires s != []
    ensures OccursAt(s[1..], pat, j) <==> OccursAt(s, pat, j + 1)
  {
    if j + 1 + |pat| <= |s| {
      assert s[1..][j..j + |pat|] == s[j + 1..j + 1 + |pat|];
    }
  }

  /** The index of the first occurrence of `pat` in `s` (Python's `str.find`
      and `re.search` with a literal pattern, JavaScript's `indexOf`);
      `FindSpec` states what it finds. */
  function Find(s: string, pat: string): (r: Option<nat>)
    ensures r.Some? ==> r.value + |pat| <= |s|
    decreases |s|
  {
    if pat <= s then Some(0)
    else if s == [] then None
    else match Find(s[1..], pat)
      case Some(i) => Some(i + 1)
      case None => None
  }

  /** `Find` returns the first index at which the pattern occurs, and `None`
      only when it occurs nowhere. */
  lemma {:induction false} FindSpec(s: string, pat: string)
    ensures Find(s, pat).Some? ==> FirstOccurrence(s, pat, Find(s, pat).value)
    ensures Find(s, pat).None? ==> forall j: nat :: !OccursAt(s, pat, j)
    decreases |s|
  {
    if pat <= s {
      assert s[0..|pat|] == pat;
    } else if s != [] {
      FindSpec(s[1..], pat);
      assert forall j: nat :: OccursAt(s[1..], pat, j) <==> OccursAt(s, pat, j + 1) by {
        forall j: nat ensures OccursAt(s[1..], pat, j) <==> OccursAt(s, pat, j + 1) {
          OccursInTail(s, pat, j);
        }
      }
      assert !OccursAt(s, pat, 0) by {
        if |pat| <= |s| { assert s[0..|pat|] == s[..|pat|]; }
      }
      assert forall j: nat :: j > 0 ==> (OccursAt(s, pat, j) <==> OccursAt(s[1..], pat, j - 1));
    }
  }

  predicate Contains(s: string, pat: string)
  {
    Find(s, pat).Some?
  }

  /** Whatever index is first, `Find` returns it. */
  lemma FindFirst(s: string, pat: string, i: nat)
    requires FirstOccurrence(s, pat, i)
    ensures Find(s, pat) == Some(i)
  {
    FindSpec(s, pat);
  }

  // ---------------------------------------------------------------- split and join

  /** `parts` joined with `sep` in between (JavaScript's `parts.join(sep)`;
      Python's `sep.join(parts)`). */
  function Join(parts: seq<string>, sep: string): string
  {
    if parts == [] then []
    else if |parts| == 1 then parts[0]
    else parts[0] + sep + Join(parts[1..], sep)
  }

  /** Python's `s.split(sep)` for a one-character separator: the maximal
      separator-free pieces, including empty ones. */
  function Split(s: string, sep: char): (r: seq<string>)
    ensures |r| >= 1
    ensures forall k :: 0 <= k < |r| ==> sep !in r[k]
    ensures Join(r, [sep]) == s
    decreases |s|
  {
    if s == [] then [[]]
    else
      var rest := Split(s[1..], sep);
      if s[0] == sep then
        assert Join([[]] + rest, [sep]) == [sep] + Join(rest, [sep]);
        [[]] + rest
      else
        var r := [[s[0]] + rest[0]] + rest[1..];
        assert |rest| > 1 ==> Join(rest, [sep]) == rest[0] + [sep] + Join(rest[1..], [sep]);
        assert |rest| > 1 ==> Join(r, [sep]) == r[0] + [sep] + Join(rest[1..], [sep]) by {
          assert r[1..] == rest[1..];
        }
        assert s == [s[0]] + s[1..];
        r
  }

  /** A string without the separator is a single piece. */
  lemma SplitNoSeparator(s: string, sep: char)
    requires sep !in s
    ensures Split(s, sep) == [s]
  {
  }

  /** Splitting distributes over a separator: the pieces of `a + sep + b` are
      the pieces of `a` followed by the pieces of `b`. */
  lemma {:induction false} SplitAppend(a: string, b: string, sep: char)
    ensures Split(a + [sep] + b, sep) == Split(a, sep) + Split(b, sep)
    decreases |a|
  {
    var s := a + [sep] + b;
    if a == [] {
      assert s[1..] == b;
    } else {
      assert s[1..] == a[1..] + [sep] + b;
      SplitAppend(a[1..], b, sep);
    }
  }

  /** `split` undoes `join` when no part contains the separator. */
  lemma {:induction false} SplitJoin(parts: seq<string>, sep: char)
    requires |parts| >= 1
    requires forall k :: 0 <= k < |parts| ==> sep !in parts[k]
    ensures Split(Join(parts, [sep]), sep) == parts
    decreases |parts|
  {
    SplitNoSeparator(parts[0], sep);
    if |parts| > 1 {
      SplitJoin(parts[1..], sep);
      SplitAppend(parts[0], Join(parts[1..], [sep]), sep);
      assert parts == [parts[0]] + parts[1..];
    }
  }

  /** `s.split(c, 1)[1]`: what follows the first `c`, or `None` when `s`
      holds no `c` (where Python raises `IndexError`). */
  function SplitTail(s: string, c: char): (r: Option<string>)
    ensures r.None? <==> c !in s
    decreases |s|
  {
    if s == [] then None
    else if s[0] == c then Some(s[1..])
    else
      var r := SplitTail(s[1..], c);
      assert c in s <==> c in s[1..] by { assert s == [s[0]] + s[1..]; }
      r
  }

  /** When the first `c` stands at `n`, what follows it is `s[n + 1..]`. */
  lemma {:induction false} SplitTailAt(s: string, c: char, n: nat)
    requires n < |s| && s[n] == c
    requires forall i :: 0 <= i < n ==> s[i] != c
    ensures SplitTail(s, c) == Some(s[n + 1..])
    decreases n
  {
    if n > 0 {
      assert forall i :: 0 <= i < n - 1 ==> s[1..][i] == s[i + 1];
      SplitTailAt(s[1..], c, n - 1);
      assert s[1..][n..] == s[n + 1..];
    }
  }

  // ---------------------------------------------------------------- replace

  /** Python's `s.replace(pat, rep)` for a non-empty pattern: every
      non-overlapping occurrence, scanning from the left, is replaced. */
  function Replace(s: string, pat: string, rep: string): string
    requires pat != []
    decreases |s|
  {
    if pat <= s then rep + Replace(s[|pat|..], pat, rep)
    else if s == [] then []
    else [s[0]] + Replace(s[1..], pat, rep)
  }

  /** When `s` does not start with `pat`, its first occurrence is one further
      on than in `s[1..]`. */
  lemma FindInTail(s: string, pat: string)
    requires s != [] && !(pat <= s)
    ensures Find(s, pat) == match Find(s[1..], pat) { case Some(i) => Some(i + 1) case None => None }
  {
  }

  /** `replace` keeps everything before the first occurrence of the pattern,
      substitutes that occurrence, and carries on after it. */
  lemma {:induction false} ReplaceAtFirst(s: string, pat: string, rep: string, i: nat)
    requires pat != [] && Find(s, pat) == Some(i)
    ensures Replace(s, pat, rep) == s[..i] + rep + Replace(s[i + |pat|..], pat, rep)
    decreases |s|
  {
    if pat <= s {
      assert s[..0] == [];
    } else {
      assert i != 0 by { assert s[0..|pat|] == s[..|pat|]; }
      FindInTail(s, pat);
      assert Find(s[1..], pat) == Some(i - 1);
      ReplaceAtFirst(s[1..], pat, rep, i - 1);
      ReplaceSkip(s, pat, rep, i);
    }
  }

  lemma {:induction false} ReplaceSkip(s: string, pat: string, rep: string, i: nat)
    requires pat != [] && s != [] && !(pat <= s) && 0 < i && i + |pat| <= |s|
    requires Replace(s[1..], pat, rep) == s[1..][..i - 1] + rep + Replace(s[1..][i - 1 + |pat|..], pat, rep)
    ensures Replace(s, pat, rep) == s[..i] + rep + Replace(s[i + |pat|..], pat, rep)
  {
    var t := s[1..];
    assert Replace(s, pat, rep) == [s[0]] + Replace(t, pat, rep);
    assert s[..i] == [s[0]] + t[..i - 1];
    assert s[i + |pat|..] == t[i - 1 + |pat|..];
    calc {
      Replace(s, pat, rep);
      [s[0]] + Replace(t, pat, rep);
      [s[0]] + (t[..i - 1] + rep + Replace(t[i - 1 + |pat|..], pat, rep));
      ([s[0]] + t[..i - 1]) + rep + Replace(t[i - 1 + |pat|..], pat, rep);
    }
  }

  /** With no occurrence of the pattern, `replace` returns its input. */
  lemma {:induction false} ReplaceNone(s: string, pat: string, rep: string)
    requires pat != [] && Find(s, pat).None?
    ensures Replace(s, pat, rep) == s
    decreases |s|
  {
    if s != [] {
      assert !(pat <= s) by { assert !OccursAt(s, pat, 0); }
      FindInTail(s, pat);
      ReplaceNone(s[1..], pat, rep);
      assert s == [s[0]] + s[1..];
    }
  }

  /** Replacing one character by another keeps the length and changes exactly
      the positions that held the replaced character. */
  lemma {:induction false} ReplaceChar(s: string, a: char, b: char)
    ensures |Replace(s, [a], [b])| == |s|
    ensures forall i :: 0 <= i < |s| ==> Replace(s, [a], [b])[i] == if s[i] == a then b else s[i]
    decreases |s|
  {
    if s != [] {
      ReplaceChar(s[1..], a, b);
      assert [a] <= s <==> s[0] == a;
    }
  }

  // ---------------------------------------------------------------- decimal numbers

  predicate IsDigit(c: char)
  {
    '0' <= c <= '9'
  }

  function DigitChar(d: nat): (c: char)
    requires d < 10
    ensures IsDigit(c)
  {
    (('0' as int) + d) as char
  }

  function DigitValue(c: char): nat
    requires IsDigit(c)
  {
    (c as int) - ('0' as int)
  }

  /** The decimal text of `n`, as Python's `f"{n}"` and JavaScript's
      `${n}` render a non-negative integer. */
  function NatToString(n: nat): (r: string)
    ensures r != [] && forall i :: 0 <= i < |r| ==> IsDigit(r[i])
    ensures r[0] == '0' ==> n == 0 && r == "0"
  {
    if n < 10 then [DigitChar(n)] else NatToString(n / 10) + [DigitChar(n % 10)]
  }

  /** The number a string of decimal digits denotes. */
  function DecimalValue(s: string): nat
    requires forall i :: 0 <= i < |s| ==> IsDigit(s[i])
  {
    if s == [] then 0 else DecimalValue(s[..|s| - 1]) * 10 + DigitValue(s[|s| - 1])
  }

  /** Reading the decimal text of `n` gives back `n`. */
  lemma {:induction false} DecimalRoundTrip(n: nat)
    ensures DecimalValue(NatToString(n)) == n
  {
    if n >= 10 {
      DecimalRoundTrip(n / 10);
      var s := NatToString(n);
      assert s[..|s| - 1] == NatToString(n / 10);
    }
  }

  /** Distinct numbers have distinct decimal texts. */
  lemma NatToStringInjective(m: nat, n: nat)
    requires NatToString(m) == NatToString(n)
    ensures m == n
  {
    DecimalRoundTrip(m);
    DecimalRoundTrip(n);
  }

  // ---------------------------------------------------------------- lines and case

  /** The line boundaries of Python's `str.splitlines()`. */
  predicate IsLineBoundary(c: char)
  {
    c == '\n' || c == '\r' || c == '\U{000B}' || c == '\U{000C}' ||
    ('\U{001C}' <= c <= '\U{001E}') || c == '\U{0085}' || c == '\U{2028}' || c == '\U{2029}'
  }

  /** `s.splitlines()[0]` for a non-empty `s`: the text before the first line
      boundary. */
  function FirstLine(s: string): (r: string)
    ensures r <= s
    ensures forall i :: 0 <= i < |r| ==> !IsLineBoundary(r[i])
    ensures |r| < |s| ==> IsLineBoundary(s[|r|])
  {
    if s == [] || IsLineBoundary(s[0]) then [] else [s[0]] + FirstLine(s[1..])
  }

  /** A first line is unaffected by what follows a line boundary. */
  lemma {:induction false} FirstLineOfConcat(a: string, b: string)
    requires forall i :: 0 <= i < |a| ==> !IsLineBoundary(a[i])
    requires b != [] && IsLineBoundary(b[0])
    ensures FirstLine(a + b) == a
    decreases |a|
  {
    if a != [] {
      assert (a + b)[1..] == a[1..] + b;
      FirstLineOfConcat(a[1..], b);
    } else {
      assert a + b == b;
    }
  }

  /** Lower case for the letters A–Z, the only letters whose case matters to
      the keyword checks modelled here. */
  function AsciiLower(c: char): char
  {
    if 'A' <= c <= 'Z' then ((c as int) + 32) as char else c
  }

  function LowerAscii(s: string): (r: string)
    ensures |r| == |s| && forall i :: 0 <= i < |s| ==> r[i] == AsciiLower(s[i])
  {
    seq(|s|, i requires 0 <= i < |s| => AsciiLower(s[i]))
  }
}
