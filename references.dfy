/** `remove_references`, identical in BackEnd/Velog.py and Velog.py: the
    regular-expression substitution `re.sub(r'\[\d+\]', '', text)`, which
    deletes every citation marker such as `[3]` or `[12]` that an LLM leaves in
    its reply. */
module References {
  import opened Text

  /** `t` is one match of the pattern `\[\d+\]`: an opening bracket, one or
      more digits, a closing bracket. */
  predicate IsReference(t: string)
  {
    |t| >= 3 && t[0] == '[' && t[|t| - 1] == ']' &&
    forall i :: 1 <= i < |t| - 1 ==> IsDigit(t[i])
  }

  /** Number of leading decimal digits of `s`. */
  function DigitRun(s: string): (n: nat)
    ensures n <= |s|
    ensures forall i :: 0 <= i < n ==> IsDigit(s[i])
    ensures n < |s| ==> !IsDigit(s[n])
  {
    if s != [] && IsDigit(s[0]) then 1 + DigitRun(s[1..]) else 0
  }

  /** Length of the match of `\[\d+\]` at the start of `s`, or 0 when the
      pattern does not match there. Since a digit is never `]`, at most one
      prefix of `s` is a reference, so the greedy match is the only one. */
  function ReferenceLength(s: string): (k: nat)
    ensures k <= |s|
    ensures k > 0 ==> IsReference(s[..k])
    ensures forall j :: 0 <= j <= |s| && IsReference(s[..j]) ==> j == k
  {
    if s != [] && s[0] == '[' then
      var d := DigitRun(s[1..]);
      assert forall j :: 0 <= j <= |s| && IsReference(s[..j]) ==> j == d + 2 by {
        forall j | 0 <= j <= |s| && IsReference(s[..j]) ensures j == d + 2 {
          assert forall i :: 0 <= i < j - 2 ==> IsDigit(s[1..][i]) by {
            forall i | 0 <= i < j - 2 ensures IsDigit(s[1..][i]) { assert s[..j][i + 1] == s[1..][i]; }
          }
          assert !IsDigit(s[1..][j - 2]) by { assert s[..j][j - 1] == s[1..][j - 2]; }
        }
      }
      if d > 0 && 1 + d < |s| && s[1 + d] == ']' then
        ghost var t := s[..d + 2];
        assert forall i :: 1 <= i < |t| - 1 ==> t[i] == s[1..][i - 1];
        d + 2
      else 0
    else
      assert forall j :: 0 <= j <= |s| ==> !IsReference(s[..j]) by {
        forall j | 0 <= j <= |s| ensures !IsReference(s[..j]) {
          if j > 0 { assert s[..j][0] == s[0]; }
        }
      }
      0
  }

  /** Python's `re.sub(r'\[\d+\]', '', s)`: scanning from the left, each match
      is deleted and scanning resumes after it; any other character is kept. */
  function RemoveReferences(s: string): (r: string)
    ensures |r| <= |s|
    decreases |s|
  {
    if s == [] then []
    else
      var k := ReferenceLength(s);
      if k > 0 then RemoveReferences(s[k..]) else [s[0]] + RemoveReferences(s[1..])
  }

  /** No reference begins anywhere in `s`. */
  predicate ReferenceFree(s: string)
  {
    forall i :: 0 <= i < |s| ==> ReferenceLength(s[i..]) == 0
  }

  /** A text without `[` cannot hold a reference and is returned unchanged. */
  lemma {:induction false} NoBracketUnchanged(s: string)
    requires '[' !in s
    ensures RemoveReferences(s) == s
    decreases |s|
  {
    if s != [] {
      assert s[1..] == s[|s| - |s[1..]|..];
      assert '[' !in s[1..];
      NoBracketUnchanged(s[1..]);
    }
  }

  /** A text without references is returned unchanged. */
  lemma {:induction false} ReferenceFreeUnchanged(s: string)
    requires ReferenceFree(s)
    ensures RemoveReferences(s) == s
    decreases |s|
  {
    if s != [] {
      assert ReferenceLength(s[0..]) == 0;
      assert s[0..] == s;
      assert ReferenceFree(s[1..]) by {
        forall i | 0 <= i < |s[1..]| ensures ReferenceLength(s[1..][i..]) == 0 {
          assert s[1..][i..] == s[i + 1..];
        }
      }
      ReferenceFreeUnchanged(s[1..]);
    }
  }

  /** A reference anywhere in `s` makes the result strictly shorter. */
  lemma {:induction false} ReferenceShortens(s: string, i: nat)
    requires i < |s| && ReferenceLength(s[i..]) > 0
    ensures |RemoveReferences(s)| < |s|
    decreases i
  {
    if ReferenceLength(s) == 0 {
      assert i > 0 by { assert s[0..] == s; }
      assert s[1..][i - 1..] == s[i..];
      ReferenceShortens(s[1..], i - 1);
    }
  }

  /** `remove_references` changes its input exactly when the input holds a
      reference. */
  lemma UnchangedIffReferenceFree(s: string)
    ensures RemoveReferences(s) == s <==> ReferenceFree(s)
  {
    if ReferenceFree(s) {
      ReferenceFreeUnchanged(s);
    } else {
      var i :| 0 <= i < |s| && ReferenceLength(s[i..]) > 0;
      ReferenceShortens(s, i);
    }
  }

  /** Deleting can join the halves of a surrounding bracket pair into a new
      reference, so `remove_references` is not idempotent. */
  lemma NotIdempotent()
    ensures RemoveReferences("[[1]2]") == "[2]"
    ensures RemoveReferences("[2]") == ""
  {
    assert ReferenceLength("[[1]2]") == 0;
    assert "[[1]2]"[1..] == "[1]2]";
    assert ReferenceLength("[1]2]") == 3;
    assert "[1]2]"[3..] == "2]";
    assert ReferenceLength("2]") == 0;
    assert "2]"[1..] == "]";
    assert ReferenceLength("]") == 0;
    assert "]"[1..] == "";
    assert ReferenceLength("[2]") == 3;
    assert "[2]"[3..] == "";
  }
}
