/** String operations the repositories and services use: `String.prototype.trim`,
    `String.prototype.toLowerCase`, the substring test behind `Like('%q%')`
    and the whitespace class of regular expressions. */
module Text {
  import opened Common

  /** ECMAScript WhiteSpace and LineTerminator code points: what `trim`
      strips and what `\s` matches. */
  predicate IsWhitespace(c: char) {
    || c == '\t' || c == '\n' || c == '\U{000B}' || c == '\U{000C}' || c == '\r'
    || c == ' ' || c == '\U{00A0}' || c == '\U{1680}'
    || ('\U{2000}' <= c <= '\U{200A}')
    || c == '\U{2028}' || c == '\U{2029}' || c == '\U{202F}' || c == '\U{205F}'
    || c == '\U{3000}' || c == '\U{FEFF}'
  }

  /** Every character of s is whitespace (in particular, s may be empty). */
  ghost predicate Blank(s: string) {
    forall k :: 0 <= k < |s| ==> IsWhitespace(s[k])
  }

  /** Drops leading whitespace. */
  function TrimStart(s: string): string
    decreases |s|
  {
    if s != [] && IsWhitespace(s[0]) then TrimStart(s[1..]) else s
  }

  /** Drops trailing whitespace. */
  function TrimEnd(s: string): string
    decreases |s|
  {
    if s != [] && IsWhitespace(s[|s| - 1]) then TrimEnd(s[..|s| - 1]) else s
  }

  /** TrimStart keeps a suffix of s, everything it drops is whitespace and
      what it keeps does not start with whitespace. */
  lemma {:induction false} TrimStartFacts(s: string)
    ensures var r := TrimStart(s);
            |r| <= |s| && r == s[|s| - |r|..] && Blank(s[..|s| - |r|])
            && (r == [] || !IsWhitespace(r[0]))
    decreases |s|
  {
    if s != [] && IsWhitespace(s[0]) {
      TrimStartFacts(s[1..]);
      var r := TrimStart(s);
      assert s[1..][|s| - 1 - |r|..] == s[|s| - |r|..];
      forall k | 0 <= k < |s| - |r| ensures IsWhitespace(s[k]) {
        if k > 0 {
          assert s[k] == s[1..][..|s| - 1 - |r|][k - 1];
        }
      }
    }
  }

  /** TrimEnd keeps a prefix of s, everything it drops is whitespace and
      what it keeps does not end with whitespace. */
  lemma {:induction false} TrimEndFacts(s: string)
    ensures var r := TrimEnd(s);
            |r| <= |s| && r == s[..|r|] && Blank(s[|r|..])
            && (r == [] || !IsWhitespace(r[|r| - 1]))
    decreases |s|
  {
    if s != [] && IsWhitespace(s[|s| - 1]) {
      var t := s[..|s| - 1];
      TrimEndFacts(t);
      var r := TrimEnd(s);
      assert t[..|r|] == s[..|r|];
      forall k | |r| <= k < |s| ensures IsWhitespace(s[k]) {
        if k < |s| - 1 {
          assert s[k] == t[|r|..][k - |r|];
        }
      }
    }
  }

  /** `s.trim()`. */
  function Trim(s: string): string {
    TrimEnd(TrimStart(s))
  }

  /** A concatenation is blank exactly when both parts are. */
  lemma BlankConcat(a: string, b: string)
    ensures Blank(a + b) <==> Blank(a) && Blank(b)
  {
    if Blank(a) && Blank(b) {
      forall k | 0 <= k < |a + b| ensures IsWhitespace((a + b)[k]) {
        if k < |a| {
          assert (a + b)[k] == a[k];
        } else {
          assert (a + b)[k] == b[k - |a|];
        }
      }
    }
    if Blank(a + b) {
      forall k | 0 <= k < |a| ensures IsWhitespace(a[k]) {
        assert (a + b)[k] == a[k];
      }
      forall k | 0 <= k < |b| ensures IsWhitespace(b[k]) {
        assert (a + b)[|a| + k] == b[k];
      }
    }
  }

  /** Trimming empties a string exactly when it is blank, which is what the
      customer-name guard `name.trim().length === 0` tests. */
  lemma TrimEmptyIffBlank(s: string)
    ensures Trim(s) == [] <==> Blank(s)
  {
    var t := TrimStart(s);
    TrimStartFacts(s);
    var i := |s| - |t|;
    assert s == s[..i] + t;
    BlankConcat(s[..i], t);
    var r := TrimEnd(t);
    TrimEndFacts(t);
    if r == [] {
      assert t[|r|..] == t;
    } else {
      assert r[|r| - 1] == t[|r| - 1];
    }
  }

  /** Trimming twice is trimming once, so a name that a create already
      trimmed is stored unchanged by an update that re-supplies it. */
  lemma TrimIdempotent(s: string)
    ensures Trim(Trim(s)) == Trim(s)
  {
    var t := TrimStart(s);
    var r := TrimEnd(t);
    TrimStartFacts(s);
    TrimEndFacts(t);
    if r != [] {
      assert r[0] == t[0];
      assert !IsWhitespace(r[0]);
    }
    assert TrimStart(r) == r;
  }

  /** `if (data.f !== undefined) row.f = data.f.trim()`. */
  function TrimmedApply(patch: Patch<string>, current: string): string {
    if patch.Set? then Trim(patch.value) else current
  }

  /** Re-applying a trimmed assignment changes nothing. */
  lemma TrimmedApplyIdempotent(patch: Patch<string>, current: string)
    ensures TrimmedApply(patch, TrimmedApply(patch, current)) == TrimmedApply(patch, current)
  {
    if patch.Set? {
      TrimIdempotent(patch.value);
    }
  }

  /** `Like('%q%')` taken literally: q occurs in s as a contiguous slice. */
  predicate Contains(s: string, q: string) {
    exists i | 0 <= i <= |s| - |q| :: OccursAt(s, q, i)
  }

  /** q is the slice of s that starts at index i. */
  predicate OccursAt(s: string, q: string, i: int) {
    0 <= i && i + |q| <= |s| && s[i..i + |q|] == q
  }

  /** Every string contains itself, so a row always matches a search for its
      own value. */
  lemma ContainsSelf(s: string)
    ensures Contains(s, s)
  {
    assert OccursAt(s, s, 0);
  }

  /** `toLowerCase` on one character: ASCII capitals and the Latin-1
      capitals U+00C0..U+00DE (except the multiplication sign U+00D7). */
  function LowerChar(c: char): char {
    if 'A' <= c <= 'Z' || ('\U{00C0}' <= c <= '\U{00DE}' && c != '\U{00D7}')
    then (c as int + 32) as char
    else c
  }

  /** `s.toLowerCase()` character by character. */
  function ToLower(s: string): string {
    seq(|s|, k requires 0 <= k < |s| => LowerChar(s[k]))
  }

  /** Lower-casing a lower-cased string changes nothing. */
  lemma ToLowerIdempotent(s: string)
    ensures ToLower(ToLower(s)) == ToLower(s)
  {
    forall k | 0 <= k < |s|
      ensures LowerChar(LowerChar(s[k])) == LowerChar(s[k])
    {
      var c := s[k];
      if 'A' <= c <= 'Z' || ('\U{00C0}' <= c <= '\U{00DE}' && c != '\U{00D7}') {
        assert 'a' <= LowerChar(c) <= 'z' || ('\U{00E0}' <= LowerChar(c) <= '\U{00FE}');
      }
    }
  }
}
