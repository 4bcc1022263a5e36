/** String helpers with the meaning JavaScript gives them: `String.prototype.trim`,
    `includes`, `startsWith` and `Array.prototype.join`. Strings are sequences of
    characters; lengths count characters, not UTF-16 code units. */
module Text {

  /** The characters `trim()` removes: ECMAScript WhiteSpace and LineTerminator. */
  predicate IsWhitespace(c: char) {
    || c == '\t' || c == '\n' || c == '\U{000B}' || c == '\U{000C}' || c == '\r' || c == ' '
    || c == '\U{00A0}' || c == '\U{1680}' || ('\U{2000}' <= c <= '\U{200A}')
    || c == '\U{2028}' || c == '\U{2029}' || c == '\U{202F}' || c == '\U{205F}'
    || c == '\U{3000}' || c == '\U{FEFF}'
  }

  predicate AllWhitespace(s: string) {
    forall i :: 0 <= i < |s| ==> IsWhitespace(s[i])
  }

  /** `trimStart()`: the suffix left after dropping leading whitespace. */
  function TrimStart(s: string): string {
    if s != [] && IsWhitespace(s[0]) then TrimStart(s[1..]) else s
  }

  /** `trimEnd()`: the prefix left after dropping trailing whitespace. */
  function TrimEnd(s: string): string {
    if s != [] && IsWhitespace(s[|s| - 1]) then TrimEnd(s[..|s| - 1]) else s
  }

  /** `trimStart()` drops a whitespace prefix and stops at the first other character. */
  lemma {:induction false} TrimStartSpec(s: string)
    ensures var r := TrimStart(s);
      && |r| <= |s| && r == s[|s| - |r|..]
      && (r == [] || !IsWhitespace(r[0]))
      && AllWhitespace(s[..|s| - |r|])
    decreases |s|
  {
    if s != [] && IsWhitespace(s[0]) {
      TrimStartSpec(s[1..]);
      var r := TrimStart(s[1..]);
      assert s[1..][|s| - 1 - |r|..] == s[|s| - |r|..];
      var w := s[..|s| - |r|];
      var w' := s[1..][..|s| - 1 - |r|];
      forall i | 0 <= i < |w| ensures IsWhitespace(w[i]) {
        if i > 0 {
          assert w[i] == w'[i - 1];
        }
      }
    }
  }

  /** `trimEnd()` drops a whitespace suffix and stops at the last other character. */
  lemma {:induction false} TrimEndSpec(s: string)
    ensures var r := TrimEnd(s);
      && |r| <= |s| && r == s[..|r|]
      && (r == [] || !IsWhitespace(r[|r| - 1]))
      && AllWhitespace(s[|r|..])
    decreases |s|
  {
    if s != [] && IsWhitespace(s[|s| - 1]) {
      var p := s[..|s| - 1];
      TrimEndSpec(p);
      var r := TrimEnd(p);
      assert p[..|r|] == s[..|r|];
      var w := s[|r|..];
      var w' := p[|r|..];
      forall i | 0 <= i < |w| ensures IsWhitespace(w[i]) {
        if i < |w'| {
          assert w[i] == w'[i];
        }
      }
    }
  }

  /** Neither end is whitespace. */
  predicate Trimmed(s: string) {
    s == [] || (!IsWhitespace(s[0]) && !IsWhitespace(s[|s| - 1]))
  }

  /** `trim()`: no whitespace left at either end. */
  function Trim(s: string): (r: string)
    ensures |r| <= |s|
    ensures Trimmed(r)
  {
    TrimStartSpec(s);
    TrimEndSpec(TrimStart(s));
    TrimEnd(TrimStart(s))
  }

  lemma {:induction false} TrimStartOfTrimmed(s: string)
    requires s == [] || !IsWhitespace(s[0])
    ensures TrimStart(s) == s
  {
  }

  lemma {:induction false} TrimEndOfTrimmed(s: string)
    requires s == [] || !IsWhitespace(s[|s| - 1])
    ensures TrimEnd(s) == s
  {
  }

  /** The strings `trim()` leaves alone are exactly those with no whitespace at either end. */
  lemma TrimFixedIffTrimmed(s: string)
    ensures Trim(s) == s <==> Trimmed(s)
  {
    if Trimmed(s) {
      TrimStartOfTrimmed(s);
      TrimEndOfTrimmed(s);
    }
  }

  /** Trimming twice is trimming once. */
  lemma TrimIdempotent(s: string)
    ensures Trim(Trim(s)) == Trim(s)
  {
    TrimFixedIffTrimmed(Trim(s));
  }

  /** A string trims to "" exactly when it is made of whitespace only. */
  lemma {:induction false} TrimEmptyIffAllWhitespace(s: string)
    ensures Trim(s) == [] <==> AllWhitespace(s)
  {
    var t := TrimStart(s);
    TrimStartSpec(s);
    TrimEndSpec(t);
    if AllWhitespace(s) {
      TrimStartOfAllWhitespace(s);
    } else {
      var i :| 0 <= i < |s| && !IsWhitespace(s[i]);
      assert !(i < |s| - |t|) by {
        assert forall k :: 0 <= k < |s| - |t| ==> s[..|s| - |t|][k] == s[k];
      }
      assert t[i - (|s| - |t|)] == s[i];
      assert t != [] && !IsWhitespace(t[0]);
      assert Trim(s) != [];
    }
  }

  lemma {:induction false} TrimStartOfAllWhitespace(s: string)
    requires AllWhitespace(s)
    ensures TrimStart(s) == []
    decreases |s|
  {
    if s != [] {
      assert IsWhitespace(s[0]);
      TrimStartOfAllWhitespace(s[1..]);
    }
  }

  /** Whitespace around a string does not change what it trims to. */
  lemma {:induction false} TrimIgnoresPadding(p: string, s: string, q: string)
    requires AllWhitespace(p) && AllWhitespace(q)
    ensures Trim(p + s + q) == Trim(s)
  {
    assert p + s + q == p + (s + q);
    TrimStartPadding(p, s + q);
    assert Trim(p + s + q) == TrimEnd(TrimStart(s + q));
    TrimStartSuffix(s, q);
    if TrimStart(s + q) == TrimStart(s) + q {
      TrimEndPadding(TrimStart(s), q);
    } else {
      AllWhitespaceConcat(s, q);
      TrimStartOfAllWhitespace(s + q);
    }
  }

  lemma AllWhitespaceConcat(s: string, q: string)
    requires AllWhitespace(s) && AllWhitespace(q)
    ensures AllWhitespace(s + q)
  {
    forall k | 0 <= k < |s + q|
      ensures IsWhitespace((s + q)[k])
    {
      if k < |s| {
        assert (s + q)[k] == s[k];
      } else {
        assert (s + q)[k] == q[k - |s|];
      }
    }
  }

  lemma {:induction false} TrimStartPadding(p: string, s: string)
    requires AllWhitespace(p)
    ensures TrimStart(p + s) == TrimStart(s)
    decreases |p|
  {
    if p != [] {
      assert (p + s)[0] == p[0];
      assert (p + s)[1..] == p[1..] + s;
      TrimStartPadding(p[1..], s);
    } else {
      assert p + s == s;
    }
  }

  /** Trimming the start of `s + q` only eats into `q` when `s` is all whitespace. */
  lemma {:induction false} TrimStartSuffix(s: string, q: string)
    requires AllWhitespace(q)
    ensures TrimStart(s + q) == TrimStart(s) + q || (TrimStart(s) == [] && AllWhitespace(s))
    decreases |s|
  {
    if s == [] {
      assert s + q == q;
    } else if IsWhitespace(s[0]) {
      assert (s + q)[1..] == s[1..] + q;
      TrimStartSuffix(s[1..], q);
    } else {
      assert (s + q)[0] == s[0];
    }
  }

  lemma {:induction false} TrimEndPadding(t: string, q: string)
    requires AllWhitespace(q)
    ensures TrimEnd(t + q) == TrimEnd(t)
    decreases |q|
  {
    if q == [] {
      assert t + q == t;
    } else {
      var n := |t + q|;
      assert (t + q)[n - 1] == q[|q| - 1];
      assert (t + q)[..n - 1] == t + q[..|q| - 1];
      TrimEndPadding(t, q[..|q| - 1]);
    }
  }

  /** `s.startsWith(p)` */
  predicate StartsWith(s: string, p: string) {
    |p| <= |s| && s[..|p|] == p
  }

  /** `s.includes(sub)` */
  predicate Includes(s: string, sub: string)
    decreases |s|
  {
    StartsWith(s, sub) || (s != [] && Includes(s[1..], sub))
  }

  /** `includes` holds as soon as `sub` occurs at some position `i`. */
  lemma {:induction false} IncludesAt(s: string, sub: string, i: nat)
    requires i <= |s| && StartsWith(s[i..], sub)
    ensures Includes(s, sub)
    decreases i
  {
    if i > 0 {
      assert s[1..][i - 1..] == s[i..];
      IncludesAt(s[1..], sub, i - 1);
    } else {
      assert s[0..] == s;
    }
  }

  /** `parts.join(sep)` */
  function Join(parts: seq<string>, sep: string): (r: string)
    ensures parts == [] ==> r == ""
    ensures |parts| == 1 ==> r == parts[0]
  {
    if parts == [] then ""
    else if |parts| == 1 then parts[0]
    else parts[0] + sep + Join(parts[1..], sep)
  }
}
