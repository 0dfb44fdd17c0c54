/**
 * The three JavaScript string operations the handler relies on:
 * `String.prototype.trim`, `String.prototype.startsWith` (without a position
 * argument) and `String.prototype.includes` (without a position argument).
 * Strings are sequences of code points.
 */
module JsStrings {

  /** The characters `trim` removes: ECMAScript WhiteSpace (TAB, VT, FF,
      ZWNBSP and every space separator) and LineTerminator (LF, CR, LS, PS). */
  predicate IsWhitespace(c: char)
  {
    || c == '\t' || c == '\n' || c == '\U{000B}' || c == '\U{000C}' || c == '\r'
    || c == ' ' || c == '\U{00A0}' || c == '\U{1680}'
    || ('\U{2000}' <= c <= '\U{200A}')
    || c == '\U{2028}' || c == '\U{2029}' || c == '\U{202F}' || c == '\U{205F}'
    || c == '\U{3000}' || c == '\U{FEFF}'
  }

  /** `p` is a prefix of `s`. */
  predicate StartsWith(s: string, p: string)
  {
    |p| <= |s| && s[..|p|] == p
  }

  /** Removes leading whitespace (see `TrimStartSuffix`). */
  function TrimStart(s: string): (r: string)
    ensures |r| <= |s|
    decreases |s|
  {
    if s != [] && IsWhitespace(s[0]) then TrimStart(s[1..]) else s
  }

  /** Removes trailing whitespace (see `TrimEndPrefix`). */
  function TrimEnd(s: string): (r: string)
    ensures |r| <= |s|
    decreases |s|
  {
    if s != [] && IsWhitespace(s[|s| - 1]) then TrimEnd(s[..|s| - 1]) else s
  }

  /** `TrimStart` gives the suffix of `s` that starts at its first
      non-whitespace character. */
  lemma {:induction false} TrimStartSuffix(s: string)
    ensures var r := TrimStart(s);
      && r == s[|s| - |r|..]
      && (forall i :: 0 <= i < |s| - |r| ==> IsWhitespace(s[i]))
      && (r != [] ==> !IsWhitespace(r[0]))
    decreases |s|
  {
    if s != [] && IsWhitespace(s[0]) {
      TrimStartSuffix(s[1..]);
    }
  }

  /** `TrimEnd` gives the prefix of `s` that ends at its last non-whitespace
      character. */
  lemma {:induction false} TrimEndPrefix(s: string)
    ensures var r := TrimEnd(s);
      && r == s[..|r|]
      && (forall i :: |r| <= i < |s| ==> IsWhitespace(s[i]))
      && (r != [] ==> !IsWhitespace(r[|r| - 1]))
    decreases |s|
  {
    if s != [] && IsWhitespace(s[|s| - 1]) {
      TrimEndPrefix(s[..|s| - 1]);
    }
  }

  /** `trim`: removes whitespace at both ends. */
  function Trim(s: string): (r: string)
  {
    TrimEnd(TrimStart(s))
  }

  /** No whitespace at either end of `m`. */
  predicate Trimmed(m: string)
  {
    m == [] || (!IsWhitespace(m[0]) && !IsWhitespace(m[|m| - 1]))
  }

  predicate AllWhitespace(s: string)
  {
    forall i :: 0 <= i < |s| ==> IsWhitespace(s[i])
  }

  /** Leading whitespace before a string that does not start with whitespace
      is exactly what `TrimStart` removes. */
  lemma {:induction false} TrimStartOf(a: string, u: string)
    requires AllWhitespace(a) && (u == [] || !IsWhitespace(u[0]))
    ensures TrimStart(a + u) == u
    decreases |a|
  {
    if a == [] {
      assert a + u == u;
    } else {
      assert (a + u)[0] == a[0];
      assert (a + u)[1..] == a[1..] + u;
      TrimStartOf(a[1..], u);
    }
  }

  /** Trailing whitespace after a string that does not end with whitespace
      is exactly what `TrimEnd` removes. */
  lemma {:induction false} TrimEndOf(u: string, b: string)
    requires AllWhitespace(b) && (u == [] || !IsWhitespace(u[|u| - 1]))
    ensures TrimEnd(u + b) == u
    decreases |b|
  {
    if b == [] {
      assert u + b == u;
    } else {
      var s := u + b;
      assert s[|s| - 1] == b[|b| - 1];
      assert s[..|s| - 1] == u + b[..|b| - 1];
      TrimEndOf(u, b[..|b| - 1]);
    }
  }

  /** `Trim` is the unique decomposition of its input into a whitespace
      prefix, a core with no whitespace at either end, and a whitespace
      suffix: `Trim(a + m + b) == m` for every such decomposition
      (and `TrimDecomposes` shows that every input has one). */
  lemma TrimCharacterization(a: string, m: string, b: string)
    requires AllWhitespace(a) && AllWhitespace(b) && Trimmed(m)
    ensures Trim(a + m + b) == m
  {
    if m == [] {
      var ab := a + b;
      assert a + m + b == ab + [];
      assert AllWhitespace(ab) by {
        forall i | 0 <= i < |ab| ensures IsWhitespace(ab[i]) {
          if i < |a| { assert ab[i] == a[i]; } else { assert ab[i] == b[i - |a|]; }
        }
      }
      TrimStartOf(ab, []);
    } else {
      assert a + m + b == a + (m + b);
      assert (m + b)[0] == m[0];
      TrimStartOf(a, m + b);
      TrimEndOf(m, b);
    }
  }

  /** The whitespace `Trim` removes at the front of `s`. */
  function Leading(s: string): (w: string)
  {
    s[..|s| - |TrimStart(s)|]
  }

  /** The whitespace `Trim` removes at the back of `s`. */
  function Trailing(s: string): (w: string)
  {
    var t := TrimStart(s);
    t[|TrimEnd(t)|..]
  }

  /** `TrimStart` removes only whitespace, from the front. */
  lemma TrimStartSplits(s: string)
    ensures s == Leading(s) + TrimStart(s) && AllWhitespace(Leading(s))
  {
    var k := |s| - |TrimStart(s)|;
    TrimStartSuffix(s);
    assert s == s[..k] + s[k..];
    forall i | 0 <= i < k ensures IsWhitespace(s[..k][i]) {
      assert s[..k][i] == s[i];
    }
  }

  /** `TrimEnd` removes only whitespace, from the back. */
  lemma TrimEndSplits(t: string)
    ensures t == TrimEnd(t) + t[|TrimEnd(t)|..] && AllWhitespace(t[|TrimEnd(t)|..])
  {
    var r := TrimEnd(t);
    TrimEndPrefix(t);
    assert t == t[..|r|] + t[|r|..];
    forall i | 0 <= i < |t| - |r| ensures IsWhitespace(t[|r|..][i]) {
      assert t[|r|..][i] == t[|r| + i];
    }
  }

  /** A proof step of `TrimDecomposes`: regrouping a concatenation of three
      strings. Kept as a lemma of its own so that the solver meets it apart
      from the definitions of `Leading`, `Trim` and `Trailing`. */
  lemma Regroup(a: string, m: string, b: string)
    ensures a + (m + b) == a + m + b
  {
  }

  /** Every input is whitespace, then its trimmed core, then whitespace. */
  lemma TrimDecomposes(s: string)
    ensures Trimmed(Trim(s))
    ensures s == Leading(s) + Trim(s) + Trailing(s)
    ensures AllWhitespace(Leading(s)) && AllWhitespace(Trailing(s))
  {
    TrimStartSplits(s);
    TrimEndSplits(TrimStart(s));
    TrimIsTrimmed(s);
    Regroup(Leading(s), Trim(s), Trailing(s));
  }

  /** `Trim` leaves no whitespace at either end. */
  lemma TrimIsTrimmed(s: string)
    ensures Trimmed(Trim(s))
  {
    var t := TrimStart(s);
    var r := TrimEnd(t);
    TrimStartSuffix(s);
    TrimEndPrefix(t);
    if r != [] {
      assert r[0] == t[0];
    }
  }

  /** Trimming twice is trimming once. */
  lemma TrimIdempotent(s: string)
    ensures Trim(Trim(s)) == Trim(s)
  {
    TrimDecomposes(s);
    TrimCharacterization([], Trim(s), []);
    assert [] + Trim(s) + [] == Trim(s);
  }

  /** `sub` occurs in `s` at index `i`. */
  predicate OccursAt(s: string, sub: string, i: int)
  {
    0 <= i && i + |sub| <= |s| && s[i..i + |sub|] == sub
  }

  /** `includes`: `sub` occurs in `s`, scanning from the left. */
  function Contains(s: string, sub: string): (b: bool)
    decreases |s|
  {
    StartsWith(s, sub) || (s != [] && Contains(s[1..], sub))
  }

  /** `Contains` holds exactly when `sub` occurs at some index of `s`. */
  lemma {:induction false} ContainsIff(s: string, sub: string)
    ensures Contains(s, sub) <==> exists i :: OccursAt(s, sub, i)
    decreases |s|
  {
    if StartsWith(s, sub) {
      assert OccursAt(s, sub, 0);
    } else if s != [] {
      var t := s[1..];
      ContainsIff(t, sub);
      if exists i :: OccursAt(s, sub, i) {
        var i :| OccursAt(s, sub, i);
        assert i != 0;
        assert t[i - 1..i - 1 + |sub|] == s[i..i + |sub|];
        assert OccursAt(t, sub, i - 1);
      }
      if exists i :: OccursAt(t, sub, i) {
        var i :| OccursAt(t, sub, i);
        assert s[i + 1..i + 1 + |sub|] == t[i..i + |sub|];
        assert OccursAt(s, sub, i + 1);
      }
    }
  }

  /** An occurrence in a piece is an occurrence in the whole. */
  lemma ContainsInfix(a: string, m: string, b: string, sub: string)
    requires Contains(m, sub)
    ensures Contains(a + m + b, sub)
  {
    ContainsIff(m, sub);
    var i :| OccursAt(m, sub, i);
    var s := a + m + b;
    assert s[|a| + i..|a| + i + |sub|] == m[i..i + |sub|];
    assert OccursAt(s, sub, |a| + i);
    ContainsIff(s, sub);
  }

  /** A trimmed string contains nothing its original did not. */
  lemma TrimContains(s: string, sub: string)
    requires Contains(Trim(s), sub)
    ensures Contains(s, sub)
  {
    TrimDecomposes(s);
    ContainsInfix(Leading(s), Trim(s), Trailing(s), sub);
  }
}
