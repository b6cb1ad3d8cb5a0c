/** Whitespace and String.prototype.trim as the contact form uses them.
    ECMAScript's `trim` and the regular-expression class `\s` both mean the
    WhiteSpace and LineTerminator code points, so one predicate serves both. */
module Text {

  /** The code points ECMAScript counts as WhiteSpace or LineTerminator. */
  predicate IsWhitespace(c: char)
    ensures IsWhitespace(c) ==> c != '@' && c != '.'
  {
    c == '\t' || c == '\n' || c == '\U{000B}' || c == '\U{000C}' || c == '\r' ||
    c == ' ' || c == '\U{00A0}' || c == '\U{1680}' ||
    ('\U{2000}' <= c <= '\U{200A}') ||
    c == '\U{2028}' || c == '\U{2029}' || c == '\U{202F}' || c == '\U{205F}' ||
    c == '\U{3000}' || c == '\U{FEFF}'
  }

  predicate AllWhitespace(s: string) {
    forall i :: 0 <= i < |s| ==> IsWhitespace(s[i])
  }

  predicate NoWhitespace(s: string) {
    forall i :: 0 <= i < |s| ==> !IsWhitespace(s[i])
  }

  /** Removes the leading whitespace: the result is the suffix of `s` that
      follows a maximal whitespace prefix. */
  function TrimStart(s: string): (r: string)
    ensures |r| <= |s| && r == s[|s| - |r|..]
    ensures AllWhitespace(s[..|s| - |r|])
    ensures r == [] || !IsWhitespace(r[0])
  {
    if |s| > 0 && IsWhitespace(s[0]) then
      var r := TrimStart(s[1..]);
      assert s[..|s| - |r|] == [s[0]] + s[1..][..|s| - 1 - |r|];
      r
    else
      s
  }

  /** Removes the trailing whitespace: the result is the prefix of `s` that
      precedes a maximal whitespace suffix. */
  function TrimEnd(s: string): (r: string)
    ensures |r| <= |s| && r == s[..|r|]
    ensures AllWhitespace(s[|r|..])
    ensures r == [] || !IsWhitespace(r[|r| - 1])
  {
    if |s| > 0 && IsWhitespace(s[|s| - 1]) then
      var r := TrimEnd(s[..|s| - 1]);
      assert s[|r|..] == s[..|s| - 1][|r|..] + [s[|s| - 1]];
      r
    else
      s
  }

  /** `s.trim()`. */
  function Trim(s: string): (r: string)
    ensures |r| <= |s|
    ensures r == [] <==> AllWhitespace(s)
    ensures r == [] || (!IsWhitespace(r[0]) && !IsWhitespace(r[|r| - 1]))
  {
    var t := TrimStart(s);
    var r := TrimEnd(t);
    assert r == [] ==> AllWhitespace(s) by {
      if r == [] {
        assert s == s[..|s| - |t|] + t;
      }
    }
    assert AllWhitespace(s) ==> t == [] by {
      if t != [] {
        assert t[0] == s[|s| - |t|];
      }
    }
    r
  }

  /** `trim` keeps the middle of its input: what it drops on each side is
      whitespace. */
  lemma TrimIsMiddle(s: string) returns (a: nat, b: nat)
    ensures a <= b <= |s|
    ensures Trim(s) == s[a..b]
    ensures AllWhitespace(s[..a]) && AllWhitespace(s[b..])
  {
    var t := TrimStart(s);
    var r := TrimEnd(t);
    a, b := |s| - |t|, |s| - |t| + |r|;
    assert t[|r|..] == s[b..];
  }

  /** Whitespace in front never survives the leading trim. */
  lemma {:induction false} TrimStartPadded(pre: string, s: string)
    requires AllWhitespace(pre)
    ensures TrimStart(pre + s) == TrimStart(s)
  {
    if pre != [] {
      var whole, rest := pre + s, pre[1..];
      assert whole[0] == pre[0] && IsWhitespace(whole[0]);
      assert whole[1..] == rest + s;
      assert AllWhitespace(rest) by {
        forall i | 0 <= i < |rest| ensures IsWhitespace(rest[i]) { assert rest[i] == pre[i + 1]; }
      }
      TrimStartPadded(rest, s);
      assert TrimStart(whole) == TrimStart(whole[1..]);
    } else {
      assert pre + s == s;
    }
  }

  /** Whitespace behind never survives the trailing trim. */
  lemma {:induction false} TrimEndPadded(s: string, post: string)
    requires AllWhitespace(post)
    ensures TrimEnd(s + post) == TrimEnd(s)
  {
    if post != [] {
      var p := post[..|post| - 1];
      assert (s + post)[|s + post| - 1] == post[|post| - 1];
      assert (s + post)[..|s + post| - 1] == s + p;
      assert AllWhitespace(p) by {
        forall i | 0 <= i < |p| ensures IsWhitespace(p[i]) { assert p[i] == post[i]; }
      }
      TrimEndPadded(s, p);
      assert TrimEnd(s + post) == TrimEnd(s + p);
    } else {
      assert s + post == s;
    }
  }

  /** Once a non-whitespace character has been met, what follows is kept
      as it is by the leading trim. */
  lemma {:induction false} TrimStartAppend(s: string, post: string)
    requires !AllWhitespace(s)
    ensures TrimStart(s + post) == TrimStart(s) + post
  {
    if IsWhitespace(s[0]) {
      assert (s + post)[1..] == s[1..] + post;
      assert !AllWhitespace(s[1..]) by {
        var i :| 0 <= i < |s| && !IsWhitespace(s[i]);
        assert s[1..][i - 1] == s[i];
      }
      TrimStartAppend(s[1..], post);
    }
  }

  /** Surrounding a value with whitespace does not change what `trim`
      gives back. */
  lemma TrimPadded(pre: string, s: string, post: string)
    requires AllWhitespace(pre) && AllWhitespace(post)
    ensures Trim(pre + s + post) == Trim(s)
  {
    assert pre + s + post == pre + (s + post);
    TrimStartPadded(pre, s + post);
    if AllWhitespace(s) {
      assert Trim(s) == [];
      assert AllWhitespace(s + post) by {
        forall i | 0 <= i < |s + post| ensures IsWhitespace((s + post)[i]) {
          if i < |s| { assert (s + post)[i] == s[i]; } else { assert (s + post)[i] == post[i - |s|]; }
        }
      }
    } else {
      TrimStartAppend(s, post);
      TrimEndPadded(TrimStart(s), post);
    }
  }

  /** Trimming twice is trimming once. */
  lemma TrimIdempotent(s: string)
    ensures Trim(Trim(s)) == Trim(s)
  {
    var r := Trim(s);
    if r != [] {
      TrimOfUnpadded(r);
    }
  }

  /** A value with no whitespace at either end is what `trim` returns. */
  lemma TrimOfUnpadded(s: string)
    requires s != [] && !IsWhitespace(s[0]) && !IsWhitespace(s[|s| - 1])
    ensures Trim(s) == s
  {
    assert TrimStart(s) == s;
  }
}
