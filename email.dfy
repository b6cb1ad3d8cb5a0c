/** The e-mail pattern of the contact form, `^[^\s@]+@[^\s@]+\.[^\s@]+$`,
    written out twice: as the checks a reader would list (no whitespace,
    exactly one `@`, a non-empty local part, a dotted domain) and as the
    regular expression's own structure (three runs of the class `[^\s@]`
    separated by `@` and `.`). The two are proved to agree. */
module Email {
  import opened Text

  /** The character class `[^\s@]`. */
  predicate EmailChar(c: char) {
    !IsWhitespace(c) && c != '@'
  }

  predicate AllEmailChars(s: string) {
    forall i :: 0 <= i < |s| ==> EmailChar(s[i])
  }

  /** Number of occurrences of `c` in `s`. */
  function Count(s: string, c: char): (n: nat)
    ensures n <= |s|
    ensures n == 0 <==> forall i :: 0 <= i < |s| ==> s[i] != c
  {
    if s == [] then 0
    else
      var rest := Count(s[1..], c);
      assert forall i :: 1 <= i < |s| ==> s[i] == s[1..][i - 1];
      (if s[0] == c then 1 else 0) + rest
  }

  /** The position of the first `c` in `s`, or `|s|` when there is none. */
  function IndexOf(s: string, c: char): (k: nat)
    ensures k <= |s|
    ensures k < |s| ==> s[k] == c
    ensures forall i :: 0 <= i < k ==> s[i] != c
  {
    if s == [] then 0
    else if s[0] == c then 0
    else
      var k := IndexOf(s[1..], c);
      assert forall i :: 1 <= i < |s| ==> s[i] == s[1..][i - 1];
      1 + k
  }

  /** The domain part has a `.` with at least one character on each side. */
  predicate HasInnerDot(d: string) {
    exists j :: 0 < j < |d| - 1 && d[j] == '.'
  }

  /** The address as a list of checks. The shortest address any of them
      lets through has five characters, as in `a@b.c`. */
  predicate IsEmail(s: string)
    ensures IsEmail(s) ==> |s| >= 5
  {
    NoWhitespace(s) && Count(s, '@') == 1 &&
    var k := IndexOf(s, '@');
    0 < k < |s| && HasInnerDot(s[k + 1..])
  }

  /** `s` is `local + "@" + host + "." + tld` with `@` at `at`, `.` at `dot`,
      and each of the three parts a non-empty run of `[^\s@]`. */
  ghost predicate PatternSplit(s: string, at: int, dot: int) {
    0 < at && at + 1 < dot && dot + 1 < |s| &&
    s[at] == '@' && s[dot] == '.' &&
    AllEmailChars(s[..at]) && AllEmailChars(s[at + 1..dot]) && AllEmailChars(s[dot + 1..])
  }

  /** The anchored regular expression matches the whole of `s`. */
  ghost predicate MatchesEmailPattern(s: string)
    ensures MatchesEmailPattern(s) ==> |s| >= 5 && s[0] != '@'
  {
    exists at, dot :: PatternSplit(s, at, dot)
  }

  lemma {:induction false} CountAppend(a: string, b: string, c: char)
    ensures Count(a + b, c) == Count(a, c) + Count(b, c)
  {
    if a == [] {
      assert a + b == b;
    } else {
      assert (a + b)[0] == a[0];
      assert (a + b)[1..] == a[1..] + b;
      CountAppend(a[1..], b, c);
    }
  }

  /** Every address the checks accept is matched by the regular expression. */
  lemma EmailImpliesPattern(s: string)
    requires IsEmail(s)
    ensures MatchesEmailPattern(s)
  {
    var at := IndexOf(s, '@');
    var d := s[at + 1..];
    var j :| 0 < j < |d| - 1 && d[j] == '.';
    var dot := at + 1 + j;
    assert s[dot] == '.';
    var local, host, tld := s[..at], s[at + 1..dot], s[dot + 1..];
    assert Count(d, '@') == 0 by {
      assert s == local + [s[at]] + d;
      CountAppend(local + [s[at]], d, '@');
      CountAppend(local, [s[at]], '@');
    }
    assert AllEmailChars(local) by {
      forall i | 0 <= i < |local| ensures EmailChar(local[i]) {
        assert local[i] == s[i];
      }
    }
    assert AllEmailChars(host) by {
      forall i | 0 <= i < |host| ensures EmailChar(host[i]) {
        assert host[i] == d[i];
      }
    }
    assert AllEmailChars(tld) by {
      forall i | 0 <= i < |tld| ensures EmailChar(tld[i]) {
        assert tld[i] == d[j + 1 + i];
      }
    }
    assert PatternSplit(s, at, dot);
  }

  /** Every string the regular expression matches passes the checks. */
  lemma PatternImpliesEmail(s: string, at: int, dot: int)
    requires PatternSplit(s, at, dot)
    ensures IsEmail(s) && IndexOf(s, '@') == at
  {
    var local, host, tld := s[..at], s[at + 1..dot], s[dot + 1..];
    assert s == local + [s[at]] + host + [s[dot]] + tld;
    assert NoWhitespace(s) by {
      forall i | 0 <= i < |s| ensures !IsWhitespace(s[i]) {
        if i < at { assert s[i] == local[i]; }
        else if at < i < dot { assert s[i] == host[i - at - 1]; }
        else if dot < i { assert s[i] == tld[i - dot - 1]; }
      }
    }
    CountAppend(local + [s[at]] + host + [s[dot]], tld, '@');
    CountAppend(local + [s[at]] + host, [s[dot]], '@');
    CountAppend(local + [s[at]], host, '@');
    CountAppend(local, [s[at]], '@');
    assert Count(s, '@') == 1;
    assert IndexOf(s, '@') == at;
    var d := s[at + 1..];
    assert d[dot - at - 1] == '.';
    assert HasInnerDot(d);
  }

  /** The hand-written checks accept exactly the strings the regular
      expression matches. */
  lemma EmailMatchesPattern(s: string)
    ensures IsEmail(s) <==> MatchesEmailPattern(s)
  {
    if IsEmail(s) {
      EmailImpliesPattern(s);
    }
    if MatchesEmailPattern(s) {
      var at, dot :| PatternSplit(s, at, dot);
      PatternImpliesEmail(s, at, dot);
    }
  }
}
