/** SQLite's LIKE, which the recursive delete relies on (src/database/fs_objects.hpp:26-30):
    '%' matches any run, '_' any one character, and ASCII letters match without case. */
module Like {

  function Fold(c: char): char {
    if 'A' <= c <= 'Z' then (c as int + 32) as char else c
  }

  predicate Matches(pattern: string, s: string)
    decreases |pattern|, |s|
  {
    if pattern == "" then s == ""
    else if pattern[0] == '%' then Matches(pattern[1..], s) || (s != "" && Matches(pattern, s[1..]))
    else s != "" && (pattern[0] == '_' || Fold(pattern[0]) == Fold(s[0])) && Matches(pattern[1..], s[1..])
  }

  /** "%" alone matches everything. */
  lemma {:induction false} AnyMatches(s: string)
    ensures Matches("%", s)
    decreases |s|
  {
    if s == "" {
      assert Matches("%"[1..], s);
    } else {
      AnyMatches(s[1..]);
    }
  }

  /** Every string matches itself followed by '%', wildcards in it or not, with anything after. */
  lemma {:induction false} SelfMatches(p: string, tail: string)
    ensures Matches(p + "%", p + tail)
  {
    if p == "" {
      assert p + "%" == "%" && p + tail == tail;
      AnyMatches(tail);
    } else {
      SelfMatches(p[1..], tail);
      var pat, s := p + "%", p + tail;
      assert pat[1..] == p[1..] + "%";
      assert s[1..] == p[1..] + tail;
      if p[0] == '%' {
        assert Matches(pat[1..], s[1..]);
        StepOver(pat, s);
      }
    }
  }

  lemma StepOver(pattern: string, s: string)
    requires pattern != "" && pattern[0] == '%' && s != ""
    requires Matches(pattern[1..], s[1..])
    ensures Matches(pattern, s)
  {
    assert Matches(pattern, s[1..]);
  }

  /** What matches "p%" still matches with more text after it. */
  lemma {:induction false} MatchesExtended(p: string, s: string, more: string)
    requires Matches(p + "%", s)
    ensures Matches(p + "%", s + more)
    decreases |p|, |s|
  {
    var pat := p + "%";
    if p == "" {
      assert pat == "%";
      AnyMatches(s + more);
    } else {
      assert pat[1..] == p[1..] + "%";
      if p[0] == '%' && Matches(pat[1..], s) {
        MatchesExtended(p[1..], s, more);
      } else {
        assert (s + more)[1..] == s[1..] + more;
        if p[0] == '%' {
          MatchesExtended(p, s[1..], more);
        } else {
          MatchesExtended(p[1..], s[1..], more);
        }
      }
    }
  }

  // ----- what a pattern matches -----

  /** Equal, or the two cases of one ASCII letter. */
  predicate SameLetter(a: char, b: char) {
    || a == b
    || ('A' <= a <= 'Z' && b as int == a as int + 32)
    || ('A' <= b <= 'Z' && a as int == b as int + 32)
  }

  lemma FoldIs(a: char, b: char)
    ensures Fold(a) == Fold(b) <==> SameLetter(a, b)
  {
  }

  /** A character of a pattern other than '%' against one of the text. */
  predicate Fits(c: char, d: char) {
    c == '_' || SameLetter(c, d)
  }

  /** A pattern of one character: '%' takes anything, any other takes one character that fits. */
  lemma OneCharacter(c: char, s: string)
    ensures Matches([c], s) <==> c == '%' || (|s| == 1 && Fits(c, s[0]))
  {
    if c == '%' {
      assert [c] == "%";
      AnyMatches(s);
    } else if s != "" {
      FoldIs(c, s[0]);
      assert [c][1..] == "";
    }
  }

  /** Cut at `k`, the first part matches `p` and the rest `q`. */
  predicate PartsMatch(p: string, q: string, s: string, k: nat) {
    k <= |s| && Matches(p, s[..k]) && Matches(q, s[k..])
  }

  /** Two patterns one after the other match exactly what falls into two parts that they match. */
  lemma MatchesBoth(p: string, q: string, s: string)
    ensures Matches(p + q, s) <==> exists k: nat :: PartsMatch(p, q, s, k)
  {
    if Matches(p + q, s) {
      var k := Parted(p, q, s);
      assert PartsMatch(p, q, s, k);
    }
    forall k: nat | PartsMatch(p, q, s, k)
      ensures Matches(p + q, s)
    {
      JoinedAt(p, q, s, k);
    }
  }

  lemma JoinedAt(p: string, q: string, s: string, k: nat)
    requires PartsMatch(p, q, s, k)
    ensures Matches(p + q, s)
  {
    Joined(p, q, s[..k], s[k..]);
    assert s[..k] + s[k..] == s;
  }

  lemma {:induction false} Joined(p: string, q: string, a: string, b: string)
    requires Matches(p, a) && Matches(q, b)
    ensures Matches(p + q, a + b)
    decreases |p|, |a|
  {
    if p == "" {
      assert p + q == q && a + b == b;
    } else {
      assert (p + q)[1..] == p[1..] + q;
      if p[0] == '%' && Matches(p[1..], a) {
        Joined(p[1..], q, a, b);
      } else {
        assert (a + b)[1..] == a[1..] + b;
        Joined(if p[0] == '%' then p else p[1..], q, a[1..], b);
      }
    }
  }

  lemma {:induction false} Parted(p: string, q: string, s: string) returns (k: nat)
    requires Matches(p + q, s)
    ensures PartsMatch(p, q, s, k)
    decreases |p|, |s|
  {
    if p == "" {
      assert p + q == q && s[..0] == "" && s[0..] == s;
      k := 0;
    } else {
      assert (p + q)[1..] == p[1..] + q;
      if p[0] == '%' && Matches(p[1..] + q, s) {
        k := Parted(p[1..], q, s);
      } else {
        var h := Parted(if p[0] == '%' then p else p[1..], q, s[1..]);
        k := h + 1;
        assert s[..k][1..] == s[1..][..h] && s[k..] == s[1..][h..];
      }
    }
  }

  /** A prefix of `s` fits `p`, character by character. */
  predicate PrefixFits(p: string, s: string) {
    |p| <= |s| && forall i :: 0 <= i < |p| ==> Fits(p[i], s[i])
  }

  /** Without '%' in it, "p%" means: starts with something that fits p. */
  lemma {:induction false} PrefixPattern(p: string, s: string)
    requires '%' !in p
    ensures Matches(p + "%", s) <==> PrefixFits(p, s)
  {
    var pat := p + "%";
    if p == "" {
      assert pat == "%";
      AnyMatches(s);
    } else if s != "" {
      assert pat[1..] == p[1..] + "%";
      PrefixPattern(p[1..], s[1..]);
      FoldIs(p[0], s[0]);
      FitsCons(p, s);
    }
  }

  lemma FitsCons(p: string, s: string)
    requires p != "" && s != ""
    ensures PrefixFits(p, s) <==> Fits(p[0], s[0]) && PrefixFits(p[1..], s[1..])
  {
    if Fits(p[0], s[0]) && PrefixFits(p[1..], s[1..]) {
      forall i | 0 <= i < |p|
        ensures Fits(p[i], s[i])
      {
        if i > 0 {
          assert Fits(p[1..][i - 1], s[1..][i - 1]);
        }
      }
    }
    if PrefixFits(p, s) {
      forall i | 0 <= i < |p[1..]|
        ensures Fits(p[1..][i], s[1..][i])
      {
        assert Fits(p[i + 1], s[i + 1]);
      }
    }
  }

  predicate NoWildcards(p: string) {
    '%' !in p && '_' !in p
  }

  /** `p` is a prefix of `s` up to the case of ASCII letters. */
  predicate PrefixIgnoringCase(p: string, s: string) {
    |p| <= |s| && forall i :: 0 <= i < |p| ==> SameLetter(p[i], s[i])
  }

  /** Without wildcards in it, "p%" means: starts with p, ignoring case. */
  lemma LiteralPattern(p: string, s: string)
    requires NoWildcards(p)
    ensures Matches(p + "%", s) <==> PrefixIgnoringCase(p, s)
  {
    PrefixPattern(p, s);
    assert forall i :: 0 <= i < |p| ==> p[i] != '_';
  }
}
