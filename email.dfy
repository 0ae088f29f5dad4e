/** The e-mail pattern `^[^\s@]+@[^\s@]+\.[^\s@]+$` that scripts.js tests
    contact and newsletter addresses against, written as a string predicate,
    and the shape every accepted address has. */
module EmailPattern {

  import opened Text

  /** `[^\s@]`: any character but whitespace and '@'. */
  predicate Plain(c: char) {
    !IsWhitespace(c) && c != '@'
  }

  /** `[^\s@]+`: a non-empty run of such characters. */
  predicate PlainRun(s: string) {
    |s| > 0 && forall k :: 0 <= k < |s| ==> Plain(s[k])
  }

  /** The whole-string match: an '@' at `a` and a later '.' at `d` cut `s`
      into three plain runs. The regular expression may backtrack to any such
      dot, so one choice that works is enough. */
  predicate MatchesEmail(s: string)
    ensures MatchesEmail(s) ==> |s| >= 5 && s[0] != '@' && s[|s| - 1] != '@'
  {
    exists a, d | 0 < a && a + 1 < d < |s| - 1 ::
      s[a] == '@' && s[d] == '.' && PlainRun(s[..a]) && PlainRun(s[a + 1..d]) && PlainRun(s[d + 1..])
  }

  /** `t` holds a '.' that is neither its first nor its last character. */
  predicate InnerDot(t: string) {
    exists k | 0 < k < |t| - 1 :: t[k] == '.'
  }

  /** The shape of an accepted address: no whitespace, exactly one '@', which
      is not the first character, and a domain part after it with an inner
      '.'. */
  predicate EmailShape(s: string) {
    (forall k :: 0 <= k < |s| ==> !IsWhitespace(s[k])) &&
    Count(s, '@') == 1 &&
    exists a | 0 < a < |s| :: s[a] == '@' && InnerDot(s[a + 1..])
  }

  /** The pattern accepts exactly the strings of that shape. */
  lemma MatchesEmailIffShape(s: string)
    ensures MatchesEmail(s) <==> EmailShape(s)
  {
    if MatchesEmail(s) {
      MatchImpliesShape(s);
    }
    if EmailShape(s) {
      ShapeImpliesMatch(s);
    }
  }

  lemma MatchImpliesShape(s: string)
    requires MatchesEmail(s)
    ensures EmailShape(s)
  {
    var a, d :| 0 < a && a + 1 < d < |s| - 1 &&
      s[a] == '@' && s[d] == '.' && PlainRun(s[..a]) && PlainRun(s[a + 1..d]) && PlainRun(s[d + 1..]);
    PlainOutsideAt(s, a, d);
    var t := s[a + 1..];
    assert forall k :: 0 <= k < |t| ==> t[k] == s[a + 1 + k];
    CountAt(s, a, '@');
    CountZero(s[..a], '@');
    CountZero(t, '@');
    assert t[d - a - 1] == '.';
  }

  /** In a match, every character but the '@' at `a` is plain. */
  lemma PlainOutsideAt(s: string, a: nat, d: nat)
    requires 0 < a && a + 1 < d < |s| - 1 && s[d] == '.'
    requires PlainRun(s[..a]) && PlainRun(s[a + 1..d]) && PlainRun(s[d + 1..])
    ensures forall k :: 0 <= k < |s| && k != a ==> Plain(s[k])
  {
  }

  lemma ShapeImpliesMatch(s: string)
    requires EmailShape(s)
    ensures MatchesEmail(s)
  {
    var a :| 0 < a < |s| && s[a] == '@' && InnerDot(s[a + 1..]);
    var t := s[a + 1..];
    var k :| 0 < k < |t| - 1 && t[k] == '.';
    var d := a + 1 + k;
    assert s[d] == '.';
    OnlyOneAt(s, a, '@');
    var pre, mid, post := s[..a], s[a + 1..d], s[d + 1..];
    assert PlainRun(pre) by {
      forall m | 0 <= m < |pre| ensures Plain(pre[m]) {
        assert pre[m] == s[m];
      }
    }
    assert PlainRun(mid) by {
      forall m | 0 <= m < |mid| ensures Plain(mid[m]) {
        assert mid[m] == s[a + 1 + m];
      }
    }
    assert PlainRun(post) by {
      forall m | 0 <= m < |post| ensures Plain(post[m]) {
        assert post[m] == s[d + 1 + m];
      }
    }
  }

  /** Counting across position `a`. */
  lemma CountAt(s: string, a: nat, c: char)
    requires a < |s|
    ensures Count(s, c) == Count(s[..a], c) + (if s[a] == c then 1 else 0) + Count(s[a + 1..], c)
  {
    assert s == s[..a] + s[a..];
    CountAppend(s[..a], s[a..], c);
    assert s[a..][1..] == s[a + 1..];
  }

  /** When `c` occurs once, at `a`, it occurs nowhere else. */
  lemma OnlyOneAt(s: string, a: nat, c: char)
    requires a < |s| && s[a] == c && Count(s, c) == 1
    ensures forall k :: 0 <= k < |s| && k != a ==> s[k] != c
  {
    CountAt(s, a, c);
    CountZero(s[..a], c);
    CountZero(s[a + 1..], c);
    forall k | 0 <= k < |s| && k != a ensures s[k] != c {
      if k < a {
        assert s[k] == s[..a][k];
      } else {
        assert s[k] == s[a + 1..][k - a - 1];
      }
    }
  }

  /** The contact form tests the address untrimmed while the blur check and
      the newsletter trim it first: an address with a leading space passes
      the one and fails the other. */
  lemma LeadingSpaceRejectedUntrimmed()
    ensures Trim(" a@b.co") == "a@b.co"
    ensures MatchesEmail("a@b.co")
    ensures !MatchesEmail(" a@b.co")
  {
    var s := " a@b.co";
    assert LeadingSpace(s) == 1 by {
      assert IsWhitespace(s[0]) && !IsWhitespace(s[1..][0]);
    }
    assert s[1..] == "a@b.co";
    var t := "a@b.co";
    assert TrailingStart(t) == |t|;
    assert t[..|t|] == t;
    assert PlainRun(t[..1]) && PlainRun(t[2..3]) && PlainRun(t[4..]);
    assert t[1] == '@' && t[3] == '.';
    assert IsWhitespace(s[0]);
    assert !EmailShape(s);
    MatchesEmailIffShape(s);
  }
}
