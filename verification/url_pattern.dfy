/**
 * The format check `/^https?:\/\/.+/` applied to the raw input. The pattern
 * has no flags, so `^` anchors at the start of the string only and `.`
 * matches any character except a line terminator; with no `$`, one such
 * character after the slashes is enough.
 */
module UrlPattern {
  import opened Wrappers
  import opened JsText

  const HttpPrefix := "http://"
  const HttpsPrefix := "https://"

  predicate StartsWith(s: string, p: string) {
    |p| <= |s| && s[..|p|] == p
  }

  /** `prefix` begins `s` and is followed by a character `.` accepts. */
  predicate HasSchemeThenLine(s: string, prefix: string) {
    StartsWith(s, prefix) && |s| > |prefix| && !IsLineTerminator(s[|prefix|])
  }

  /** The declarative meaning of the pattern. */
  predicate MatchesUrlPattern(s: string) {
    HasSchemeThenLine(s, HttpsPrefix) || HasSchemeThenLine(s, HttpPrefix)
  }

  /**
   * `s.match(/^https?:\/\/.+/)` as a regular-expression engine runs it: the
   * literal "http", the optional "s" taken greedily, the literal "://", then
   * `.+` consuming the longest run of non-line-terminators. The result is
   * the matched text, or `None` for JavaScript's `null`. Backtracking over
   * `s?` never helps: giving the "s" back leaves an "s" where ':' is needed.
   */
  method MatchUrlPattern(s: string) returns (m: Option<string>)
    ensures m.Some? <==> MatchesUrlPattern(s)
    ensures m.Some? ==> StartsWith(m.value, HttpsPrefix) || StartsWith(m.value, HttpPrefix)
    ensures m.Some? ==> StartsWith(s, m.value)
    ensures m.Some? ==> forall k :: |HttpPrefix| <= k < |m.value| ==> !IsLineTerminator(m.value[k])
    ensures m.Some? ==> |m.value| == |s| || IsLineTerminator(s[|m.value|])
  {
    if !(|s| >= 4 && s[..4] == "http") {
      return None;
    }
    var i := 4;
    if i < |s| && s[i] == 's' {
      i := i + 1;
    }
    if !(i + 3 <= |s| && s[i..i + 3] == "://") {
      return None;
    }
    ghost var scheme := s[..i];
    assert scheme == "http" || scheme == "https";
    i := i + 3;
    assert s[..i] == scheme + "://";
    var j := i;
    while j < |s| && !IsLineTerminator(s[j])
      invariant i <= j <= |s|
      invariant forall k :: i <= k < j ==> !IsLineTerminator(s[k])
    {
      j := j + 1;
    }
    if j == i {
      return None;
    }
    m := Some(s[..j]);
  }

  /** A string the pattern accepts is never blank: it begins with 'h'. */
  lemma MatchImpliesNotBlank(s: string)
    requires MatchesUrlPattern(s)
    ensures !IsBlank(s)
  {
    assert s[0] == 'h';
  }

  /** The pattern reads the string untrimmed: a leading space defeats it. */
  lemma LeadingTrimmableDefeatsPattern(c: char, s: string)
    requires IsTrimmable(c)
    ensures !MatchesUrlPattern([c] + s)
  {
    assert ([c] + s)[0] == c;
  }

  /** ... while anything after an accepted string leaves it accepted. */
  lemma SuffixKeepsPattern(s: string, tail: string)
    requires MatchesUrlPattern(s)
    ensures MatchesUrlPattern(s + tail)
  {
  }
}
