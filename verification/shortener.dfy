/**
 * The submission flow of the `UrlShortener` component as a state machine.
 * A click on the button (or Enter in the field) runs `Submit`; the one-second
 * timer it schedules later runs `Complete`. The timer's closure captured the
 * input as it was at submission, so the session keeps a queue of submitted
 * URLs whose callbacks have not fired yet; timers of equal delay fire in the
 * order they were scheduled, so `Complete` always serves the oldest.
 */
module Shortener {
  import opened JsText
  import opened UrlPattern
  import opened ShortCode
  import opened Registry

  /** The two validation failures, in the order they are checked. */
  datatype Rejection = EmptyInput | InvalidFormat

  datatype Verdict = Pass | Reject(reason: Rejection)

  datatype Session = Session(
    entries: seq<ShortenedUrl>,  // shortenedUrls, newest first
    input: string,               // url, the text field
    loading: bool,               // isLoading
    pending: seq<string>)        // URLs captured by timers not yet fired, oldest first

  datatype SubmitOutcome = Rejected(reason: Rejection) | Accepted(next: Session)

  /** The component's first render. */
  function Init(): (s: Session)
    ensures Valid(s) && s.entries == [] && !s.loading
  {
    Session([], "", false, [])
  }

  /** The state every reachable session is in. */
  predicate Valid(s: Session) {
    && WellFormed(s.entries)
    && (forall i :: 0 <= i < |s.pending| ==> MatchesUrlPattern(s.pending[i]))
    && (s.loading ==> |s.pending| > 0)
  }

  /**
   * The two checks at the top of `shortenUrl`: a blank field first, then the
   * pattern on the untrimmed text.
   */
  function Validate(url: string): (v: Verdict)
    ensures v == Reject(EmptyInput) <==> IsBlank(url)
    ensures v == Reject(InvalidFormat) <==> !IsBlank(url) && !MatchesUrlPattern(url)
    ensures v == Pass <==> MatchesUrlPattern(url)
  {
    TrimEmptyIffBlank(url);
    if Trim(url) == "" then
      Reject(EmptyInput)
    else if !MatchesUrlPattern(url) then
      Reject(InvalidFormat)
    else
      MatchImpliesNotBlank(url);
      Pass
  }

  /** `onChange`: the field holds whatever was typed; nothing else moves. */
  function Edit(s: Session, text: string): (r: Session)
    ensures r.input == text
    ensures r.entries == s.entries && r.loading == s.loading && r.pending == s.pending
    ensures Valid(s) ==> Valid(r)
  {
    s.(input := text)
  }

  /**
   * `shortenUrl` up to the `setTimeout`: a rejection leaves the session as it
   * was; acceptance raises the loading flag and schedules the completion.
   * The flag is not consulted: the button is disabled while loading, but
   * Enter in the field still submits.
   */
  function Submit(s: Session): (r: SubmitOutcome)
    ensures r == Rejected(EmptyInput) <==> IsBlank(s.input)
    ensures r == Rejected(InvalidFormat) <==> !IsBlank(s.input) && !MatchesUrlPattern(s.input)
    ensures r.Accepted? <==> MatchesUrlPattern(s.input)
    ensures r.Accepted? ==>
      && r.next.entries == s.entries
      && r.next.input == s.input
      && r.next.loading
      && r.next.pending == s.pending + [s.input]
  {
    match Validate(s.input)
    case Reject(reason) => Rejected(reason)
    case Pass => Accepted(s.(loading := true, pending := s.pending + [s.input]))
  }

  /**
   * The timer callback: a new entry for the URL captured at submission goes
   * in front of the list, the field is cleared and the loading flag dropped.
   */
  function Complete(s: Session, code: string, createdAt: Timestamp): (r: Session)
    requires |s.pending| > 0
    ensures |r.entries| == |s.entries| + 1 && r.entries[1..] == s.entries
    ensures var e := r.entries[0];
      && e.id == code
      && e.originalUrl == s.pending[0]
      && e.shortUrl == ShortUrlBase + code
      && e.clicks == 0
      && e.createdAt == createdAt
    ensures r.input == "" && !r.loading
    ensures r.pending == s.pending[1..]
  {
    var e := NewEntry(s.pending[0], code, createdAt);
    Session(Insert(s.entries, e), "", false, s.pending[1..])
  }

  /** Acceptance keeps the session invariant: the queued URL passed the check. */
  lemma SubmitPreservesValid(s: Session)
    requires Valid(s) && MatchesUrlPattern(s.input)
    ensures Submit(s).Accepted? && Valid(Submit(s).next)
  {
  }

  /** Completion keeps the session invariant when the code is one `generateShortCode` can produce. */
  lemma CompletePreservesValid(s: Session, code: string, createdAt: Timestamp)
    requires Valid(s) && |s.pending| > 0 && ValidCode(code)
    ensures Valid(Complete(s, code, createdAt))
  {
  }

  /**
   * The format check sees the text untrimmed: a leading blank character is
   * rejected as malformed, trailing text after a good URL is accepted.
   */
  lemma FormatCheckIsUntrimmed(s: Session, url: string, c: char, tail: string)
    requires MatchesUrlPattern(url) && IsTrimmable(c)
    ensures Submit(Edit(s, [c] + url)) == Rejected(InvalidFormat)
    ensures Submit(Edit(s, url + tail)).Accepted?
  {
    MatchImpliesNotBlank(url);
    assert ([c] + url)[1..] == url;
    LeadingTrimmableDefeatsPattern(c, url);
    SuffixKeepsPattern(url, tail);
  }

  /** An empty or all-blank field is reported as empty, never as malformed. */
  lemma ExampleEmptyInputs(s: Session)
    ensures Submit(Edit(s, "")) == Rejected(EmptyInput)
    ensures Submit(Edit(s, " \t\n")) == Rejected(EmptyInput)
  {
  }

  /** Text with no scheme is malformed. */
  lemma ExampleNotAUrl(s: Session)
    ensures Submit(Edit(s, "not-a-url")) == Rejected(InvalidFormat)
  {
    var u := "not-a-url";
    assert !IsTrimmable(u[0]);
    assert u[..4] != "http" by { assert u[0] != 'h'; }
  }

  /** A plain https URL is accepted with the field kept for the timer. */
  lemma ExampleAccepted(s: Session)
    ensures var u := "https://example.com/page";
      && Submit(Edit(s, u)).Accepted?
      && Submit(Edit(s, u)).next.pending == s.pending + [u]
  {
    var u := "https://example.com/page";
    assert HasSchemeThenLine(u, HttpsPrefix) by {
      assert u[..8] == HttpsPrefix;
      assert u[8] == 'e';
    }
  }

  /**
   * The URL stored is the text as it stood when submitted, even if the field
   * was edited while the timer ran; completion then clears the field.
   */
  lemma StoresInputAsSubmitted(s: Session, text: string, code: string, createdAt: Timestamp)
    requires s.pending == [] && MatchesUrlPattern(s.input)
    ensures var s1 := Submit(s).next;
      var s2 := Edit(s1, text);
      var s3 := Complete(s2, code, createdAt);
      && s1.loading && s2.loading
      && s3.entries[0].originalUrl == s.input
      && s3.entries[1..] == s.entries
      && s3.input == ""
      && !s3.loading
      && s3.pending == []
  {
  }

  /**
   * Enter in the field submits even while loading; the first completion then
   * lowers the flag although a second one is still pending.
   */
  lemma SubmitWhileLoading(s: Session, code: string, createdAt: Timestamp)
    requires s.pending == [] && MatchesUrlPattern(s.input)
    ensures Submit(s).Accepted? && Submit(s).next.loading
    ensures Submit(Submit(s).next).Accepted?
    ensures var s2 := Submit(Submit(s).next).next;
      var s3 := Complete(s2, code, createdAt);
      && !s3.loading
      && s3.pending == [s.input]
  {
  }

  /**
   * No deduplication: the same URL shortened twice, even under the same code,
   * gives two entries, and the registry stays well formed.
   */
  lemma DuplicatesAreKept(s: Session, code: string, t1: Timestamp, t2: Timestamp)
    requires Valid(s) && s.pending == [] && MatchesUrlPattern(s.input) && ValidCode(code)
    ensures var url := s.input;
      var s1 := Complete(Submit(s).next, code, t1);
      var s2 := Complete(Submit(Edit(s1, url)).next, code, t2);
      && |s2.entries| == |s.entries| + 2
      && s2.entries[0].id == s2.entries[1].id == code
      && s2.entries[0].originalUrl == s2.entries[1].originalUrl == url
      && s2.entries[2..] == s.entries
      && Valid(s2)
  {
  }

  /** Two queued submissions complete newest first in the list: A then B gives [B, A]. */
  lemma CompletionOrder(s: Session, a: string, b: string, c1: string, c2: string, t1: Timestamp, t2: Timestamp)
    requires s.pending == [a, b]
    ensures var r := Complete(Complete(s, c1, t1), c2, t2);
      && r.entries == [NewEntry(b, c2, t2), NewEntry(a, c1, t1)] + s.entries
      && r.pending == []
  {
  }
}
