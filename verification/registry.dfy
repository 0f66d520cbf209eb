/**
 * The `ShortenedUrl` record and the session registry: an in-memory list of
 * entries, newest first, that only ever grows at its head.
 */
module Registry {
  import opened UrlPattern
  import opened ShortCode

  /** Milliseconds since the epoch; `new Date()` is read outside the model. */
  type Timestamp = int

  const ShortUrlBase := "https://short.ly/"

  datatype ShortenedUrl = ShortenedUrl(
    id: string,
    originalUrl: string,
    shortUrl: string,
    clicks: int,
    createdAt: Timestamp)

  /** An entry as the submission flow builds it. */
  predicate WellFormedEntry(e: ShortenedUrl) {
    && ValidCode(e.id)
    && e.shortUrl == ShortUrlBase + e.id
    && e.clicks == 0
    && MatchesUrlPattern(e.originalUrl)
  }

  predicate WellFormed(entries: seq<ShortenedUrl>) {
    forall i :: 0 <= i < |entries| ==> WellFormedEntry(entries[i])
  }

  /** The record built in the completion callback; the URL is kept as typed. */
  function NewEntry(url: string, code: string, createdAt: Timestamp): (e: ShortenedUrl)
    ensures e.originalUrl == url && e.clicks == 0 && e.createdAt == createdAt
    ensures ValidCode(code) && MatchesUrlPattern(url) ==> WellFormedEntry(e)
    ensures StartsWith(e.shortUrl, ShortUrlBase) && e.shortUrl[|ShortUrlBase|..] == e.id == code
  {
    ShortenedUrl(code, url, ShortUrlBase + code, 0, createdAt)
  }

  /** `prev => [newUrl, ...prev]`: the entry goes in front, the rest follow unchanged. */
  function Insert(entries: seq<ShortenedUrl>, e: ShortenedUrl): (r: seq<ShortenedUrl>)
    ensures |r| == |entries| + 1
    ensures r[0] == e && r[1..] == entries
    ensures WellFormedEntry(e) && WellFormed(entries) ==> WellFormed(r)
  {
    [e] + entries
  }

  function Reverse<T>(s: seq<T>): (r: seq<T>)
    ensures |r| == |s|
    ensures forall i :: 0 <= i < |s| ==> r[i] == s[|s| - 1 - i]
  {
    if s == [] then [] else Reverse(s[1..]) + [s[0]]
  }

  /** Inserting the entries of `es` one after another, first to last. */
  function InsertAll(entries: seq<ShortenedUrl>, es: seq<ShortenedUrl>): (r: seq<ShortenedUrl>)
    decreases |es|
  {
    if es == [] then entries else InsertAll(Insert(entries, es[0]), es[1..])
  }

  /** Newest first: inserting A then B yields [B, A] ahead of what was there. */
  lemma {:induction false} InsertAllReverses(entries: seq<ShortenedUrl>, es: seq<ShortenedUrl>)
    ensures InsertAll(entries, es) == Reverse(es) + entries
    decreases |es|
  {
    if es != [] {
      InsertAllReverses(Insert(entries, es[0]), es[1..]);
      assert Reverse(es) == Reverse(es[1..]) + [es[0]];
    }
  }

  /** The entry's short URL would itself pass the format check. */
  lemma ShortUrlMatchesPattern(url: string, code: string, createdAt: Timestamp)
    ensures MatchesUrlPattern(NewEntry(url, code, createdAt).shortUrl)
  {
  }
}
