# URL shortener submission flow in Dafny

This project models the only logic in the `UrlShortener` React component: a
user types a URL, presses the button (or Enter), the input is validated, and
after a simulated one-second delay a `ShortenedUrl` entry with a random
six-character-at-most code is put at the front of an in-memory list.

The model is functional. A `Session` holds the list of entries (newest first),
the text field, the `isLoading` flag and the queue of URLs captured by timers
that have not fired yet. `Submit` is the synchronous part of `shortenUrl`.
`Complete` is the `setTimeout` callback. `Edit` is the field's `onChange`.
A rejection carries no session, so the caller keeps the one it had and nothing changes.

Modules, one per concern:

- `JsText`: JavaScript's white-space and line-terminator classes, `trim` and `substring`.
- `UrlPattern`: the pattern `/^https?:\/\/.+/`, both as a predicate and as a matcher method proved equal to it.
- `ShortCode`: `generateShortCode`, i.e. `substring(2, 8)` of a base-36 rendering.
- `Registry`: the `ShortenedUrl` record, entry construction and prepend insertion.
- `Shortener`: the session state machine and the properties of the flow.

Three facts about the code that are easy to overlook:

- `substring(2, 8)` gives at most six characters, and none at all when `Math.random()` returns 0, so only the bound is stated (`ShortCode.CodeMayBeShort`).
- Nothing checks that entry ids are unique. `Shortener.DuplicatesAreKept` shows two entries sharing a code.
- The button is disabled while loading, but the Enter key handler calls `shortenUrl` all the same, so `Submit` does not consult the flag. `Shortener.SubmitWhileLoading` shows the first completion lowering the flag while a second is still queued.

## Model

| member | source | states |
|---|---|---|
| JsText.TrimStart | src/components/UrlShortener.tsx:27 | the result is a suffix of the input, everything dropped is white space or a line terminator, and it does not start with such a character |
| JsText.TrimEnd | src/components/UrlShortener.tsx:27 | the result is a prefix of the input, everything dropped is trimmable, and it does not end with a trimmable character |
| JsText.Trim | src/components/UrlShortener.tsx:27 | `url.trim()` is the slice of the input between a blank leading run and a blank trailing run, and neither begins nor ends with a white-space or line-terminator character |
| JsText.TrimEmptyIffBlank | src/components/UrlShortener.tsx:27 | `url.trim()` is empty exactly when every character of `url` is white space or a line terminator |
| JsText.JsSubstring | src/components/UrlShortener.tsx:23 | `substring` never grows the string and equals the plain slice for in-range ordered positions |
| JsText.JsSubstringSymmetric | src/components/UrlShortener.tsx:23 | `substring(a, b)` and `substring(b, a)` agree |
| JsText.JsSubstringPastEnd | src/components/UrlShortener.tsx:23 | an end position beyond the string reads to its end, so a short rendering gives a short code |
| UrlPattern.MatchUrlPattern | src/components/UrlShortener.tsx:36 | the matcher succeeds exactly when the input starts with `http://` or `https://` followed by a non-line-terminator; the match is a prefix of the input that stops at the first line terminator or the end |
| UrlPattern.MatchImpliesNotBlank | src/components/UrlShortener.tsx:27-36 | any string passing the format check is not blank, so the two failure kinds never overlap |
| UrlPattern.LeadingTrimmableDefeatsPattern | src/components/UrlShortener.tsx:36 | a string starting with a white-space or line-terminator character never matches the pattern |
| UrlPattern.SuffixKeepsPattern | src/components/UrlShortener.tsx:36 | anything appended to a matching string keeps it matching |
| ShortCode.GenerateShortCode | src/components/UrlShortener.tsx:22-24 | for every rendering `toString(36)` can give of a number in [0, 1), the code has at most six characters, all in `[0-9a-z]`, and is non-empty unless the number was 0 |
| ShortCode.CodeTakesFirstSixDigits | src/components/UrlShortener.tsx:23 | with six or more fraction digits the code is exactly the first six |
| ShortCode.CodeMayBeShort | src/components/UrlShortener.tsx:23 | the renderings "0.i" and "0" give the codes "i" and "", so six characters are not guaranteed |
| Registry.NewEntry | src/components/UrlShortener.tsx:50-56 | the new entry keeps the URL exactly as given, has id = code, `shortUrl` = "https://short.ly/" followed by the code (which can be read back from it), clicks = 0 and the given timestamp; it is well formed when the code is valid and the URL passed the check |
| Registry.Insert | src/components/UrlShortener.tsx:58 | the list grows by one, the new entry is at the head, the old entries follow unchanged and in order, and well-formedness is kept |
| Registry.InsertAllReverses | src/components/UrlShortener.tsx:58 | inserting entries one after another leaves them newest first ahead of the old list: A then B gives [B, A] |
| Registry.ShortUrlMatchesPattern | src/components/UrlShortener.tsx:53 | the synthesized short URL would itself pass the format check |
| Shortener.Init | src/components/UrlShortener.tsx:17-19 | the initial session has no entries, is not loading, and satisfies the session invariant |
| Shortener.Validate | src/components/UrlShortener.tsx:27-43 | EmptyInput exactly for blank input; InvalidFormat exactly for non-blank input failing the pattern; Pass exactly for input matching the pattern |
| Shortener.Edit | src/components/UrlShortener.tsx:106 | typing replaces the field only: list, flag and queued timers are unchanged and the invariant is kept |
| Shortener.Submit | src/components/UrlShortener.tsx:26-48 | rejection reasons in the source's order, with blank input never reported as malformed; acceptance exactly for matching input, leaving the list and field alone, raising the flag and queueing the untrimmed field text |
| Shortener.Complete | src/components/UrlShortener.tsx:48-60 | exactly one entry is prepended, for the oldest queued URL, with the given code and clicks = 0; the old entries follow unchanged; the field is cleared and the flag lowered |
| Shortener.SubmitPreservesValid | src/components/UrlShortener.tsx:36-48 | input matching the pattern is accepted, and afterwards every queued URL passes the check and a raised flag has a queued timer behind it |
| Shortener.CompletePreservesValid | src/components/UrlShortener.tsx:49-60 | with a code `generateShortCode` can produce, completion keeps every entry well formed and every queued URL valid |
| Shortener.FormatCheckIsUntrimmed | src/components/UrlShortener.tsx:36 | a valid URL behind a leading blank character is rejected as InvalidFormat, and one followed by any text is accepted |
| Shortener.ExampleEmptyInputs | src/components/UrlShortener.tsx:27-34 | "" and " \t\n" are rejected as EmptyInput |
| Shortener.ExampleNotAUrl | src/components/UrlShortener.tsx:36-43 | "not-a-url" is rejected as InvalidFormat |
| Shortener.ExampleAccepted | src/components/UrlShortener.tsx:36-48 | "https://example.com/page" is accepted and queued as typed |
| Shortener.StoresInputAsSubmitted | src/components/UrlShortener.tsx:48-59 | the stored URL is the text at submission even if the field is edited during the delay; the flag stays up until completion, which clears the field and lowers it |
| Shortener.SubmitWhileLoading | src/components/UrlShortener.tsx:108-112 | Enter submits again while loading; after the first completion the flag is down with one timer still queued |
| Shortener.DuplicatesAreKept | src/components/UrlShortener.tsx:49-58 | the same URL shortened twice under the same code gives two entries and a valid session |
| Shortener.CompletionOrder | src/components/UrlShortener.tsx:58 | completing queued A then B leaves [B, A] ahead of the old entries and an empty queue |

## Left out

- Rendering (the JSX at src/components/UrlShortener.tsx:77-220), toasts, `navigator.clipboard.writeText` and `window.open`: user-interface and browser effects. Copy and visit only read `shortUrl` and never change the list.
- `Math.random()` and its base-36 float rendering: floating-point randomness. `GenerateShortCode` takes the rendering as a parameter of the right shape, and `Complete` takes the code itself.
- The one-second `setTimeout` delay: the timer is the separate `Complete` step. Equal-delay timers fire in the order they were scheduled, so `Complete` serves the oldest queued URL. `Complete` requires a queued URL because the callback only exists once scheduled.
- `createdAt: new Date()`: the clock is an opaque `Timestamp` parameter.
- React's batching of the three state updates in the callback: they are applied as one step.
- React's warning for duplicate `key={item.id}` values: rendering only.
- src/components/UrlAnalytics.tsx, src/pages/Index.tsx and src/components/Header.tsx: hard-coded chart data and layout markup with no computation.
- The text field is an `<Input type="url">`, and browsers strip line breaks from such a field. The model treats the field value as an arbitrary string, so `Edit` and the examples admit strings (such as one containing a newline) that the field might never hold.
- Characters are Unicode scalar values, not UTF-16 code units. This makes no difference to the model, because no surrogate is white space or a line terminator.
