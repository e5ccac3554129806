# TikTok downloader front end: validation, normalisation and display

The page takes a TikTok link, checks it, asks a third-party API for the
content behind it and renders the answer: a video with a download link, or a
photo post with its gallery. This project models the decision logic of
`script.js` and proves what it guarantees:

- Module `JsRegex` models the fragment of JavaScript regular expressions the
  validator needs. Patterns are sequences of literals, `k+` and `k*` over the
  classes `\d`, `[\w-]`, `[\w.-]` and `.` (`\w` occurs only inside the
  bracketed classes). The module gives two
  meanings. `MatchesAt` is the declarative one: which substrings a pattern
  denotes. `Test` is a greedy backtracking search like `RegExp.prototype.test`.
  The lemmas prove that the two agree.
- Module `UrlValidator` models `isValidTikTokUrl`: the seven patterns tried in
  order, with `some` stopping at the first that matches anywhere in the string.
- Module `InputGate` models the start of `handleDownload`. The input is passed
  through ECMAScript `trim`; an empty result is reported as missing, an
  unrecognised one as invalid, and anything else goes on to a request.
- Module `FetchClient` models `fetchTikTokData`. The request's outcome is an
  input: a network failure, an abort, or a response with its `ok` flag and its
  parsed body. A successful reply's `data` becomes the content descriptor, with
  JavaScript's `||` fallbacks and the photo/video split. Every failure inside
  the `try` becomes one generic error.
- Module `Display` models `displayResult`: the title, the `@` author line, the
  content-type label, and which panels it switches on.
- Module `HandleDownload` composes these into one run of the click handler,
  from the page before the click to the page after the request settles.

JavaScript values are modelled as follows. `undefined` and `null` become
`Option.None`. A string field is truthy when it is present and non-empty. `a ||
b || c` is `FetchClient.OrChain`, which returns the first truthy operand or
else the last operand, exactly as JavaScript does.

Three behaviours of the code are easy to misread. The model follows the code
each time:

- The validator has seven patterns. The seventh is the `tiktok.com/t/` short
  link.
- A cancelled request is not ignored silently. The comment at script.js:124
  says a request the user cancelled shows no error, but the `catch` in
  `fetchTikTokData` (script.js:169-171) rewraps every error, an abort
  included, into a plain `Error`. So the `AbortError` test in `handleDownload`
  never holds, and the generic message is shown (`FetchClient.AbortRewrapped`,
  `HandleDownload.FailedRequest`).
- A descriptor does not always carry exactly one of a video URL and an image
  list. A reply with no images and no truthy play field gives video content
  with no URL (`FetchClient.NeitherMediaPossible`, `FetchClient.NeitherMediaExample`).

## Model

| member | source | states |
|---|---|---|
| JsRegex.Test | script.js:186 | the definition of `pattern.test(url)`: a leftmost, greedy backtracking search; its contract is stated by JsRegex.TestCorrect |
| JsRegex.TestCorrect | script.js:186 | `pattern.test(s)` holds exactly when the pattern matches some substring of s, starting at any offset: the test is unanchored |
| JsRegex.OccursExtend | script.js:186 | a pattern occurring in s still occurs after any text is put before and after s |
| UrlValidator.AnyTest | script.js:186 | the definition of `patterns.some(p => p.test(url))`; its contract is stated by UrlValidator.AnyTestExists |
| UrlValidator.IsValidTikTokUrl | script.js:175-187 | the definition of `isValidTikTokUrl` over the seven patterns; its contract is stated by UrlValidator.ValidIffSomePatternOccurs, AcceptedNamesHost, EmptyRejected, ValidExtend, ValidWithoutHandlePatterns and the five LinkAccepted lemmas |
| UrlValidator.AnyTestExists | script.js:186 | `patterns.some(p => p.test(url))` holds exactly when some pattern in the list tests true |
| UrlValidator.ValidIffSomePatternOccurs | script.js:176-186 | there are seven patterns, and a URL is accepted exactly when one of them matches a substring of it somewhere |
| UrlValidator.AcceptedNamesHost | script.js:176-186 | every accepted string contains `tiktok.com` and is at least as long as it |
| UrlValidator.EmptyRejected | script.js:175-187 | the empty string is rejected |
| UrlValidator.ValidExtend | script.js:176-186 | acceptance survives arbitrary text before and after the URL |
| UrlValidator.ByHandleWithinAnyPath | script.js:177-180 | a pattern starting `tiktok\.com\/@[\w.-]+` matches only where the same pattern starting `tiktok\.com\/.*` matches |
| UrlValidator.HandlePatternsRedundant | script.js:177-180 | every match of pattern 1 is a match of pattern 2, and every match of pattern 3 is a match of pattern 4 |
| UrlValidator.ValidWithoutHandlePatterns | script.js:176-186 | dropping patterns 1 and 3 changes no verdict |
| UrlValidator.LiteralThenPlus | script.js:181-183 | a literal followed by `k+` occurs exactly when the literal occurs and is followed by one character of class k |
| UrlValidator.VmShortLinkOccurs | script.js:181 | pattern 5 matches exactly where `vm.tiktok.com/` is followed by a word character or `-` |
| UrlValidator.VtShortLinkOccurs | script.js:182 | pattern 6 matches exactly where `vt.tiktok.com/` is followed by a word character or `-` |
| UrlValidator.TShortLinkOccurs | script.js:183 | pattern 7 matches exactly where `tiktok.com/t/` is followed by a word character or `-` |
| UrlValidator.ShortLinkAccepted | script.js:181 | `https://vm.tiktok.com/` followed by a code that starts with a word character or `-` is accepted |
| UrlValidator.ByHandleLinkMatches | script.js:177-180 | `https://www.tiktok.com/@` + handle + middle literal + id matches the by-handle shape from the host to the end, for every non-empty `[\w.-]` handle and every non-empty digit string |
| UrlValidator.VideoLinkAccepted | script.js:177 | every `https://www.tiktok.com/@user/video/id` with a non-empty `[\w.-]` handle and a non-empty numeric id is accepted |
| UrlValidator.PhotoLinkAccepted | script.js:179 | every `https://www.tiktok.com/@user/photo/id` with a non-empty `[\w.-]` handle and a non-empty numeric id is accepted |
| UrlValidator.VtShortLinkAccepted | script.js:182 | `https://vt.tiktok.com/` followed by a code that starts with a word character or `-` is accepted |
| UrlValidator.TShortLinkAccepted | script.js:183 | `https://www.tiktok.com/t/` followed by a code that starts with a word character or `-` is accepted |
| InputGate.TrimStart | script.js:96 | the result is the suffix of the input after its leading whitespace, and it does not start with whitespace |
| InputGate.TrimEnd | script.js:96 | the result is the prefix of the input before its trailing whitespace, and it does not end with whitespace |
| InputGate.Trim | script.js:96 | the result is a middle slice of the input with only whitespace cut off either side, and it neither starts nor ends with whitespace |
| InputGate.TrimEmptyIff | script.js:96-99 | trimming gives the empty string exactly when the input is all whitespace |
| InputGate.TrimIdempotent | script.js:96 | trimming twice is trimming once |
| InputGate.TrimPadded | script.js:96 | whitespace added before and after the input does not change the trimmed value |
| InputGate.Gate | script.js:96-106 | the definition of the gate: trim, then the empty check, then the validator; its contract is stated by InputGate.GateOutcomes, ProceedNamesHost and GateIgnoresPadding |
| InputGate.GateOutcomes | script.js:96-106 | blank input gives "Please enter a TikTok URL"; non-blank input the validator rejects gives "Please enter a valid TikTok URL"; otherwise the gate proceeds with the trimmed input, and these are the only outcomes |
| InputGate.ProceedNamesHost | script.js:96-106 | what the gate lets through is already trimmed and contains `tiktok.com` |
| InputGate.GateIgnoresPadding | script.js:96-106 | surrounding whitespace never changes the gate's decision |
| FetchClient.OrChain | script.js:161-164 | the value of a chain of JavaScript or-operators is one of its operands, and is truthy when the last operand is |
| FetchClient.OrChainValue | script.js:161-164 | a chain of or-operators is truthy exactly when some operand is; then it is the first truthy operand, and otherwise it is the last operand |
| FetchClient.AuthorField | script.js:162 | the definition of `data.author?.unique_id` and `data.author?.nickname`; stated through FetchClient.AuthorFallback |
| FetchClient.HasImages | script.js:158 | the definition of `data.images && data.images.length > 0`; stated through FetchClient.PhotoClassification |
| FetchClient.Normalize | script.js:158-168 | the definition of the descriptor built from `data`; its contract is stated by FetchClient.PhotoClassification, VideoUrlPriority, TitleFallback, AuthorFallback, ThumbnailFallback, NeverBothMedia and NeitherMediaPossible |
| FetchClient.FetchTikTokData | script.js:137-172 | the definition of `fetchTikTokData` given how its request ended; its contract is stated by FetchClient.FetchOutcome, UpstreamMessageDiscarded and AbortRewrapped |
| FetchClient.FetchOutcome | script.js:148-171 | the fetch succeeds exactly on an OK reply whose body parses, whose `code` is 0 and which has `data`, and then returns the normalised `data`; every other outcome is an `Error` with "Unable to fetch content. Please check the URL and try again." |
| FetchClient.UpstreamMessageDiscarded | script.js:154-171 | the reply's `msg` never affects the outcome |
| FetchClient.AbortRewrapped | script.js:169-171 | an aborted request fails with the generic error, whose name is not `AbortError` |
| FetchClient.PhotoClassification | script.js:158-166 | content is a photo exactly when `images` is present and non-empty; a photo has no video URL and its images verbatim; anything else has no image list |
| FetchClient.VideoUrlPriority | script.js:164 | the video URL is the first truthy of `hdplay`, `play` and `wmplay`; it is truthy exactly when one of them is, and otherwise it is `wmplay` as given |
| FetchClient.TitleFallback | script.js:161 | the title is the reply's title when truthy, else "TikTok Content", and is never empty |
| FetchClient.AuthorFallback | script.js:162 | the author is `unique_id`, else `nickname`, else "@tiktok"; a missing author object gives "@tiktok"; the author is never empty |
| FetchClient.ThumbnailFallback | script.js:163 | the thumbnail is `cover` when truthy, else `origin_cover` as given, and it is truthy exactly when one of the two is |
| FetchClient.NeverBothMedia | script.js:158-167 | a descriptor never has both a truthy video URL and an image list; it has an image list exactly when it is a photo; the duration passes through |
| FetchClient.NeitherMediaPossible | script.js:158-166 | every reply without images and without a truthy play field gives video content with no image list and no usable URL |
| FetchClient.NeitherMediaExample | script.js:158-166 | such a reply exists: an empty image list and an empty `hdplay` |
| Display.DigitChar | script.js:199 | the character is the decimal digit of the given value |
| Display.DecimalString | script.js:199 | the rendered count is a non-empty string of decimal digits with no leading zero, and 0 is rendered as exactly "0" |
| Display.DecimalRoundTrip | script.js:199 | reading the rendered count back as a decimal gives the count |
| Display.AuthorHandle | script.js:194-196 | the author line always starts with `@` and ends with the author's text |
| Display.AuthorHandleFixed | script.js:194-196 | an author that starts with `@` is shown unchanged, so prefixing is idempotent; an empty author shows as "@tiktok" |
| Display.AuthorHandleNames | script.js:194-196 | a non-empty author is shown as `@` plus its name without a leading `@`, so two authors look the same exactly when their names agree once that `@` is removed |
| Display.ContentLabel | script.js:198-204 | the definition of the content-type label; its contract is stated by Display.PhotoLabelCount and DisplayTexts |
| Display.PhotoLabelCount | script.js:198-204 | a photo label is "PHOTO · ", the digits of the image count and " IMAGES"; the count can be read back, different counts give different labels, and no photo label equals a video label |
| Display.DisplayResult | script.js:189-215 | the definition of what `displayResult` renders; its contract is stated by Display.DisplayPanels, DisplayTexts and FetchedDisplayable |
| Display.DisplayPanels | script.js:198-215 | the result is shown; the gallery is on exactly for photos, with their images; video options are on exactly when the content is not a photo and has a truthy URL, and only then is the download link set, to that URL; the two panels are never both on |
| Display.DisplayTexts | script.js:192-204 | the title is the descriptor's title, or exactly "TikTok Content" when that is empty, and is never empty; the author line is the `@` handle of the author, so AuthorHandleFixed and AuthorHandleNames apply to it; the label is the photo label with the image count, or "VIDEO" |
| Display.FetchedDisplayable | script.js:121-123 | every descriptor the fetch returns can be displayed; its title is shown as is, and the gallery is on exactly when the reply had images |
| HandleDownload.ReportError | script.js:124-129 | the definition of the `catch` block: an `AbortError` is dropped, any other error shows its message or the fallback text; HandleDownload.FailedRequest shows the first branch is never taken |
| HandleDownload.Run | script.js:95-134 | the definition of one run of `handleDownload`; its contract is stated by HandleDownload.RejectedInput, AcceptedInput, FailedRequest and SuccessfulRequest |
| HandleDownload.RejectedInput | script.js:96-106 | a request is made exactly when the gate proceeds; on rejection only the input's error style and the toast change, and blank input shows "Please enter a TikTok URL" |
| HandleDownload.AcceptedInput | script.js:96-133 | an accepted input requests the trimmed URL, which the validator accepts, and the spinner is off afterwards |
| HandleDownload.FailedRequest | script.js:117-133 | any failed request, an abort included, hides the result, marks the input, shows the generic fetch message and keeps the previous data; an abort ends exactly like a network failure |
| HandleDownload.SuccessfulRequest | script.js:117-133 | a successful request stores the descriptor, renders it, shows the result and clears the input's error style |

## Left out

- DOM lookup, event listeners, the preview modal, the photo-grid construction and its load callbacks (script.js:11-92, 223-296) are page plumbing. The model records only the image list handed to the grid.
- The network call is not modelled: endpoints, headers and `encodeURIComponent` of the query (script.js:1-5, 137-146). Each run takes the request's outcome as an input, and the request is represented by the trimmed URL.
- The `AbortController` bookkeeping (script.js:108-115, 132-133) is left out because it only matters when runs interleave. What an abort does to a single run is modelled by the `Aborted` outcome.
- Clipboard access, toast timers, the paste handler's debounce and the `input` listener (script.js:44-66, 298-333) involve timers and OS services. A toast is modelled as its message only.
- JSON parsing is not modelled; the body is given already parsed. String fields are modelled as strings, so non-string JSON values in those fields (a numeric title, a non-array `images`) are not represented.
- `console.error` logging and the `content-loaded` animation timer (script.js:129, 170, 217-220) are left out.
- FetchClient.Normalize: `isPhoto` is a boolean. In the source it is whatever the `&&` expression yields (`undefined`, `null`, `false` or `true`), but only its truthiness is ever used.
- FetchClient.RawData: `duration` is an optional integer. Any other JSON value is not represented; the value is passed through unchanged.
- Display.DisplayResult requires a photo descriptor to have its image list. Without one the source would throw reading `length`. `Display.FetchedDisplayable` shows that every fetched descriptor meets this.
- Display.DisplayResult: a link the call does not set is recorded as `None`, meaning "left as it was". The previous run's download link is not tracked.
- Strings are sequences of Unicode scalar values, while JavaScript strings, regexes without the `u` flag and `trim` work on UTF-16 code units. For these patterns and this whitespace set the results agree, but a lone surrogate cannot be represented. Such an input, for example `https://vm.tiktok.com/Z` followed by a lone U+D800, passes the gate (pattern 5 matches it) and then makes `encodeURIComponent` throw a `URIError` at script.js:137. That call is outside the `try`, so it is not rewrapped and the handler shows the `URIError`'s own message instead of the generic fetch message; the model does not capture this path.
- HandleDownload.Run: the state while the request is pending, with the spinner on and the result hidden, is not returned separately. The preview and copy buttons that read `currentVideoData` (script.js:68-78) are not part of this model.
