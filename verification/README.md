# RAR ITP checker: the fetch pipeline in Dafny

This project models the fetch pipeline of the RAR ITP checker, a Home Assistant
integration. The pipeline looks up a vehicle's roadworthiness inspection (ITP) record on
the Romanian Auto Register's web portal:

- load the query page;
- download its numeric CAPTCHA image;
- have a Tesseract HTTP service read it;
- rebuild the page's form with the VIN and the code;
- post the form;
- detect the portal's "code copied incorrectly" answer and retry;
- parse the answer page into a record holding a status and an expiration date.

A scheduled wrapper repeats the whole fetch when it fails.

The network and the HTML parser are replaced by plain data:

- A page is its list of forms plus the `src` of the CAPTCHA image.
- Every reply an attempt may receive is given in advance as an `Exchange`. An exchange holds
  the landing page, the image download, the OCR reply and the answer to the POST.
- Each of these replies is either an HTTP status with a body, or an exception raised while
  waiting for it.
- The pipeline becomes a set of pure functions over this data. They return the requests
  that would be sent and the result that would be returned.

Modules, following the source's structure:

| module | file | what it holds |
|---|---|---|
| `Results` | results.dfy | `Option` and `Result` |
| `Text` | text.dfy | the string operations the source relies on: strip, `split`, `find`, `upper`, removing non-digits, decimal rendering of a status code |
| `Ocr` | ocr.dfy | the OCR endpoint composition and the normalisation of the service's `text` reply |
| `FormBuilder` | form.dfy | form choice, action-URL resolution, the CAPTCHA image URL, field collection and the VIN/CAPTCHA overrides |
| `ResultParser` | parser.dfy | `MONTH_MAP`, and reading the status and the date from both result-page layouts |
| `Retry` | retry.dfy | the bounded retry loop that the fetch and the scheduled wrapper share |
| `Attempt` | attempt.dfy | one attempt: the requests it sends and how it ends (done, retryable or fatal) |
| `Fetch` | fetch.dfy | up to three attempts per fetch, the final error texts, the record, and the scheduled wrapper's three fetches |

Some of the code's behaviour is easy to miss when reading it, and the model keeps it:

- Every error of the OCR client is re-raised under the single text `OCR processing failed`.
  So an OCR failure always ends an attempt with
  `OCR API failed: OCR processing failed`.
- Only the source's own `UpdateFailed` errors are retried by the attempt loop. An exception
  raised by the HTTP client ends the fetch at once. The loop of `fetch_itp` catches only
  `UpdateFailed`; the outer handler turns everything else into `ITP check failed: ...`.
- Every failure of the fetch carries the `ITP check failed: ` prefix. When the third
  attempt fails, the text is `ITP check failed: Failed after 3 attempts: <cause>`. The
  scheduled wrapper re-raises the third fetch's error unchanged.
- `MONTH_MAP` spells September `sept`. A date written `5-sep-2026` therefore reads as
  `2026-01-05`, because unknown abbreviations map to `01` (`ResultParser.SepReadsAsJanuary`).
- The check `if not captcha_text` can never fire. The OCR client only returns codes of
  1 to 4 digits.
- The older layout looks for the text node containing `Data expirării` in its original
  case. The page-level test for that layout uses the lower-cased text.

## Model

| member | source | states |
|---|---|---|
| Text.Digits | custom_components/rar_itp_checker/sensor.py:114 | removing non-digits leaves only digits, never lengthens the text, and leaves an all-digit text as it is |
| Text.DigitsConcat | custom_components/rar_itp_checker/sensor.py:286 | removing non-digits distributes over concatenation |
| Text.DigitsOfStrip | custom_components/rar_itp_checker/sensor.py:107-114 | stripping whitespace before removing non-digits loses no digit |
| Text.FindFrom | custom_components/rar_itp_checker/sensor.py:369 | the search returns the first occurrence at or after the start, or reports none |
| Text.AfterFirst | custom_components/rar_itp_checker/sensor.py:369 | `split(marker, 1)[1]` is what follows the first occurrence of the marker |
| Text.TakeUntil | custom_components/rar_itp_checker/sensor.py:165-168 | `split("#", 1)[0]` is the longest prefix without `#`, ending where the first `#` stands |
| Text.SplitOn | custom_components/rar_itp_checker/sensor.py:371 | `split(c)` yields one more part than there are separators; no part contains the separator; the parts joined by it give back the input |
| Text.SplitOnJoin | custom_components/rar_itp_checker/sensor.py:371 | splitting parts joined by a separator they do not contain gives the parts back |
| Text.FirstWord | custom_components/rar_itp_checker/sensor.py:370 | `split()[0]` is missing exactly when the text is blank, and is otherwise a non-empty run without whitespace |
| Text.FirstWordAfterBlanks | custom_components/rar_itp_checker/sensor.py:370 | the first word of blanks, a word and a text starting with whitespace is that word |
| Text.Upper | custom_components/rar_itp_checker/sensor.py:191 | upper-casing keeps the length, leaves no lower-case ASCII letter, and changes only lower-case letters, each to its capital |
| Text.UpperIdempotent | custom_components/rar_itp_checker/sensor.py:191 | upper-casing twice is upper-casing once |
| Text.NatToString | custom_components/rar_itp_checker/sensor.py:240 | a status code is rendered as one or more decimal digits that denote it, without a leading zero except for zero itself; a single digit exactly below ten |
| Ocr.EffectiveHost | custom_components/rar_itp_checker/sensor.py:513-516 | the configured host is already stripped; it is empty exactly when both the options value and the data value are blank after stripping; a non-blank options value wins, and otherwise the data value is used |
| Ocr.OcrBaseUrl | custom_components/rar_itp_checker/sensor.py:524-537 | a value with an `http://` or `https://` scheme is used as is; a bare host becomes `http://<host>:8000/ocr/file?lang=eng`; nothing configured gives the default endpoint; the endpoint always has a scheme |
| Ocr.WithExpectedLength | custom_components/rar_itp_checker/sensor.py:84-87 | the request URL is the endpoint, then `&` when the endpoint has a `?` and `?` otherwise, then `expected_length=4` |
| Ocr.OneQuerySeparator | custom_components/rar_itp_checker/sensor.py:84-87 | a `?` is added only when the endpoint has none: the request URL has the endpoint's own `?` count when it has one, and exactly one `?` otherwise |
| Ocr.BareHostRequestUrl | custom_components/rar_itp_checker/sensor.py:529-533 | a bare host is called at `http://<host>:8000/ocr/file?lang=eng&expected_length=4` |
| Ocr.DefaultRequestUrl | custom_components/rar_itp_checker/sensor.py:513-541 | with both configured values blank after stripping, the default endpoint is called with `&expected_length=4` |
| Ocr.NormalizeOcrText | custom_components/rar_itp_checker/sensor.py:107-133 | the reply is accepted exactly when it has 1 to 6 digits; blank text is the empty-text error and any other rejection the format error; an accepted code is the first min(n, 4) of its n digits |
| Ocr.FourOrMoreDigitsGiveFirstFour | custom_components/rar_itp_checker/sensor.py:129-131 | a reading of 4 to 6 digits yields exactly its first four |
| Ocr.SolveCaptcha | custom_components/rar_itp_checker/sensor.py:99-133 | only a 200 reply yields a code, which has 1 to 4 digits; another status is an HTTP error; a 200 reply is normalised |
| FormBuilder.SelectForm | custom_components/rar_itp_checker/sensor.py:154-158 | a form is chosen exactly when the page has one; it is the first form named `frm` when there is one, otherwise the first form |
| FormBuilder.FirstNamedFrm | custom_components/rar_itp_checker/sensor.py:154 | it finds nothing exactly when no form is named `frm`, and otherwise the first form so named |
| FormBuilder.ResolveAction | custom_components/rar_itp_checker/sensor.py:160-177 | an action starting with `http` is kept verbatim; otherwise the fragment is dropped and an empty path gives the landing page, a `/` path goes under the portal's origin and any other path under the landing page's directory; the result is always absolute |
| FormBuilder.ResolveActionIdempotent | custom_components/rar_itp_checker/sensor.py:160-177 | a resolved URL resolves to itself |
| FormBuilder.CaptchaUrl | custom_components/rar_itp_checker/sensor.py:251-257 | a `src` starting with `http` is kept; otherwise its leading slashes are dropped and the rest is put under `https://prog.rarom.ro/rarpol/` |
| FormBuilder.CaptchaUrlIdempotent | custom_components/rar_itp_checker/sensor.py:251-257 | a CAPTCHA URL is its own CAPTCHA URL |
| FormBuilder.CollectInputs | custom_components/rar_itp_checker/sensor.py:179-187 | the keys are exactly the non-empty names, and each key holds the value of its last input, or the empty string when that input has no value |
| FormBuilder.ApplyOverrides | custom_components/rar_itp_checker/sensor.py:189-207 | `nr_id` is the upper-cased VIN whether or not it existed; the code goes to `verif_cod` if present, else to `antirobot` if present, else to a new `verif_cod`; `antirobot` is untouched when `verif_cod` exists; only an empty `trimite` is filled with `Caută`; every other field keeps its value; no key is lost or invented |
| FormBuilder.BuildForm | custom_components/rar_itp_checker/sensor.py:144-215 | a page without forms is the "Unable to find form element" error; otherwise the POST URL is the resolved action of the chosen form and the fields are its collected inputs with the overrides applied; the URL is absolute, `nr_id` holds the upper-cased VIN, one CAPTCHA field holds the code, and every other extracted field except `trimite` is posted unchanged |
| ResultParser.MonthCode | custom_components/rar_itp_checker/sensor.py:373 | a known abbreviation gives its `MONTH_MAP` number, any other gives `01`, and the result is always a month number |
| ResultParser.MonthMapInjective | custom_components/rar_itp_checker/sensor.py:34-47 | different abbreviations give different month numbers |
| ResultParser.SepReadsAsJanuary | custom_components/rar_itp_checker/sensor.py:43 | because September is keyed `sept`, the abbreviation `sep` reads as month `01` |
| ResultParser.ZFill2 | custom_components/rar_itp_checker/sensor.py:373 | `zfill(2)` pads to two characters with zeros after any sign and leaves longer texts alone |
| ResultParser.NewFormatDate | custom_components/rar_itp_checker/sensor.py:366-374 | a date is read exactly when a word follows the marker and that word, stripped of blanks and then of dots, has exactly two dashes |
| ResultParser.NewFormatDateFields | custom_components/rar_itp_checker/sensor.py:366-374 | a date read from the current layout has three dash-separated fields: the year, a month number, and a day at least two characters wide |
| ResultParser.LegacyDate | custom_components/rar_itp_checker/sensor.py:379-389 | the older layout yields a date only from a following element whose text has exactly two dots |
| ResultParser.Parse | custom_components/rar_itp_checker/sensor.py:357-389 | the status is `Not Found` exactly when the no-record marker is present, and then the date is `Unknown`; the current layout's date is read when its marker is present, the older layout's otherwise; with neither marker, or any unreadable date, the date is `Unknown` |
| ResultParser.NewFormatDateOf | custom_components/rar_itp_checker/sensor.py:366-374 | a word of `day-mon-year`, possibly wrapped in dots, after any blanks following the marker becomes `year-MM-dd`, with the month looked up (`01` when unknown) and the day zero-padded, whatever the three fields hold, provided they have no blank, dot or dash |
| ResultParser.TokenParts | custom_components/rar_itp_checker/sensor.py:370-371 | a `day-mon-year` word, possibly wrapped in dots, survives `strip().strip(".")` as its token and splits on `-` into exactly its day, month and year |
| ResultParser.StripDotted | custom_components/rar_itp_checker/sensor.py:370 | `strip().strip(".")` of a blank-free word removes exactly the dot runs at its ends |
| ResultParser.NewFormatRoundTrip | custom_components/rar_itp_checker/sensor.py:359-374 | a page with a record whose first `valabilă până la` is followed by blanks and a `day-mon-year` word, possibly wrapped in dots, parses as `Valid` with `year-MM-dd`, the month looked up (`01` when unknown) and the day padded |
| ResultParser.NewFormatExample | custom_components/rar_itp_checker/sensor.py:366-374 | `valabilă până la 5-mar-2026`, with or without a closing dot, parses as `Valid`, expiring `2026-03-05` |
| ResultParser.LegacyRoundTrip | custom_components/rar_itp_checker/sensor.py:378-387 | in the older layout, a next element `d.m.y` parses as `Valid` with `y-m-d`, without padding |
| ResultParser.LegacyExample | custom_components/rar_itp_checker/sensor.py:378-387 | a next element `15.07.2025` parses as `Valid`, expiring `2025-07-15` |
| Retry.Drive | custom_components/rar_itp_checker/sensor.py:234-347 | the loop is exhausted exactly when every try is retryable, and then reports the last try's reason; otherwise it stops at the first try that is not retryable, with that try's value or reason |
| Retry.FirstDecisiveTry | custom_components/rar_itp_checker/sensor.py:338-347 | the first try that is not retryable decides the loop, whatever the later tries would have done |
| Retry.RetryableBeforeLast | custom_components/rar_itp_checker/sensor.py:341-347 | every try before the last one made was retryable |
| Attempt.RunAttempt | custom_components/rar_itp_checker/sensor.py:235-339 | an attempt loads the landing page, then the CAPTCHA image (it gets that far exactly when the page answered 200 with an image `src`, and the image URL is that `src` resolved against the site), then uploads it to the OCR service, which it does exactly when the image download answered 200; it posts the form exactly when every step succeeded and the code has four digits, carrying the upper-cased VIN and that code, and the posted request is the one built from the page's form; a non-200 landing page, a page without a CAPTCHA image, a non-200 image download and an unusable code each end it retryably with their own error; it succeeds only through the post; an exception ends it as fatal with the exception's text, and only the first reply that raised can end it so |
| Attempt.Download | custom_components/rar_itp_checker/sensor.py:259-318 | a non-200 image download ends the attempt retryably with its status, and an exception ends it as fatal with its text; the image is uploaded exactly when the download answered 200, and then the form is posted exactly when the code can be used, as the request built from the page's form, else the attempt ends retryably with the reason the form could not be built |
| Attempt.Solve | custom_components/rar_itp_checker/sensor.py:302-318 | the form is posted exactly when a request could be built, and the request posted is that one, and the attempt then ends as the post decides; otherwise it ends retryably with the reason the request could not be built |
| Attempt.Prepare | custom_components/rar_itp_checker/sensor.py:270-305 | a request is built exactly when the OCR client returned four digits and the page has a form; that request is the form built for the VIN and the code, posted to its URL; an OCR failure becomes the "OCR API failed" error, a code of another length the "Invalid CAPTCHA output" error quoting it, and a page without a form the "Unable to find form element" error |
| Attempt.Post | custom_components/rar_itp_checker/sensor.py:316-339 | the attempt succeeds with the answer exactly when it is a 200 answer without the rejection phrase; a 200 answer with the phrase is the retryable CAPTCHA rejection; another status is the retryable POST failure with that status; it is fatal exactly when the POST raised |
| Attempt.Message | custom_components/rar_itp_checker/sensor.py:239-336 | a failed HTTP request is reported with its status in decimal after a fixed head, so the status can be read back from the message; an invalid code is quoted after its head; an exception and a missing form report their own text unchanged; a missing image, an OCR failure, an empty OCR answer and a rejected code each report their own fixed text |
| Attempt.ShapedRequests | custom_components/rar_itp_checker/sensor.py:237-318 | an attempt loads the landing page once, posts at most once, and only as its fourth request, and every form it posts is well formed |
| Attempt.AttemptRejected | custom_components/rar_itp_checker/sensor.py:325-336 | after a full attempt, a 200 answer with the rejection phrase fails it retryably |
| Attempt.AttemptAccepted | custom_components/rar_itp_checker/sensor.py:325-339 | after a full attempt, a 200 answer without the phrase is a success with that answer |
| Attempt.AttemptDone | custom_components/rar_itp_checker/sensor.py:316-339 | an attempt succeeds only by posting and getting a 200 answer without the rejection phrase |
| Attempt.AttemptRaises | custom_components/rar_itp_checker/sensor.py:237-339 | whichever awaited reply raises first, the landing page, the image download or the POST, the attempt ends as fatal with the exception's text |
| Fetch.FetchLoop | custom_components/rar_itp_checker/sensor.py:234-347 | the loop makes 1 to 3 attempts and sends only their requests, in order; every attempt before the last failed retryably; a retryable failure ends it only on the third attempt |
| Fetch.LoopEndsAtFirstDecisive | custom_components/rar_itp_checker/sensor.py:338-347 | the loop makes exactly as many attempts as it takes to reach the first one that is not retryable |
| Fetch.FetchLoopIgnoresLater | custom_components/rar_itp_checker/sensor.py:338-339 | attempts after the decisive one do not affect the loop |
| Fetch.FlattenShaped | custom_components/rar_itp_checker/sensor.py:234-318 | attempts run in sequence load the landing page once each, post at most once each, and only well-formed forms |
| Fetch.FetchLoopRequests | custom_components/rar_itp_checker/sensor.py:234-318 | the loop loads the landing page once per attempt and posts at most once per attempt |
| Fetch.LoopSucceedsThird | custom_components/rar_itp_checker/sensor.py:234-347 | two retryable posted attempts followed by a successful one give three attempts, three page loads and three posts |
| Fetch.Verdict | custom_components/rar_itp_checker/sensor.py:341-400 | the fetch succeeds exactly when its last attempt did, and its record is that answer parsed for the VIN (status and date as the parser reads them); a fatal failure reads `ITP check failed: <cause>`; an exhausted one reads `ITP check failed: Failed after 3 attempts: <cause>` |
| Fetch.RecordOf | custom_components/rar_itp_checker/sensor.py:357-396 | the record names the VIN asked about and carries exactly the status and date the result parser reads from the lower-cased answer; its status is `Not Found` exactly when the answer has the no-record marker, and then its date is `Unknown` |
| Fetch.FetchItp | custom_components/rar_itp_checker/sensor.py:218-400 | a record the fetch returns is for the VIN asked about, and every failure it reports starts with `ITP check failed: ` |
| Fetch.FetchRequests | custom_components/rar_itp_checker/sensor.py:234-318 | a fetch makes 1 to 3 attempts, loads the landing page once per attempt, posts at most once per attempt, and posts only forms with the upper-cased VIN and a four-digit code |
| Fetch.FetchOutcome | custom_components/rar_itp_checker/sensor.py:234-400 | every attempt before the last failed retryably; the fetch's result is the verdict on the last attempt; a retryable last attempt is the third |
| Fetch.AttemptsBeforeLast | custom_components/rar_itp_checker/sensor.py:234-347 | a fetch makes 1 to 3 attempts and every attempt before its last failed retryably |
| Fetch.LastAttempt | custom_components/rar_itp_checker/sensor.py:341-400 | the fetch's result is the verdict on its last attempt, and a last attempt that failed retryably is the third |
| Fetch.FetchSuccess | custom_components/rar_itp_checker/sensor.py:316-396 | a successful fetch posted the form and got a 200 answer without the rejection phrase, and returns that answer parsed: the VIN asked about with the status and date the result parser reads |
| Fetch.FetchIgnoresLaterReplies | custom_components/rar_itp_checker/sensor.py:234-347 | replies to attempts that were never made do not change the fetch |
| Fetch.FetchRaised | custom_components/rar_itp_checker/sensor.py:234-400 | an exception in attempt k after k retryable failures ends the fetch after k + 1 attempts with `ITP check failed: <exception text>` |
| Fetch.TwoRejectionsThenSuccess | custom_components/rar_itp_checker/sensor.py:325-347 | two rejected CAPTCHAs then an accepted one: the third attempt succeeds after three page loads and three posts |
| Fetch.FetchTries | custom_components/rar_itp_checker/sensor.py:546-555 | each fetch is a try of the wrapper: a success is done, and a failure can be retried with its error |
| Fetch.UpdateLoop | custom_components/rar_itp_checker/sensor.py:544-555 | the wrapper makes 1 to 3 fetches; every fetch before the last failed; the wrapper returns the last fetch's result; a failure comes only after three fetches |
| Fetch.Fetches | custom_components/rar_itp_checker/sensor.py:544-555 | every fetch of the update returns records for the VIN asked about only, and failures that start with `ITP check failed: ` |
| Fetch.UpdateData | custom_components/rar_itp_checker/sensor.py:544-555 | the update makes 1 to 3 fetches, those of the first scripts; every fetch before the last failed, and the update returns the last fetch's result as it is; its record is for the VIN asked about; a failure comes only after three fetches and is the third fetch's own failure, starting with `ITP check failed: `, to which the wrapper adds nothing |
| Fetch.UpdateIsLastFetch | custom_components/rar_itp_checker/sensor.py:544-555 | fetch i of the update is the fetch run on script i; every fetch before the last failed; the update returns the last fetch's result unchanged, so a successful update's record is the one that fetch parsed |
| Fetch.ThirdFetch | custom_components/rar_itp_checker/sensor.py:544-555 | a failed update reports exactly the failure of the fetch of the third script |

## Left out

- HTTP and timing: the aiohttp sessions, timeouts, headers and the two-second `asyncio.sleep`
  between tries are not modelled. An attempt receives its replies as data, and an exception
  raised by the HTTP client appears as a `Raised` reply carrying its text.
- HTML: BeautifulSoup is not modelled. A page is given as its forms and the CAPTCHA `src`.
  A result page is given as:
  - its lower-cased text;
  - the lower-cased text of the `rezbgcolor` container, or, when there is none, the whole
    raw response text lower-cased, markup included;
  - the older layout's marker node.
- Lower-casing is not modelled: the parser receives text that is already lower case.
- Side effects: `save_captcha_image`, logging, and the `last_checked` timestamp of the
  returned record are not modelled.
- `calculate_days_until` is not modelled. It reads the wall clock and parses dates with the
  standard library.
- Home Assistant glue is not modelled: the sensor classes, the coordinator, and the setup of
  `async_setup_entry` beyond the OCR endpoint composition.
- Other files are not part of this model: `captcha_solver.py` (image filtering and
  pytesseract), `config_flow.py` and `__init__.py` (UI flows and services). `const.py`
  contributes only its two URLs, which are written out in `FormBuilder.BaseUrl` and
  `Ocr.DefaultOcrUrl`.
- OCR failures are mostly left abstract. A timeout, a connection failure or an unreadable JSON
  body is one `OcrRaised` reply, and the error body's first 200 characters are not kept.
  This loses nothing the pipeline sees, since every OCR error reaches it as the same message.
- Text.Digits: removes non-ASCII-digit characters, whereas Python's `\D` also keeps digits
  of other scripts; the portal's CAPTCHA codes are ASCII.
- Text.Upper: upper-cases ASCII letters only, whereas Python's `upper()` also maps other
  letters (and can lengthen a text such as `ß`); VINs are ASCII.
- Fetch.FetchOutcome: a fetch is given exactly three exchanges, one per possible attempt;
  those after the deciding attempt are unused, as `Fetch.FetchIgnoresLaterReplies` states.
- ResultParser.NewFormatDate: its own contract states when a date is read, not its value;
  the value is given by `ResultParser.NewFormatDateOf` for fields without blanks, dots or
  dashes. A day or year with a dot inside (`5.1-mar-2026`) is read the same way by the
  source but is not covered by that lemma. A word that does not split into three parts
  gives `Unknown`.
- ResultParser.NewFormatRoundTrip: covers the fields without blanks, dots or dashes, as
  `ResultParser.NewFormatDateOf` does.
- The OCR endpoint is a parameter of each fetch. In the source it is the module-global
  `LOCAL_OCR_API_URL` (sensor.py:29-31), which each config entry's setup overwrites
  (sensor.py:522-537). With several entries, every VIN uses the endpoint of the entry set up
  last. The model does not keep that shared state and lets each fetch name its endpoint.
