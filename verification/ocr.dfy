/** The OCR client: where the CAPTCHA image is sent, and how the OCR service's
    `text` reply is turned into a candidate CAPTCHA code. */
module Ocr {
  import opened Results
  import opened Text

  /** The endpoint used when no Tesseract host is configured. */
  const DefaultOcrUrl: string := "http://127.0.0.1:8000/ocr/file?lang=eng"

  /** The query parameter every OCR request carries (the portal's CAPTCHA has 4 digits). */
  const ExpectedLengthParam: string := "expected_length=4"

  /** The configured `tesseract_ip`: the options value wins when it is non-blank after
      stripping, else the data value (a missing key reads as the empty string). */
  function EffectiveHost(options: Option<string>, data: Option<string>): (host: string)
    ensures Strip(host) == host
    ensures host == "" <==> Strip(options.ValueOr("")) == "" && Strip(data.ValueOr("")) == ""
    ensures Strip(options.ValueOr("")) != "" ==> host == Strip(options.ValueOr(""))
    ensures host != "" ==> host == Strip(options.ValueOr("")) || host == Strip(data.ValueOr(""))
  {
    var fromOptions := Strip(options.ValueOr(""));
    var host := if fromOptions != "" then fromOptions else Strip(data.ValueOr(""));
    StripIdempotent(options.ValueOr(""));
    StripIdempotent(data.ValueOr(""));
    host
  }

  /** True when the configured value is already a full URL. */
  predicate HasScheme(host: string) {
    StartsWith(host, "http://") || StartsWith(host, "https://")
  }

  /** The OCR endpoint for a configured host: a full URL is used as given, a bare host or
      IP gets the Tesseract service's port and path, and nothing configured falls back to
      the default endpoint. */
  function OcrBaseUrl(host: string): (url: string)
    ensures HasScheme(url)
    ensures host == "" ==> url == DefaultOcrUrl
    ensures HasScheme(host) ==> url == host
    ensures host != "" && !HasScheme(host) ==>
              url == "http://" + host + ":8000/ocr/file?lang=eng"
  {
    if host != "" then
      if HasScheme(host) then host
      else "http://" + host + ":8000/ocr/file?lang=eng"
    else
      assert DefaultOcrUrl[..7] == "http://";
      DefaultOcrUrl
  }

  /** The request URL: `expected_length=4` appended with `&` when the endpoint already has
      a query string and with `?` otherwise. */
  function WithExpectedLength(url: string): (r: string)
    ensures |r| == |url| + 1 + |ExpectedLengthParam|
    ensures r[..|url|] == url
    ensures r[|url| + 1..] == ExpectedLengthParam
    ensures r[|url|] == (if '?' in url then '&' else '?')
  {
    var sep := if '?' in url then '&' else '?';
    var r := url + [sep] + ExpectedLengthParam;
    Pieces(r, url, sep, ExpectedLengthParam);
    r
  }

  /** A `?` is added only when the endpoint has none: the request URL keeps the
      endpoint's own count of `?`, or has exactly one when the endpoint had none. */
  lemma OneQuerySeparator(url: string)
    ensures multiset(WithExpectedLength(url))['?'] == if '?' in url then multiset(url)['?'] else 1
  {
    var sep := if '?' in url then '&' else '?';
    ParamHasNoQuestionMark();
    QuestionMarks(url, sep, ExpectedLengthParam);
  }

  lemma ParamHasNoQuestionMark()
    ensures multiset(ExpectedLengthParam)['?'] == 0
  {
    assert '?' !in ExpectedLengthParam;
    AbsentCountsZero(ExpectedLengthParam, '?');
  }

  lemma QuestionMarks(url: string, sep: char, tail: string)
    requires sep == (if '?' in url then '&' else '?')
    requires multiset(tail)['?'] == 0
    ensures multiset(url + [sep] + tail)['?']
            == if '?' in url then multiset(url)['?'] else 1
  {
    assert multiset(url + [sep] + tail) == multiset(url) + multiset([sep]) + multiset(tail);
    if '?' !in url {
      AbsentCountsZero(url, '?');
    }
  }

  /** For a bare host the OCR request goes to the Tesseract service on port 8000 with both
      the language and the expected length in the query string. */
  lemma BareHostRequestUrl(host: string)
    requires host != "" && !HasScheme(host)
    ensures WithExpectedLength(OcrBaseUrl(host))
            == "http://" + host + ":8000/ocr/file?lang=eng" + "&" + ExpectedLengthParam
  {
    var path := ":8000/ocr/file?lang=eng";
    assert path[14] == '?';
    var base := "http://" + host + path;
    assert base[|"http://" + host| + 14] == '?';
    Pieces(WithExpectedLength(base), base, '&', ExpectedLengthParam);
  }

  /** With nothing configured, the OCR request goes to the local default endpoint. */
  lemma DefaultRequestUrl(options: Option<string>, data: Option<string>)
    requires Strip(options.ValueOr("")) == "" && Strip(data.ValueOr("")) == ""
    ensures WithExpectedLength(OcrBaseUrl(EffectiveHost(options, data)))
            == DefaultOcrUrl + "&" + ExpectedLengthParam
  {
    DefaultEndpointRequestUrl();
  }

  lemma DefaultEndpointRequestUrl()
    ensures WithExpectedLength(DefaultOcrUrl) == DefaultOcrUrl + "&" + ExpectedLengthParam
  {
    var u := DefaultOcrUrl;
    assert u[30] == '?';
    var r := WithExpectedLength(u);
    Pieces(r, u, '&', ExpectedLengthParam);
  }

  /** Why the OCR client gave no code. */
  datatype OcrError =
    | HttpStatus(status: nat)                    // the OCR service answered with a non-200 status
    | Unreachable                                // timeout, connection failure or an unreadable body
    | EmptyText                                  // the `text` field was blank
    | InvalidFormat(raw: string, digits: string) // not 1 to 6 digits once non-digits are removed

  /** What the OCR service did with the upload. */
  datatype OcrReply =
    | OcrAnswered(status: nat, text: string)     // `text`: `str(data.get("text", ""))` of the JSON body
    | OcrRaised                                  // any exception while calling or decoding

  /** The message every OCR failure carries by the time the orchestrator sees it: the
      client re-wraps each of its own errors under this one text. */
  const OcrFailureMessage: string := "OCR processing failed"

  /** The portal's fixed CAPTCHA length: longer OCR readings are cut to it. */
  const CaptchaLength: nat := 4

  function Min(a: nat, b: nat): nat {
    if a <= b then a else b
  }

  /** The candidate code from the OCR `text` value: strip it, reject it when blank, keep
      its digits, reject unless there are 1 to 6 of them, and cut to the first 4. */
  function NormalizeOcrText(text: string): (r: Result<string, OcrError>)
    ensures r.Success? <==> 1 <= |Digits(text)| <= 6
    ensures r.Failure? ==> (r.error == EmptyText <==> Strip(text) == "")
    ensures r.Failure? ==> r.error.EmptyText? || r.error.InvalidFormat?
    ensures r.Success? ==> |r.value| == Min(|Digits(text)|, CaptchaLength)
    ensures r.Success? ==> StartsWith(Digits(text), r.value) && AllDigits(r.value)
  {
    var raw := Strip(text);
    if raw == "" then
      assert Digits(text) == [] by { DigitsOfStrip(text); }
      Failure(EmptyText)
    else
      var digits := Digits(raw);
      DigitsOfStrip(text);
      if !(1 <= |digits| <= 6) then Failure(InvalidFormat(raw, digits))
      else if |digits| >= CaptchaLength then Success(digits[..CaptchaLength])
      else Success(digits)
  }

  /** The client's whole reply handling: a non-200 status or an exception is an error,
      otherwise the `text` value is normalised. A returned code has 1 to 4 digits. */
  function SolveCaptcha(reply: OcrReply): (r: Result<string, OcrError>)
    ensures r.Success? ==> reply.OcrAnswered? && reply.status == 200
    ensures r.Success? ==> 1 <= |r.value| <= CaptchaLength && AllDigits(r.value)
    ensures reply.OcrAnswered? && reply.status != 200 ==> r == Failure(HttpStatus(reply.status))
    ensures reply.OcrAnswered? && reply.status == 200 ==> r == NormalizeOcrText(reply.text)
  {
    match reply
    case OcrRaised => Failure(Unreachable)
    case OcrAnswered(status, text) =>
      if status != 200 then Failure(HttpStatus(status)) else NormalizeOcrText(text)
  }

  /** An OCR reading of at least four digits yields exactly its first four. */
  lemma FourOrMoreDigitsGiveFirstFour(text: string)
    requires 4 <= |Digits(text)| <= 6
    ensures NormalizeOcrText(text) == Success(Digits(text)[..4])
  {
  }
}
