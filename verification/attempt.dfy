/** One attempt of the fetch: load the landing page, download the CAPTCHA image, have the
    OCR service read it, rebuild the form and post it. The network is replaced by the
    replies the attempt receives, given in advance. */
module Attempt {
  import opened Results
  import opened Text
  import opened Ocr
  import opened FormBuilder
  import opened ResultParser
  import opened Retry

  /** The portal's answer to a wrong CAPTCHA, in lower case. */
  const RejectionPhrase: string := "codul de verificare a fost copiat incorect"

  /** A reply from the portal: an HTTP status and body, or an exception (connection
      failure, timeout) raised while waiting for it. */
  datatype Reply<+T> = Answered(status: nat, body: T) | Raised(cause: string)

  /** The answer to the form POST: the whole response text in lower case (searched for the
      rejection phrase), the lower-cased text of the `rezbgcolor` results container (or,
      when there is none, the raw response text lower-cased, markup included), and the
      older layout's marker node. */
  datatype ResultPage = ResultPage(lowerText: string, lowerContent: string, legacy: LegacyNode)

  /** Everything one attempt may receive, in the order it would ask. */
  datatype Exchange = Exchange(
    page: Reply<Page>,
    captcha: Reply<()>,
    ocr: OcrReply,
    post: Reply<ResultPage>)

  /** A request the pipeline sends. */
  datatype Request =
    | GetPage(url: string)
    | GetCaptcha(url: string)
    | UploadCaptcha(url: string)
    | PostForm(url: string, fields: map<string, string>)

  /** Why an attempt failed. */
  datatype AttemptError =
    | InitialRequestFailed(status: nat)
    | CaptchaImageMissing
    | CaptchaDownloadFailed(status: nat)
    | OcrFailed
    | OcrEmpty
    | InvalidCleanCode(clean: string)
    | FormNotFound(message: string)
    | PostFailed(status: nat)
    | CaptchaRejected
    | Transport(cause: string)

  /** The fixed heads of the failure messages that carry a value. */
  const InitialFailedText: string := "Initial request failed: HTTP "
  const DownloadFailedText: string := "CAPTCHA download failed: HTTP "
  const PostFailedText: string := "POST request failed: HTTP "
  const InvalidCodeText: string := "Invalid CAPTCHA output after cleaning: "

  /** The text each failure is reported with. A failed HTTP request names its status in
      decimal after a fixed head, so the status can be read back from the message; an
      invalid code is quoted after its head; an exception and a missing form report their
      own text unchanged. */
  function Message(e: AttemptError): (r: string)
    ensures e.InitialRequestFailed? ==> StatusAfter(r, InitialFailedText, e.status)
    ensures e.CaptchaDownloadFailed? ==> StatusAfter(r, DownloadFailedText, e.status)
    ensures e.PostFailed? ==> StatusAfter(r, PostFailedText, e.status)
    ensures e.InvalidCleanCode? ==> StartsWith(r, InvalidCodeText) && r[|InvalidCodeText|..] == e.clean
    ensures e.Transport? ==> r == e.cause
    ensures e.FormNotFound? ==> r == e.message
    ensures e.CaptchaImageMissing? ==> r == "CAPTCHA image not found in page"
    ensures e.OcrFailed? ==> r == "OCR API failed: " + OcrFailureMessage
    ensures e.OcrEmpty? ==> r == "CAPTCHA OCR returned empty result"
    ensures e.CaptchaRejected? ==> r == "CAPTCHA validation failed"
  {
    match e
    case InitialRequestFailed(s) => WithStatus(InitialFailedText, s)
    case CaptchaImageMissing => "CAPTCHA image not found in page"
    case CaptchaDownloadFailed(s) => WithStatus(DownloadFailedText, s)
    case OcrFailed => "OCR API failed: " + OcrFailureMessage
    case OcrEmpty => "CAPTCHA OCR returned empty result"
    case InvalidCleanCode(c) => AfterHead(InvalidCodeText, c); InvalidCodeText + c
    case FormNotFound(m) => m
    case PostFailed(s) => WithStatus(PostFailedText, s)
    case CaptchaRejected => "CAPTCHA validation failed"
    case Transport(c) => c
  }

  /** True when `msg` is `head` followed by the decimal digits of `status` and nothing
      else. */
  predicate StatusAfter(msg: string, head: string, status: nat) {
    && StartsWith(msg, head)
    && |msg| > |head|
    && AllDigits(msg[|head|..])
    && DigitsValue(msg[|head|..]) == status
  }

  /** `f"{head}{status}"` */
  function WithStatus(head: string, status: nat): (r: string)
    ensures StatusAfter(r, head, status)
  {
    AfterHead(head, NatToString(status));
    head + NatToString(status)
  }

  lemma AfterHead(head: string, tail: string)
    ensures StartsWith(head + tail, head) && (head + tail)[|head|..] == tail
  {
    StartsWithPrefix(head, tail);
  }

  /** One attempt: what it sent and how it ended. */
  datatype AttemptRun = AttemptRun(requests: seq<Request>, step: Try<ResultPage, AttemptError>)

  /** The CAPTCHA code a posted field map carries. */
  function PostedCode(fields: map<string, string>): string {
    if VerifCod in fields then fields[VerifCod]
    else if Antirobot in fields then fields[Antirobot]
    else ""
  }

  /** True when the OCR client returned a four-digit code and the page has a form to
      carry it. */
  predicate Solvable(page: Page, ocr: OcrReply) {
    && SolveCaptcha(ocr).Success? && |SolveCaptcha(ocr).value| == CaptchaLength
    && |page.forms| > 0
  }

  /** True when the landing page loaded and names a CAPTCHA image. */
  predicate PageOffersCaptcha(x: Exchange) {
    && x.page.Answered? && x.page.status == 200
    && x.page.body.captchaSrc.Some? && x.page.body.captchaSrc.value != ""
  }

  /** True when every preceding step of an attempt went through and the code read from the
      CAPTCHA has exactly four digits: the only case in which the form is posted. */
  predicate ReadyToPost(vin: string, x: Exchange) {
    && PageOffersCaptcha(x)
    && x.captcha.Answered? && x.captcha.status == 200
    && Solvable(x.page.body, x.ocr)
  }

  /** True when `cause` is raised by the first reply of `x` that raised, among those the
      attempt waits for: the landing page, then the CAPTCHA image, then the form POST. */
  predicate RaisesFirst(vin: string, x: Exchange, cause: string) {
    || (x.page.Raised? && x.page.cause == cause)
    || (PageOffersCaptcha(x) && x.captcha.Raised? && x.captcha.cause == cause)
    || (ReadyToPost(vin, x) && x.post.Raised? && x.post.cause == cause)
  }

  /** The exception that ended an attempt, when one did. */
  predicate RaisedIn(x: Exchange, cause: string) {
    || (x.page.Raised? && x.page.cause == cause)
    || (x.captcha.Raised? && x.captcha.cause == cause)
    || (x.post.Raised? && x.post.cause == cause)
  }

  /** One attempt of the fetch loop. It always loads the landing page first; it posts the
      form exactly when `ReadyToPost` holds, with the upper-cased VIN and the four-digit
      code the OCR client returned; how it ends after the post is `Post`'s business; an
      exception ends it as fatal. */
  function RunAttempt(vin: string, ocrBase: string, x: Exchange): (r: AttemptRun)
    ensures 1 <= |r.requests| <= 4 && r.requests[0] == GetPage(BaseUrl)
    ensures |r.requests| >= 2 ==> r.requests[1].GetCaptcha? && StartsWith(r.requests[1].url, "http")
    ensures (|r.requests| >= 2) == PageOffersCaptcha(x)
    ensures PageOffersCaptcha(x) ==> r.requests[1] == GetCaptcha(CaptchaUrl(x.page.body.captchaSrc.value))
    ensures |r.requests| >= 3 ==> r.requests[2] == UploadCaptcha(WithExpectedLength(ocrBase))
    ensures (|r.requests| >= 3) == (PageOffersCaptcha(x) && x.captcha.Answered? && x.captcha.status == 200)
    ensures (|r.requests| == 4) == ReadyToPost(vin, x)
    ensures |r.requests| == 4 ==> PostsCode(r.requests[3], vin, SolveCaptcha(x.ocr).value)
    ensures |r.requests| == 4 ==> r == Post(r.requests, x.post)
    ensures |r.requests| == 4 ==> r.requests[3] == Prepare(vin, x.page.body, x.ocr).value
    ensures |r.requests| < 4 ==> !r.step.Done?
    ensures Shaped(r.requests, vin)
    ensures r.step.Fatal? ==> r.step.reason.Transport? && RaisesFirst(vin, x, r.step.reason.cause)
    ensures x.page.Raised? ==> r.step == Fatal(Transport(x.page.cause))
    ensures x.page.Answered? && x.page.status != 200 ==>
              r.step == Retryable(InitialRequestFailed(x.page.status))
    ensures x.page.Answered? && x.page.status == 200 && !PageOffersCaptcha(x) ==>
              r.step == Retryable(CaptchaImageMissing)
    ensures PageOffersCaptcha(x) && x.captcha.Raised? ==> r.step == Fatal(Transport(x.captcha.cause))
    ensures PageOffersCaptcha(x) && x.captcha.Answered? && x.captcha.status != 200 ==>
              r.step == Retryable(CaptchaDownloadFailed(x.captcha.status))
    ensures PageOffersCaptcha(x) && x.captcha.Answered? && x.captcha.status == 200 &&
            !Solvable(x.page.body, x.ocr) ==>
              r.step == Retryable(Prepare(vin, x.page.body, x.ocr).error)
  {
    match x.page
    case Raised(cause) => AttemptRun([GetPage(BaseUrl)], Fatal(Transport(cause)))
    case Answered(status, page) =>
      if status != 200 then AttemptRun([GetPage(BaseUrl)], Retryable(InitialRequestFailed(status)))
      else if page.captchaSrc.None? || page.captchaSrc.value == "" then
        AttemptRun([GetPage(BaseUrl)], Retryable(CaptchaImageMissing))
      else Download(vin, page, x, CaptchaUrl(page.captchaSrc.value), WithExpectedLength(ocrBase))
  }

  /** The part of an attempt after the landing page offered a CAPTCHA image: download it
      from `captchaUrl`, upload it to `uploadUrl`, then post the form. */
  function Download(vin: string, page: Page, x: Exchange, captchaUrl: string, uploadUrl: string): (r: AttemptRun)
    ensures 2 <= |r.requests| <= 4
    ensures r.requests[0] == GetPage(BaseUrl) && r.requests[1] == GetCaptcha(captchaUrl)
    ensures |r.requests| >= 3 ==> r.requests[2] == UploadCaptcha(uploadUrl)
    ensures (|r.requests| >= 3) == (x.captcha.Answered? && x.captcha.status == 200)
    ensures (|r.requests| == 4) == (x.captcha.Answered? && x.captcha.status == 200 && Solvable(page, x.ocr))
    ensures |r.requests| == 4 ==> PostsCode(r.requests[3], vin, SolveCaptcha(x.ocr).value)
    ensures |r.requests| == 4 ==> WellFormedPost(r.requests[3], vin)
    ensures |r.requests| == 4 ==> r == Post(r.requests, x.post)
    ensures |r.requests| == 4 ==> r.requests[3] == Prepare(vin, page, x.ocr).value
    ensures |r.requests| < 4 ==> !r.step.Done?
    ensures Shaped(r.requests, vin)
    ensures r.step.Fatal? ==> r.step.reason.Transport? && RaisedIn(x, r.step.reason.cause)
    ensures x.captcha.Raised? ==> r.step == Fatal(Transport(x.captcha.cause))
    ensures x.captcha.Answered? && x.captcha.status != 200 ==>
              r.step == Retryable(CaptchaDownloadFailed(x.captcha.status))
    ensures x.captcha.Answered? && x.captcha.status == 200 && !Solvable(page, x.ocr) ==>
              r.step == Retryable(Prepare(vin, page, x.ocr).error)
  {
    var fetched := [GetPage(BaseUrl), GetCaptcha(captchaUrl)];
    match x.captcha
    case Raised(cause) => AttemptRun(fetched, Fatal(Transport(cause)))
    case Answered(captchaStatus, _) =>
      if captchaStatus != 200 then AttemptRun(fetched, Retryable(CaptchaDownloadFailed(captchaStatus)))
      else Solve(vin, page, x, fetched + [UploadCaptcha(uploadUrl)])
  }

  /** The part of an attempt after the upload: post the form when `Prepare` built one. */
  function Solve(vin: string, page: Page, x: Exchange, sent: seq<Request>): (r: AttemptRun)
    ensures |r.requests| == |sent| || |r.requests| == |sent| + 1
    ensures forall i :: 0 <= i < |sent| ==> r.requests[i] == sent[i]
    ensures (|r.requests| == |sent| + 1) == Solvable(page, x.ocr)
    ensures |r.requests| == |sent| + 1 ==> PostsCode(r.requests[|sent|], vin, SolveCaptcha(x.ocr).value)
    ensures |r.requests| == |sent| + 1 ==> WellFormedPost(r.requests[|sent|], vin)
    ensures |r.requests| == |sent| + 1 ==> r == Post(r.requests, x.post)
    ensures Solvable(page, x.ocr) ==> r.requests[|sent|] == Prepare(vin, page, x.ocr).value
    ensures !Solvable(page, x.ocr) ==> r.step == Retryable(Prepare(vin, page, x.ocr).error)
  {
    match Prepare(vin, page, x.ocr)
    case Failure(e) => AttemptRun(sent, Retryable(e))
    case Success(request) => Post(sent + [request], x.post)
  }

  /** The part of an attempt between the CAPTCHA download and the POST: read the code,
      keep its digits, insist on four of them and build the form. The form is posted
      exactly when the OCR client returned four digits and the page has a form. */
  function Prepare(vin: string, page: Page, ocr: OcrReply): (r: Result<Request, AttemptError>)
    ensures r.Success? <==> Solvable(page, ocr)
    ensures r.Success? ==> PostsCode(r.value, vin, SolveCaptcha(ocr).value) && WellFormedPost(r.value, vin)
    ensures r.Success? ==> var built := BuildForm(page, vin, SolveCaptcha(ocr).value);
              built.Success? && r.value == PostForm(built.value.url, built.value.fields)
    ensures SolveCaptcha(ocr).Failure? ==> r == Failure(OcrFailed)
    ensures SolveCaptcha(ocr).Success? && |SolveCaptcha(ocr).value| != CaptchaLength ==>
              r == Failure(InvalidCleanCode(SolveCaptcha(ocr).value))
    ensures SolveCaptcha(ocr).Success? && |SolveCaptcha(ocr).value| == CaptchaLength && |page.forms| == 0 ==>
              r == Failure(FormNotFound(NoFormMessage))
  {
    match SolveCaptcha(ocr)
    case Failure(_) => Failure(OcrFailed)
    case Success(code) =>
      if code == "" then Failure(OcrEmpty)
      else
        var clean := Digits(code);
        if |clean| != CaptchaLength then Failure(InvalidCleanCode(clean))
        else
          match BuildForm(page, vin, clean)
          case Failure(m) => Failure(FormNotFound(m))
          case Success(submission) => Success(PostForm(submission.url, submission.fields))
  }

  /** True when `q` posts a form with an absolute URL, the upper-cased VIN in `nr_id` and
      `code` in its CAPTCHA field. */
  predicate PostsCode(q: Request, vin: string, code: string) {
    && q.PostForm?
    && StartsWith(q.url, "http")
    && NrId in q.fields && q.fields[NrId] == Upper(vin)
    && PostedCode(q.fields) == code
  }

  /** The end of an attempt once the form is posted: success only on a 200 answer
      without the rejection phrase. */
  function Post(posted: seq<Request>, reply: Reply<ResultPage>): (r: AttemptRun)
    ensures r.requests == posted
    ensures r.step.Done? <==> reply.Answered? && reply.status == 200 &&
                              !Contains(reply.body.lowerText, RejectionPhrase)
    ensures r.step.Done? ==> r.step.value == reply.body
    ensures (reply.Answered? && reply.status == 200 &&
             Contains(reply.body.lowerText, RejectionPhrase)) ==> r.step == Retryable(CaptchaRejected)
    ensures r.step.Fatal? <==> reply.Raised?
    ensures r.step.Fatal? ==> r.step.reason == Transport(reply.cause)
    ensures reply.Answered? && reply.status != 200 ==> r.step == Retryable(PostFailed(reply.status))
  {
    match reply
    case Raised(cause) => AttemptRun(posted, Fatal(Transport(cause)))
    case Answered(status, result) =>
      if status != 200 then AttemptRun(posted, Retryable(PostFailed(status)))
      else if Contains(result.lowerText, RejectionPhrase) then AttemptRun(posted, Retryable(CaptchaRejected))
      else AttemptRun(posted, Done(result))
  }

  /** What an attempt sends, one request kind at a time. */
  function PageLoads(qs: seq<Request>): nat {
    if qs == [] then 0 else (if qs[0].GetPage? then 1 else 0) + PageLoads(qs[1..])
  }

  function Posts(qs: seq<Request>): nat {
    if qs == [] then 0 else (if qs[0].PostForm? then 1 else 0) + Posts(qs[1..])
  }

  lemma {:induction false} CountsConcat(a: seq<Request>, b: seq<Request>)
    ensures PageLoads(a + b) == PageLoads(a) + PageLoads(b)
    ensures Posts(a + b) == Posts(a) + Posts(b)
  {
    if a == [] {
      assert a + b == b;
    } else {
      assert (a + b)[1..] == a[1..] + b;
      CountsConcat(a[1..], b);
    }
  }

  /** A posted form that carries the upper-cased VIN and a four-digit code, and goes to an
      absolute URL. */
  predicate WellFormedPost(q: Request, vin: string) {
    && q.PostForm?
    && StartsWith(q.url, "http")
    && NrId in q.fields && q.fields[NrId] == Upper(vin)
    && |PostedCode(q.fields)| == CaptchaLength && AllDigits(PostedCode(q.fields))
  }

  predicate PostsWellFormed(qs: seq<Request>, vin: string) {
    forall i :: 0 <= i < |qs| && qs[i].PostForm? ==> WellFormedPost(qs[i], vin)
  }

  lemma {:induction false} NoPageLoads(qs: seq<Request>)
    requires forall i :: 0 <= i < |qs| ==> !qs[i].GetPage?
    ensures PageLoads(qs) == 0
  {
    if qs != [] {
      NoPageLoads(qs[1..]);
    }
  }

  lemma {:induction false} NoPosts(qs: seq<Request>)
    requires forall i :: 0 <= i < |qs| ==> !qs[i].PostForm?
    ensures Posts(qs) == 0
  {
    if qs != [] {
      NoPosts(qs[1..]);
    }
  }

  /** The shape of an attempt's requests: the landing page, then the CAPTCHA image, then
      the upload to the OCR service, then a well-formed POST, cut short where it failed. */
  predicate Shaped(qs: seq<Request>, vin: string) {
    && 1 <= |qs| <= 4 && qs[0].GetPage?
    && (|qs| >= 2 ==> qs[1].GetCaptcha?)
    && (|qs| >= 3 ==> qs[2].UploadCaptcha?)
    && (|qs| == 4 ==> WellFormedPost(qs[3], vin))
  }

  /** A shaped sequence loads the landing page exactly once, posts at most once, and only
      in its fourth request, and every form it posts is well formed. */
  lemma ShapedRequests(qs: seq<Request>, vin: string)
    requires Shaped(qs, vin)
    ensures PageLoads(qs) == 1
    ensures Posts(qs) == (if |qs| == 4 then 1 else 0)
    ensures PostsWellFormed(qs, vin)
  {
    ShapedPageLoads(qs, vin);
    ShapedPosts(qs, vin);
    ShapedPostsWellFormed(qs, vin);
  }

  lemma ShapedPageLoads(qs: seq<Request>, vin: string)
    requires Shaped(qs, vin)
    ensures PageLoads(qs) == 1
  {
    var tail := qs[1..];
    assert forall i :: 0 <= i < |tail| ==> tail[i] == qs[i + 1];
    NoPageLoads(tail);
  }

  lemma ShapedPosts(qs: seq<Request>, vin: string)
    requires Shaped(qs, vin)
    ensures Posts(qs) == (if |qs| == 4 then 1 else 0)
  {
    var head := qs[..if |qs| == 4 then 3 else |qs|];
    assert forall i :: 0 <= i < |head| ==> head[i] == qs[i];
    NoPosts(head);
    if |qs| == 4 {
      assert qs == head + [qs[3]];
      CountsConcat(head, [qs[3]]);
      assert Posts([qs[3]]) == 1 + Posts([]);
    } else {
      assert qs == head;
    }
  }

  lemma ShapedPostsWellFormed(qs: seq<Request>, vin: string)
    requires Shaped(qs, vin)
    ensures PostsWellFormed(qs, vin)
  {
    forall i | 0 <= i < |qs| && qs[i].PostForm? ensures WellFormedPost(qs[i], vin) {
      assert i == 3;
    }
  }

  /** An attempt whose post is answered 200 with the rejection phrase fails retryably,
      after posting. */
  lemma AttemptRejected(vin: string, ocrBase: string, x: Exchange)
    requires ReadyToPost(vin, x)
    requires x.post.Answered? && x.post.status == 200 && Contains(x.post.body.lowerText, RejectionPhrase)
    ensures |RunAttempt(vin, ocrBase, x).requests| == 4
    ensures RunAttempt(vin, ocrBase, x).step == Retryable(CaptchaRejected)
  {
  }

  /** An attempt whose post is answered 200 without the rejection phrase succeeds with the
      answer, after posting. */
  lemma AttemptAccepted(vin: string, ocrBase: string, x: Exchange)
    requires ReadyToPost(vin, x)
    requires x.post.Answered? && x.post.status == 200 && !Contains(x.post.body.lowerText, RejectionPhrase)
    ensures |RunAttempt(vin, ocrBase, x).requests| == 4
    ensures RunAttempt(vin, ocrBase, x).step == Done(x.post.body)
  {
  }

  /** An attempt succeeds only by posting the form and getting a 200 answer without the
      rejection phrase, and it succeeds with that answer. */
  lemma AttemptDone(vin: string, ocrBase: string, x: Exchange)
    requires RunAttempt(vin, ocrBase, x).step.Done?
    ensures ReadyToPost(vin, x)
    ensures x.post.Answered? && x.post.status == 200 && !Contains(x.post.body.lowerText, RejectionPhrase)
    ensures RunAttempt(vin, ocrBase, x).step.value == x.post.body
  {
  }

  /** An exception ends the attempt as fatal, with the exception's text as the reason,
      whichever of the three awaited replies raised it first. */
  lemma AttemptRaises(vin: string, ocrBase: string, x: Exchange, cause: string)
    requires RaisesFirst(vin, x, cause)
    ensures RunAttempt(vin, ocrBase, x).step == Fatal(Transport(cause))
  {
  }
}
