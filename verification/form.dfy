/** Form reconstruction: from the forms of the portal's landing page to the URL and the
    field map that are posted, with the VIN and CAPTCHA fields overridden. */
module FormBuilder {
  import opened Results
  import opened Text

  /** The landing page of the portal's query form. */
  const BaseUrl: string := "https://prog.rarom.ro/rarpol/rarpol.asp"
  /** Scheme and host of the portal, the prefix of root-relative paths. */
  const PortalOrigin: string := "https://prog.rarom.ro"
  /** `BaseUrl` without its last path segment, the prefix of relative paths. */
  const BaseDir: string := "https://prog.rarom.ro/rarpol"
  /** The prefix of a relative CAPTCHA image path. */
  const CaptchaDir: string := "https://prog.rarom.ro/rarpol/"

  const FormName: string := "frm"
  const NrId: string := "nr_id"
  const VerifCod: string := "verif_cod"
  const Antirobot: string := "antirobot"
  const Trimite: string := "trimite"
  /** The label put into an empty submit field. */
  const SubmitLabel: string := "Caută"
  /** The error reported for a landing page without any form. */
  const NoFormMessage: string := "Unable to find form element on RAR page"

  /** One `<input>` element: its `name` and `value` attributes, when present. */
  datatype Input = Input(name: Option<string>, value: Option<string>)

  /** One `<form>` element: its `name` and `action` attributes and its inputs in document order. */
  datatype Form = Form(name: Option<string>, action: Option<string>, inputs: seq<Input>)

  /** What the pipeline reads from the landing page: its forms in document order, and the
      `src` of the `<img id="imgVerf">` CAPTCHA (None when the image or its `src` is missing). */
  datatype Page = Page(forms: seq<Form>, captchaSrc: Option<string>)

  /** The reconstructed submission: absolute POST URL and the field map. */
  datatype Submission = Submission(url: string, fields: map<string, string>)

  predicate IsFrm(f: Form) {
    f.name == Some(FormName)
  }

  /** The form to submit: the first one named `frm`, else the first form of the page. */
  function SelectForm(forms: seq<Form>): (r: Option<Form>)
    ensures r.Some? <==> |forms| > 0
    ensures (exists i :: 0 <= i < |forms| && IsFrm(forms[i])) ==>
              exists i :: (0 <= i < |forms| && r == Some(forms[i]) && IsFrm(forms[i]) &&
                           forall j :: 0 <= j < i ==> !IsFrm(forms[j]))
    ensures (forall i :: 0 <= i < |forms| ==> !IsFrm(forms[i])) && |forms| > 0 ==>
              r == Some(forms[0])
  {
    match FirstNamedFrm(forms)
    case Some(f) => Some(f)
    case None => if |forms| > 0 then Some(forms[0]) else None
  }

  /** The first form named `frm`, if any. */
  function FirstNamedFrm(forms: seq<Form>): (r: Option<Form>)
    ensures r.None? <==> forall i :: 0 <= i < |forms| ==> !IsFrm(forms[i])
    ensures r.Some? ==>
              exists i :: (0 <= i < |forms| && r.value == forms[i] && IsFrm(forms[i]) &&
                           forall j :: 0 <= j < i ==> !IsFrm(forms[j]))
  {
    if |forms| == 0 then None
    else if IsFrm(forms[0]) then Some(forms[0])
    else
      var r := FirstNamedFrm(forms[1..]);
      if r.Some? then
        ghost var i :| 0 <= i < |forms[1..]| && r.value == forms[1..][i] && IsFrm(forms[1..][i]) &&
          forall j :: 0 <= j < i ==> !IsFrm(forms[1..][j]);
        assert forall j :: 0 <= j < i + 1 ==> !IsFrm(forms[j]) by {
          forall j | 0 <= j < i + 1 ensures !IsFrm(forms[j]) {
            if j > 0 { assert forms[j] == forms[1..][j - 1]; }
          }
        }
        assert r.value == forms[i + 1];
        r
      else
        assert forall i :: 1 <= i < |forms| ==> forms[i] == forms[1..][i - 1];
        r
  }

  /** The absolute POST URL for a form's `action` attribute. An action starting with `http`
      is taken verbatim; otherwise the fragment from the first `#` is dropped, an empty
      remainder means the landing page, a root-relative path is joined to the portal's
      origin and any other path to the landing page's directory. */
  function ResolveAction(action: Option<string>): (url: string)
    ensures StartsWith(url, "http")
    ensures StartsWith(action.ValueOr(""), "http") ==> url == action.ValueOr("")
    ensures !StartsWith(action.ValueOr(""), "http") ==> '#' !in url
    ensures !StartsWith(action.ValueOr(""), "http") && TakeUntil(action.ValueOr(""), '#') == "" ==>
              url == BaseUrl
    ensures !StartsWith(action.ValueOr(""), "http") && StartsWith(action.ValueOr(""), "/") ==>
              url == PortalOrigin + TakeUntil(action.ValueOr(""), '#')
    ensures !StartsWith(action.ValueOr(""), "http") && TakeUntil(action.ValueOr(""), '#') != "" &&
            !StartsWith(action.ValueOr(""), "/") ==>
              url == BaseDir + "/" + TakeUntil(action.ValueOr(""), '#')
  {
    var a := action.ValueOr("");
    if StartsWith(a, "http") then a
    else
      var path := TakeUntil(a, '#');
      if path == "" then
        PortalPrefixes();
        BaseUrl
      else if path[0] == '/' then
        PortalPrefixes();
        StartsWithExtended(PortalOrigin, path, "http");
        PortalOrigin + path
      else
        PortalPrefixes();
        StartsWithExtended(BaseDir + "/", path, "http");
        BaseDir + "/" + path
  }

  /** The portal's URL prefixes are absolute and carry no fragment. */
  lemma PortalPrefixes()
    ensures StartsWith(BaseUrl, "http") && '#' !in BaseUrl
    ensures StartsWith(PortalOrigin, "http") && '#' !in PortalOrigin
    ensures StartsWith(BaseDir + "/", "http") && '#' !in BaseDir + "/"
    ensures StartsWith(CaptchaDir, "http")
  {
    OriginIsHttp();
    BaseUrlUnderOrigin();
    StartsWithExtended(PortalOrigin, "/rarpol/rarpol.asp", "http");
    DirUnderOrigin();
    StartsWithExtended(PortalOrigin, "/rarpol/", "http");
  }

  lemma OriginIsHttp()
    ensures StartsWith(PortalOrigin, "http") && '#' !in PortalOrigin
  {
    assert PortalOrigin[..4] == "http";
  }

  lemma BaseUrlUnderOrigin()
    ensures BaseUrl == PortalOrigin + "/rarpol/rarpol.asp" && '#' !in BaseUrl
  {
  }

  lemma DirUnderOrigin()
    ensures BaseDir + "/" == PortalOrigin + "/rarpol/" && '#' !in BaseDir + "/"
    ensures CaptchaDir == PortalOrigin + "/rarpol/"
  {
  }

  /** A resolved POST URL resolves to itself: resolution is idempotent. */
  lemma ResolveActionIdempotent(action: Option<string>)
    ensures ResolveAction(Some(ResolveAction(action))) == ResolveAction(action)
  {
  }

  /** The URL of the CAPTCHA image: a `src` starting with `http` is taken verbatim,
      otherwise its leading slashes are dropped and it is put under `/rarpol/`. */
  function CaptchaUrl(src: string): (url: string)
    ensures StartsWith(url, "http")
    ensures StartsWith(src, "http") ==> url == src
    ensures !StartsWith(src, "http") ==>
              exists k :: 0 <= k <= |src| && (forall i :: 0 <= i < k ==> src[i] == '/') &&
                (k == |src| || src[k] != '/') && url == CaptchaDir + src[k..]
  {
    if StartsWith(src, "http") then src
    else
      var rest := LStripChar(src, '/');
      var k := |src| - |rest|;
      assert forall i :: 0 <= i < k ==> src[i] == '/';
      assert k == |src| || src[k] != '/';
      assert rest == src[k..];
      PortalPrefixes();
      StartsWithExtended(CaptchaDir, rest, "http");
      CaptchaDir + rest
  }

  /** A CAPTCHA URL is its own CAPTCHA URL. */
  lemma CaptchaUrlIdempotent(src: string)
    ensures CaptchaUrl(CaptchaUrl(src)) == CaptchaUrl(src)
  {
  }

  /** True when `inp` contributes the key `k` (it has a non-empty name `k`). */
  predicate Names(inp: Input, k: string) {
    inp.name == Some(k) && k != ""
  }

  /** True when `inputs[i]` is named and no later input carries the same name. */
  predicate LastOfItsName(inputs: seq<Input>, i: int)
    requires 0 <= i < |inputs|
  {
    && inputs[i].name.Some? && inputs[i].name.value != ""
    && forall j :: i < j < |inputs| ==> inputs[j].name != inputs[i].name
  }

  /** Exactly the non-empty names of `inputs` are keys of `fields`. */
  ghost predicate KeysOf(inputs: seq<Input>, fields: map<string, string>) {
    forall k :: k in fields <==> exists i :: 0 <= i < |inputs| && Names(inputs[i], k)
  }

  /** Every key holds the value of the last input of that name. */
  ghost predicate LastValues(inputs: seq<Input>, fields: map<string, string>) {
    forall i :: 0 <= i < |inputs| && LastOfItsName(inputs, i) ==>
      inputs[i].name.value in fields && fields[inputs[i].name.value] == inputs[i].value.ValueOr("")
  }

  /** One step of the loop over the inputs: a named input sets its value. */
  function AddInput(fields: map<string, string>, inp: Input): map<string, string> {
    if inp.name.None? || inp.name.value == "" then fields
    else fields[inp.name.value := inp.value.ValueOr("")]
  }

  /** The field map read from the inputs, in document order: unnamed inputs are skipped,
      a missing value reads as "", and a later input overwrites an earlier one of the same
      name. */
  function CollectInputs(inputs: seq<Input>): (fields: map<string, string>)
    ensures KeysOf(inputs, fields)
    ensures LastValues(inputs, fields)
  {
    if |inputs| == 0 then map[]
    else
      var prev := CollectInputs(inputs[..|inputs| - 1]);
      AddInputKeys(inputs, prev);
      AddInputValues(inputs, prev);
      AddInput(prev, inputs[|inputs| - 1])
  }

  lemma AddInputKeys(inputs: seq<Input>, prev: map<string, string>)
    requires |inputs| > 0
    requires KeysOf(inputs[..|inputs| - 1], prev)
    ensures KeysOf(inputs, AddInput(prev, inputs[|inputs| - 1]))
  {
    var init := inputs[..|inputs| - 1];
    var next := AddInput(prev, inputs[|inputs| - 1]);
    forall k ensures k in next <==> exists i :: 0 <= i < |inputs| && Names(inputs[i], k) {
      if k in next && !Names(inputs[|inputs| - 1], k) {
        assert k in prev;
        var i :| 0 <= i < |init| && Names(init[i], k);
        assert inputs[i] == init[i];
      }
      if exists i :: 0 <= i < |inputs| && Names(inputs[i], k) {
        var i :| 0 <= i < |inputs| && Names(inputs[i], k);
        if i < |init| {
          assert Names(init[i], k);
        }
      }
    }
  }

  lemma AddInputValues(inputs: seq<Input>, prev: map<string, string>)
    requires |inputs| > 0
    requires LastValues(inputs[..|inputs| - 1], prev)
    ensures LastValues(inputs, AddInput(prev, inputs[|inputs| - 1]))
  {
    var init := inputs[..|inputs| - 1];
    var last := inputs[|inputs| - 1];
    forall i | 0 <= i < |inputs| - 1 && LastOfItsName(inputs, i)
      ensures LastOfItsName(init, i) && inputs[i].name != last.name
    {
      assert init[i] == inputs[i];
      forall j | i < j < |init| ensures init[j].name != init[i].name {
        assert init[j] == inputs[j];
      }
    }
  }

  /** The CAPTCHA field the code goes into: `verif_cod` when present, else `antirobot` when
      present, else `verif_cod`. */
  function CaptchaField(fields: map<string, string>): string {
    if VerifCod in fields then VerifCod
    else if Antirobot in fields then Antirobot
    else VerifCod
  }

  /** The overrides applied to the extracted fields. `nr_id` is the upper-cased VIN, exactly
      one CAPTCHA field holds the code, an empty `trimite` gets its label, and every other
      field keeps its extracted value. */
  function ApplyOverrides(fields: map<string, string>, vin: string, code: string)
    : (r: map<string, string>)
    ensures r.Keys == fields.Keys + {NrId, CaptchaField(fields)}
    ensures r[NrId] == Upper(vin)
    ensures r[CaptchaField(fields)] == code
    ensures VerifCod in fields ==> (Antirobot in r <==> Antirobot in fields)
    ensures VerifCod in fields && Antirobot in fields ==> r[Antirobot] == fields[Antirobot]
    ensures VerifCod !in fields ==> (VerifCod in r <==> Antirobot !in fields)
    ensures Trimite in fields ==>
              r[Trimite] == if fields[Trimite] == "" then SubmitLabel else fields[Trimite]
    ensures forall k :: k in fields && k != NrId && k != CaptchaField(fields) && k != Trimite ==>
              r[k] == fields[k]
  {
    DistinctFieldNames();
    var withVin := fields[NrId := Upper(vin)];
    var withCode :=
      if VerifCod in withVin then withVin[VerifCod := code]
      else if Antirobot in withVin then withVin[Antirobot := code]
      else withVin[VerifCod := code];
    if Trimite in withCode && withCode[Trimite] == "" then withCode[Trimite := SubmitLabel]
    else withCode
  }

  lemma DistinctFieldNames()
    ensures NrId != VerifCod && NrId != Antirobot && NrId != Trimite
    ensures VerifCod != Antirobot && VerifCod != Trimite && Antirobot != Trimite
  {
    assert VerifCod[0] != Antirobot[0];
    assert VerifCod[0] != Trimite[0];
  }

  /** True when the field map carries `code` in the CAPTCHA field a portal page would read:
      `verif_cod`, or `antirobot` on a page without `verif_cod`. */
  predicate CarriesCode(fields: map<string, string>, code: string) {
    || (VerifCod in fields && fields[VerifCod] == code)
    || (VerifCod !in fields && Antirobot in fields && fields[Antirobot] == code)
  }

  /** The submission for a landing page. A page without any form is an error; otherwise
      the chosen form's action, resolved, is the POST URL and its inputs, with the
      overrides applied, are the fields: the URL is absolute, `nr_id` holds the upper-cased
      VIN and the CAPTCHA field the code, and each extracted field other than those and
      `trimite` keeps its value. */
  function BuildForm(page: Page, vin: string, code: string): (r: Result<Submission, string>)
    ensures r.Failure? <==> |page.forms| == 0
    ensures r.Failure? ==> r.error == NoFormMessage
    ensures r.Success? ==>
              && SelectForm(page.forms).Some?
              && r.value.url == ResolveAction(SelectForm(page.forms).value.action)
              && r.value.fields == ApplyOverrides(CollectInputs(SelectForm(page.forms).value.inputs), vin, code)
    ensures r.Success? ==> StartsWith(r.value.url, "http")
    ensures r.Success? ==> NrId in r.value.fields && r.value.fields[NrId] == Upper(vin)
    ensures r.Success? ==> CarriesCode(r.value.fields, code)
    ensures r.Success? ==>
              var extracted := CollectInputs(SelectForm(page.forms).value.inputs);
              forall k :: (k in extracted && k != NrId && k != VerifCod && k != Antirobot &&
                           k != Trimite) ==> k in r.value.fields && r.value.fields[k] == extracted[k]
  {
    match SelectForm(page.forms)
    case None => Failure(NoFormMessage)
    case Some(form) =>
      var fields := ApplyOverrides(CollectInputs(form.inputs), vin, code);
      Success(Submission(ResolveAction(form.action), fields))
  }
}
