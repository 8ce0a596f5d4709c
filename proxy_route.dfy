/** The Next.js route `POST /api/generate-blog`
    (FrontEnd/app/api/generate-blog/route.ts): it checks the uploaded form,
    forwards the file and the cookie to the Flask back end, and reshapes the
    back end's answer for the page. */
module ProxyRoute {
  import opened Wrappers
  import opened Text
  import opened Http

  const MaxUploadBytes: nat := 10 * 1024 * 1024
  const PdfMime := "application/pdf"

  const NeedPdf := "PDF 파일이 필요합니다."
  const NeedCookie := "Velog 쿠키가 필요합니다."
  const PdfOnly := "PDF 파일만 업로드 가능합니다."
  const TooLarge := "파일 크기는 10MB 이하여야 합니다."
  const FlaskErrorPrefix := "Flask API 오류: "
  const DefaultMessage := "PDF 분석 및 Velog 포스팅이 완료되었습니다!"

  /** JavaScript's truthiness of what `FormData.get` returns: `null` and the
      empty string are falsy, a file and any other string are truthy. */
  predicate Truthy(v: Option<FormValue>)
  {
    v.Some? && (v.value.FileValue? || v.value.text != [])
  }

  /** A form that passed the guards: the PDF file and the cookie part, as
      they were read. */
  datatype Upload = Upload(pdf: FileInfo, cookie: FormValue)

  function Reject(msg: string): Response
  {
    Response(400, ErrorReply(msg))
  }

  /** The guards of route.ts:9-28, in their order: a falsy `pdf_file`, a
      falsy `velog_cookie`, a type other than `application/pdf` (a text part
      has no type), a size above 10 MiB; each refused with status 400. */
  function Validate(form: Form): (r: Result<Upload, Response>)
    ensures !Truthy(FirstValue(form, "pdf_file")) ==> r == Failure(Reject(NeedPdf))
    ensures Truthy(FirstValue(form, "pdf_file")) && !Truthy(FirstValue(form, "velog_cookie")) ==> r == Failure(Reject(NeedCookie))
    ensures Truthy(FirstValue(form, "pdf_file")) && Truthy(FirstValue(form, "velog_cookie")) ==>
              var pdf := FirstValue(form, "pdf_file").value;
              (!(pdf.FileValue? && pdf.file.mimeType == PdfMime) ==> r == Failure(Reject(PdfOnly))) &&
              (pdf.FileValue? && pdf.file.mimeType == PdfMime && pdf.file.size > MaxUploadBytes ==> r == Failure(Reject(TooLarge))) &&
              (pdf.FileValue? && pdf.file.mimeType == PdfMime && pdf.file.size <= MaxUploadBytes ==>
                 r == Success(Upload(pdf.file, FirstValue(form, "velog_cookie").value)))
  {
    var pdf := FirstValue(form, "pdf_file");
    var cookie := FirstValue(form, "velog_cookie");
    if !Truthy(pdf) then Failure(Reject(NeedPdf))
    else if !Truthy(cookie) then Failure(Reject(NeedCookie))
    else if !(pdf.value.FileValue? && pdf.value.file.mimeType == PdfMime) then Failure(Reject(PdfOnly))
    else if pdf.value.file.size > MaxUploadBytes then Failure(Reject(TooLarge))
    else Success(Upload(pdf.value.file, cookie.value))
  }

  /** The form route.ts:31-33 builds for the back end, as written: the file
      under `pdf_file` and the cookie under `velog_cookie`. */
  function ForwardedFormAsWritten(u: Upload): (f: Form)
    ensures |f| == 2 && f[0] == ("pdf_file", FileValue(u.pdf)) && f[1] == ("velog_cookie", u.cookie)
  {
    [("pdf_file", FileValue(u.pdf)), ("velog_cookie", u.cookie)]
  }

  /** The form the back end reads: the file under `pdf`, the name the Flask
      handler and the direct client use. */
  function ForwardedForm(u: Upload): (f: Form)
    ensures |f| == 2 && f[0] == ("pdf", FileValue(u.pdf)) && f[1] == ("velog_cookie", u.cookie)
  {
    [("pdf", FileValue(u.pdf)), ("velog_cookie", u.cookie)]
  }

  /** The page's reply for the back end's answer (route.ts:40-64): a status
      outside 200-299 becomes a 500 naming the status and the body text; a
      body that is not JSON, or a failed `fetch`, a 500 with the error's
      message; otherwise the result's fields, with `success: true` and the
      default message when the result's message is missing or empty. */
  function Reshape(answer: Result<Fetched, string>): (resp: Response)
    ensures answer.Failure? ==> resp == Response(500, ErrorReply(answer.error))
    ensures answer.Success? && !Ok(answer.value.status) ==>
              resp == Response(500, ErrorReply(FlaskErrorPrefix + NatToString(answer.value.status) + " " + answer.value.text))
    ensures answer.Success? && Ok(answer.value.status) && answer.value.json.Failure? ==>
              resp == Response(500, ErrorReply(answer.value.json.error))
    ensures answer.Success? && Ok(answer.value.status) && answer.value.json.Success? ==>
              var result := answer.value.json.value;
              resp.status == 200 && resp.reply.success == Some(true) && resp.reply.error.None? &&
              resp.reply.message == Some(OrElse(result.message, DefaultMessage)) &&
              resp.reply.velogResponse == result.velogResponse && resp.reply.title == result.title &&
              resp.reply.summary == result.summary && resp.reply.body == result.body && resp.reply.tags == result.tags
  {
    if answer.Failure? then Response(500, ErrorReply(answer.error))
    else if !Ok(answer.value.status) then
      Response(500, ErrorReply(FlaskErrorPrefix + NatToString(answer.value.status) + " " + answer.value.text))
    else match answer.value.json
      case Failure(e) => Response(500, ErrorReply(e))
      case Success(result) =>
        Response(200, Reply(Some(true), Some(OrElse(result.message, DefaultMessage)), None, result.velogResponse,
                            result.title, result.summary, result.body, result.tags))
  }

  /** The route as written (route.ts:6-66): the guards, then the form of
      route.ts:31-33, with the file under `pdf_file`, sent to the back end,
      and the reshaped answer. Nothing is sent when a guard refuses. */
  function Post(form: Form, answer: Result<Fetched, string>): (r: (Response, Option<Form>))
    ensures Validate(form).Failure? ==> r == (Validate(form).error, None)
    ensures Validate(form).Success? ==> r == (Reshape(answer), Some(ForwardedFormAsWritten(Validate(form).value)))
    ensures r.1.Some? ==> FirstValue(r.1.value, "pdf_file") == Some(FileValue(Validate(form).value.pdf)) &&
                          FirstValue(r.1.value, "velog_cookie") == Some(Validate(form).value.cookie)
  {
    match Validate(form)
    case Failure(resp) => (resp, None)
    case Success(u) =>
      TwoPartForm(FileValue(u.pdf), u.cookie);
      (Reshape(answer), Some(ForwardedFormAsWritten(u)))
  }

  /** The route with the file forwarded under `pdf`, the name the back end
      reads: the same guards and the same reshaping. */
  function PostCorrected(form: Form, answer: Result<Fetched, string>): (r: (Response, Option<Form>))
    ensures Validate(form).Failure? ==> r == (Validate(form).error, None)
    ensures Validate(form).Success? ==> r == (Reshape(answer), Some(ForwardedForm(Validate(form).value)))
    ensures r.1.Some? ==> FirstValue(r.1.value, "pdf") == Some(FileValue(Validate(form).value.pdf)) &&
                          FirstValue(r.1.value, "velog_cookie") == Some(Validate(form).value.cookie)
  {
    match Validate(form)
    case Failure(resp) => (resp, None)
    case Success(u) =>
      var f := ForwardedForm(u);
      assert f[0].0 != "velog_cookie" by { assert |f[0].0| != |"velog_cookie"|; }
      assert f[1..] == [f[1]];
      (Reshape(answer), Some(f))
  }

  // ---------------------------------------------------------------- properties of the guards

  /** A form without a usable `pdf_file` is refused first, whatever else it
      holds. */
  lemma MissingFileFirst(form: Form, extra: Form)
    requires !Truthy(FirstValue(form, "pdf_file"))
    requires forall i :: 0 <= i < |extra| ==> extra[i].0 != "pdf_file"
    ensures Validate(form + extra) == Failure(Reject(NeedPdf))
  {
    FirstValueAppend(form, extra, "pdf_file");
  }

  lemma {:induction false} FirstValueAppend(form: Form, extra: Form, key: string)
    requires forall i :: 0 <= i < |extra| ==> extra[i].0 != key
    ensures FirstValue(form + extra, key) == FirstValue(form, key)
    decreases |form|
  {
    if form == [] {
      assert form + extra == extra;
    } else {
      assert (form + extra)[1..] == form[1..] + extra;
      FirstValueAppend(form[1..], extra, key);
    }
  }

  /** How `FormData.get` reads a form of one file part and one cookie part. */
  lemma TwoPartForm(pdf: FormValue, cookie: FormValue)
    ensures FirstValue([("pdf_file", pdf), ("velog_cookie", cookie)], "pdf_file") == Some(pdf)
    ensures FirstValue([("pdf_file", pdf), ("velog_cookie", cookie)], "velog_cookie") == Some(cookie)
  {
    var form := [("pdf_file", pdf), ("velog_cookie", cookie)];
    assert "pdf_file"[0] != "velog_cookie"[0];
    assert form[1..] == [("velog_cookie", cookie)];
  }

  /** The cookie check is a truthiness check: a cookie of white space only
      passes it. */
  lemma WhitespaceCookiePasses(pdf: FileInfo, cookie: string)
    requires cookie != [] && AllSpace(cookie, IsJsSpace)
    requires pdf.mimeType == PdfMime && pdf.size <= MaxUploadBytes
    ensures Validate([("pdf_file", FileValue(pdf)), ("velog_cookie", TextValue(cookie))]) ==
            Success(Upload(pdf, TextValue(cookie)))
  {
    TwoPartForm(FileValue(pdf), TextValue(cookie));
  }

  /** The type is checked before the size: an oversized file of the wrong
      type is refused for its type. */
  lemma TypeBeforeSize(form: Form)
    requires Truthy(FirstValue(form, "pdf_file")) && Truthy(FirstValue(form, "velog_cookie"))
    requires FirstValue(form, "pdf_file").value.FileValue?
    requires FirstValue(form, "pdf_file").value.file.mimeType != PdfMime
    ensures Validate(form) == Failure(Reject(PdfOnly))
  {
  }

  /** The size limit is inclusive: 10485760 bytes pass, one byte more does
      not. */
  lemma SizeBoundary(name: string, cookie: string)
    requires cookie != []
    ensures Validate([("pdf_file", FileValue(FileInfo(name, PdfMime, 10485760))), ("velog_cookie", TextValue(cookie))]).Success?
    ensures Validate([("pdf_file", FileValue(FileInfo(name, PdfMime, 10485761))), ("velog_cookie", TextValue(cookie))]) ==
            Failure(Reject(TooLarge))
  {
    TwoPartForm(FileValue(FileInfo(name, PdfMime, 10485760)), TextValue(cookie));
    TwoPartForm(FileValue(FileInfo(name, PdfMime, 10485761)), TextValue(cookie));
  }
}
