/** How the parts fit together: the form each client or the proxy route
    sends, read by the Flask handler's guards. */
module Relay {
  import opened Wrappers
  import opened Text
  import opened Http
  import ProxyRoute
  import BackendVelog
  import FrontEndPage

  /** Neither part the proxy route sends is named `pdf`. */
  lemma AsWrittenHasNoPdfPart(u: ProxyRoute.Upload)
    ensures FirstFile(ProxyRoute.ForwardedFormAsWritten(u), "pdf").None?
  {
    var f := ProxyRoute.ForwardedFormAsWritten(u);
    assert f[0].0 != "pdf" by { assert |f[0].0| != |"pdf"|; }
    assert f[1].0 != "pdf" by { assert |f[1].0| != |"pdf"|; }
  }

  /** As written, every form the proxy route forwards is refused by the back
      end for lack of a `pdf` file, and the route then answers 500 with the
      back end's status and text: no upload through the route can succeed. */
  lemma ProxyFormRejectedByBackend(form: Form, replyText: string, replyJson: Result<Reply, string>)
    requires ProxyRoute.Validate(form).Success?
    ensures var r := ProxyRoute.Post(form, Success(Fetched(400, replyText, replyJson)));
            r.1.Some? &&
            BackendVelog.CheckPostRequest(r.1.value) == Failure(Response(400, ErrorReply(BackendVelog.NeedPdf))) &&
            r.0 == Response(500, ErrorReply(ProxyRoute.FlaskErrorPrefix + NatToString(400) + " " + replyText))
  {
    AsWrittenHasNoPdfPart(ProxyRoute.Validate(form).value);
  }

  /** With the file under `pdf`, what the route accepted with a non-empty
      text cookie passes the back end's guards with the same file and
      cookie. */
  lemma CorrectedProxyFormAccepted(form: Form, answer: Result<Fetched, string>)
    requires ProxyRoute.Validate(form).Success?
    requires ProxyRoute.Validate(form).value.cookie.TextValue?
    ensures var r := ProxyRoute.PostCorrected(form, answer);
            r.1.Some? &&
            BackendVelog.CheckPostRequest(r.1.value) ==
            Success(BackendVelog.PostRequest(ProxyRoute.Validate(form).value.pdf, ProxyRoute.Validate(form).value.cookie.text))
  {
    var u := ProxyRoute.Validate(form).value;
    var f := ProxyRoute.ForwardedForm(u);
    assert ProxyRoute.Truthy(FirstValue(form, "velog_cookie"));
    assert f[0].0 != "velog_cookie" by { assert |f[0].0| != |"velog_cookie"|; }
    assert f[1..] == [f[1]];
  }

  /** The route takes a file part for the cookie too, since a file is
      truthy; the back end reads the cookie from text parts only and refuses
      it. */
  lemma FileCookieRefusedByBackend(form: Form)
    requires ProxyRoute.Validate(form).Success?
    requires ProxyRoute.Validate(form).value.cookie.FileValue?
    ensures BackendVelog.CheckPostRequest(ProxyRoute.ForwardedForm(ProxyRoute.Validate(form).value)) ==
            Failure(Response(400, ErrorReply(BackendVelog.NeedCookie)))
  {
    var u := ProxyRoute.Validate(form).value;
    var f := ProxyRoute.ForwardedForm(u);
    assert f[0].0 != "velog_cookie" by { assert |f[0].0| != |"velog_cookie"|; }
  }

  /** Whatever the upload page sends passes the back end's guards, with the
      page's file and cookie. */
  lemma ClientFormAccepted(pdfFile: Option<FrontEndPage.PdfFile>, cookie: string)
    requires FrontEndPage.CheckSubmission(pdfFile, cookie).Success?
    ensures BackendVelog.CheckPostRequest(FrontEndPage.CheckSubmission(pdfFile, cookie).value) ==
            Success(BackendVelog.PostRequest(pdfFile.value.file, cookie))
  {
    var f := FrontEndPage.CheckSubmission(pdfFile, cookie).value;
    TrimEmptyIff(cookie, IsJsSpace);
    assert f[0].0 != "velog_cookie" by { assert |f[0].0| != |"velog_cookie"|; }
    assert f[1..] == [f[1]];
  }

  /** The back end only asks for a non-empty cookie: one of white space only,
      which the upload page refuses, passes its guard. */
  lemma WhitespaceCookieGap(pdf: FileInfo, cookie: string, pdfFile: FrontEndPage.PdfFile)
    requires cookie != [] && AllSpace(cookie, IsJsSpace)
    ensures BackendVelog.CheckPostRequest([("pdf", FileValue(pdf)), ("velog_cookie", TextValue(cookie))]) ==
            Success(BackendVelog.PostRequest(pdf, cookie))
    ensures FrontEndPage.CheckSubmission(Some(pdfFile), cookie) == Failure(FrontEndPage.NeedCookie)
  {
    var f := [("pdf", FileValue(pdf)), ("velog_cookie", TextValue(cookie))];
    assert f[0].0 != "velog_cookie" by { assert |f[0].0| != |"velog_cookie"|; }
    assert f[1..] == [f[1]];
    FrontEndPage.WhitespaceCookieRefused(pdfFile, cookie);
  }
}
