/** The text-input page of the first client version (app/page.tsx): the
    written text and the cookie are posted as JSON to `/api/generate-blog`,
    and the answer decides whether a result is shown. */
module AppPage {
  import opened Wrappers
  import opened Text
  import opened Http

  const NeedInput := "블로그 글 내용을 입력해주세요."
  const NeedCookie := "Velog 쿠키를 입력해주세요."
  const NotOkDefault := "Failed to post to Velog"
  const FailedDefault := "포스팅에 실패했습니다."
  const PostedDefault := "Velog에 성공적으로 포스팅되었습니다!"

  /** What a submission ends with, as the page reports it to the user. */
  datatype Outcome = Rejected(message: string) | Posted(message: string) | Failed(message: string)

  /** The two checks of `generateBlogPost` (app/page.tsx:27-43), the text
      first, and the JSON body then sent: a text or a cookie that trims to
      nothing is refused. */
  function CheckSubmission(input: string, cookie: string): (r: Result<Json, string>)
    ensures JsTrim(input) == [] ==> r == Failure(NeedInput)
    ensures JsTrim(input) != [] && JsTrim(cookie) == [] ==> r == Failure(NeedCookie)
    ensures r.Success? <==> JsTrim(input) != [] && JsTrim(cookie) != []
    ensures r.Success? ==> r.value == JObj(map["content" := JStr(input), "velogCookie" := JStr(cookie)])
  {
    if JsTrim(input) == [] then Failure(NeedInput)
    else if JsTrim(cookie) == [] then Failure(NeedCookie)
    else Success(JObj(map["content" := JStr(input), "velogCookie" := JStr(cookie)]))
  }

  /** How the answer is read (app/page.tsx:46-85): a failed `fetch` or a body
      that is not JSON fails with its message; a status outside 200-299 fails
      with the body's `error` or the default; an ok answer is a success only
      when it says `success: true`, and otherwise fails with its `error` or
      the other default. */
  function ReadAnswer(answer: Result<Fetched, string>): (r: Result<Reply, string>)
    ensures answer.Failure? ==> r == Failure(answer.error)
    ensures answer.Success? && answer.value.json.Failure? ==> r == Failure(answer.value.json.error)
    ensures answer.Success? && answer.value.json.Success? && !Ok(answer.value.status) ==>
              r == Failure(OrElse(answer.value.json.value.error, NotOkDefault))
    ensures answer.Success? && answer.value.json.Success? && Ok(answer.value.status) &&
            answer.value.json.value.success != Some(true) ==>
              r == Failure(OrElse(answer.value.json.value.error, FailedDefault))
    ensures r.Success? <==> answer.Success? && Ok(answer.value.status) && answer.value.json.Success? &&
                            answer.value.json.value.success == Some(true)
    ensures r.Success? ==> r.value == answer.value.json.value
  {
    if answer.Failure? then Failure(answer.error)
    else match answer.value.json
      case Failure(e) => Failure(e)
      case Success(data) =>
        if !Ok(answer.value.status) then Failure(OrElse(data.error, NotOkDefault))
        else if data.success == Some(true) then Success(data)
        else Failure(OrElse(data.error, FailedDefault))
  }

  /** The result kept after a success (app/page.tsx:71-75): `success: true`
      with the answer's `velogResponse` and `message`, nothing else. */
  function PostOf(data: Reply): (p: Reply)
    ensures p.success == Some(true) && p.velogResponse == data.velogResponse && p.message == data.message
    ensures p.error.None? && p.title.None? && p.summary.None? && p.body.None? && p.tags.None?
  {
    Reply(Some(true), data.message, None, data.velogResponse, None, None, None, None)
  }

  /** The component `VelogHelper` of this page: its state variables. */
  class VelogHelper {
    var input: string
    var blogPost: Option<Reply>
    var isLoading: bool
    var velogCookie: string

    constructor()
      ensures input == [] && blogPost.None? && !isLoading && velogCookie == []
    {
      input := [];
      blogPost := None;
      isLoading := false;
      velogCookie := [];
    }

    /** `generateBlogPost` (app/page.tsx:26-89), with the result of the
        request as a parameter: a refused submission sends nothing and
        changes nothing; otherwise the JSON body is sent, a success replaces
        the result, a failure leaves the previous one, and the page is no
        longer loading. */
    method GenerateBlogPost(answer: Result<Fetched, string>) returns (outcome: Outcome, request: Option<Json>)
      modifies this
      ensures CheckSubmission(old(input), old(velogCookie)).Failure? ==>
                request.None? && outcome == Rejected(CheckSubmission(old(input), old(velogCookie)).error) &&
                isLoading == old(isLoading)
      ensures CheckSubmission(old(input), old(velogCookie)).Success? ==>
                request == Some(CheckSubmission(old(input), old(velogCookie)).value) && !isLoading
      ensures CheckSubmission(old(input), old(velogCookie)).Success? && ReadAnswer(answer).Success? ==>
                outcome == Posted(OrElse(ReadAnswer(answer).value.message, PostedDefault)) &&
                blogPost == Some(PostOf(ReadAnswer(answer).value))
      ensures CheckSubmission(old(input), old(velogCookie)).Success? && ReadAnswer(answer).Failure? ==>
                outcome == Failed(ReadAnswer(answer).error)
      ensures CheckSubmission(old(input), old(velogCookie)).Failure? || ReadAnswer(answer).Failure? ==>
                blogPost == old(blogPost)
      ensures input == old(input) && velogCookie == old(velogCookie)
    {
      var check := CheckSubmission(input, velogCookie);
      if check.Failure? {
        return Rejected(check.error), None;
      }
      isLoading := true;
      request := Some(check.value);
      var read := ReadAnswer(answer);
      if read.Success? {
        outcome := Posted(OrElse(read.value.message, PostedDefault));
        blogPost := Some(PostOf(read.value));
      } else {
        outcome := Failed(read.error);
      }
      isLoading := false;
    }
  }

  // ---------------------------------------------------------------- properties of the checks

  /** A text of white space only is refused, whatever the cookie. */
  lemma BlankInputRefused(input: string, cookie: string)
    requires AllSpace(input, IsJsSpace)
    ensures CheckSubmission(input, cookie) == Failure(NeedInput)
  {
    TrimEmptyIff(input, IsJsSpace);
  }

  /** With some text, a cookie of white space only is refused. */
  lemma BlankCookieRefused(input: string, cookie: string, i: nat)
    requires i < |input| && !IsJsSpace(input[i])
    requires AllSpace(cookie, IsJsSpace)
    ensures CheckSubmission(input, cookie) == Failure(NeedCookie)
  {
    TrimEmptyIff(input, IsJsSpace);
    TrimEmptyIff(cookie, IsJsSpace);
  }

  /** An ok answer that does not say `success: true` is a failure, even with
      status 200. */
  lemma OkWithoutSuccessFails(data: Reply, text: string)
    requires data.success != Some(true)
    ensures ReadAnswer(Success(Fetched(200, text, Success(data)))).Failure?
  {
  }
}
