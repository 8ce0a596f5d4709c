/** The upload page of the Next.js client (FrontEnd/app/page.tsx): the
    component state, the file picker's checks, the submission to the Flask
    back end and the Markdown preview of the result. */
module FrontEndPage {
  import opened Wrappers
  import opened Text
  import opened Http

  const MaxFileSize: nat := 10 * 1024 * 1024
  const PdfMime := "application/pdf"

  const WrongType := "PDF 파일만 업로드 가능합니다."
  /** The size message, with `formatFileSize(10 * 1024 * 1024)` written out. */
  const TooLarge := "파일 크기는 10 MB 이하여야 합니다."
  const NeedFile := "PDF 파일을 업로드해주세요."
  const NeedCookie := "Velog 쿠키를 입력해주세요."
  const FailedDefault := "포스팅에 실패했습니다."
  const PostedMessage := "PDF를 분석하여 Velog에 성공적으로 포스팅되었습니다!"

  /** The selected file as the page keeps it. */
  datatype PdfFile = PdfFile(file: FileInfo, name: string, size: nat)

  /** What an action ends with, as the page reports it to the user. */
  datatype Outcome =
    | Ignored
    | Rejected(message: string)
    | Selected(name: string)
    | Posted(message: string)
    | Failed(message: string)

  /** The checks of `handleFileUpload` (page.tsx:39-58): the type first, then
      the size limit of 10 MiB, inclusive. */
  function CheckUpload(file: FileInfo): (r: Result<PdfFile, string>)
    ensures r.Success? <==> file.mimeType == PdfMime && file.size <= MaxFileSize
    ensures file.mimeType != PdfMime ==> r == Failure(WrongType)
    ensures file.mimeType == PdfMime && file.size > MaxFileSize ==> r == Failure(TooLarge)
    ensures r.Success? ==> r.value.file == file && r.value.name == file.name && r.value.size == file.size
  {
    if file.mimeType != PdfMime then Failure(WrongType)
    else if file.size > MaxFileSize then Failure(TooLarge)
    else Success(PdfFile(file, file.name, file.size))
  }

  /** The checks of `generateBlogPost` (page.tsx:80-96) and the form it then
      sends: the file under `pdf`, the cookie as typed. A cookie that trims
      to nothing is refused. */
  function CheckSubmission(pdfFile: Option<PdfFile>, cookie: string): (r: Result<Form, string>)
    ensures pdfFile.None? ==> r == Failure(NeedFile)
    ensures pdfFile.Some? && JsTrim(cookie) == [] ==> r == Failure(NeedCookie)
    ensures r.Success? <==> pdfFile.Some? && JsTrim(cookie) != []
    ensures r.Success? ==> r.value == [("pdf", FileValue(pdfFile.value.file)), ("velog_cookie", TextValue(cookie))]
  {
    if pdfFile.None? then Failure(NeedFile)
    else if JsTrim(cookie) == [] then Failure(NeedCookie)
    else Success([("pdf", FileValue(pdfFile.value.file)), ("velog_cookie", TextValue(cookie))])
  }

  /** How `generateBlogPost` reads the back end's answer (page.tsx:110-127,
      140-146): a failed `fetch` or a body that is not JSON fails with its
      message; a status outside 200-299 fails with the body's `error`, or the
      default message; otherwise the decoded body. */
  function ReadAnswer(answer: Result<Fetched, string>): (r: Result<Reply, string>)
    ensures answer.Failure? ==> r == Failure(answer.error)
    ensures answer.Success? && answer.value.json.Failure? ==> r == Failure(answer.value.json.error)
    ensures answer.Success? && answer.value.json.Success? && !Ok(answer.value.status) ==>
              r == Failure(OrElse(answer.value.json.value.error, FailedDefault))
    ensures r.Success? <==> answer.Success? && Ok(answer.value.status) && answer.value.json.Success?
    ensures r.Success? ==> r.value == answer.value.json.value
  {
    if answer.Failure? then Failure(answer.error)
    else match answer.value.json
      case Failure(e) => Failure(e)
      case Success(data) =>
        if !Ok(answer.value.status) then Failure(OrElse(data.error, FailedDefault)) else Success(data)
  }

  /** The result the page keeps after a successful post (page.tsx:130-138):
      the whole answer as `velogResponse`, the fixed message, and the
      answer's title, summary, body and tags. */
  function PostOf(data: Reply): (p: Reply)
    ensures p.success == Some(true) && p.message == Some(PostedMessage) && p.error.None?
    ensures p.velogResponse == Some(ReplyJson(data))
    ensures p.title == data.title && p.summary == data.summary && p.body == data.body && p.tags == data.tags
  {
    Reply(Some(true), Some(PostedMessage), None, Some(ReplyJson(data)), data.title, data.summary, data.body, data.tags)
  }

  /** The component `VelogHelper`: its state variables. */
  class VelogHelper {
    var pdfFile: Option<PdfFile>
    var blogPost: Option<Reply>
    var isLoading: bool
    var velogCookie: string

    constructor()
      ensures pdfFile.None? && blogPost.None? && !isLoading && velogCookie == []
    {
      pdfFile := None;
      blogPost := None;
      isLoading := false;
      velogCookie := [];
    }

    /** `handleFileUpload` (page.tsx:35-70): the file the picker hands over,
        if any, is kept when it passes the checks; otherwise nothing
        changes. */
    method HandleFileUpload(selected: Option<FileInfo>) returns (outcome: Outcome)
      modifies this
      ensures selected.None? ==> outcome == Ignored && pdfFile == old(pdfFile)
      ensures selected.Some? && CheckUpload(selected.value).Failure? ==>
                outcome == Rejected(CheckUpload(selected.value).error) && pdfFile == old(pdfFile)
      ensures selected.Some? && CheckUpload(selected.value).Success? ==>
                outcome == Selected(selected.value.name) && pdfFile == Some(CheckUpload(selected.value).value)
      ensures blogPost == old(blogPost) && isLoading == old(isLoading)
      ensures velogCookie == old(velogCookie)
    {
      if selected.None? {
        return Ignored;
      }
      var file := selected.value;
      if file.mimeType != PdfMime {
        return Rejected(WrongType);
      }
      if file.size > MaxFileSize {
        return Rejected(TooLarge);
      }
      pdfFile := Some(PdfFile(file, file.name, file.size));
      outcome := Selected(file.name);
    }

    /** `removeFile` (page.tsx:72-77): the kept file is dropped and the rest
        of the state is kept. */
    method RemoveFile()
      modifies this
      ensures pdfFile.None?
      ensures blogPost == old(blogPost) && isLoading == old(isLoading) && velogCookie == old(velogCookie)
    {
      pdfFile := None;
    }

    /** `generateBlogPost` (page.tsx:79-149), with the result of the request
        as a parameter: a refused submission sends nothing and changes
        nothing; otherwise the form is sent, the previous result is cleared,
        the new one is kept when the answer reads as a success, and the page
        is no longer loading. */
    method GenerateBlogPost(answer: Result<Fetched, string>) returns (outcome: Outcome, request: Option<Form>)
      modifies this
      ensures CheckSubmission(old(pdfFile), old(velogCookie)).Failure? ==>
                request.None? && outcome == Rejected(CheckSubmission(old(pdfFile), old(velogCookie)).error) &&
                blogPost == old(blogPost) && isLoading == old(isLoading)
      ensures CheckSubmission(old(pdfFile), old(velogCookie)).Success? ==>
                request == Some(CheckSubmission(old(pdfFile), old(velogCookie)).value) && !isLoading
      ensures CheckSubmission(old(pdfFile), old(velogCookie)).Success? && ReadAnswer(answer).Failure? ==>
                outcome == Failed(ReadAnswer(answer).error) && blogPost.None?
      ensures CheckSubmission(old(pdfFile), old(velogCookie)).Success? && ReadAnswer(answer).Success? ==>
                outcome == Posted(OrElse(ReadAnswer(answer).value.message, PostedMessage)) &&
                blogPost == Some(PostOf(ReadAnswer(answer).value))
      ensures pdfFile == old(pdfFile) && velogCookie == old(velogCookie)
    {
      var check := CheckSubmission(pdfFile, velogCookie);
      if check.Failure? {
        return Rejected(check.error), None;
      }
      blogPost := None;
      isLoading := true;
      request := Some(check.value);
      var read := ReadAnswer(answer);
      if read.Success? {
        outcome := Posted(OrElse(read.value.message, PostedMessage));
        blogPost := Some(PostOf(read.value));
      } else {
        outcome := Failed(read.error);
      }
      isLoading := false;
    }
  }

  // ---------------------------------------------------------------- properties of the checks

  /** A cookie of white space only is refused like an empty one. */
  lemma WhitespaceCookieRefused(pdfFile: PdfFile, cookie: string)
    requires AllSpace(cookie, IsJsSpace)
    ensures CheckSubmission(Some(pdfFile), cookie) == Failure(NeedCookie)
  {
    TrimEmptyIff(cookie, IsJsSpace);
  }

  /** A cookie with any other character passes, and is sent as typed. */
  lemma CookieWithTextAccepted(pdfFile: PdfFile, cookie: string, i: nat)
    requires i < |cookie| && !IsJsSpace(cookie[i])
    ensures CheckSubmission(Some(pdfFile), cookie).Success?
    ensures FirstValue(CheckSubmission(Some(pdfFile), cookie).value, "velog_cookie") == Some(TextValue(cookie))
  {
    TrimEmptyIff(cookie, IsJsSpace);
    var form := CheckSubmission(Some(pdfFile), cookie).value;
    assert "pdf"[0] != "velog_cookie"[0];
    assert form[1..] == [("velog_cookie", TextValue(cookie))];
  }

  /** The size limit is inclusive: 10485760 bytes pass, one byte more does
      not. */
  lemma UploadSizeBoundary(name: string)
    ensures CheckUpload(FileInfo(name, PdfMime, 10485760)).Success?
    ensures CheckUpload(FileInfo(name, PdfMime, 10485761)) == Failure(TooLarge)
  {
  }

  // ---------------------------------------------------------------- the Markdown preview

  /** Each tag with a leading `#`. */
  function HashTags(tags: seq<string>): (r: seq<string>)
    ensures |r| == |tags|
    ensures forall i :: 0 <= i < |tags| ==> r[i] == "#" + tags[i]
  {
    seq(|tags|, i requires 0 <= i < |tags| => "#" + tags[i])
  }

  /** `formattedTags` (page.tsx:162): the hash tags separated by one space, or
      nothing when there are no tags. */
  function FormatTags(tags: Option<seq<string>>): (r: string)
    ensures tags.None? || tags.value == [] ==> r == []
    ensures tags.Some? && tags.value != [] ==> r == Join(HashTags(tags.value), " ") && r != [] && r[0] == '#'
  {
    if tags.Some? && |tags.value| > 0 then Join(HashTags(tags.value), " ")
    else []
  }

  const SummaryHeading := "\n\n---\n\n## 📝 요약\n"
  const TagsLabel := "\n\n**태그:** "

  /** `generateMarkdown` (page.tsx:159-174): nothing without a result;
      otherwise the title as a heading, the body, the summary section and the
      tags line, each missing or empty field replaced by its placeholder. */
  function Markdown(post: Option<Reply>): (md: string)
    ensures post.None? <==> md == []
    ensures post.Some? ==> "# " <= md
  {
    if post.None? then []
    else "# " + OrElse(post.value.title, "제목 없음") + AfterTitle(post.value)
  }

  /** What follows the title heading: a blank line, the body and the
      summary heading, then the summary and the tags line. */
  function AfterTitle(p: Reply): (r: string)
    ensures r != [] && r[0] == '\n'
  {
    ("\n\n" + OrElse(p.body, "본문 없음") + SummaryHeading) + SummaryAndTags(p)
  }

  /** The last part of the preview: the summary, the tags label, and the
      tags line or its placeholder. */
  function SummaryAndTags(p: Reply): string
  {
    OrElse(p.summary, "요약 없음") + TagsLabel + OrElse(Some(FormatTags(p.tags)), "태그 없음")
  }

  /** The first line of the preview is the title heading, so the title can be
      read back from it when it is a single line. */
  lemma MarkdownTitleLine(p: Reply)
    requires p.title.Some? && p.title.value != []
    requires forall i :: 0 <= i < |p.title.value| ==> !IsLineBoundary(p.title.value[i])
    ensures FirstLine(Markdown(Some(p))) == "# " + p.title.value
  {
    var head := "# " + p.title.value;
    forall i | 0 <= i < |head| ensures !IsLineBoundary(head[i]) {
      if i >= 2 {
        assert head[i] == p.title.value[i - 2];
      }
    }
    FirstLineOfConcat(head, AfterTitle(p));
  }

  /** A missing or empty title gives the heading `# 제목 없음`. */
  lemma MarkdownTitleFallback(p: Reply)
    requires p.title.None? || p.title.value == []
    ensures FirstLine(Markdown(Some(p))) == "# 제목 없음"
  {
    var head := "# " + OrElse(p.title, "제목 없음");
    assert head == "# 제목 없음";
    assert forall i :: 0 <= i < |head| ==> !IsLineBoundary(head[i]);
    FirstLineOfConcat(head, AfterTitle(p));
  }

  /** The heading, a blank line, the body and the summary heading open the
      preview; a missing or empty body gives `본문 없음` there. */
  lemma MarkdownBodyPrefix(p: Reply)
    ensures "# " + OrElse(p.title, "제목 없음") + "\n\n" + OrElse(p.body, "본문 없음") + SummaryHeading <= Markdown(Some(p))
    ensures p.body.None? || p.body.value == [] ==>
              "# " + OrElse(p.title, "제목 없음") + "\n\n" + "본문 없음" + SummaryHeading <= Markdown(Some(p))
  {
    var head := "# " + OrElse(p.title, "제목 없음") + "\n\n" + OrElse(p.body, "본문 없음") + SummaryHeading;
    assert Markdown(Some(p)) == head + SummaryAndTags(p);
  }

  /** The preview ends with the summary (or `요약 없음`), the tags label and
      the tags line: `태그 없음` when the tags are missing or empty, otherwise
      the `#`-tags separated by spaces. */
  lemma MarkdownTagsEnding(p: Reply)
    ensures var tail := OrElse(p.summary, "요약 없음") + TagsLabel;
            (p.tags.None? || p.tags.value == [] ==> Suffix(tail + "태그 없음", Markdown(Some(p)))) &&
            (p.tags.Some? && p.tags.value != [] ==> Suffix(tail + Join(HashTags(p.tags.value), " "), Markdown(Some(p))))
  {
    var head := "# " + OrElse(p.title, "제목 없음") + ("\n\n" + OrElse(p.body, "본문 없음") + SummaryHeading);
    assert Markdown(Some(p)) == head + SummaryAndTags(p);
    assert (head + SummaryAndTags(p))[|head|..] == SummaryAndTags(p);
  }

  /** `s` ends with `suffix`. */
  predicate Suffix(suffix: string, s: string)
  {
    |suffix| <= |s| && s[|s| - |suffix|..] == suffix
  }

  /** The tags line is the tags, each behind a `#`: splitting it at the
      spaces gives them back in order when no tag holds a space. */
  lemma FormatTagsRoundTrip(tags: seq<string>)
    requires tags != []
    requires forall i :: 0 <= i < |tags| ==> ' ' !in tags[i]
    ensures Split(FormatTags(Some(tags)), ' ') == HashTags(tags)
    ensures forall i :: 0 <= i < |tags| ==> HashTags(tags)[i][1..] == tags[i]
  {
    var parts := HashTags(tags);
    forall k | 0 <= k < |parts| ensures ' ' !in parts[k] {
      assert parts[k] == "#" + tags[k];
    }
    SplitJoin(parts, ' ');
  }

  /** The placeholder for the tags line stands exactly when there are no
      tags. */
  lemma NoTagsPlaceholder(p: Reply)
    ensures (p.tags.None? || p.tags.value == []) <==> OrElse(Some(FormatTags(p.tags)), "태그 없음") == "태그 없음"
  {
    if p.tags.Some? && p.tags.value != [] {
      var f := FormatTags(p.tags);
      assert f[0] == '#';
      assert "태그 없음"[0] != '#';
    }
  }
}
