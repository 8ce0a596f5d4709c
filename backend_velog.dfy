/** The Flask back end that turns an uploaded PDF into a Velog post
    (BackEnd/Velog.py): the section parser of `get_summary_title_body_tags`,
    the URL slug of `post_to_velog`, the image counter of `process_pdf`, and
    the guards, placeholder substitution and reply of `post_from_pdf`. */
module BackendVelog {
  import opened Wrappers
  import opened Text
  import opened References
  import opened LineScan
  import opened Http

  // ================================================================ the section parser

  const TitleKey := "제목:"
  const SummaryKey := "요약:"
  const BodyKey := "본문:"
  const TagsKey := "태그:"

  /** The keywords in the order the parser tries them. */
  function Keyword(k: nat): (kw: string)
    requires k < 4
    ensures |kw| == 3
  {
    if k == 0 then TitleKey
    else if k == 1 then SummaryKey
    else if k == 2 then BodyKey
    else TagsKey
  }

  const DefaultBody := "내용없음"

  /** The line kind the `k`-th keyword produces. */
  function KeywordKind(k: nat, v: string): LineKind
    requires k < 4
  {
    if k == 0 then TitleLine(v)
    else if k == 1 then SummaryLine(v)
    else if k == 2 then BodyLine(v)
    else TagsLine(v)
  }

  /** The first keyword, from the `k`-th on, that occurs anywhere in `s`,
      with the index of its first occurrence. */
  function FirstKeyword(s: string, k: nat): (r: Option<(nat, nat)>)
    requires k <= 4
    ensures r.Some? ==> k <= r.value.0 < 4 && r.value.1 + 3 <= |s|
    decreases 4 - k
  {
    if k == 4 then None
    else match Find(s, Keyword(k))
      case Some(i) => Some((k, i))
      case None => FirstKeyword(s, k + 1)
  }

  /** What one line of the reply is to the loop of BackEnd/Velog.py:188-223:
      its class once it is stripped. */
  function ClassifyLine(line: string): LineKind
  {
    ClassifyStripped(PyStrip(line))
  }

  /** The chain of checks of BackEnd/Velog.py:190-223 on a stripped line:
      blank, then each keyword in turn, its value being the stripped text
      after its first occurrence; otherwise a plain line. */
  function ClassifyStripped(s: string): LineKind
  {
    if s == [] then Blank
    else match Find(s, TitleKey)
      case Some(i) => TitleLine(PyStrip(s[i + |TitleKey|..]))
      case None =>
        match Find(s, SummaryKey)
        case Some(i) => SummaryLine(PyStrip(s[i + |SummaryKey|..]))
        case None =>
          match Find(s, BodyKey)
          case Some(i) => BodyLine(PyStrip(s[i + |BodyKey|..]))
          case None =>
            match Find(s, TagsKey)
            case Some(i) => TagsLine(PyStrip(s[i + |TagsKey|..]))
            case None => Plain(s)
  }

  /** The same classification stated by priority: the first keyword of the
      list that occurs decides. */
  function ByFirstKeyword(s: string): LineKind
  {
    if s == [] then Blank
    else match FirstKeyword(s, 0)
      case None => Plain(s)
      case Some((k, i)) => KeywordKind(k, PyStrip(s[i + 3..]))
  }

  /** The lines of a reply, classified one by one. */
  function Kinds(lines: seq<string>): (ks: seq<LineKind>)
    ensures |ks| == |lines| && forall i :: 0 <= i < |lines| ==> ks[i] == ClassifyLine(lines[i])
  {
    seq(|lines|, i requires 0 <= i < |lines| => ClassifyLine(lines[i]))
  }

  lemma KindsAppend(a: seq<string>, b: seq<string>)
    ensures Kinds(a + b) == Kinds(a) + Kinds(b)
  {
  }

  /** A value, or its default when it is empty (`if not x: x = default`). */
  function OrDefault(v: string, default: string): (r: string)
    ensures r != [] && (v != [] ==> r == v) && (v == [] ==> r == default)
    requires default != []
  {
    if v == [] then default else v
  }

  /** What follows the loop: references are removed from the body, the tags
      line is split, and empty results get their defaults. */
  function Finish(st: ScanState): Parsed
  {
    Parsed(
      OrDefault(st.title, DefaultTitle),
      OrDefault(st.summary, DefaultSummary),
      OrDefault(RemoveReferences(st.body), DefaultBody),
      SplitTags(st.tagsLine))
  }

  /** The sections of a reply given as its lines. */
  function SectionsOfLines(lines: seq<string>): (p: Parsed)
    ensures p.title != [] && p.summary != [] && p.body != []
    ensures forall i :: 0 <= i < |p.tags| ==> p.tags[i] != [] && PyStrip(p.tags[i]) == p.tags[i]
  {
    Finish(Run(Start, Kinds(lines)))
  }

  /** The parsing half of `get_summary_title_body_tags` (BackEnd/Velog.py:184-240):
      title, summary and body are never empty and every tag is non-empty and
      stripped. */
  function Sections(result: string): (p: Parsed)
    ensures p.title != [] && p.summary != [] && p.body != []
    ensures forall i :: 0 <= i < |p.tags| ==> p.tags[i] != [] && PyStrip(p.tags[i]) == p.tags[i]
  {
    SectionsOfLines(Split(result, '\n'))
  }

  /** One iteration of the loop of BackEnd/Velog.py:188-223 as written: each
      matched keyword ends the iteration (the source's `continue`). */
  method ScanLine(st: ScanState, line: string) returns (next: ScanState)
    ensures next == Step(st, ClassifyLine(line))
  {
    var stripped := PyStrip(line);
    if stripped == [] {
      return st;
    }
    var titleMatch := Find(stripped, TitleKey);
    if titleMatch.Some? {
      return st.(title := PyStrip(stripped[titleMatch.value + |TitleKey|..]), inBody := false);
    }
    var summaryMatch := Find(stripped, SummaryKey);
    if summaryMatch.Some? {
      return st.(summary := PyStrip(stripped[summaryMatch.value + |SummaryKey|..]), inBody := false);
    }
    var bodyMatch := Find(stripped, BodyKey);
    if bodyMatch.Some? {
      return st.(inBody := true, body := PyStrip(stripped[bodyMatch.value + |BodyKey|..]));
    }
    var tagsMatch := Find(stripped, TagsKey);
    if tagsMatch.Some? {
      return st.(tagsLine := PyStrip(stripped[tagsMatch.value + |TagsKey|..]), inBody := false);
    }
    next := st;
    if st.inBody {
      next := st.(body := st.body + "\n" + stripped);
    }
  }

  /** `get_summary_title_body_tags` after the model's reply is in hand
      (BackEnd/Velog.py:184-240): the loop over the reply's lines, then
      reference removal, tag splitting and the defaults. */
  method ParseSections(result: string) returns (title: string, summary: string, body: string, tags: seq<string>)
    ensures Parsed(title, summary, body, tags) == Sections(result)
  {
    var st := Start;
    var lines := Split(result, '\n');
    for i := 0 to |lines|
      invariant st == ScanLines(lines[..i])
    {
      assert lines[..i + 1][..i] == lines[..i];
      st := ScanLine(st, lines[i]);
    }
    assert lines[..|lines|] == lines;
    ScanLinesRun(lines);
    var fullBody := RemoveReferences(st.body);
    tags := SplitTags(st.tagsLine);
    title, summary := st.title, st.summary;
    if title == [] {
      title := DefaultTitle;
    }
    if summary == [] {
      summary := DefaultSummary;
    }
    if fullBody == [] {
      fullBody := DefaultBody;
    }
    body := fullBody;
  }

  /** The loop over the lines, one step per line from the last line back. */
  function ScanLines(lines: seq<string>): ScanState
  {
    if lines == [] then Start
    else Step(ScanLines(lines[..|lines| - 1]), ClassifyLine(lines[|lines| - 1]))
  }

  /** Scanning the lines one by one is running the scanner over their kinds. */
  lemma {:induction false} ScanLinesRun(lines: seq<string>)
    ensures ScanLines(lines) == Run(Start, Kinds(lines))
  {
    if lines != [] {
      var n := |lines| - 1;
      ScanLinesRun(lines[..n]);
      assert lines == lines[..n] + [lines[n]];
      KindsAppend(lines[..n], [lines[n]]);
      assert Kinds([lines[n]]) == [ClassifyLine(lines[n])];
      RunSnoc(Start, Kinds(lines[..n]), ClassifyLine(lines[n]));
    }
  }

  // ---------------------------------------------------------------- classification

  /** Keyword priority: a line is classified by the first keyword of
      title, summary, body, tags that occurs anywhere in it, and its value is
      the stripped text after that keyword's first occurrence. */
  lemma KeywordPriority(line: string, k: nat, i: nat)
    requires k < 4
    requires FirstOccurrence(PyStrip(line), Keyword(k), i)
    requires forall k' :: 0 <= k' < k ==> Find(PyStrip(line), Keyword(k')).None?
    ensures ClassifyLine(line) == KeywordKind(k, PyStrip(PyStrip(line)[i + |Keyword(k)|..]))
  {
    var s := PyStrip(line);
    FindFirst(s, Keyword(k), i);
    assert s != [] by { assert OccursAt(s, Keyword(k), i); }
    FirstKeywordAt(s, 0, k, i);
    ChainIsPriority(s);
  }

  /** Keywords that do not occur are passed over, and the first one that does
      is reported with its first occurrence. */
  lemma {:induction false} FirstKeywordAt(s: string, from: nat, k: nat, i: nat)
    requires from <= k < 4
    requires Find(s, Keyword(k)) == Some(i)
    requires forall k' :: from <= k' < k ==> Find(s, Keyword(k')).None?
    ensures FirstKeyword(s, from) == Some((k, i))
    decreases k - from
  {
    if from < k {
      assert Find(s, Keyword(from)).None?;
      FirstKeywordAt(s, from + 1, k, i);
    }
  }

  /** When no keyword occurs, none is found. */
  lemma {:induction false} FirstKeywordNone(s: string, from: nat)
    requires from <= 4
    requires forall k' :: from <= k' < 4 ==> Find(s, Keyword(k')).None?
    ensures FirstKeyword(s, from).None?
    decreases 4 - from
  {
    if from < 4 {
      assert Find(s, Keyword(from)).None?;
      FirstKeywordNone(s, from + 1);
    }
  }

  /** The chain of checks is the priority rule: each check runs only when
      the earlier keywords are absent. */
  lemma ChainIsPriority(s: string)
    ensures ClassifyStripped(s) == ByFirstKeyword(s)
  {
    if s != [] {
      if Find(s, TitleKey).Some? {
        FirstKeywordAt(s, 0, 0, Find(s, TitleKey).value);
      } else if Find(s, SummaryKey).Some? {
        FirstKeywordAt(s, 0, 1, Find(s, SummaryKey).value);
      } else if Find(s, BodyKey).Some? {
        FirstKeywordAt(s, 0, 2, Find(s, BodyKey).value);
      } else if Find(s, TagsKey).Some? {
        FirstKeywordAt(s, 0, 3, Find(s, TagsKey).value);
      } else {
        FirstKeywordNone(s, 0);
      }
    }
  }

  // ---------------------------------------------------------------- what the loop keeps

  /** A blank or white-space-only line, wherever it is inserted, changes
      nothing: not the title, the summary, the tags, and not the body even in
      body mode. */
  lemma BlankLineIgnored(lines: seq<string>, j: nat, b: string)
    requires j <= |lines| && PyStrip(b) == []
    ensures SectionsOfLines(lines[..j] + [b] + lines[j..]) == SectionsOfLines(lines)
  {
    KindsInsert(lines, j, b);
    RunBlankInsert(Start, Kinds(lines[..j]), Kinds(lines[j..]));
  }

  lemma KindsInsert(lines: seq<string>, j: nat, b: string)
    requires j <= |lines|
    ensures Kinds(lines[..j] + [b] + lines[j..]) == Kinds(lines[..j]) + [ClassifyLine(b)] + Kinds(lines[j..])
    ensures Kinds(lines) == Kinds(lines[..j]) + Kinds(lines[j..])
  {
    KindsAppend(lines[..j] + [b], lines[j..]);
    KindsAppend(lines[..j], [b]);
    assert Kinds([b]) == [ClassifyLine(b)] by { assert [b][1..] == []; }
    KindsAppend(lines[..j], lines[j..]);
    assert lines[..j] + lines[j..] == lines;
  }

  /** The last title line decides the title; an empty value falls back to
      the default. */
  lemma LastTitleLineWins(lines: seq<string>, i: nat)
    requires i < |lines| && ClassifyLine(lines[i]).TitleLine?
    requires forall j :: i < j < |lines| ==> !ClassifyLine(lines[j]).TitleLine?
    ensures SectionsOfLines(lines).title == OrDefault(ClassifyLine(lines[i]).value, DefaultTitle)
  {
    LastLineWins(Start, Kinds(lines), TitleField, i);
  }

  lemma LastSummaryLineWins(lines: seq<string>, i: nat)
    requires i < |lines| && ClassifyLine(lines[i]).SummaryLine?
    requires forall j :: i < j < |lines| ==> !ClassifyLine(lines[j]).SummaryLine?
    ensures SectionsOfLines(lines).summary == OrDefault(ClassifyLine(lines[i]).value, DefaultSummary)
  {
    LastLineWins(Start, Kinds(lines), SummaryField, i);
  }

  /** The tags come from the last tags line. */
  lemma LastTagsLineWins(lines: seq<string>, i: nat)
    requires i < |lines| && ClassifyLine(lines[i]).TagsLine?
    requires forall j :: i < j < |lines| ==> !ClassifyLine(lines[j]).TagsLine?
    ensures SectionsOfLines(lines).tags == SplitTags(ClassifyLine(lines[i]).value)
  {
    LastLineWins(Start, Kinds(lines), TagsField, i);
  }

  /** Without a title line the title is the default. */
  lemma NoTitleLineDefault(lines: seq<string>)
    requires forall j :: 0 <= j < |lines| ==> !ClassifyLine(lines[j]).TitleLine?
    ensures SectionsOfLines(lines).title == DefaultTitle
  {
    FieldUntouched(Start, Kinds(lines), TitleField);
  }

  /** Without a summary line the summary is the default. */
  lemma NoSummaryLineDefault(lines: seq<string>)
    requires forall j :: 0 <= j < |lines| ==> !ClassifyLine(lines[j]).SummaryLine?
    ensures SectionsOfLines(lines).summary == DefaultSummary
  {
    FieldUntouched(Start, Kinds(lines), SummaryField);
  }

  /** Without a tags line there are no tags. */
  lemma NoTagsLineNoTags(lines: seq<string>)
    requires forall j :: 0 <= j < |lines| ==> !ClassifyLine(lines[j]).TagsLine?
    ensures SectionsOfLines(lines).tags == []
  {
    FieldUntouched(Start, Kinds(lines), TagsField);
    NoTags();
  }

  lemma NoTags()
    ensures SplitTags("") == []
  {
    assert Split("", ',') == [""];
    assert CleanTags([""]) == [] + CleanTags([]);
  }

  /** The body is the value of the last body line followed by `"\n" + line`
      for each later plain line up to the next keyword line, with references
      removed; when that is empty, the default. */
  lemma LastBodyLineDecides(lines: seq<string>, i: nat)
    requires i < |lines| && ClassifyLine(lines[i]).BodyLine?
    requires forall j :: i < j < |lines| ==> !ClassifyLine(lines[j]).BodyLine?
    ensures SectionsOfLines(lines).body ==
            OrDefault(RemoveReferences(ClassifyLine(lines[i]).value + Continuation(Kinds(lines)[i + 1..])), DefaultBody)
  {
    LastBodyLineWins(Start, Kinds(lines), i);
  }

  /** Without a body line the body is the default. */
  lemma NoBodyLineDefault(lines: seq<string>)
    requires forall j :: 0 <= j < |lines| ==> !ClassifyLine(lines[j]).BodyLine?
    ensures SectionsOfLines(lines).body == DefaultBody
  {
    NoBodyLineEmptyBody(Kinds(lines));
    assert RemoveReferences([]) == [];
  }

  // ================================================================ the URL slug of post_to_velog

  /** The characters of `[0-9a-f]`, the alphabet of `uuid4().hex`. */
  predicate IsHexDigit(c: char)
  {
    '0' <= c <= '9' || 'a' <= c <= 'f'
  }

  /** A character the pattern `[^\w\s-]` does not delete: a word character, a
      white-space character or a hyphen. */
  predicate SlugChar(c: char, isWord: char -> bool)
  {
    isWord(c) || IsPySpace(c) || c == '-'
  }

  /** `re.sub(r'[^\w\s-]', '', title)`: the title with every other character
      deleted, the kept ones in order. */
  function KeepSlugChars(title: string, isWord: char -> bool): (r: string)
    ensures |r| <= |title|
    ensures forall i :: 0 <= i < |r| ==> SlugChar(r[i], isWord)
    ensures (forall i :: 0 <= i < |title| ==> SlugChar(title[i], isWord)) ==> r == title
  {
    if title == [] then []
    else (if SlugChar(title[0], isWord) then [title[0]] else []) + KeepSlugChars(title[1..], isWord)
  }

  const UntitledPrefix := "untitled-post-"

  /** The slug of BackEnd/Velog.py:249-253: the cleaned, stripped and lowered
      title with spaces turned into hyphens; when that is empty,
      `untitled-post-` and the eight hex digits of a fresh UUID. Python's
      `\w` and `str.lower` are the parameters `isWord` and `lower`, and the
      UUID's digits are `hex`. */
  function UrlSlug(title: string, isWord: char -> bool, lower: string -> string, hex: string): (slug: string)
    requires |hex| == 8 && forall i :: 0 <= i < 8 ==> IsHexDigit(hex[i])
    ensures slug != [] && ' ' !in slug
    ensures var cleaned := lower(PyStrip(KeepSlugChars(title, isWord)));
            (cleaned == [] ==> slug == UntitledPrefix + hex) &&
            (cleaned != [] ==> |slug| == |cleaned| &&
                               forall i :: 0 <= i < |cleaned| ==> slug[i] == if cleaned[i] == ' ' then '-' else cleaned[i])
  {
    var cleaned := lower(PyStrip(KeepSlugChars(title, isWord)));
    ReplaceChar(cleaned, ' ', '-');
    var slug := Replace(cleaned, " ", "-");
    if slug == [] then
      assert forall i :: 0 <= i < |UntitledPrefix| ==> UntitledPrefix[i] != ' ';
      forall i | 0 <= i < |hex| ensures hex[i] != ' ' {
        assert IsHexDigit(hex[i]);
      }
      assert ' ' !in UntitledPrefix + hex by {
        forall i | 0 <= i < |UntitledPrefix + hex| ensures (UntitledPrefix + hex)[i] != ' ' {
          if i < |UntitledPrefix| {
            assert (UntitledPrefix + hex)[i] == UntitledPrefix[i];
          } else {
            assert (UntitledPrefix + hex)[i] == hex[i - |UntitledPrefix|];
          }
        }
      }
      UntitledPrefix + hex
    else
      slug
  }

  /** What survives cleaning is only white space exactly when every character
      of the title is white space or is deleted. */
  lemma {:induction false} KeptAllSpace(title: string, isWord: char -> bool)
    ensures AllSpace(KeepSlugChars(title, isWord), IsPySpace) <==>
            forall i :: 0 <= i < |title| ==> IsPySpace(title[i]) || !SlugChar(title[i], isWord)
    decreases |title|
  {
    if title != [] {
      var t := KeepSlugChars(title[1..], isWord);
      KeptAllSpace(title[1..], isWord);
      var head := if SlugChar(title[0], isWord) then [title[0]] else [];
      var r := KeepSlugChars(title, isWord);
      assert r == head + t;
      assert forall i :: 1 <= i < |title| ==> title[i] == title[1..][i - 1];
      if AllSpace(r, IsPySpace) {
        assert AllSpace(t, IsPySpace) by {
          forall i | 0 <= i < |t| ensures IsPySpace(t[i]) {
            assert t[i] == r[i + |head|];
          }
        }
        assert head != [] ==> IsPySpace(r[0]);
      } else {
        var i :| 0 <= i < |r| && !IsPySpace(r[i]);
        if i >= |head| {
          assert r[i] == t[i - |head|];
        }
      }
    }
  }

  /** The test `if not url_slug` of BackEnd/Velog.py:251: for a `lower`
      that, like `str.lower`, maps only the empty string to the empty
      string, the lowered cleaned title is empty, and `UrlSlug` falls back,
      exactly when every character of the title is white space or is neither
      a word character nor `-`. */
  lemma FallbackIff(title: string, isWord: char -> bool, lower: string -> string)
    requires forall s :: lower(s) == [] <==> s == []
    ensures lower(PyStrip(KeepSlugChars(title, isWord))) == [] <==>
            forall i :: 0 <= i < |title| ==> IsPySpace(title[i]) || (!isWord(title[i]) && title[i] != '-')
  {
    var k := KeepSlugChars(title, isWord);
    TrimEmptyIff(k, IsPySpace);
    assert PyStrip(k) == Trim(k, IsPySpace);
    KeptAllSpace(title, isWord);
  }

  // ================================================================ the guards of post_from_pdf

  const NeedPdf := "PDF 파일이 필요합니다."
  const NeedCookie := "velog_cookie가 필요합니다."

  /** A request that passed the guards: the uploaded `pdf` file and the
      cookie. */
  datatype PostRequest = PostRequest(pdf: FileInfo, cookie: string)

  /** The guards of BackEnd/Velog.py:288-295, in their order: a missing `pdf`
      file part is refused before the cookie is looked at, then a missing or
      empty `velog_cookie`; both with status 400. */
  function CheckPostRequest(form: Form): (r: Result<PostRequest, Response>)
    ensures FirstFile(form, "pdf").None? ==> r == Failure(Response(400, ErrorReply(NeedPdf)))
    ensures FirstFile(form, "pdf").Some? && (FirstText(form, "velog_cookie").None? || FirstText(form, "velog_cookie").value == []) ==>
              r == Failure(Response(400, ErrorReply(NeedCookie)))
    ensures r.Success? <==> FirstFile(form, "pdf").Some? && FirstText(form, "velog_cookie").Some? && FirstText(form, "velog_cookie").value != []
    ensures r.Success? ==> r.value == PostRequest(FirstFile(form, "pdf").value, FirstText(form, "velog_cookie").value)
  {
    var pdf := FirstFile(form, "pdf");
    if pdf.None? then Failure(Response(400, ErrorReply(NeedPdf)))
    else
      var cookie := FirstText(form, "velog_cookie");
      if cookie.None? || cookie.value == [] then Failure(Response(400, ErrorReply(NeedCookie)))
      else Success(PostRequest(pdf.value, cookie.value))
  }

  // ================================================================ images and their placeholders

  /** What `process_pdf` learned about one image large enough to keep: its
      OCR text and the URL the upload returned, if any. */
  datatype ImageUpload = ImageUpload(ocrText: string, url: Option<string>)

  /** An entry of `image_details`: the number `n` of the placeholder
      `[IMAGE_n]` and the Markdown image that replaces it. */
  datatype ImageDetail = ImageDetail(number: nat, markdown: string)

  function Placeholder(n: nat): (p: string)
    ensures |p| >= 9 && p[0] == '['
  {
    "[IMAGE_" + NatToString(n) + "]"
  }

  /** Distinct numbers have distinct placeholders. */
  lemma PlaceholderInjective(m: nat, n: nat)
    requires Placeholder(m) == Placeholder(n)
    ensures m == n
  {
    var a, b := NatToString(m), NatToString(n);
    assert a == Placeholder(m)[7..|Placeholder(m)| - 1];
    assert b == Placeholder(n)[7..|Placeholder(n)| - 1];
    NatToStringInjective(m, n);
  }

  /** `if image_url:`: the upload gave a non-empty URL. */
  predicate Uploaded(img: ImageUpload)
  {
    img.url.Some? && img.url.value != []
  }

  /** The alt text: the first line of the OCR text, or `Image n` without
      one. */
  function AltText(ocrText: string, n: nat): string
  {
    if ocrText != [] then FirstLine(ocrText) else "Image " + NatToString(n)
  }

  function ImageMarkdown(alt: string, url: string): string
  {
    "![" + alt + "](" + url + ")"
  }

  /** The entries `image_details` receives from `images` when the counter
      stands at `n`: one per successful upload, numbered on from `n`. */
  function DetailsFrom(images: seq<ImageUpload>, n: nat): (ds: seq<ImageDetail>)
    ensures |ds| <= |images|
    ensures forall j :: 0 <= j < |ds| ==> ds[j].number == n + j
    decreases |images|
  {
    if images == [] then []
    else if Uploaded(images[0]) then [Detail(images[0], n)] + DetailsFrom(images[1..], n + 1)
    else DetailsFrom(images[1..], n)
  }

  /** The entry of an uploaded image numbered `n`. */
  function Detail(img: ImageUpload, n: nat): ImageDetail
    requires Uploaded(img)
  {
    ImageDetail(n, ImageMarkdown(AltText(img.ocrText, n), img.url.value))
  }

  /** The counter rule of BackEnd/Velog.py:136-141 as a loop over the images
      kept by the size filter: a placeholder and its Markdown are recorded,
      and the counter advanced, only when the upload returned a URL. */
  method CollectImageDetails(images: seq<ImageUpload>) returns (details: seq<ImageDetail>, counter: nat)
    ensures details == DetailsFrom(images, 1)
    ensures counter == 1 + |details|
  {
    details, counter := [], 1;
    for i := 0 to |images|
      invariant counter == 1 + |details|
      invariant details + DetailsFrom(images[i..], counter) == DetailsFrom(images, 1)
    {
      DetailsStep(images, i, details, counter, DetailsFrom(images, 1));
      if Uploaded(images[i]) {
        details := details + [Detail(images[i], counter)];
        counter := counter + 1;
      }
    }
  }

  /** One image more: the entries recorded so far followed by those still to
      come stay the whole list, whether or not the image was uploaded. */
  lemma DetailsStep(images: seq<ImageUpload>, i: nat, details: seq<ImageDetail>, n: nat, all: seq<ImageDetail>)
    requires i < |images|
    requires details + DetailsFrom(images[i..], n) == all
    ensures Uploaded(images[i]) ==> (details + [Detail(images[i], n)]) + DetailsFrom(images[i + 1..], n + 1) == all
    ensures !Uploaded(images[i]) ==> details + DetailsFrom(images[i + 1..], n) == all
  {
    assert images[i..][0] == images[i];
    assert images[i..][1..] == images[i + 1..];
    if Uploaded(images[i]) {
      var rest := DetailsFrom(images[i + 1..], n + 1);
      assert DetailsFrom(images[i..], n) == [Detail(images[i], n)] + rest;
      assert (details + [Detail(images[i], n)]) + rest == details + ([Detail(images[i], n)] + rest);
    }
  }

  /** Every image gets its own placeholder. */
  lemma PlaceholdersDistinct(images: seq<ImageUpload>, n: nat, j: nat, k: nat)
    requires j < k < |DetailsFrom(images, n)|
    ensures Placeholder(DetailsFrom(images, n)[j].number) != Placeholder(DetailsFrom(images, n)[k].number)
  {
    if Placeholder(n + j) == Placeholder(n + k) {
      PlaceholderInjective(n + j, n + k);
    }
  }

  // ================================================================ placeholder substitution

  /** `final_body` after the loop of BackEnd/Velog.py:312-314: each entry's
      placeholder replaced, everywhere, by its Markdown, the entries taken in
      insertion order. */
  function ReplaceAll(body: string, details: seq<ImageDetail>): string
    decreases |details|
  {
    if details == [] then body
    else ReplaceAll(Replace(body, Placeholder(details[0].number), details[0].markdown), details[1..])
  }

  /** The loop of BackEnd/Velog.py:312-314 as written. */
  method SubstitutePlaceholders(body: string, details: seq<ImageDetail>) returns (finalBody: string)
    ensures finalBody == ReplaceAll(body, details)
  {
    finalBody := body;
    for i := 0 to |details|
      invariant ReplaceAll(finalBody, details[i..]) == ReplaceAll(body, details)
    {
      assert details[i..][1..] == details[i + 1..];
      finalBody := Replace(finalBody, Placeholder(details[i].number), details[i].markdown);
    }
  }

  /** A body that mentions none of the placeholders comes through unchanged. */
  lemma {:induction false} NoPlaceholderUnchanged(body: string, details: seq<ImageDetail>)
    requires forall j :: 0 <= j < |details| ==> Find(body, Placeholder(details[j].number)).None?
    ensures ReplaceAll(body, details) == body
    decreases |details|
  {
    if details != [] {
      ReplaceNone(body, Placeholder(details[0].number), details[0].markdown);
      assert forall j :: 0 <= j < |details[1..]| ==> details[1..][j] == details[j + 1];
      NoPlaceholderUnchanged(body, details[1..]);
    }
  }

  /** A placeholder that occurs once is replaced by its image, and the text
      around it is kept. */
  lemma OnePlaceholderReplaced(body: string, d: ImageDetail, i: nat)
    requires Find(body, Placeholder(d.number)) == Some(i)
    requires Find(body[i + |Placeholder(d.number)|..], Placeholder(d.number)).None?
    ensures ReplaceAll(body, [d]) == body[..i] + d.markdown + body[i + |Placeholder(d.number)|..]
  {
    var p := Placeholder(d.number);
    ReplaceAtFirst(body, p, d.markdown, i);
    ReplaceNone(body[i + |p|..], p, d.markdown);
    assert [d][1..] == [];
  }

  // ================================================================ post_from_pdf

  const SolarErrorPrefix := "Upstage Solar API 오류: "
  const VelogErrorPrefix := "Velog API 오류: "
  const PostedMessage := "PDF를 분석하여 Velog에 성공적으로 포스팅되었습니다!"

  /** The variables of the `WritePost` mutation that depend on the request
      (BackEnd/Velog.py:255-260); the others are constants. */
  datatype WritePost = WritePost(title: string, body: string, tags: seq<string>, summary: string, urlSlug: string, cookie: string)

  /** What Velog's GraphQL endpoint answered: the status, the body text, and
      the body read as JSON, which fails with the decoder's message. */
  datatype VelogAnswer = VelogAnswer(status: nat, text: string, json: Result<Json, string>)

  /** The request `post_to_velog` sends for a reply of the language model:
      the parsed sections, the body with its placeholders substituted, and
      the slug of the title. */
  function PostFor(result: string, details: seq<ImageDetail>, cookie: string,
                   isWord: char -> bool, lower: string -> string, hex: string): (w: WritePost)
    requires |hex| == 8 && forall i :: 0 <= i < 8 ==> IsHexDigit(hex[i])
    ensures w.title != [] && w.summary != [] && w.urlSlug != [] && ' ' !in w.urlSlug
  {
    var p := Sections(result);
    WritePost(p.title, ReplaceAll(p.body, details), p.tags, p.summary, UrlSlug(p.title, isWord, lower, hex), cookie)
  }

  /** The handler of `POST /post` (BackEnd/Velog.py:285-333). The PDF's
      images come in as `images`; the language model's reply or the message
      of its exception as `llm`; Velog's answer as `velog`. Returns the
      response and the mutation sent to Velog, if one was. When the request
      to Velog itself raises (a refused connection, a time-out), `velog` is
      the exception's message, which the handler answers with 500. */
  method PostFromPdf(form: Form, images: seq<ImageUpload>, llm: Result<string, string>, velog: Result<VelogAnswer, string>,
                     isWord: char -> bool, lower: string -> string, hex: string)
      returns (resp: Response, sent: Option<WritePost>)
    requires |hex| == 8 && forall i :: 0 <= i < 8 ==> IsHexDigit(hex[i])
    ensures CheckPostRequest(form).Failure? ==> resp == CheckPostRequest(form).error && sent.None?
    ensures CheckPostRequest(form).Success? && llm.Failure? ==>
              resp == Response(500, ErrorReply(SolarErrorPrefix + llm.error)) && sent.None?
    ensures CheckPostRequest(form).Success? && llm.Success? ==>
              sent == Some(PostFor(llm.value, DetailsFrom(images, 1), CheckPostRequest(form).value.cookie, isWord, lower, hex))
    ensures sent.Some? && velog.Failure? ==> resp == Response(500, ErrorReply(velog.error))
    ensures sent.Some? && velog.Success? && velog.value.status != 200 ==>
              resp == Response(500, ErrorReply(VelogErrorPrefix + NatToString(velog.value.status) + " " + velog.value.text))
    ensures sent.Some? && velog.Success? && velog.value.status == 200 && velog.value.json.Failure? ==>
              resp == Response(500, ErrorReply(velog.value.json.error))
    ensures sent.Some? && velog.Success? && velog.value.status == 200 && velog.value.json.Success? ==>
              resp == Response(200, Reply(Some(true), Some(PostedMessage), None, Some(velog.value.json.value),
                                          Some(sent.value.title), Some(sent.value.summary), Some(sent.value.body), Some(sent.value.tags)))
  {
    sent := None;
    var check := CheckPostRequest(form);
    if check.Failure? {
      return check.error, None;
    }
    var details, _ := CollectImageDetails(images);
    if llm.Failure? {
      return Response(500, ErrorReply(SolarErrorPrefix + llm.error)), None;
    }
    var title, summary, bodyWithPlaceholders, tags := ParseSections(llm.value);
    var finalBody := SubstitutePlaceholders(bodyWithPlaceholders, details);
    var urlSlug := UrlSlug(title, isWord, lower, hex);
    sent := Some(WritePost(title, finalBody, tags, summary, urlSlug, check.value.cookie));
    if velog.Failure? {
      return Response(500, ErrorReply(velog.error)), sent;
    }
    var answer := velog.value;
    if answer.status != 200 {
      return Response(500, ErrorReply(VelogErrorPrefix + NatToString(answer.status) + " " + answer.text)), sent;
    }
    if answer.json.Failure? {
      return Response(500, ErrorReply(answer.json.error)), sent;
    }
    resp := Response(200, Reply(Some(true), Some(PostedMessage), None, Some(answer.json.value),
                                Some(title), Some(summary), Some(finalBody), Some(tags)));
  }
}
