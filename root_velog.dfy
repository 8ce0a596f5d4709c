/** The first back end (Velog.py), which takes the text of a post as JSON:
    its section parser, whose keyword checks look only at the start of a
    line, the slug of `post_to_velog`, and the guards of `post`. */
module RootVelog {
  import opened Wrappers
  import opened Text
  import opened References
  import opened LineScan
  import opened Http

  // ================================================================ the section parser

  const KoTitle := "제목:"
  const EnTitle := "title:"
  const KoSummary := "요약:"
  const EnSummary := "summary:"
  const KoBody := "본문:"
  const EnContent := "content:"
  const EnBody := "body:"
  const KoTags := "태그:"
  const EnTags := "tags:"

  /** `line.lower().startswith(kw)` for a lower-case keyword. Only the first
      `|kw|` characters are compared; each must lower-case to the keyword's
      character, which for these keywords only the ASCII letters and the
      keyword's own characters do. */
  predicate StartsWithLower(line: string, kw: string)
  {
    |kw| <= |line| && LowerAscii(line[..|kw|]) == kw
  }

  predicate IsTitle(line: string)
  {
    KoTitle <= line || StartsWithLower(line, EnTitle)
  }

  predicate IsSummary(line: string)
  {
    KoSummary <= line || StartsWithLower(line, EnSummary)
  }

  predicate IsBody(line: string)
  {
    KoBody <= line || StartsWithLower(line, EnContent) || StartsWithLower(line, EnBody)
  }

  predicate IsTags(line: string)
  {
    KoTags <= line || StartsWithLower(line, EnTags)
  }

  /** `line.split(":", 1)[1].strip()`. A keyword line always holds a colon
      (`KeywordValue`), so the `None` case is never taken. */
  function Value(line: string): string
  {
    match SplitTail(line, ':')
    case Some(t) => PyStrip(t)
    case None => []
  }

  /** What one right-stripped line is to the loop of Velog.py:59-73: the
      `elif` chain of title, summary, body and tags, and otherwise a line a
      body in progress receives stripped (a blank line adds an empty
      segment). */
  function ClassifyLine(line: string): LineKind
  {
    if IsTitle(line) then TitleLine(Value(line))
    else if IsSummary(line) then SummaryLine(Value(line))
    else if IsBody(line) then BodyLine(Value(line))
    else if IsTags(line) then TagsLine(Value(line))
    else Plain(PyStrip(line))
  }

  /** `[line.rstrip() for line in result.split('\n')]`. */
  function Lines(result: string): (lines: seq<string>)
    ensures |lines| == |Split(result, '\n')|
    ensures forall i :: 0 <= i < |lines| ==> lines[i] == PyRStrip(Split(result, '\n')[i])
  {
    var pieces := Split(result, '\n');
    seq(|pieces|, i requires 0 <= i < |pieces| => PyRStrip(pieces[i]))
  }

  /** The line ends with no white space. */
  predicate NoTrailingSpace(s: string)
  {
    s == [] || !IsPySpace(s[|s| - 1])
  }

  /** The lines hold no line break and end with no white space. */
  lemma LinesClean(result: string)
    ensures forall i :: 0 <= i < |Lines(result)| ==> '\n' !in Lines(result)[i] && NoTrailingSpace(Lines(result)[i])
  {
    var pieces := Split(result, '\n');
    forall i | 0 <= i < |pieces|
      ensures '\n' !in Lines(result)[i] && NoTrailingSpace(Lines(result)[i])
    {
      TrimEndSpec(pieces[i], IsPySpace);
      var r := Lines(result)[i];
      assert r == pieces[i][..|r|];
    }
  }

  /** Right-stripping loses nothing when no line of the reply ends in white
      space: the lines joined by line breaks are the reply. */
  lemma LinesJoin(result: string)
    requires forall i :: 0 <= i < |Split(result, '\n')| ==> NoTrailingSpace(Split(result, '\n')[i])
    ensures Join(Lines(result), "\n") == result
  {
    var pieces := Split(result, '\n');
    forall i | 0 <= i < |pieces| ensures Lines(result)[i] == pieces[i] {
      assert NoTrailingSpace(pieces[i]);
    }
    assert Lines(result) == pieces;
    assert "\n" == ['\n'];
  }

  /** The class of each line: the same map as `BackendVelog.Kinds`, over
      this version's classifier. */
  function Kinds(lines: seq<string>): (ks: seq<LineKind>)
    ensures |ks| == |lines| && forall i :: 0 <= i < |lines| ==> ks[i] == ClassifyLine(lines[i])
  {
    seq(|lines|, i requires 0 <= i < |lines| => ClassifyLine(lines[i]))
  }

  /** What follows the loop: references are removed from the body and the
      tags line is split; there are no defaults. */
  function Finish(st: ScanState): Parsed
  {
    Parsed(st.title, st.summary, RemoveReferences(st.body), SplitTags(st.tagsLine))
  }

  /** The sections of a reply given as its right-stripped lines. */
  function SectionsOfLines(lines: seq<string>): (p: Parsed)
    ensures forall i :: 0 <= i < |p.tags| ==> p.tags[i] != [] && PyStrip(p.tags[i]) == p.tags[i]
  {
    Finish(Run(Start, Kinds(lines)))
  }

  /** The parsing half of `get_summary_title_body_tags` (Velog.py:55-77):
      every tag is non-empty and stripped. */
  function Sections(result: string): (p: Parsed)
    ensures forall i :: 0 <= i < |p.tags| ==> p.tags[i] != [] && PyStrip(p.tags[i]) == p.tags[i]
  {
    SectionsOfLines(Lines(result))
  }

  /** One iteration of the loop of Velog.py:59-73 as written. */
  method ScanLine(st: ScanState, line: string) returns (next: ScanState)
    ensures next == Step(st, ClassifyLine(line))
  {
    next := st;
    if IsTitle(line) {
      next := next.(title := Value(line), inBody := false);
    } else if IsSummary(line) {
      next := next.(summary := Value(line), inBody := false);
    } else if IsBody(line) {
      next := next.(inBody := true, body := Value(line));
    } else if IsTags(line) {
      next := next.(tagsLine := Value(line), inBody := false);
    } else if st.inBody {
      next := next.(body := st.body + "\n" + PyStrip(line));
    }
  }

  /** `get_summary_title_body_tags` after the model's reply is in hand
      (Velog.py:55-77): the loop over the right-stripped lines, then
      reference removal and tag splitting. */
  method ParseSections(result: string) returns (title: string, summary: string, body: string, tags: seq<string>)
    ensures Parsed(title, summary, body, tags) == Sections(result)
  {
    var st := Start;
    var lines := Lines(result);
    for i := 0 to |lines|
      invariant st == Run(Start, Kinds(lines[..i]))
    {
      RunNext(lines, i);
      st := ScanLine(st, lines[i]);
    }
    assert lines[..|lines|] == lines;
    title, summary := st.title, st.summary;
    body := RemoveReferences(st.body);
    tags := SplitTags(st.tagsLine);
  }

  /** The loop's next iteration is one more step over the next line. */
  lemma RunNext(lines: seq<string>, i: nat)
    requires i < |lines|
    ensures Run(Start, Kinds(lines[..i + 1])) == Step(Run(Start, Kinds(lines[..i])), ClassifyLine(lines[i]))
  {
    assert lines[..i + 1] == lines[..i] + [lines[i]];
    assert Kinds(lines[..i + 1]) == Kinds(lines[..i]) + [ClassifyLine(lines[i])];
    RunSnoc(Start, Kinds(lines[..i]), ClassifyLine(lines[i]));
  }

  // ---------------------------------------------------------------- keyword lines

  /** A keyword whose only colon is its last character. */
  predicate ColonKeyword(kw: string)
  {
    |kw| > 0 && kw[|kw| - 1] == ':' && forall i :: 0 <= i < |kw| - 1 ==> kw[i] != ':'
  }

  /** On a line that opens with a keyword, the first colon is the keyword's
      own, so the value is what follows the keyword, stripped. */
  lemma KeywordValue(line: string, kw: string)
    requires ColonKeyword(kw)
    requires kw <= line || StartsWithLower(line, kw)
    ensures Value(line) == PyStrip(line[|kw|..])
  {
    var n := |kw| - 1;
    if !(kw <= line) {
      assert forall i :: 0 <= i < |kw| ==> AsciiLower(line[i]) == kw[i] by {
        forall i | 0 <= i < |kw| ensures AsciiLower(line[i]) == kw[i] {
          assert LowerAscii(line[..|kw|])[i] == AsciiLower(line[..|kw|][i]);
        }
      }
    }
    assert line[n] == ':';
    SplitTailAt(line, ':', n);
  }

  /** The keywords of the chain are colon keywords. */
  lemma ColonKeywords()
    ensures ColonKeyword(KoTitle) && ColonKeyword(EnTitle) && ColonKeyword(KoSummary) && ColonKeyword(EnSummary)
    ensures ColonKeyword(KoBody) && ColonKeyword(EnContent) && ColonKeyword(EnBody)
    ensures ColonKeyword(KoTags) && ColonKeyword(EnTags)
  {
  }

  /** `line` opens with the keyword `kw`: exactly for the Korean keywords,
      in any letter case for the English ones. */
  predicate Opens(line: string, kw: string)
  {
    (kw in [KoTitle, KoSummary, KoBody, KoTags] && kw <= line) ||
    (kw in [EnTitle, EnSummary, EnContent, EnBody, EnTags] && StartsWithLower(line, kw))
  }

  /** A line is a keyword line only through the keyword it opens with, and its
      value is the text after that keyword, stripped. */
  lemma KeywordLineKind(line: string, kw: string)
    requires Opens(line, kw)
    ensures kw in [KoTitle, EnTitle] ==> ClassifyLine(line) == TitleLine(PyStrip(line[|kw|..]))
    ensures kw in [KoSummary, EnSummary] ==> ClassifyLine(line) == SummaryLine(PyStrip(line[|kw|..]))
    ensures kw in [KoBody, EnContent, EnBody] ==> ClassifyLine(line) == BodyLine(PyStrip(line[|kw|..]))
    ensures kw in [KoTags, EnTags] ==> ClassifyLine(line) == TagsLine(PyStrip(line[|kw|..]))
  {
    ColonKeywords();
    KeywordValue(line, kw);
    KeywordsExclusive(line);
    if kw in [KoTitle, EnTitle] {
      assert IsTitle(line);
    } else if kw in [KoSummary, EnSummary] {
      assert IsSummary(line);
    } else if kw in [KoBody, EnContent, EnBody] {
      assert IsBody(line);
    } else if kw in [KoTags, EnTags] {
      assert IsTags(line);
    }
  }

  /** A line that starts with white space opens with no keyword. */
  lemma IndentedOpensNothing(line: string, kw: string)
    requires line != [] && IsPySpace(line[0])
    requires kw != [] && ('a' <= kw[0] <= 'z' || kw[0] > '\U{3000}')
    ensures !(kw <= line) && !StartsWithLower(line, kw)
  {
    if |kw| <= |line| {
      assert LowerAscii(line[..|kw|])[0] == AsciiLower(line[0]) == line[0];
    }
  }

  /** A line that starts with white space is never a keyword line, however
      its keyword follows: only the right end of a line is stripped before
      the checks. */
  lemma IndentedLineIsPlain(line: string)
    requires line != [] && IsPySpace(line[0])
    ensures ClassifyLine(line) == Plain(PyStrip(line))
  {
    IndentedOpensNothing(line, KoTitle);
    IndentedOpensNothing(line, EnTitle);
    IndentedOpensNothing(line, KoSummary);
    IndentedOpensNothing(line, EnSummary);
    IndentedOpensNothing(line, KoBody);
    IndentedOpensNothing(line, EnContent);
    IndentedOpensNothing(line, EnBody);
    IndentedOpensNothing(line, KoTags);
    IndentedOpensNothing(line, EnTags);
  }

  /** A blank or white-space-only line reads as an empty plain line, so in
      body mode it adds `"\n"` to the body. */
  lemma BlankLineKept(raw: string, st: ScanState)
    requires AllSpace(raw, IsPySpace)
    ensures ClassifyLine(PyRStrip(raw)) == Plain([])
    ensures st.inBody ==> Step(st, ClassifyLine(PyRStrip(raw))).body == st.body + "\n"
  {
    TrimEndSpec(raw, IsPySpace);
    var line := PyRStrip(raw);
    assert line == [];
    assert PyStrip([]) == [];
  }

  /** The four kinds of keyword line exclude each other, so the order of the
      `elif` chain never decides anything. */
  lemma KeywordsExclusive(line: string)
    ensures !(IsTitle(line) && IsSummary(line))
    ensures !(IsTitle(line) && IsBody(line))
    ensures !(IsTitle(line) && IsTags(line))
    ensures !(IsSummary(line) && IsBody(line))
    ensures !(IsSummary(line) && IsTags(line))
    ensures !(IsBody(line) && IsTags(line))
  {
    if |line| >= 2 {
      assert LowerAscii(line[..2])[0] == AsciiLower(line[0]);
      assert LowerAscii(line[..2])[1] == AsciiLower(line[1]);
      assert forall kw :: |kw| >= 2 && StartsWithLower(line, kw) ==> AsciiLower(line[0]) == kw[0] && AsciiLower(line[1]) == kw[1] by {
        forall kw | |kw| >= 2 && StartsWithLower(line, kw) ensures AsciiLower(line[0]) == kw[0] && AsciiLower(line[1]) == kw[1] {
          assert LowerAscii(line[..|kw|])[0] == AsciiLower(line[0]);
          assert LowerAscii(line[..|kw|])[1] == AsciiLower(line[1]);
        }
      }
    }
  }

  // ---------------------------------------------------------------- what the loop keeps

  /** The last title line decides the title, even when its value is empty:
      there is no final default. */
  lemma LastTitleLineWins(lines: seq<string>, i: nat)
    requires i < |lines| && ClassifyLine(lines[i]).TitleLine?
    requires forall j :: i < j < |lines| ==> !ClassifyLine(lines[j]).TitleLine?
    ensures SectionsOfLines(lines).title == ClassifyLine(lines[i]).value
  {
    LastLineWins(Start, Kinds(lines), TitleField, i);
  }

  /** The last summary line decides the summary, even when its value is
      empty. */
  lemma LastSummaryLineWins(lines: seq<string>, i: nat)
    requires i < |lines| && ClassifyLine(lines[i]).SummaryLine?
    requires forall j :: i < j < |lines| ==> !ClassifyLine(lines[j]).SummaryLine?
    ensures SectionsOfLines(lines).summary == ClassifyLine(lines[i]).value
  {
    LastLineWins(Start, Kinds(lines), SummaryField, i);
  }

  /** The tags come from the last tags line. */
  lemma LastTagsLineWins(lines: seq<string>, i: nat)
    requires i < |lines| && ClassifyLine(lines[i]).TagsLine?
    requires forall j :: i < j < |lines| ==> !ClassifyLine(lines[j]).TagsLine?
    ensures SectionsOfLines(lines).tags == SplitTags(ClassifyLine(lines[i]).value)
  {
    LastLineWins(Start, Kinds(lines), TagsField, i);
  }

  /** Without a title line the title keeps its initial value, and without a
      summary line so does the summary. */
  lemma NoTitleOrSummaryLineDefault(lines: seq<string>)
    ensures (forall j :: 0 <= j < |lines| ==> !ClassifyLine(lines[j]).TitleLine?) ==> SectionsOfLines(lines).title == DefaultTitle
    ensures (forall j :: 0 <= j < |lines| ==> !ClassifyLine(lines[j]).SummaryLine?) ==> SectionsOfLines(lines).summary == DefaultSummary
  {
    if forall j :: 0 <= j < |lines| ==> !ClassifyLine(lines[j]).TitleLine? {
      FieldUntouched(Start, Kinds(lines), TitleField);
    }
    if forall j :: 0 <= j < |lines| ==> !ClassifyLine(lines[j]).SummaryLine? {
      FieldUntouched(Start, Kinds(lines), SummaryField);
    }
  }

  /** The body is the value of the last body line followed by `"\n" + text`
      for every later line up to the next keyword line, blank lines included
      (as `"\n"`), with references removed. */
  lemma LastBodyLineDecides(lines: seq<string>, i: nat)
    requires i < |lines| && ClassifyLine(lines[i]).BodyLine?
    requires forall j :: i < j < |lines| ==> !ClassifyLine(lines[j]).BodyLine?
    ensures SectionsOfLines(lines).body == RemoveReferences(ClassifyLine(lines[i]).value + Continuation(Kinds(lines)[i + 1..]))
  {
    LastBodyLineWins(Start, Kinds(lines), i);
  }

  // ================================================================ the slug of post_to_velog

  /** `title.replace(" ", "-")` (Velog.py:92): as long as the title, a
      hyphen where the title has a space, the title's character elsewhere. */
  function Slug(title: string): (slug: string)
    ensures |slug| == |title|
    ensures forall i :: 0 <= i < |title| ==> slug[i] == if title[i] == ' ' then '-' else title[i]
    ensures ' ' !in slug
  {
    ReplaceChar(title, ' ', '-');
    Replace(title, " ", "-")
  }

  // ================================================================ the guards of post

  const NeedBody := "본문이 필요합니다."
  const NeedCookie := "velog_cookie가 필요합니다."

  /** `data.get(key)` is falsy: absent, or a falsy JSON value. */
  predicate Falsy(data: map<string, Json>, key: string)
  {
    key !in data || !PyTruthy(data[key])
  }

  /** The guards of Velog.py:120-126, in their order: a missing or falsy
      `body` is refused before the cookie is looked at, then a missing or
      falsy `velog_cookie`; both with status 400. What passes is the body
      and the cookie. */
  function CheckPost(data: map<string, Json>): (r: Result<(Json, Json), Response>)
    ensures Falsy(data, "body") ==> r == Failure(Response(400, ErrorReply(NeedBody)))
    ensures !Falsy(data, "body") && Falsy(data, "velog_cookie") ==> r == Failure(Response(400, ErrorReply(NeedCookie)))
    ensures r.Success? <==> !Falsy(data, "body") && !Falsy(data, "velog_cookie")
    ensures r.Success? ==> r.value == (data["body"], data["velog_cookie"])
  {
    var body := if "body" in data then Some(data["body"]) else None;
    var cookie := if "velog_cookie" in data then Some(data["velog_cookie"]) else None;
    if body.None? || !PyTruthy(body.value) then Failure(Response(400, ErrorReply(NeedBody)))
    else if cookie.None? || !PyTruthy(cookie.value) then Failure(Response(400, ErrorReply(NeedCookie)))
    else Success((body.value, cookie.value))
  }
}
