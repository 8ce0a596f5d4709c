/** The state machine shared by both versions of `get_summary_title_body_tags`
    (BackEnd/Velog.py:184-227 and Velog.py:56-76). Each line of the LLM reply
    is first classified; the loop then updates five variables, `title`,
    `summary`, `full_body`, `tags_line` and the flag `in_body`. The two versions
    differ only in how they classify a line and in what they do after the
    loop. */
module LineScan {
  import opened Text

  /** What one line of the reply is to the scanner. A keyword line carries the
      text after its keyword; `Plain` carries the text a body in progress would
      receive. */
  datatype LineKind =
    | Blank
    | TitleLine(value: string)
    | SummaryLine(value: string)
    | BodyLine(value: string)
    | TagsLine(value: string)
    | Plain(text: string)

  datatype ScanState = ScanState(title: string, summary: string, body: string, tagsLine: string, inBody: bool)

  /** What `get_summary_title_body_tags` returns. */
  datatype Parsed = Parsed(title: string, summary: string, body: string, tags: seq<string>)

  const DefaultTitle := "제목없음"
  const DefaultSummary := "요약없음"

  /** The values the loop starts from. */
  const Start := ScanState(DefaultTitle, DefaultSummary, "", "", false)

  /** One iteration of the loop. */
  function Step(st: ScanState, k: LineKind): ScanState
  {
    match k
    case Blank => st
    case TitleLine(v) => st.(title := v, inBody := false)
    case SummaryLine(v) => st.(summary := v, inBody := false)
    case BodyLine(v) => st.(body := v, inBody := true)
    case TagsLine(v) => st.(tagsLine := v, inBody := false)
    case Plain(t) => if st.inBody then st.(body := st.body + "\n" + t) else st
  }

  /** The loop over a sequence of classified lines. */
  function Run(st: ScanState, ks: seq<LineKind>): ScanState
    decreases |ks|
  {
    if ks == [] then st else Run(Step(st, ks[0]), ks[1..])
  }

  lemma {:induction false} RunAppend(st: ScanState, a: seq<LineKind>, b: seq<LineKind>)
    ensures Run(st, a + b) == Run(Run(st, a), b)
    decreases |a|
  {
    if a != [] {
      assert (a + b)[1..] == a[1..] + b;
      RunAppend(Step(st, a[0]), a[1..], b);
    } else {
      assert a + b == b;
    }
  }

  /** One more line is one more step. */
  lemma RunSnoc(st: ScanState, ks: seq<LineKind>, k: LineKind)
    ensures Run(st, ks + [k]) == Step(Run(st, ks), k)
  {
    RunAppend(st, ks, [k]);
  }

  /** A blank line, wherever it stands, is a step that changes nothing. */
  lemma RunBlankInsert(st: ScanState, pre: seq<LineKind>, post: seq<LineKind>)
    ensures Run(st, pre + [Blank] + post) == Run(st, pre + post)
  {
    RunAppend(st, pre + [Blank], post);
    RunSnoc(st, pre, Blank);
    RunAppend(st, pre, post);
  }

  // ------------------------------------------------ title, summary, tags: the last keyword line wins

  datatype Field = TitleField | SummaryField | TagsField

  function Get(st: ScanState, f: Field): string
  {
    match f
    case TitleField => st.title
    case SummaryField => st.summary
    case TagsField => st.tagsLine
  }

  /** `k` is a keyword line of field `f`. */
  predicate Sets(k: LineKind, f: Field)
  {
    match f
    case TitleField => k.TitleLine?
    case SummaryField => k.SummaryLine?
    case TagsField => k.TagsLine?
  }

  /** Lines that are not keyword lines of `f` leave `f` alone. */
  lemma {:induction false} FieldUntouched(st: ScanState, ks: seq<LineKind>, f: Field)
    requires forall j :: 0 <= j < |ks| ==> !Sets(ks[j], f)
    ensures Get(Run(st, ks), f) == Get(st, f)
    decreases |ks|
  {
    if ks != [] {
      FieldUntouched(Step(st, ks[0]), ks[1..], f);
    }
  }

  /** The last keyword line of `f` decides `f`: earlier ones are overwritten. */
  lemma LastLineWins(st: ScanState, ks: seq<LineKind>, f: Field, i: nat)
    requires i < |ks| && Sets(ks[i], f)
    requires forall j :: i < j < |ks| ==> !Sets(ks[j], f)
    ensures Get(Run(st, ks), f) == ks[i].value
  {
    assert ks == ks[..i] + [ks[i]] + ks[i + 1..];
    RunAppend(st, ks[..i] + [ks[i]], ks[i + 1..]);
    RunSnoc(st, ks[..i], ks[i]);
    FieldUntouched(Run(st, ks[..i + 1]), ks[i + 1..], f);
    assert ks[..i] + [ks[i]] == ks[..i + 1];
  }

  // ------------------------------------------------ body: the last body line and what follows it

  predicate NoBodyLine(ks: seq<LineKind>)
  {
    forall j :: 0 <= j < |ks| ==> !ks[j].BodyLine?
  }

  /** What a body in progress receives from `ks`: `"\n" + text` for each plain
      line, nothing for a blank line, and nothing more once a keyword line ends
      the body. */
  function Continuation(ks: seq<LineKind>): string
    decreases |ks|
  {
    if ks == [] then []
    else match ks[0]
      case Plain(t) => "\n" + t + Continuation(ks[1..])
      case Blank => Continuation(ks[1..])
      case _ => []
  }

  /** Outside body mode, lines without a body keyword leave the body as it is. */
  lemma {:induction false} BodyIdle(st: ScanState, ks: seq<LineKind>)
    requires !st.inBody && NoBodyLine(ks)
    ensures Run(st, ks).body == st.body
    decreases |ks|
  {
    if ks != [] {
      BodyIdle(Step(st, ks[0]), ks[1..]);
    }
  }

  /** In body mode, lines without a body keyword extend the body by their
      continuation. */
  lemma {:induction false} BodyContinues(st: ScanState, ks: seq<LineKind>)
    requires st.inBody && NoBodyLine(ks)
    ensures Run(st, ks).body == st.body + Continuation(ks)
    decreases |ks|
  {
    if ks != [] {
      match ks[0]
      case Plain(t) =>
        BodyContinues(Step(st, ks[0]), ks[1..]);
      case Blank =>
        BodyContinues(st, ks[1..]);
      case BodyLine(_) =>
        assert false;
      case TitleLine(_) =>
        BodyIdle(Step(st, ks[0]), ks[1..]);
      case SummaryLine(_) =>
        BodyIdle(Step(st, ks[0]), ks[1..]);
      case TagsLine(_) =>
        BodyIdle(Step(st, ks[0]), ks[1..]);
    }
  }

  /** The last body line decides the body: its value followed by the
      continuation of the lines after it (a second body line resets the body). */
  lemma LastBodyLineWins(st: ScanState, ks: seq<LineKind>, i: nat)
    requires i < |ks| && ks[i].BodyLine? && NoBodyLine(ks[i + 1..])
    ensures Run(st, ks).body == ks[i].value + Continuation(ks[i + 1..])
  {
    assert ks == ks[..i] + [ks[i]] + ks[i + 1..];
    RunAppend(st, ks[..i] + [ks[i]], ks[i + 1..]);
    RunSnoc(st, ks[..i], ks[i]);
    BodyContinues(Run(st, ks[..i + 1]), ks[i + 1..]);
    assert ks[..i] + [ks[i]] == ks[..i + 1];
  }

  /** Without any body line the body stays empty. */
  lemma NoBodyLineEmptyBody(ks: seq<LineKind>)
    requires NoBodyLine(ks)
    ensures Run(Start, ks).body == []
  {
    BodyIdle(Start, ks);
  }

  // ------------------------------------------------ tags

  /** `[tag.strip() for tag in pieces if tag.strip()]`. */
  function CleanTags(pieces: seq<string>): (tags: seq<string>)
    ensures |tags| <= |pieces|
    ensures forall i :: 0 <= i < |tags| ==> tags[i] != [] && PyStrip(tags[i]) == tags[i]
    decreases |pieces|
  {
    if pieces == [] then []
    else
      var t := PyStrip(pieces[0]);
      TrimIdempotent(pieces[0], IsPySpace);
      (if t != [] then [t] else []) + CleanTags(pieces[1..])
  }

  lemma {:induction false} CleanTagsAppend(a: seq<string>, b: seq<string>)
    ensures CleanTags(a + b) == CleanTags(a) + CleanTags(b)
    decreases |a|
  {
    if a != [] {
      var head := if PyStrip(a[0]) != [] then [PyStrip(a[0])] else [];
      assert (a + b)[0] == a[0];
      assert (a + b)[1..] == a[1..] + b;
      assert CleanTags(a + b) == head + CleanTags(a[1..] + b);
      assert CleanTags(a) == head + CleanTags(a[1..]);
      CleanTagsAppend(a[1..], b);
    } else {
      assert a + b == b;
    }
  }

  /** The tags of a tags line: its comma-separated pieces, stripped, without
      the empty ones. */
  function SplitTags(line: string): (tags: seq<string>)
  {
    CleanTags(Split(line, ','))
  }

  /** Tags keep their order: the tags of `a,b` are those of `a` followed by
      those of `b`. */
  lemma SplitTagsAppend(a: string, b: string)
    ensures SplitTags(a + "," + b) == SplitTags(a) + SplitTags(b)
  {
    SplitAppend(a, b, ',');
    CleanTagsAppend(Split(a, ','), Split(b, ','));
  }

  /** A tag that survives being written into a tags line: non-empty, without
      surrounding white space and without a comma. */
  predicate WritableTag(t: string)
  {
    t != [] && PyStrip(t) == t && ',' !in t
  }

  /** One tag after leading white space reads back as itself. */
  lemma SplitTagsSingle(lead: string, t: string)
    requires WritableTag(t) && AllSpace(lead, IsPySpace)
    ensures SplitTags(lead + t) == [t]
  {
    assert ',' !in lead by { assert !IsPySpace(','); }
    TrimAfterSpace(lead, t, IsPySpace);
    SplitNoSeparator(lead + t, ',');
    assert CleanTags([lead + t]) == [PyStrip(lead + t)] + CleanTags([]);
  }

  /** Reading back a tags line written as the prompt asks, tags separated by a
      comma and optional white space, gives exactly those tags in order. */
  lemma {:induction false} SplitTagsRoundTrip(tags: seq<string>, lead: string, gap: string)
    requires |tags| >= 1
    requires forall i :: 0 <= i < |tags| ==> WritableTag(tags[i])
    requires AllSpace(lead, IsPySpace) && AllSpace(gap, IsPySpace)
    ensures SplitTags(lead + Join(tags, "," + gap)) == tags
    decreases |tags|
  {
    var sep := "," + gap;
    SplitTagsSingle(lead, tags[0]);
    if |tags| == 1 {
      assert Join(tags, sep) == tags[0];
    } else {
      var rest := Join(tags[1..], sep);
      assert SplitTags(gap + rest) == tags[1..] by {
        assert forall i :: 0 <= i < |tags[1..]| ==> WritableTag(tags[1..][i]) by {
          forall i | 0 <= i < |tags[1..]| ensures WritableTag(tags[1..][i]) {
            assert tags[1..][i] == tags[i + 1];
          }
        }
        SplitTagsRoundTrip(tags[1..], gap, gap);
      }
      assert lead + Join(tags, sep) == (lead + tags[0]) + "," + (gap + rest) by {
        assert Join(tags, sep) == tags[0] + sep + rest;
        assert lead + (tags[0] + ("," + gap) + rest) == (lead + tags[0]) + "," + (gap + rest);
      }
      SplitTagsAppend(lead + tags[0], gap + rest);
      assert tags == [tags[0]] + tags[1..];
    }
  }
}
