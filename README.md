# VelogProject in Dafny

VelogProject turns text into a post on Velog, a Korean blogging site. Two back ends and two browser pages do the work.

- **The first back end** (`Velog.py`) receives the text of a post as JSON. It asks a language model for a title, a summary, a body and tags, then posts the result to Velog's GraphQL API.
- **The second back end** (`BackEnd/Velog.py`) receives a PDF upload. It extracts the PDF's text and images, uploads the images and asks a language model for the sections. It substitutes `[IMAGE_n]` placeholders in the body and posts the result to Velog.
- **The upload page** (`FrontEnd/app/page.tsx`) sends the PDF to the second back end directly.
- **The proxy route** (`FrontEnd/app/api/generate-blog/route.ts`) offers a second way in: it checks the upload and forwards it.
- **The text page** (`app/page.tsx`) is the first client version.

This project models the deterministic rules under that glue.

- **The section parser** of both back ends:
  - a line scanner with an `in_body` flag;
  - keyword checks in a fixed order;
  - later keyword lines overwrite earlier ones;
  - comma-separated tags;
  - defaults.
- **The string transforms:**
  - `remove_references`;
  - both URL slugs;
  - the image counter and the placeholder substitution.
- **The request guards and the reply shapes** of both back ends and the proxy route.
- **The state of the two pages:**
  - the selected file, the result and the loading flag;
  - the checks before a submission;
  - how each page reads an answer;
  - the Markdown preview.

The loops of the source stay loops:
- `BackendVelog.ParseSections`, `RootVelog.ParseSections`, `BackendVelog.CollectImageDetails` and `BackendVelog.SubstitutePlaceholders` are methods proved against specification functions.
- The two page components are classes whose methods update their fields.

The language model, Velog, the image host, OCR and `fetch` are foreign services. Their results are parameters:
- the model's reply, or the message of its exception;
- Velog's status, text and JSON;
- the images with their OCR text and upload URL;
- the answers the pages receive.

Modules:

| file | module | what it holds |
|---|---|---|
| `wrappers.dfy` | `Wrappers` | `Option`, `Result` |
| `text.dfy` | `Text` | Python's `strip`/`rstrip` and JavaScript's `trim` with their exact white-space sets, `find`, `split`/`join`, `replace`, decimal rendering, `splitlines()[0]` |
| `references.dfy` | `References` | `remove_references` |
| `linescan.dfy` | `LineScan` | the state machine both parsers share, and the tags comprehension |
| `http.dfy` | `Http` | forms, JSON replies, `FormData.get`, `request.files`, `request.form.get`, truthiness |
| `backend_velog.dfy` | `BackendVelog` | `BackEnd/Velog.py` |
| `root_velog.dfy` | `RootVelog` | `Velog.py` |
| `proxy_route.dfy` | `ProxyRoute` | `route.ts` |
| `frontend_page.dfy` | `FrontEndPage` | `FrontEnd/app/page.tsx` |
| `app_page.dfy` | `AppPage` | `app/page.tsx` |
| `relay.dfy` | `Relay` | what the back end makes of each form sent to it |

## Model

| member | source | states |
|---|---|---|
| References.RemoveReferences | BackEnd/Velog.py:34-36 | deleting `[digits]` never lengthens the text |
| References.NoBracketUnchanged | BackEnd/Velog.py:34-36 | a text without `[` is returned unchanged |
| References.ReferenceFreeUnchanged | Velog.py:20-22 | a text in which no `[` opens a `[digits]` reference is returned unchanged |
| References.ReferenceShortens | BackEnd/Velog.py:34-36 | a text with a reference somewhere becomes strictly shorter |
| References.UnchangedIffReferenceFree | BackEnd/Velog.py:34-36 | the text is unchanged exactly when it holds no reference |
| References.NotIdempotent | Velog.py:20-22 | one pass is not enough: `[[1]2]` becomes `[2]`, which a second pass would remove |
| References.ReferenceLength | BackEnd/Velog.py:36 | the length of the reference at the start of a text, the only prefix that matches `\[\d+\]` |
| References.DigitRun | BackEnd/Velog.py:36 | the longest run of digits at the start of a text |
| Text.TrimStartSpec | BackEnd/Velog.py:189 | stripping the front removes only white space and stops at a non-space character |
| Text.TrimEndSpec | Velog.py:57 | stripping the end (`rstrip`) removes only white space and stops at a non-space character |
| Text.TrimEmptyIff | BackEnd/Velog.py:189-191 | a line strips to nothing exactly when it is all white space |
| Text.TrimIdempotent | BackEnd/Velog.py:227 | stripping twice is stripping once |
| Text.TrimAfterSpace | BackEnd/Velog.py:227 | white space before a stripped word strips away to the word |
| Text.FindSpec | BackEnd/Velog.py:194 | `re.search` of a literal keyword finds the first occurrence, or none exists |
| Text.FindFirst | BackEnd/Velog.py:194-196 | a first occurrence is what the search returns |
| Text.Split | BackEnd/Velog.py:185 | `split` gives pieces without the separator that join back to the text |
| Text.SplitJoin | BackEnd/Velog.py:227 | splitting a join of separator-free pieces gives the pieces back |
| Text.SplitAppend | BackEnd/Velog.py:227 | the pieces of `a,b` are those of `a` followed by those of `b` |
| Text.SplitTail | Velog.py:61 | `line.split(":", 1)[1]` fails exactly when the line has no `:` |
| Text.SplitTailAt | Velog.py:61 | after the first `:` at index n, the value is the text after n |
| Text.ReplaceAtFirst | BackEnd/Velog.py:314 | `replace` swaps the first occurrence and continues after it |
| Text.ReplaceNone | BackEnd/Velog.py:314 | `replace` of an absent text changes nothing |
| Text.ReplaceChar | Velog.py:92 | replacing one character by another maps each position and keeps the length |
| Text.NatToString | BackEnd/Velog.py:278 | the status code in an error message: decimal digits, without a leading zero unless it is 0 |
| Text.DecimalRoundTrip | BackEnd/Velog.py:278 | the rendered number reads back as itself |
| Text.NatToStringInjective | BackEnd/Velog.py:140 | different numbers render differently |
| Text.FirstLine | BackEnd/Velog.py:139 | `splitlines()[0]`: a prefix without line breaks that ends at the first one |
| Text.LowerAscii | Velog.py:60 | `.lower()` character by character on A-Z; the length is kept |
| LineScan.RunAppend | BackEnd/Velog.py:188-223 | running the loop over two parts of the lines is running it over each in turn |
| LineScan.RunBlankInsert | BackEnd/Velog.py:190-191 | a skipped line anywhere changes nothing |
| LineScan.LastLineWins | BackEnd/Velog.py:194-219 | the last keyword line of a field decides that field |
| LineScan.FieldUntouched | BackEnd/Velog.py:194-219 | lines that are not keyword lines of a field leave it alone |
| LineScan.BodyContinues | BackEnd/Velog.py:221-223 | in body mode, each non-keyword line appends `"\n" + line` until the next keyword line |
| LineScan.BodyIdle | BackEnd/Velog.py:221-223 | outside body mode, lines without a body keyword leave the body alone |
| LineScan.LastBodyLineWins | BackEnd/Velog.py:208-212 | the last body line resets the body to its value, then its continuation follows |
| LineScan.NoBodyLineEmptyBody | BackEnd/Velog.py:184 | without a body line the body stays empty |
| LineScan.CleanTags | BackEnd/Velog.py:227 | every tag is non-empty and has no surrounding white space |
| LineScan.CleanTagsAppend | BackEnd/Velog.py:227 | the comprehension keeps the order of the pieces |
| LineScan.SplitTagsAppend | Velog.py:76 | the tags of `a,b` are those of `a` followed by those of `b` |
| LineScan.SplitTagsSingle | BackEnd/Velog.py:227 | one tag after white space reads back as itself |
| LineScan.SplitTagsRoundTrip | BackEnd/Velog.py:227 | a tags line written as tags separated by `,` and white space reads back as exactly those tags, in order |
| BackendVelog.KindsAppend | BackEnd/Velog.py:188 | classifying two parts of the lines is classifying each |
| BackendVelog.FirstKeyword | BackEnd/Velog.py:194-219 | the first keyword in check order that occurs, with an index where it fits in the line |
| BackendVelog.ScanLine | BackEnd/Velog.py:189-223 | one iteration of the loop as written performs the state machine's step for that line's class |
| BackendVelog.ParseSections | BackEnd/Velog.py:184-240 | the loop, the reference removal, the tags and the defaults give `Sections(result)` |
| BackendVelog.ScanLinesRun | BackEnd/Velog.py:188-223 | the loop over the lines is the state machine's run over their classes |
| BackendVelog.Sections | BackEnd/Velog.py:229-235 | title, summary and body are never empty; every tag is non-empty and stripped |
| BackendVelog.SectionsOfLines | BackEnd/Velog.py:227-235 | title, summary and body are never empty; every tag is non-empty and stripped |
| BackendVelog.OrDefault | BackEnd/Velog.py:230-235 | an empty value is replaced by its default, any other value is kept |
| BackendVelog.KeywordPriority | BackEnd/Velog.py:194-219 | a line holding the k-th keyword and none before it is that keyword's line, with the stripped text after the keyword's first occurrence |
| BackendVelog.FirstKeywordAt | BackEnd/Velog.py:194-219 | the checks select the first keyword that occurs |
| BackendVelog.FirstKeywordNone | BackEnd/Velog.py:221-223 | without any keyword, no check matches |
| BackendVelog.ChainIsPriority | BackEnd/Velog.py:194-223 | the chain of checks, each tried only when the earlier keywords are absent, is the rule "the first keyword of the list that occurs decides, and a line without keywords is plain" |
| BackendVelog.BlankLineIgnored | BackEnd/Velog.py:189-191 | inserting a blank or white-space line anywhere changes none of title, summary, body and tags |
| BackendVelog.KindsInsert | BackEnd/Velog.py:188 | the classes of the lines with one line inserted |
| BackendVelog.LastTitleLineWins | BackEnd/Velog.py:194-198 | the title is the last title line's value, or the default when that value is empty |
| BackendVelog.LastSummaryLineWins | BackEnd/Velog.py:201-205 | the summary is the last summary line's value, or the default when that value is empty |
| BackendVelog.LastTagsLineWins | BackEnd/Velog.py:215-219 | the tags are those of the last tags line |
| BackendVelog.NoTitleLineDefault | BackEnd/Velog.py:184 | without a title line the title is `제목없음` |
| BackendVelog.NoSummaryLineDefault | BackEnd/Velog.py:184 | without a summary line the summary is `요약없음` |
| BackendVelog.NoTagsLineNoTags | BackEnd/Velog.py:184 | without a tags line there are no tags |
| BackendVelog.NoTags | BackEnd/Velog.py:227 | an empty tags line gives no tags |
| BackendVelog.LastBodyLineDecides | BackEnd/Velog.py:208-226 | the body is the last body line's value plus its continuation, with references removed, or `내용없음` when that is empty |
| BackendVelog.NoBodyLineDefault | BackEnd/Velog.py:234-235 | without a body line the body is `내용없음` |
| BackendVelog.KeepSlugChars | BackEnd/Velog.py:249 | `re.sub(r'[^\w\s-]', '', title)` keeps only word, white-space and `-` characters, and keeps a title of only those unchanged |
| BackendVelog.UrlSlug | BackEnd/Velog.py:249-253 | the slug is never empty and has no space; it is `untitled-post-` and the 8 hex digits exactly when the cleaned title is empty, otherwise the cleaned title with each space turned into `-` |
| BackendVelog.KeptAllSpace | BackEnd/Velog.py:249 | the kept characters are all white space exactly when every character of the title is white space or removed |
| BackendVelog.FallbackIff | BackEnd/Velog.py:249-253 | for a `lower` that maps only the empty string to the empty string, the lowered cleaned title is empty, the test the fallback slug depends on, exactly when every character of the title is white space or is neither a word character nor `-` |
| BackendVelog.CheckPostRequest | BackEnd/Velog.py:288-295 | a missing `pdf` file gives 400 before the cookie is looked at; a missing or empty cookie gives 400; otherwise the file and the cookie are passed on |
| BackendVelog.Placeholder | BackEnd/Velog.py:140 | `[IMAGE_n]` starts with `[` and has at least 9 characters |
| BackendVelog.PlaceholderInjective | BackEnd/Velog.py:140 | different numbers give different placeholders |
| BackendVelog.DetailsFrom | BackEnd/Velog.py:136-141 | the entries are numbered consecutively from the counter, one per uploaded image |
| BackendVelog.DetailsStep | BackEnd/Velog.py:136-141 | one image more keeps "entries so far followed by entries to come" the whole list: an uploaded image adds its entry under the current counter and advances it, any other adds nothing |
| BackendVelog.CollectImageDetails | BackEnd/Velog.py:99-141 | the counter advances only on a successful upload, ending one past the number of entries |
| BackendVelog.PlaceholdersDistinct | BackEnd/Velog.py:140 | no two entries share a placeholder |
| BackendVelog.SubstitutePlaceholders | BackEnd/Velog.py:312-314 | the loop as written replaces each entry's placeholder in insertion order |
| BackendVelog.NoPlaceholderUnchanged | BackEnd/Velog.py:312-314 | a body without any placeholder is passed on unchanged |
| BackendVelog.OnePlaceholderReplaced | BackEnd/Velog.py:314 | a placeholder that occurs once is replaced by its image, with the text around it kept |
| BackendVelog.PostFor | BackEnd/Velog.py:243-260 | the mutation sent to Velog has a non-empty title and summary and a non-empty slug without spaces |
| BackendVelog.PostFromPdf | BackEnd/Velog.py:285-333 | the guards, then a 500 for a model error, then the mutation; a 500 with the exception's message when the request to Velog raises, a 500 carrying Velog's status and text, or the decoder's message; otherwise 200 with `success`, the message, Velog's answer and the sections |
| RootVelog.LinesClean | Velog.py:57 | the lines hold no line break and none ends in white space |
| RootVelog.LinesJoin | Velog.py:57 | when no line of the reply ends in white space, the lines joined by line breaks are the reply |
| RootVelog.ScanLine | Velog.py:60-73 | one iteration of the `elif` chain performs the state machine's step for that line's class |
| RootVelog.ParseSections | Velog.py:55-77 | the loop, the reference removal and the tags give `Sections(result)`, with no final defaults |
| RootVelog.RunNext | Velog.py:59 | one more line is one more step of the loop |
| RootVelog.Sections | Velog.py:76-77 | every tag is non-empty and stripped |
| RootVelog.SectionsOfLines | Velog.py:74-77 | every tag is non-empty and stripped |
| RootVelog.KeywordValue | Velog.py:61 | for a line that starts with a keyword ending in `:`, the value is the stripped text after the keyword |
| RootVelog.ColonKeywords | Velog.py:60-70 | each keyword ends in its only `:` |
| RootVelog.KeywordLineKind | Velog.py:60-71 | a line starting with a Korean keyword, or with an English one in any case, is that keyword's line, with the stripped text after the keyword as value |
| RootVelog.KeywordsExclusive | Velog.py:60-71 | no line starts with the keywords of two fields |
| RootVelog.IndentedOpensNothing | Velog.py:57-60 | only `rstrip` is applied, so a line that starts with white space starts with no keyword |
| RootVelog.IndentedLineIsPlain | Velog.py:72-73 | an indented line is never a keyword line; in body mode its stripped text is appended |
| RootVelog.BlankLineKept | Velog.py:57-73 | a blank line in body mode appends `"\n"` and an empty segment |
| RootVelog.LastTitleLineWins | Velog.py:60-62 | the title is the last title line's value, even an empty one |
| RootVelog.LastSummaryLineWins | Velog.py:63-65 | the summary is the last summary line's value, even an empty one |
| RootVelog.LastTagsLineWins | Velog.py:69-71 | the tags are those of the last tags line |
| RootVelog.NoTitleOrSummaryLineDefault | Velog.py:56 | without a title line the title is `제목없음`, and without a summary line the summary is `요약없음` |
| RootVelog.LastBodyLineDecides | Velog.py:66-75 | the body is the last body line's value plus its continuation, with references removed and no default |
| RootVelog.Slug | Velog.py:92 | the slug is as long as the title, maps each space to `-`, keeps every other character, and has no space |
| RootVelog.CheckPost | Velog.py:120-126 | a missing or falsy `body` gives 400 before the cookie is looked at; a missing or falsy cookie gives 400; otherwise both are passed on |
| Http.FirstValue | FrontEnd/app/api/generate-blog/route.ts:9-10 | `FormData.get` gives the first part with that name, of either kind, or nothing when there is none |
| Http.FirstFile | BackEnd/Velog.py:288-291 | `request.files` gives the first file part with that name, or nothing |
| Http.FirstText | BackEnd/Velog.py:292 | `request.form.get` gives the first text part with that name, or nothing |
| Http.OrElse | FrontEnd/app/api/generate-blog/route.ts:51 | `s \|\| fallback`: the string when it is non-empty, otherwise the fallback |
| Http.ReplyJson | FrontEnd/app/page.tsx:132 | the reply as a JSON object: each of its eight fields is present exactly when set and then holds that value (a boolean, a string, the answer as given, or the array of tags), and there is no other field |
| ProxyRoute.Validate | FrontEnd/app/api/generate-blog/route.ts:9-28 | the guards, in order: a falsy file, then a falsy cookie, then a type other than `application/pdf`, then a size over 10485760, each with 400 and its message; otherwise the file and the cookie |
| ProxyRoute.ForwardedFormAsWritten | FrontEnd/app/api/generate-blog/route.ts:31-33 | the forwarded form has exactly the parts `pdf_file` and `velog_cookie`, carrying the inputs unchanged |
| ProxyRoute.ForwardedForm | FrontEnd/app/api/generate-blog/route.ts:32 | corrected: the form with the file under `pdf`, the name the back end reads, then the cookie |
| ProxyRoute.Reshape | FrontEnd/app/api/generate-blog/route.ts:40-64 | a non-ok answer becomes 500 with `"Flask API 오류: " + status + " " + text`; a fetch or JSON error becomes 500 with its message; on success `success: true`, the copied fields, and the result's message or the default |
| ProxyRoute.Post | FrontEnd/app/api/generate-blog/route.ts:6-66 | nothing is forwarded when a guard refuses; otherwise the form as written is forwarded, its `pdf_file` part the accepted file and its `velog_cookie` part the accepted cookie, and the answer is reshaped |
| ProxyRoute.PostCorrected | FrontEnd/app/api/generate-blog/route.ts:32 | corrected: the same route with the file forwarded under `pdf`, its `velog_cookie` part the accepted cookie |
| ProxyRoute.MissingFileFirst | FrontEnd/app/api/generate-blog/route.ts:12-14 | a form without a usable `pdf_file` is refused first, whatever other parts it holds |
| ProxyRoute.WhitespaceCookiePasses | FrontEnd/app/api/generate-blog/route.ts:16-18 | a cookie of only white space passes the cookie check |
| ProxyRoute.TypeBeforeSize | FrontEnd/app/api/generate-blog/route.ts:21-23 | a wrong type is refused for its type, whatever the size |
| ProxyRoute.SizeBoundary | FrontEnd/app/api/generate-blog/route.ts:26-28 | 10485760 bytes pass and 10485761 are refused |
| FrontEndPage.CheckUpload | FrontEnd/app/page.tsx:39-64 | the type is checked before the size; a file is kept exactly when it is a PDF of at most 10 MiB, as `{file, name, size}` taken from it |
| FrontEndPage.VelogHelper.HandleFileUpload | FrontEnd/app/page.tsx:35-70 | no file changes nothing; a refused file leaves `pdfFile` as it was; an accepted one becomes `pdfFile`; nothing else changes |
| FrontEndPage.VelogHelper.RemoveFile | FrontEnd/app/page.tsx:72-77 | `pdfFile` is reset to nothing and the rest of the state is kept |
| FrontEndPage.CheckSubmission | FrontEnd/app/page.tsx:80-105 | no file is refused before the cookie is looked at; a cookie that trims to nothing is refused; otherwise the form with `pdf` and `velog_cookie` |
| FrontEndPage.ReadAnswer | FrontEnd/app/page.tsx:110-146 | a non-ok answer fails with its `error` or the default; a fetch or JSON error fails with its message; an ok answer succeeds with its body |
| FrontEndPage.PostOf | FrontEnd/app/page.tsx:130-138 | the result kept: `success: true`, the whole answer as `velogResponse`, the fixed message, and the answer's title, summary, body and tags |
| FrontEndPage.VelogHelper.GenerateBlogPost | FrontEnd/app/page.tsx:79-149 | a refused submission sends nothing and changes neither `blogPost` nor `isLoading`; otherwise the form is sent, `blogPost` is the new result or cleared, and `isLoading` is false afterwards |
| FrontEndPage.WhitespaceCookieRefused | FrontEnd/app/page.tsx:89-96 | a cookie of only white space is refused |
| FrontEndPage.CookieWithTextAccepted | FrontEnd/app/page.tsx:89-106 | a cookie with any other character is accepted and sent as typed |
| FrontEndPage.UploadSizeBoundary | FrontEnd/app/page.tsx:50-58 | 10485760 bytes are accepted and 10485761 refused |
| FrontEndPage.FormatTags | FrontEnd/app/page.tsx:162 | no tags give nothing; otherwise the hash tags joined by single spaces, starting with `#` |
| FrontEndPage.Markdown | FrontEnd/app/page.tsx:159-174 | nothing exactly when there is no result; otherwise it starts with the `# ` heading |
| FrontEndPage.MarkdownTitleFallback | FrontEnd/app/page.tsx:166 | a missing or empty title gives the first line `# 제목 없음` |
| FrontEndPage.MarkdownBodyPrefix | FrontEnd/app/page.tsx:166-170 | the preview opens with the heading, a blank line, the body or `본문 없음`, and the summary heading |
| FrontEndPage.MarkdownTagsEnding | FrontEnd/app/page.tsx:162-173 | the preview ends with the summary or `요약 없음`, the tags label, and `태그 없음` when the tags are missing or empty, otherwise the `#`-tags joined by spaces |
| FrontEndPage.AfterTitle | FrontEnd/app/page.tsx:166-173 | the part after the title starts with a line break |
| FrontEndPage.MarkdownTitleLine | FrontEnd/app/page.tsx:166 | the first line of the preview is `# ` and the title, when that is one line |
| FrontEndPage.FormatTagsRoundTrip | FrontEnd/app/page.tsx:162 | splitting the tags line at spaces gives back each tag behind its `#`, in order |
| FrontEndPage.NoTagsPlaceholder | FrontEnd/app/page.tsx:162-173 | `태그 없음` stands exactly when the tags are missing or empty |
| AppPage.CheckSubmission | app/page.tsx:26-55 | text that trims to nothing is refused before the cookie is looked at; then a cookie that trims to nothing; otherwise the JSON body `{content, velogCookie}` |
| AppPage.ReadAnswer | app/page.tsx:46-78 | a non-ok answer fails with `data.error` or `Failed to post to Velog`; an ok answer without `success` fails with `data.error` or `포스팅에 실패했습니다.`; only an ok answer with `success: true` succeeds |
| AppPage.PostOf | app/page.tsx:71-75 | the result kept is `{success: true, velogResponse, message}` from the answer and nothing else |
| AppPage.VelogHelper.GenerateBlogPost | app/page.tsx:26-89 | a refused submission sends nothing; otherwise the body is sent, a success replaces `blogPost`, a failure keeps it, and `isLoading` is false afterwards |
| AppPage.BlankInputRefused | app/page.tsx:27-34 | text of only white space is refused, whatever the cookie |
| AppPage.BlankCookieRefused | app/page.tsx:36-43 | with some text, a cookie of only white space is refused |
| AppPage.OkWithoutSuccessFails | app/page.tsx:64-78 | an ok answer without `success: true` is a failure, even with status 200 |
| Relay.AsWrittenHasNoPdfPart | FrontEnd/app/api/generate-blog/route.ts:32 | the form the route forwards has no part named `pdf` |
| Relay.ProxyFormRejectedByBackend | BackEnd/Velog.py:288-289 | every form the route forwards, as written, is refused by the back end with 400, and the route answers 500 |
| Relay.CorrectedProxyFormAccepted | FrontEnd/app/api/generate-blog/route.ts:32 | corrected: with the file under `pdf`, a form the route accepted with a non-empty text cookie passes the back end's guards with the same file and cookie |
| Relay.FileCookieRefusedByBackend | BackEnd/Velog.py:292-295 | even with the file forwarded under `pdf`, a cookie sent as a file passes the route but is refused by the back end |
| Relay.ClientFormAccepted | FrontEnd/app/page.tsx:103-106 | whatever the upload page sends passes the back end's guards with the page's file and cookie |
| Relay.WhitespaceCookieGap | BackEnd/Velog.py:294-295 | a cookie of only white space is refused by the upload page but passes the back end |

## Left out

- External services are not modelled: the language model calls (Upstage Solar and Perplexity), Velog's GraphQL endpoint, imgbb, Upstage OCR and `fetch`. Their results are parameters.
- `process_pdf` (BackEnd/Velog.py:91-143) is modelled only by its counter rule. PyMuPDF, PIL and the size filter with its floating-point threshold are not modelled. The images arrive already filtered, with their OCR text and upload URL. `full_content` is not built.
- The temporary file (BackEnd/Velog.py:298-306) and the parsing of HTTP requests are I/O and are not modelled. So is the JSON decoding of `request.json`.
- The parsing of the request body in route.ts (`req.formData()`) is not modelled.
- `app/page.tsx` posts the JSON body `{content, velogCookie}` to `/api/generate-blog` of its own app (app/page.tsx:47-55). That route is not among the modelled files.
- The prompts and the model they are sent to are not modelled; the parser takes the reply as given. A `None` reply from the model is not modelled.
- Perplexity's status and parse errors in `Velog.py` (lines 42-52) and the rest of its `post` handler are not modelled. Only its guards and its parser are.
- `uuid4` is a parameter: `hex`, eight hex digits.
- Python's `\w` is the predicate `isWord` and `.lower()` in the slug is the function `lower`. Their Unicode details are left out.
- BackendVelog.UrlSlug: the contract says nothing about the characters `lower` produces. It relies only on the slug's spaces being replaced after lowering.
- RootVelog.ClassifyLine: `.lower()` in the keyword checks is modelled as lowering A-Z only. Python lowers two other characters to ASCII letters: the Kelvin sign becomes `k`, and `İ` becomes `i` followed by a combining dot. Neither can complete an English keyword, so the checks agree.
- References.RemoveReferences: `\d` is modelled as the digits 0-9. Python also matches other Unicode decimal digits.
- `formatFileSize` (FrontEnd/app/page.tsx:176-182) is floating point. The one value the page shows in a message, for 10485760 bytes, is written out as `10 MB`.
- FrontEndPage.VelogHelper.RemoveFile: the reset of the file input's value (FrontEnd/app/page.tsx:74-76) is not modelled. The input is on the page only while no file is kept (line 204), and the remove button only while one is. When the button runs `removeFile` the input's ref is therefore unset, and the reset does nothing.
- Toasts, console output, the clipboard, rendering and the disabled state of buttons are not modelled. Each action's outcome is returned as a value instead.
- FrontEndPage.VelogHelper.GenerateBlogPost and AppPage.VelogHelper.GenerateBlogPost: the state while the request is pending (`isLoading` true, `blogPost` cleared) cannot be observed in the model. Each method runs a whole attempt with the answer given.
- `generateMarkdown` in `app/page.tsx` (lines 99-112) reads fields its result type does not have, so it is not modelled.
- `FrontEnd/components/cookie-helper.tsx` and `FrontEnd/app/layout.tsx` are presentation only and are not modelled.
- Python's `str.split` is modelled on a single-character separator, `re.search` on a literal keyword.

## Findings

| source | as written | input that shows it | evidently intended | confidence | as-written member | corrected member |
|---|---|---|---|---|---|---|
| FrontEnd/app/api/generate-blog/route.ts:32 | the route forwards the PDF under the name `pdf_file`, while the back end reads only `request.files['pdf']` (BackEnd/Velog.py:288) | any upload the route accepts, e.g. a 1-byte `application/pdf` file with cookie `c`: the back end answers 400 `PDF 파일이 필요합니다.` and the route answers 500 | forward the file under `pdf`, as the upload page does (FrontEnd/app/page.tsx:105) | not executed | ProxyRoute.ForwardedFormAsWritten, Relay.ProxyFormRejectedByBackend | ProxyRoute.ForwardedForm, ProxyRoute.PostCorrected, Relay.CorrectedProxyFormAccepted |
