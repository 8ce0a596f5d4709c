/** The values that cross the HTTP boundaries between the browser pages, the
    Next.js route and the Flask back end: multipart forms, JSON replies and
    the status codes the handlers answer with. */
module Http {
  import opened Wrappers

  /** A JSON value, as far as it is passed through without being looked at
      (Velog's GraphQL reply, for instance). */
  datatype Json =
    | JNull
    | JBool(b: bool)
    | JNum(n: int)
    | JStr(s: string)
    | JArr(items: seq<Json>)
    | JObj(fields: map<string, Json>)

  /** An uploaded file: its name, its MIME type and its size in bytes. */
  datatype FileInfo = FileInfo(name: string, mimeType: string, size: nat)

  /** One part of a multipart form: a file or a plain text value. */
  datatype FormValue = FileValue(file: FileInfo) | TextValue(text: string)

  /** A multipart form: its parts in the order they were appended. */
  type Form = seq<(string, FormValue)>

  /** The first part named `key`, of either kind (the browser's
      `FormData.get`). */
  function FirstValue(form: Form, key: string): (r: Option<FormValue>)
    ensures r.None? <==> forall i :: 0 <= i < |form| ==> form[i].0 != key
    ensures r.Some? ==> exists i :: 0 <= i < |form| && form[i] == (key, r.value) &&
                                    forall j :: 0 <= j < i ==> form[j].0 != key
    decreases |form|
  {
    if form == [] then None
    else if form[0].0 == key then Some(form[0].1)
    else
      var r := FirstValue(form[1..], key);
      assert forall i :: 1 <= i < |form| ==> form[i] == form[1..][i - 1];
      r
  }

  /** The first file part named `key` (Flask's `request.files`). */
  function FirstFile(form: Form, key: string): (r: Option<FileInfo>)
    ensures r.None? <==> forall i :: 0 <= i < |form| ==> !(form[i].0 == key && form[i].1.FileValue?)
    ensures r.Some? ==> exists i :: 0 <= i < |form| && form[i] == (key, FileValue(r.value)) &&
                                    forall j :: 0 <= j < i ==> !(form[j].0 == key && form[j].1.FileValue?)
    decreases |form|
  {
    if form == [] then None
    else if form[0].0 == key && form[0].1.FileValue? then Some(form[0].1.file)
    else
      var r := FirstFile(form[1..], key);
      assert forall i :: 1 <= i < |form| ==> form[i] == form[1..][i - 1];
      r
  }

  /** The first text part named `key` (Flask's `request.form.get`). */
  function FirstText(form: Form, key: string): (r: Option<string>)
    ensures r.None? <==> forall i :: 0 <= i < |form| ==> !(form[i].0 == key && form[i].1.TextValue?)
    ensures r.Some? ==> exists i :: 0 <= i < |form| && form[i] == (key, TextValue(r.value)) &&
                                    forall j :: 0 <= j < i ==> !(form[j].0 == key && form[j].1.TextValue?)
    decreases |form|
  {
    if form == [] then None
    else if form[0].0 == key && form[0].1.TextValue? then Some(form[0].1.text)
    else
      var r := FirstText(form[1..], key);
      assert forall i :: 1 <= i < |form| ==> form[i] == form[1..][i - 1];
      r
  }

  /** The JSON reply the handlers send and the pages read, with the fields the
      pages declare; an absent field is `None`. */
  datatype Reply = Reply(
    success: Option<bool>,
    message: Option<string>,
    error: Option<string>,
    velogResponse: Option<Json>,
    title: Option<string>,
    summary: Option<string>,
    body: Option<string>,
    tags: Option<seq<string>>)

  /** `{ error: msg }`. */
  function ErrorReply(msg: string): Reply
  {
    Reply(None, None, Some(msg), None, None, None, None, None)
  }

  /** An HTTP response: its status and its JSON body. */
  datatype Response = Response(status: nat, reply: Reply)

  /** What `fetch` hands back: the status, the body as text, and the body
      read as JSON, which fails with a message when the text is not the JSON
      of a reply. */
  datatype Fetched = Fetched(status: nat, text: string, json: Result<Reply, string>)

  /** `response.ok`. */
  predicate Ok(status: nat)
  {
    200 <= status <= 299
  }

  /** JavaScript's `s || fallback` for an optional string: an absent or empty
      string is falsy. */
  function OrElse(s: Option<string>, fallback: string): (r: string)
    ensures s.Some? && s.value != [] ==> r == s.value
    ensures s.None? || s.value == [] ==> r == fallback
  {
    if s.Some? && s.value != [] then s.value else fallback
  }

  function StringsJson(ss: seq<string>): (j: Json)
    ensures j.JArr? && |j.items| == |ss|
    ensures forall i :: 0 <= i < |ss| ==> j.items[i] == JStr(ss[i])
  {
    JArr(seq(|ss|, i requires 0 <= i < |ss| => JStr(ss[i])))
  }

  /** The fields a reply can have. */
  const ReplyKeys: set<string> := {"success", "message", "error", "velogResponse", "title", "summary", "body", "tags"}

  function StrJson(s: Option<string>): Option<Json>
  {
    if s.Some? then Some(JStr(s.value)) else None
  }

  /** The JSON object of a reply: one field per present value, holding that
      value, and no other field. */
  function ReplyJson(r: Reply): (j: Json)
    ensures j.JObj?
    ensures "success" in j.fields <==> r.success.Some?
    ensures "message" in j.fields <==> r.message.Some?
    ensures "error" in j.fields <==> r.error.Some?
    ensures "velogResponse" in j.fields <==> r.velogResponse.Some?
    ensures "title" in j.fields <==> r.title.Some?
    ensures "summary" in j.fields <==> r.summary.Some?
    ensures "body" in j.fields <==> r.body.Some?
    ensures "tags" in j.fields <==> r.tags.Some?
    ensures r.success.Some? ==> j.fields["success"] == JBool(r.success.value)
    ensures r.message.Some? ==> j.fields["message"] == JStr(r.message.value)
    ensures r.error.Some? ==> j.fields["error"] == JStr(r.error.value)
    ensures r.velogResponse.Some? ==> j.fields["velogResponse"] == r.velogResponse.value
    ensures r.title.Some? ==> j.fields["title"] == JStr(r.title.value)
    ensures r.summary.Some? ==> j.fields["summary"] == JStr(r.summary.value)
    ensures r.body.Some? ==> j.fields["body"] == JStr(r.body.value)
    ensures r.tags.Some? ==> j.fields["tags"] == StringsJson(r.tags.value)
    ensures forall k :: k in j.fields ==> k in ReplyKeys
  {
    JObj(map k | k in ReplyKeys && ReplyField(r, k).Some? :: ReplyField(r, k).value)
  }

  /** The value of the reply's field named `key`, if present. */
  function ReplyField(r: Reply, key: string): Option<Json>
  {
    if key == "success" then (if r.success.Some? then Some(JBool(r.success.value)) else None)
    else if key == "message" then StrJson(r.message)
    else if key == "error" then StrJson(r.error)
    else if key == "velogResponse" then r.velogResponse
    else if key == "title" then StrJson(r.title)
    else if key == "summary" then StrJson(r.summary)
    else if key == "body" then StrJson(r.body)
    else if key == "tags" then (if r.tags.Some? then Some(StringsJson(r.tags.value)) else None)
    else None
  }

  /** Python's truthiness of a decoded JSON value (`not value`): `null`,
      `false`, `0`, `""`, `[]` and `{}` are falsy. */
  predicate PyTruthy(v: Json)
  {
    match v
    case JNull => false
    case JBool(b) => b
    case JNum(n) => n != 0
    case JStr(s) => s != []
    case JArr(items) => items != []
    case JObj(fields) => fields != map[]
  }
}
