/**
 * `fetch_questions`: what happens between the model service's reply and
 * the list of questions handed back to the page.  The prompt, the service
 * call and `json.loads` are outside the model: the reply and the parser
 * are parameters.
 */
module Fetcher {
  import opened Wrappers
  import opened Text
  import opened Json

  const JsonFence: string := "```json"
  const Fence: string := "```"

  /** How the service call ended. */
  datatype Reply =
    | Blocked(feedback: Option<string>)   // no response parts; the block reason, if any feedback came
    | RateLimited(detail: string)         // the client raised ResourceExhausted
    | ClientFailure(detail: string)       // the client raised anything else
    | Payload(text: string)               // the response text

  /** What `json.loads` made of the cleaned text. */
  datatype Parse = Parsed(value: Value) | DecodeError

  /** The message shown to the user when no questions come back. */
  datatype Notice =
    | BlockedNotice(reason: string)       // with the block reason
    | UnparsableNotice(raw: string)       // the raw reply text is logged
    | StructureNotice                     // unexpected structure or empty list
    | RateLimitNotice(detail: string)
    | UnexpectedNotice(detail: string)

  /** The list `fetch_questions` returns, with the notice it showed. */
  datatype Fetched = Fetched(questions: seq<Value>, notice: Option<Notice>)

  /** Strip, drop a leading "```json" and a trailing "```", strip again. */
  function Clean(raw: string): (r: string)
    ensures Trimmed(r)
  {
    Strip(RemoveSuffix(RemovePrefix(Strip(raw), JsonFence), Fence))
  }

  /** The fenced text is trimmed: it starts and ends with a backtick. */
  lemma FencedIsTrimmed(s: string)
    ensures Trimmed(JsonFence + s + Fence)
  {
    var f := JsonFence + s + Fence;
    assert f[0] == JsonFence[0] == '`';
    assert f[|f| - 1] == Fence[2] == '`';
  }

  /** Removing both fences from the fenced text gives back the text. */
  lemma UnfenceFenced(s: string)
    ensures RemoveSuffix(RemovePrefix(JsonFence + s + Fence, JsonFence), Fence) == s
  {
    var f := JsonFence + s + Fence;
    assert f == JsonFence + (s + Fence);
    assert f[|JsonFence|..] == s + Fence;
    var t := s + Fence;
    assert t[|t| - |Fence|..] == Fence;
    assert t[..|t| - |Fence|] == s;
  }

  /** A fenced reply, whatever whitespace surrounds it, cleans to the
      stripped content between the fences. */
  lemma CleanFenced(w1: string, s: string, w2: string)
    requires AllSpace(w1) && AllSpace(w2)
    ensures Clean(w1 + JsonFence + s + Fence + w2) == Strip(s)
  {
    var f := JsonFence + s + Fence;
    assert w1 + JsonFence + s + Fence + w2 == w1 + f + w2;
    FencedIsTrimmed(s);
    StripPadded(w1, f, w2);
    UnfenceFenced(s);
  }

  /** A reply without fences cleans to its plain strip. */
  lemma CleanUnfenced(raw: string)
    requires !(JsonFence <= Strip(raw)) && !EndsWith(Strip(raw), Fence)
    ensures Clean(raw) == Strip(raw)
  {
    StripTrimmed(Strip(raw));
  }

  /** The message of the AttributeError raised by `value.get` on a
      non-dict. */
  function NoGetMessage(v: Value): string {
    "'" + TypeName(v) + "' object has no attribute 'get'"
  }

  /** `quiz_data.get("mcqs", [])` followed by the list check.  A document
      that is not a dict has no `get`: the AttributeError it raises ends
      in the generic handler. */
  function McqsField(doc: Value): (r: Result<seq<Value>, Notice>)
    ensures r.Ok? <==> doc.Object? && "mcqs" in doc.fields
                       && doc.fields["mcqs"].Array? && doc.fields["mcqs"].items != []
    ensures r.Ok? ==> r.value == doc.fields["mcqs"].items
    ensures r.Err? && doc.Object? ==> r.error == StructureNotice
    ensures !doc.Object? ==> r.error.UnexpectedNotice?
  {
    match doc
    case Object(fields) =>
      var mcqs := if "mcqs" in fields then fields["mcqs"] else Array([]);
      if mcqs.Array? && |mcqs.items| > 0 then Ok(mcqs.items) else Err(StructureNotice)
    case _ => Err(UnexpectedNotice(NoGetMessage(doc)))
  }

  /** `fetch_questions`: every path that does not end in a non-empty
      `mcqs` list returns `[]` with a notice. */
  function Fetch(reply: Reply, parse: string -> Parse): (r: Fetched)
    ensures r.notice.None? <==> r.questions != []
    ensures r.questions != [] ==>
              reply.Payload? && parse(Clean(reply.text)).Parsed?
              && McqsField(parse(Clean(reply.text)).value) == Ok(r.questions)
    ensures reply.Blocked? ==> r.notice == Some(BlockedNotice(reply.feedback.GetOr("Unknown")))
    ensures reply.RateLimited? ==> r.notice == Some(RateLimitNotice(reply.detail))
    ensures reply.ClientFailure? ==> r.notice == Some(UnexpectedNotice(reply.detail))
    ensures reply.Payload? && parse(Clean(reply.text)).DecodeError? ==>
              r.notice == Some(UnparsableNotice(reply.text))
    ensures reply.Payload? && parse(Clean(reply.text)).Parsed?
            && McqsField(parse(Clean(reply.text)).value).Ok? ==>
              r == Fetched(McqsField(parse(Clean(reply.text)).value).value, None)
    ensures reply.Payload? && parse(Clean(reply.text)).Parsed?
            && McqsField(parse(Clean(reply.text)).value).Err? ==>
              r.notice == Some(McqsField(parse(Clean(reply.text)).value).error)
  {
    match reply
    case Blocked(feedback) => Fetched([], Some(BlockedNotice(feedback.GetOr("Unknown"))))
    case RateLimited(detail) => Fetched([], Some(RateLimitNotice(detail)))
    case ClientFailure(detail) => Fetched([], Some(UnexpectedNotice(detail)))
    case Payload(text) =>
      match parse(Clean(text))
      case DecodeError => Fetched([], Some(UnparsableNotice(text)))
      case Parsed(doc) =>
        match McqsField(doc)
        case Ok(mcqs) => Fetched(mcqs, None)
        case Err(notice) => Fetched([], Some(notice))
  }

  /** A fenced reply is fetched exactly as the bare document would be:
      the fences never reach the parser. */
  lemma FetchIgnoresFences(w1: string, s: string, w2: string, parse: string -> Parse)
    requires AllSpace(w1) && AllSpace(w2)
    requires !(JsonFence <= Strip(s)) && !EndsWith(Strip(s), Fence)
    ensures Fetch(Payload(w1 + JsonFence + s + Fence + w2), parse).questions
            == Fetch(Payload(s), parse).questions
  {
    CleanFenced(w1, s, w2);
    CleanUnfenced(s);
  }
}
