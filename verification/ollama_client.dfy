/** The client for the local vision-language judge: the endpoint it posts
    to, how many times it tries and how long it waits between tries, and how
    the JSON object is cut out of the judge's free-text reply. The HTTP
    exchange, `time.sleep` and `json.loads` are given as inputs. */
module OllamaClient {
  import opened Wrappers
  import opened PyValues
  import opened PyText
  import opened Numerals

  // ---------------------------------------------------------------------------
  // The endpoint

  /** `s.rstrip(c)`. */
  function RStrip(s: string, c: char): (r: string)
    ensures |r| <= |s| && r == s[..|r|]
    ensures r == [] || r[|r| - 1] != c
    ensures forall k :: |r| <= k < |s| ==> s[k] == c
  {
    if s != [] && s[|s| - 1] == c then RStrip(s[..|s| - 1], c) else s
  }

  /** `k` slashes. */
  function Slashes(k: nat): (r: string)
    ensures |r| == k && forall i :: 0 <= i < k ==> r[i] == '/'
  {
    seq(k, _ => '/')
  }

  /** `f"{self.base_url.rstrip('/')}/api/chat"`. */
  function ChatUrl(baseUrl: string): string
  {
    RStrip(baseUrl, '/') + "/api/chat"
  }

  /** Trailing slashes on the base URL do not change the endpoint. */
  lemma {:induction false} ChatUrlTrailingSlashes(baseUrl: string, k: nat)
    ensures ChatUrl(baseUrl + Slashes(k)) == ChatUrl(baseUrl)
  {
    if k > 0 {
      var longer := baseUrl + Slashes(k);
      assert longer[|longer| - 1] == '/';
      assert longer[..|longer| - 1] == baseUrl + Slashes(k - 1);
      ChatUrlTrailingSlashes(baseUrl, k - 1);
    } else {
      assert baseUrl + Slashes(k) == baseUrl;
    }
  }

  // ---------------------------------------------------------------------------
  // _parse_json_from_text

  const Fence: string := "```"
  const NoJsonObject: string := "No JSON object found in Ollama response"

  predicate IsBacktick(c: char)
  {
    c == '`'
  }

  /** The reply stripped, and when it opens with a code fence, with the
      backticks at both ends and the first "json" removed. */
  function Unfenced(text: string): (r: string)
    ensures r == [] || (!IsSpace(r[0]) && !IsSpace(r[|r| - 1]))
  {
    var stripped := Strip(text);
    if StartsWith(stripped, Fence) then Strip(ReplaceFirst(StripBy(stripped, IsBacktick), "json", ""))
    else stripped
  }

  /** The slice from a '{' at `start` to a '}' at `end` inclusive when
      `end` lies after a found `start`, otherwise the ValueError. */
  function SpanBetween(s: string, start: int, end: int): (r: Result<string, string>)
    requires -1 <= start < |s| && -1 <= end < |s|
    requires start >= 0 ==> s[start] == '{'
    requires end >= 0 ==> s[end] == '}'
    ensures r.Success? ==> |r.value| >= 2 && r.value[0] == '{' && r.value[|r.value| - 1] == '}'
    ensures r.Failure? <==> start < 0 || end <= start
  {
    if start >= 0 && end > start then Success(s[start..end + 1]) else Failure(NoJsonObject)
  }

  /** The whole text when it opens with '{' and closes with '}', otherwise
      the slice from its first '{' to its last '}', or the ValueError when
      no '}' follows the first '{'. */
  function BraceSpan(s: string): (r: Result<string, string>)
    ensures r.Success? ==> |r.value| >= 2 && r.value[0] == '{' && r.value[|r.value| - 1] == '}'
    ensures r.Failure? ==> r.error == NoJsonObject
  {
    if StartsWith(s, "{") && EndsWith(s, "}") then
      assert s[0] == '{' && s[|s| - 1] == '}';
      Success(s)
    else SpanBetween(s, Find(s, '{'), RFind(s, '}'))
  }

  /** Text that opens with '{' and closes with '}' has its first '{' at the
      front and its last '}' at the back. */
  lemma BracedEnds(s: string)
    ensures StartsWith(s, "{") && EndsWith(s, "}") ==>
      Find(s, '{') == 0 && RFind(s, '}') == |s| - 1 && s[0..|s|] == s
  {
    if StartsWith(s, "{") && EndsWith(s, "}") {
      assert s[0] == '{' && s[|s| - 1] == '}';
    }
  }

  /** Whichever branch is taken, the span runs from the first '{' to the
      last '}', and there is none exactly when no '}' follows the first
      '{'. */
  lemma BraceSpanOuterBraces(s: string)
    ensures BraceSpan(s) == SpanBetween(s, Find(s, '{'), RFind(s, '}'))
  {
    BracedEnds(s);
  }

  /** A fenced reply "```json" + body + "```" is unwrapped to the body
      stripped, whatever the body is, unless the body itself ends in a
      backtick (which `strip("`")` would take too). */
  lemma FencedJson(body: string)
    requires body == [] || body[|body| - 1] != '`'
    ensures Unfenced("```json" + body + "```") == Strip(body)
  {
    var text := "```json" + body + "```";
    var inner := "json" + body;
    assert text[0] == '`' && text[|text| - 1] == '`';
    StripByNoop(text, IsSpace);
    assert text[..3] == Fence;
    assert text == "```" + inner + "```";
    assert inner[0] == 'j' && inner[|inner| - 1] != '`';
    StripByBoth("```", inner, "```", IsBacktick);
    assert inner[..4] == "json";
    ReplaceFirstAtFront(inner, "json", "");
    assert "" + inner[4..] == body;
  }

  /** A reply that does not open with a fence once stripped is only
      stripped. */
  lemma UnfencedPlain(text: string)
    requires !StartsWith(Strip(text), Fence)
    ensures Unfenced(text) == Strip(text)
  {
  }

  /** The body " {} " strips to "{}". */
  lemma StripSpacedBraces()
    ensures Strip(" {} ") == "{}"
  {
    StripByFront(" {} ", IsSpace);
    assert " {} "[1..] == "{} ";
    StripByBack("{} ", IsSpace);
    assert "{} "[..2] == "{}";
    StripByNoop("{}", IsSpace);
  }

  /** "```json {} ```" is unfenced to "{}". */
  lemma UnfencedExample()
    ensures Unfenced("```json {} ```") == "{}"
  {
    var body := " {} ";
    assert "```json {} ```" == "```json" + body + "```";
    FencedJson(body);
    StripSpacedBraces();
  }

  /** `_parse_json_from_text(text)`, with `json.loads` given as `loads`. */
  function ParseJsonFromText(text: string, loads: string -> Result<Value, string>): (r: Result<Value, string>)
    ensures BraceSpan(Unfenced(text)).Failure? ==> r == Failure(NoJsonObject)
    ensures BraceSpan(Unfenced(text)).Success? ==> r == loads(BraceSpan(Unfenced(text)).value)
  {
    match BraceSpan(Unfenced(text))
    case Failure(e) => Failure(e)
    case Success(span) => loads(span)
  }

  /** The fenced reply "```json {} ```" hands `json.loads` the text "{}". */
  lemma FencedReplyParsed(loads: string -> Result<Value, string>)
    ensures ParseJsonFromText("```json {} ```", loads) == loads("{}")
  {
    UnfencedExample();
    assert BraceSpan("{}") == Success("{}");
  }

  // ---------------------------------------------------------------------------
  // OllamaClient.chat

  /** What one try gave: `requests.post` raised, or a response with its
      status code, its text, and what reading `message.content` out of its
      JSON gave (`Failure` where `response.json()` or the lookups raised). */
  datatype Exchange =
    | PostRaised(error: string)
    | Response(status: nat, body: string, content: Result<Value, string>)

  const EmptyContent: string := "Empty Ollama response content"
  const ContentNotText: string := "content is not a string"
  const UnknownError: string := "Unknown Ollama error"

  /** The first 200 characters of the response text. */
  function Head(body: string): (r: string)
    ensures |r| <= 200 && |r| <= |body| && r == body[..|r|]
  {
    if |body| <= 200 then body else body[..200]
  }

  /** The message of the RuntimeError raised for a status other than 200. */
  function HttpError(status: nat, body: string): string
  {
    "Ollama HTTP " + ToText(status, 10) + ": " + Head(body)
  }

  /** The body of the `try`: the parsed reply, or the error it raised. */
  function AttemptResult(e: Exchange, loads: string -> Result<Value, string>): (r: Result<Value, string>)
    ensures e.Response? && e.status != 200 ==> r == Failure(HttpError(e.status, e.body))
    ensures e.Response? && e.status == 200 && e.content.Success? && !Truthy(e.content.value) ==> r == Failure(EmptyContent)
    ensures r.Success? ==> e.Response? && e.status == 200 && e.content.Success? && e.content.value.Str?
                           && r == ParseJsonFromText(e.content.value.s, loads)
  {
    match e
    case PostRaised(err) => Failure(err)
    case Response(status, body, content) =>
      if status != 200 then Failure(HttpError(status, body))
      else
        match content
        case Failure(err) => Failure(err)
        case Success(c) =>
          if !Truthy(c) then Failure(EmptyContent)
          else if !c.Str? then Failure(ContentNotText)
          else ParseJsonFromText(c.s, loads)
  }

  /** The try body of every pass, as one function of the pass number. */
  function Tries(exchange: nat -> Exchange, loads: string -> Result<Value, string>): nat -> Result<Value, string>
  {
    (k: nat) => AttemptResult(exchange(k), loads)
  }

  /** The retry loop of `chat(model, image_b64, prompt)`: `tryBody(k)` is
      what the `try` block gives on pass `k` (for the real client,
      `Tries(exchange, loads)`). Returns the reply or the error raised, how
      many passes were made, and the lengths of the sleeps between them. */
  method Chat(maxRetries: int, backoffSeconds: real, tryBody: nat -> Result<Value, string>)
    returns (r: Result<Value, string>, attempts: nat, sleeps: seq<real>)
    ensures maxRetries < 0 ==> r == Failure(UnknownError) && attempts == 0 && sleeps == []
    ensures maxRetries >= 0 ==> 1 <= attempts <= maxRetries + 1
    ensures maxRetries >= 0 ==> r == tryBody(attempts - 1)
    ensures forall k :: 0 <= k < attempts - 1 ==> tryBody(k).Failure?
    ensures r.Failure? && maxRetries >= 0 ==> attempts == maxRetries + 1
    ensures attempts > 0 ==> |sleeps| == attempts - 1
    ensures forall k :: 0 <= k < |sleeps| ==> sleeps[k] == backoffSeconds * (k + 1) as real
  {
    attempts := 0;
    sleeps := [];
    var attempt := 0;
    while attempt < maxRetries + 1
      invariant 0 <= attempt && (maxRetries >= 0 ==> attempt <= maxRetries) && (maxRetries < 0 ==> attempt == 0)
      invariant attempts == attempt && |sleeps| == attempt
      invariant forall k :: 0 <= k < attempt ==> tryBody(k).Failure?
      invariant forall k :: 0 <= k < |sleeps| ==> sleeps[k] == backoffSeconds * (k + 1) as real
      decreases maxRetries + 1 - attempt
    {
      var outcome := tryBody(attempt);
      attempts := attempts + 1;
      if outcome.Success? {
        return outcome, attempts, sleeps;
      }
      if attempt < maxRetries {
        sleeps := sleeps + [backoffSeconds * (attempt + 1) as real];
        attempt := attempt + 1;
        continue;
      }
      return outcome, attempts, sleeps;
    }
    r := Failure(UnknownError);
  }

  /** The reply is the first try that succeeds, if one of the allowed
      tries does; otherwise every allowed try failed and the last one's
      error is raised. */
  lemma ChatOutcome(maxRetries: int, r: Result<Value, string>, attempts: nat,
                    tryBody: nat -> Result<Value, string>)
    requires maxRetries >= 0 && 1 <= attempts <= maxRetries + 1
    requires r == tryBody(attempts - 1)
    requires forall k :: 0 <= k < attempts - 1 ==> tryBody(k).Failure?
    requires r.Failure? ==> attempts == maxRetries + 1
    ensures r.Success? <==> exists k :: 0 <= k <= maxRetries && tryBody(k).Success?
    ensures r.Failure? ==> r == tryBody(maxRetries)
  {
    if r.Failure? {
      forall k | 0 <= k <= maxRetries ensures tryBody(k).Failure? {
        if k < attempts - 1 {
        } else {
          assert k == attempts - 1;
        }
      }
    }
  }
}
