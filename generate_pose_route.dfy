/**
 * `app/api/generate-pose/route.ts`: `POST /api/generate-pose`. It continues the active chat
 * session, asks it for an English image-generation prompt describing a wooden mannequin in the
 * corrected pose, and answers with a Pollinations rendering URL for that prompt. The chat call
 * `sendMessage` is a parameter; the session lookup goes through the registry of
 * `lib/gemini-session.ts`.
 */
module GeneratePoseRoute {
  import opened Wrappers
  import opened JsRuntime
  import opened GenAi
  import opened UriComponent
  import opened GeminiSession

  // ---------------------------------------------------------------------------------------
  // The fallback text extraction, `parts.map(p => p.text || "").join("").replace(/./g, "").trim()`.
  // ---------------------------------------------------------------------------------------

  /** `part.text || ""`: the part's text, or the empty string when it has none. */
  function PartText(p: Part): string
  {
    if p.text.Some? then p.text.value else ""
  }

  /** `.map(p => p.text || "").join("")`. */
  function JoinParts(parts: seq<Part>): string
  {
    if parts == [] then "" else PartText(parts[0]) + JoinParts(parts[1..])
  }

  /** Joining distributes over concatenation: each part contributes its text, in order. */
  lemma {:induction false} JoinPartsAppend(a: seq<Part>, b: seq<Part>)
    ensures JoinParts(a + b) == JoinParts(a) + JoinParts(b)
    decreases |a|
  {
    if a != [] {
      assert (a + b)[1..] == a[1..] + b;
      JoinPartsAppend(a[1..], b);
    } else {
      assert a + b == b;
    }
  }

  /**
   * `.replace(/./g, "")`: without the `s` flag `.` matches every character except a line
   * terminator, so exactly the line terminators survive, in order (see
   * `DropNonLineTerminatorsAppend`).
   */
  function DropNonLineTerminators(s: string): (r: string)
    ensures |r| <= |s|
    ensures forall k :: 0 <= k < |r| ==> IsLineTerminator(r[k])
    ensures forall c :: c in s && IsLineTerminator(c) ==> c in r
    ensures forall c :: c in r ==> c in s
  {
    if s == [] then ""
    else if IsLineTerminator(s[0]) then [s[0]] + DropNonLineTerminators(s[1..])
    else DropNonLineTerminators(s[1..])
  }

  /**
   * The replace works character by character: on a concatenation it is the concatenation of the
   * two results, so the surviving line terminators keep their order.
   */
  lemma {:induction false} DropNonLineTerminatorsAppend(a: string, b: string)
    ensures DropNonLineTerminators(a + b) == DropNonLineTerminators(a) + DropNonLineTerminators(b)
    decreases |a|
  {
    if a != [] {
      var ab := a + b;
      assert ab[0] == a[0] && ab[1..] == a[1..] + b;
      DropNonLineTerminatorsAppend(a[1..], b);
      var tail := DropNonLineTerminators(a[1..]);
      if IsLineTerminator(a[0]) {
        assert [a[0]] + (tail + DropNonLineTerminators(b)) == [a[0]] + tail + DropNonLineTerminators(b);
      }
    } else {
      assert a + b == b;
    }
  }

  /** V8's message for reading a property of `undefined`. */
  function ReadUndefinedMessage(property: string): string
  {
    "Cannot read properties of undefined (reading '" + property + "')"
  }

  function ReadUndefined(property: string): JsError
  {
    JsError("TypeError", ReadUndefinedMessage(property))
  }

  /**
   * The fallback branch: `response.candidates[0].content.parts` and the chain over it. A
   * missing `candidates`, an empty array, a candidate without `content` or a content without
   * `parts` each throw a TypeError naming the property that could not be read.
   */
  function FallbackText(candidates: Option<seq<Candidate>>): (r: Result<string, JsError>)
    ensures r.Err? <==>
      candidates.None? || candidates.value == [] || candidates.value[0].content.None?
      || candidates.value[0].content.value.parts.None?
    ensures r.Err? ==> r.error.name == "TypeError"
  {
    if candidates.None? then Err(ReadUndefined("0"))
    else if candidates.value == [] then Err(ReadUndefined("content"))
    else if candidates.value[0].content.None? then Err(ReadUndefined("parts"))
    else if candidates.value[0].content.value.parts.None? then Err(ReadUndefined("map"))
    else Ok(Trim(DropNonLineTerminators(JoinParts(candidates.value[0].content.value.parts.value))))
  }

  /**
   * `rawText`: the reply's `text()` when it is non-empty, else the fallback extraction. An
   * error thrown by `text()` propagates; a prompt that is not the reply's own text is empty,
   * and a failure after a successful `text()` is the fallback's TypeError.
   */
  function RawText(response: ModelResponse): (r: Result<string, JsError>)
    ensures response.text.Err? ==> r == response.text
    ensures r.Ok? ==> response.text == Ok(r.value) || r.value == ""
    ensures r.Err? && response.text.Ok? ==> response.text.value == "" && r.error.name == "TypeError"
  {
    FallbackAlwaysEmpty(response.candidates);
    match response.text
    case Err(e) => Err(e)
    case Ok(t) => if t != "" then Ok(t) else FallbackText(response.candidates)
  }

  // ---------------------------------------------------------------------------------------
  // The rendering URL.
  // ---------------------------------------------------------------------------------------

  const RenderBase: string := "https://image.pollinations.ai/prompt/"
  const RenderQuery: string := "?width=512&height=512&nologo=true"

  /** `https://image.pollinations.ai/prompt/${encodeURIComponent(rawText)}?width=512&height=512&nologo=true`. */
  function RenderUrl(rawText: string): (url: string)
    ensures |RenderBase| + |RenderQuery| <= |url|
    ensures url[..|RenderBase|] == RenderBase
    ensures url[|url| - |RenderQuery|..] == RenderQuery
  {
    RenderBase + EncodeUriComponent(rawText) + RenderQuery
  }

  /** The path segment a rendering URL carries between its fixed prefix and its fixed query. */
  function RenderSegment(url: string): string
    requires |RenderBase| + |RenderQuery| <= |url|
  {
    url[|RenderBase|..|url| - |RenderQuery|]
  }

  /**
   * The prompt a rendering URL asks for: `None` unless the URL has the fixed prefix and query
   * and a segment that decodes.
   */
  function ParseRenderUrl(url: string): Option<string>
  {
    if |RenderBase| + |RenderQuery| <= |url| && url[..|RenderBase|] == RenderBase
      && url[|url| - |RenderQuery|..] == RenderQuery
    then DecodeUriComponent(RenderSegment(url))
    else None
  }

  /** The URL carries the prompt losslessly: parsing it gives back exactly `rawText`. */
  lemma ParseRenderUrlInverse(rawText: string)
    ensures ParseRenderUrl(RenderUrl(rawText)) == Some(rawText)
  {
    var url := RenderUrl(rawText);
    assert RenderSegment(url) == EncodeUriComponent(rawText);
    DecodeEncode(rawText);
  }

  /**
   * Whatever the model answers, the encoded segment holds no `/`, `?`, `&`, `#` or space, so the
   * path has exactly the fixed prefix's slashes and the query is exactly the fixed one.
   */
  lemma RenderSegmentSafe(rawText: string)
    ensures forall k :: 0 <= k < |RenderSegment(RenderUrl(rawText))| ==>
      RenderSegment(RenderUrl(rawText))[k] !in {'/', '?', '&', '#', ' '}
  {
    var url := RenderUrl(rawText);
    var segment := EncodeUriComponent(rawText);
    assert RenderSegment(url) == segment;
    forall k | 0 <= k < |segment|
      ensures segment[k] !in {'/', '?', '&', '#', ' '}
    {
      assert Unreserved(segment[k]) || segment[k] == '%';
    }
  }

  // ---------------------------------------------------------------------------------------
  // The handler.
  // ---------------------------------------------------------------------------------------

  /** The fixed instruction sent into the chat; it mentions nothing from the request. */
  datatype Instruction = VisionPrompt
  {
    function Text(): string
    {
      "\n"
      + "      Important: Forget previous JSON format. \n"
      + "      Context: You knew my image was not good at person pose reference. \n"
      + "      Task: Write a highly detailed Image Generation Prompt for a 3D wooden mannequin to fix person pose better.\n"
      + "      Required keywords: \"3D wooden mannequin, articulated joints, studio lighting, solid grey background, minimalist, high quality, photorealistic wood texture\".\n"
      + "      Constraint: Output ONLY the English prompt string.\n"
      + "    "
    }
  }

  const NoContextMessage: string := "No context found"

  datatype Outcome =
    | Rendered(imageUrl: string)
    | NoContext
    | Threw(error: JsError)

  /**
   * The outcome of a request whose body `req.json()` resolved to, or rejected with, `body`,
   * when the active-session slot holds `chat`.
   */
  function GeneratePose(body: Result<Json, JsError>, chat: Option<ChatSession>,
                        sendMessage: (ChatSession, Instruction) -> Result<ModelResponse, JsError>): Outcome
  {
    match body
    case Err(e) => Threw(e)
    case Ok(value) =>
      match Destructure(value, "pose_summary", "body")
      case Err(e) => Threw(e)
      case Ok(_) =>
        if chat.None? then NoContext
        else
          match sendMessage(chat.value, VisionPrompt)
          case Err(e) => Threw(e)
          case Ok(response) =>
            match RawText(response)
            case Err(e) => Threw(e)
            case Ok(rawText) => Rendered(RenderUrl(rawText))
  }

  const NoContextResponse: Response := Response(400, JObject([("error", JString(NoContextMessage))]))

  function Respond(o: Outcome): Response
  {
    match o
    case Rendered(url) => Response(200, JObject([("success", JBool(true)), ("imageUrl", JString(url))]))
    case NoContext => NoContextResponse
    case Threw(e) => Response(500, JObject([("success", JBool(false)), ("error", JString(e.message))]))
  }

  /**
   * `POST /api/generate-pose`. Besides the response it reports whether a message was sent
   * into the chat and whether the 30-second timer was cleared (it is not on the 400 return).
   */
  method Post(body: Result<Json, JsError>, registry: SessionRegistry,
              sendMessage: (ChatSession, Instruction) -> Result<ModelResponse, JsError>)
    returns (response: Response, sent: bool, timerCleared: bool)
    ensures response == Respond(GeneratePose(body, registry.activeChatSession, sendMessage))
    ensures response.status == 400 ==> !sent && !timerCleared
    ensures response.status != 400 ==> timerCleared
  {
    sent, timerCleared := false, false;
    var thrown: JsError;
    label try: {
      if body.Err? {
        thrown := body.error;
        break try;
      }
      var destructured := Destructure(body.value, "pose_summary", "body");
      if destructured.Err? {
        thrown := destructured.error;
        break try;
      }
      var chat := registry.GetActiveSession();
      if chat.None? {
        response := NoContextResponse;
        return;
      }
      sent := true;
      var result := sendMessage(chat.value, VisionPrompt);
      if result.Err? {
        thrown := result.error;
        break try;
      }
      var reply := result.value;
      if reply.text.Err? {
        thrown := reply.text.error;
        break try;
      }
      var rawText := reply.text.value;
      if rawText == "" {
        var fallback := FallbackText(reply.candidates);
        if fallback.Err? {
          thrown := fallback.error;
          break try;
        }
        rawText := fallback.value;
      }
      var fastImageUrl := RenderUrl(rawText);
      timerCleared := true;
      response := Response(200, JObject([("success", JBool(true)), ("imageUrl", JString(fastImageUrl))]));
      return;
    }
    timerCleared := true;
    response := Response(500, JObject([("success", JBool(false)), ("error", JString(thrown.message))]));
  }

  // ---------------------------------------------------------------------------------------
  // Properties.
  // ---------------------------------------------------------------------------------------

  /** The fallback never yields any text: deleting every non-line-terminator leaves only whitespace. */
  lemma FallbackAlwaysEmpty(candidates: Option<seq<Candidate>>)
    ensures FallbackText(candidates).Ok? ==> FallbackText(candidates).value == ""
  {
    if FallbackText(candidates).Ok? {
      var joined := JoinParts(candidates.value[0].content.value.parts.value);
      var kept := DropNonLineTerminators(joined);
      assert forall k :: 0 <= k < |kept| ==> IsJsWhitespace(kept[k]);
      TrimAllWhitespace(kept);
    }
  }

  /**
   * A non-empty reply text is used verbatim: the URL encodes exactly that text, which the URL
   * gives back intact.
   */
  lemma PrimaryTextUsedVerbatim(body: Result<Json, JsError>, chat: ChatSession,
                                sendMessage: (ChatSession, Instruction) -> Result<ModelResponse, JsError>,
                                reply: ModelResponse, text: string)
    requires body.Ok? && !body.value.JNull?
    requires sendMessage(chat, VisionPrompt) == Ok(reply) && reply.text == Ok(text) && text != ""
    ensures GeneratePose(body, Some(chat), sendMessage) == Rendered(RenderUrl(text))
    ensures ParseRenderUrl(GeneratePose(body, Some(chat), sendMessage).imageUrl) == Some(text)
  {
    ParseRenderUrlInverse(text);
  }

  /**
   * An empty reply text that does not throw on the fallback path yields the URL with an empty
   * prompt segment, whatever the candidates' parts hold.
   */
  lemma EmptyReplyRendersEmptyPrompt(body: Result<Json, JsError>, chat: ChatSession,
                                     sendMessage: (ChatSession, Instruction) -> Result<ModelResponse, JsError>,
                                     reply: ModelResponse)
    requires body.Ok? && !body.value.JNull?
    requires sendMessage(chat, VisionPrompt) == Ok(reply) && reply.text == Ok("")
    requires FallbackText(reply.candidates).Ok?
    ensures GeneratePose(body, Some(chat), sendMessage) == Rendered(RenderBase + RenderQuery)
  {
    FallbackAlwaysEmpty(reply.candidates);
    assert RenderUrl("") == RenderBase + "" + RenderQuery;
  }

  /**
   * `pose_summary` plays no part: any two bodies that are not null lead to the same prompt and
   * the same outcome.
   */
  lemma PoseSummaryIgnored(v1: Json, v2: Json, chat: Option<ChatSession>,
                           sendMessage: (ChatSession, Instruction) -> Result<ModelResponse, JsError>)
    requires !v1.JNull? && !v2.JNull?
    ensures GeneratePose(Ok(v1), chat, sendMessage) == GeneratePose(Ok(v2), chat, sendMessage)
  {
  }

  /**
   * Status codes: 400 exactly when the body is a non-null value and no session is active; 200
   * with `{success: true, imageUrl}` exactly on a rendered URL; 500 with
   * `{success: false, error: message}` for every thrown error.
   */
  lemma RespondStatus(o: Outcome)
    ensures Respond(o).status == 400 <==> o.NoContext?
    ensures Respond(o).status == 200 <==> o.Rendered?
    ensures Respond(o).status == 500 <==> o.Threw?
    ensures o.Threw? ==> Respond(o).body == JObject([("success", JBool(false)), ("error", JString(o.error.message))])
  {
  }

  lemma NoContextExactly(body: Result<Json, JsError>, chat: Option<ChatSession>,
                         sendMessage: (ChatSession, Instruction) -> Result<ModelResponse, JsError>)
    ensures Respond(GeneratePose(body, chat, sendMessage)).status == 400
        <==> body.Ok? && !body.value.JNull? && chat.None?
  {
    RespondStatus(GeneratePose(body, chat, sendMessage));
  }

  /**
   * Every failure on the fallback path, including missing or empty `candidates`, is a 500
   * carrying the TypeError's message.
   */
  lemma FallbackFailureIs500(body: Result<Json, JsError>, chat: ChatSession,
                             sendMessage: (ChatSession, Instruction) -> Result<ModelResponse, JsError>,
                             reply: ModelResponse)
    requires body.Ok? && !body.value.JNull?
    requires sendMessage(chat, VisionPrompt) == Ok(reply) && reply.text == Ok("")
    requires reply.candidates.None? || reply.candidates.value == []
    ensures Respond(GeneratePose(body, Some(chat), sendMessage)).status == 500
    ensures Respond(GeneratePose(body, Some(chat), sendMessage)).body.members[1].1.JString?
    ensures Respond(GeneratePose(body, Some(chat), sendMessage)).body.members[1].1.s
        == FallbackText(reply.candidates).error.message
  {
  }

  // ---------------------------------------------------------------------------------------
  // The session lookup as imported.
  // ---------------------------------------------------------------------------------------

  /**
   * Line 2 imports `getActiveSession` from `../analyze/route`, which exports only `POST`. The
   * TypeScript check rejects that import; a build that skips the check binds `undefined`, and
   * the call at line 17 throws this TypeError.
   */
  const UnboundLookup: JsError := JsError("TypeError", "getActiveSession is not a function")

  /** The handler with the import as written: the lookup throws before any session is read. */
  function GeneratePoseAsWritten(body: Result<Json, JsError>): Outcome
  {
    match body
    case Err(e) => Threw(e)
    case Ok(value) =>
      match Destructure(value, "pose_summary", "body")
      case Err(e) => Threw(e)
      case Ok(_) => Threw(UnboundLookup)
  }

  /**
   * As written, every request is answered 500: a well-formed body reaches the lookup and fails
   * there, so no body is ever rendered where the handler reading the registry would render it.
   */
  lemma AsWrittenAlwaysFails(body: Result<Json, JsError>, chat: Option<ChatSession>,
                             sendMessage: (ChatSession, Instruction) -> Result<ModelResponse, JsError>)
    ensures Respond(GeneratePoseAsWritten(body)).status == 500
    ensures body.Ok? && !body.value.JNull? ==> GeneratePoseAsWritten(body) == Threw(UnboundLookup)
    ensures GeneratePose(body, chat, sendMessage).Rendered? ==>
      Respond(GeneratePoseAsWritten(body)).status != Respond(GeneratePose(body, chat, sendMessage)).status
  {
    RespondStatus(GeneratePoseAsWritten(body));
    RespondStatus(GeneratePose(body, chat, sendMessage));
  }

  /**
   * Reading the registry, with nothing ever registered in the slot (the analyze handler does
   * not register a session), every well-formed request is answered 400 and nothing is sent.
   */
  method FreshProcessRejects(body: Json, sendMessage: (ChatSession, Instruction) -> Result<ModelResponse, JsError>)
    returns (response: Response, sent: bool)
    requires !body.JNull?
    ensures response == NoContextResponse && !sent
  {
    var registry := new SessionRegistry();
    var timerCleared;
    response, sent, timerCleared := Post(Ok(body), registry, sendMessage);
  }
}
