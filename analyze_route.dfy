/**
 * The image-analysis endpoint (`POST /api/analyze`): it reads `image` from the JSON body,
 * strips a leading data-URL header, has the image shrunk and re-encoded, sends it with a
 * fixed Vietnamese instruction to the vision model, removes Markdown code fences from the
 * reply, parses it as JSON and returns it as `advice`. Failures become 400, 504 or 500.
 */
module AnalyzeRoute {
  import opened Wrappers
  import opened JsRuntime
  import opened GenAi

  predicate StartsWith(s: string, p: string)
  {
    |p| <= |s| && forall k :: 0 <= k < |p| ==> s[k] == p[k]
  }

  // ---------------------------------------------------------------------------------------
  // The data-URL header: image.replace(/^data:image\/\w+;base64,/, "")
  // ---------------------------------------------------------------------------------------

  const DataImagePrefix: string := "data:image/"
  const Base64Marker: string := ";base64,"

  /** The regex class `\w`: ASCII letters, ASCII digits and underscore. */
  predicate IsWordChar(c: char)
  {
    ('A' <= c <= 'Z') || ('a' <= c <= 'z') || ('0' <= c <= '9') || c == '_'
  }

  /**
   * `h` is a whole header the regex can match: `data:image/`, then one or more word
   * characters, then `;base64,` (the `;base64,` form of section 3 of RFC 2397, restricted to
   * `image/` media types whose subtype is a single run of word characters).
   */
  predicate IsDataUrlHeader(h: string)
  {
    && |h| >= |DataImagePrefix| + 1 + |Base64Marker|
    && h[..|DataImagePrefix|] == DataImagePrefix
    && h[|h| - |Base64Marker|..] == Base64Marker
    && forall k :: |DataImagePrefix| <= k < |h| - |Base64Marker| ==> IsWordChar(h[k])
  }

  /** The length of the run of word characters `s` starts with (what the greedy `\w+` consumes). */
  function WordRun(s: string): (n: nat)
    ensures n <= |s|
    ensures forall k :: 0 <= k < n ==> IsWordChar(s[k])
    ensures n == |s| || !IsWordChar(s[n])
  {
    if s != [] && IsWordChar(s[0]) then 1 + WordRun(s[1..]) else 0
  }

  /** The length of the header the anchored regex matches at the start of `s`; 0 when it does not match. */
  function HeaderLength(s: string): (n: nat)
    ensures n == 0 || (n <= |s| && IsDataUrlHeader(s[..n]))
  {
    if StartsWith(s, DataImagePrefix) then
      var end := |DataImagePrefix| + WordRun(s[|DataImagePrefix|..]);
      if |DataImagePrefix| < end && StartsWith(s[end..], Base64Marker) then end + |Base64Marker| else 0
    else 0
  }

  /** The base64 payload of the uploaded image string: always a suffix of it. */
  function StripDataUrlHeader(s: string): (r: string)
    ensures |r| <= |s| && r == s[|s| - |r|..]
  {
    s[HeaderLength(s)..]
  }

  /** No header is a proper prefix of another, so a string begins with at most one header. */
  lemma HeaderUnique(h1: string, h2: string)
    requires IsDataUrlHeader(h1) && IsDataUrlHeader(h2)
    requires |h1| <= |h2| && h2[..|h1|] == h1
    ensures h1 == h2
  {
    var k := |h1| - |Base64Marker|;
    assert h2[k] == ';' by {
      assert h2[k] == h2[..|h1|][k] == h1[k];
    }
    assert |h1| == |h2|;
  }

  /** A leading header is removed, exactly it and nothing after it. */
  lemma StripHeader(h: string, rest: string)
    requires IsDataUrlHeader(h)
    ensures StripDataUrlHeader(h + rest) == rest
  {
    var s := h + rest;
    var p := |DataImagePrefix|;
    assert s[..p] == h[..p];
    var n := WordRun(s[p..]);
    var m := |h| - |Base64Marker| - p;
    forall k | 0 <= k < m ensures IsWordChar(s[p..][k]) {
      assert s[p..][k] == h[p + k];
    }
    assert s[p..][m] == h[p + m] == ';';
    assert n == m;
    assert s[p + n..][..|Base64Marker|] == h[|h| - |Base64Marker|..];
    assert HeaderLength(s) == |h|;
    assert s[|h|..] == rest;
  }

  /** A string that does not begin with a header is returned unchanged. */
  lemma StripWithoutHeader(s: string)
    requires forall n :: 0 <= n <= |s| ==> !IsDataUrlHeader(s[..n])
    ensures StripDataUrlHeader(s) == s
  {
  }

  /** The replace is anchored and not global: a second header after the first one stays. */
  lemma StripOnlyLeadingHeader(h1: string, h2: string, rest: string)
    requires IsDataUrlHeader(h1) && IsDataUrlHeader(h2)
    ensures StripDataUrlHeader(h1 + h2 + rest) == h2 + rest
  {
    StripHeader(h1, h2 + rest);
    assert h1 + h2 + rest == h1 + (h2 + rest);
  }

  /** A header whose subtype holds a non-word character, such as `svg+xml`, is not stripped. */
  lemma SvgHeaderKept(rest: string)
    ensures StripDataUrlHeader("data:image/svg+xml;base64," + rest) == "data:image/svg+xml;base64," + rest
  {
    var s := "data:image/svg+xml;base64," + rest;
    var p := |DataImagePrefix|;
    assert s[..p] == DataImagePrefix;
    assert s[p] == 's' && s[p + 1] == 'v' && s[p + 2] == 'g' && s[p + 3] == '+';
    assert WordRun(s[p..]) == 3;
    assert s[p + 3..][0] == '+';
    assert HeaderLength(s) == 0;
  }

  // ---------------------------------------------------------------------------------------
  // The reply sanitiser: text.replace(/```json|```/g, "").trim()
  // ---------------------------------------------------------------------------------------

  const JsonFence: string := "```json"
  const Fence: string := "```"

  /**
   * The global replace: scanning left to right, a match of ```` ```json ```` (tried first) or
   * of ```` ``` ```` is deleted and the scan resumes after it; any other character is kept.
   */
  function StripFences(s: string): (r: string)
    ensures |r| <= |s|
    decreases |s|
  {
    if s == [] then []
    else if JsonFenceAt(s, 0) then StripFences(s[|JsonFence|..])
    else if FenceAt(s, 0) then StripFences(s[|Fence|..])
    else [s[0]] + StripFences(s[1..])
  }

  /** ```` ``` ```` occurs in `s` at index `i`. */
  predicate FenceAt(s: string, i: int)
  {
    0 <= i && i + |Fence| <= |s| && s[i] == '`' && s[i + 1] == '`' && s[i + 2] == '`'
  }

  /** ```` ```json ```` occurs in `s` at index `i`. */
  predicate JsonFenceAt(s: string, i: int)
  {
    FenceAt(s, i) && i + |JsonFence| <= |s| && s[i + 3] == 'j' && s[i + 4] == 's' && s[i + 5] == 'o' && s[i + 6] == 'n'
  }

  predicate HasFence(s: string)
  {
    exists i :: 0 <= i < |s| && FenceAt(s, i)
  }

  /**
   * The model reply as the handler hands it to `JSON.parse`: never longer than the reply, and
   * with no whitespace left at either end.
   */
  function SanitizeReply(text: string): (r: string)
    ensures |r| <= |text|
    ensures r == [] || (!IsJsWhitespace(r[0]) && !IsJsWhitespace(r[|r| - 1]))
  {
    Trim(StripFences(text))
  }

  /** A string that does not begin with two backticks does not strip to one that does. */
  lemma StripFencesHead(s: string)
    requires !(|s| >= 2 && s[0] == '`' && s[1] == '`')
    ensures var r := StripFences(s); !(|r| >= 2 && r[0] == '`' && r[1] == '`')
  {
    if s != [] {
      if s[0] == '`' && |s| >= 2 {
        var t := s[1..];
        assert t[0] == s[1];
        assert StripFences(t) == [t[0]] + StripFences(t[1..]);
      }
    }
  }

  /** No run of three backticks survives the replace, not even one formed across a deletion. */
  lemma {:induction false} StripFencesLeavesNoFence(s: string)
    ensures !HasFence(StripFences(s))
    decreases |s|
  {
    if s == [] {
    } else if JsonFenceAt(s, 0) {
      StripFencesLeavesNoFence(s[|JsonFence|..]);
    } else if FenceAt(s, 0) {
      StripFencesLeavesNoFence(s[|Fence|..]);
    } else {
      var t := s[1..];
      var rt := StripFences(t);
      var r := [s[0]] + rt;
      StripFencesLeavesNoFence(t);
      if s[0] == '`' {
        assert !(|t| >= 2 && t[0] == '`' && t[1] == '`');
        StripFencesHead(t);
      }
      forall i | FenceAt(r, i) ensures false {
        if i > 0 { assert FenceAt(rt, i - 1); }
      }
    }
  }

  /** The replace leaves a string without fences as it is. */
  lemma {:induction false} StripFencesFixpoint(s: string)
    requires !HasFence(s)
    ensures StripFences(s) == s
    decreases |s|
  {
    if s != [] {
      assert !FenceAt(s, 0);
      forall i | FenceAt(s[1..], i) ensures false {
        assert FenceAt(s, i + 1);
      }
      StripFencesFixpoint(s[1..]);
      assert [s[0]] + s[1..] == s;
    }
  }

  /** A piece of a string without fences has none either. */
  lemma NoFenceInSlice(s: string, a: int, b: int)
    requires 0 <= a <= b <= |s| && !HasFence(s)
    ensures !HasFence(s[a..b])
  {
    forall i | FenceAt(s[a..b], i) ensures false {
      assert FenceAt(s, a + i);
    }
  }

  /** Trimming only cuts whitespace off the ends, so it cannot create a fence. */
  lemma TrimKeepsNoFence(s: string)
    requires !HasFence(s)
    ensures !HasFence(Trim(s))
  {
    var u := TrimStart(s);
    NoFenceInSlice(s, |s| - |u|, |s|);
    assert u == s[|s| - |u|..|s|];
    var r := TrimEnd(u);
    NoFenceInSlice(u, 0, |r|);
    assert r == u[0..|r|];
  }

  /** The sanitised reply contains no ```` ``` ````, so no ```` ```json ```` either. */
  lemma SanitizeLeavesNoFence(text: string)
    ensures !HasFence(SanitizeReply(text))
  {
    StripFencesLeavesNoFence(text);
    TrimKeepsNoFence(StripFences(text));
  }

  /** Sanitising twice is sanitising once. */
  lemma SanitizeIdempotent(text: string)
    ensures SanitizeReply(SanitizeReply(text)) == SanitizeReply(text)
  {
    var once := SanitizeReply(text);
    SanitizeLeavesNoFence(text);
    StripFencesFixpoint(once);
    TrimIdempotent(StripFences(text));
  }

  /** Text without backticks passes through the replace untouched, whatever follows it. */
  lemma {:induction false} StripFencesPlainPrefix(x: string, y: string)
    requires forall k :: 0 <= k < |x| ==> x[k] != '`'
    ensures StripFences(x + y) == x + StripFences(y)
  {
    if x != [] {
      var s := x + y;
      assert s[0] == x[0] != '`';
      assert s[1..] == x[1..] + y;
      StripFencesPlainPrefix(x[1..], y);
      assert [x[0]] + (x[1..] + StripFences(y)) == x + StripFences(y);
    } else {
      assert x + y == y;
    }
  }

  /** `s` starts with `json`, the tail that turns ```` ``` ```` into ```` ```json ````. */
  predicate StartsWithJson(s: string)
  {
    |s| >= 4 && s[..4] == "json"
  }

  /** A leading ```` ``` ```` that does not open a ```` ```json ```` is dropped. */
  lemma StripLeadingFence(y: string)
    requires !StartsWithJson(y)
    ensures StripFences(Fence + y) == StripFences(y)
  {
    var t := Fence + y;
    assert t[0] == '`' && t[1] == '`' && t[2] == '`';
    assert !JsonFenceAt(t, 0) by {
      if |t| >= |JsonFence| {
        assert t[3] == y[0] && t[4] == y[1] && t[5] == y[2] && t[6] == y[3];
        assert y[..4] == [y[0], y[1], y[2], y[3]];
      }
    }
    assert t[|Fence|..] == y;
  }

  /** A leading ```` ```json ```` is dropped as a whole. */
  lemma StripLeadingJsonFence(y: string)
    ensures StripFences(JsonFence + y) == StripFences(y)
  {
    var t := JsonFence + y;
    assert t[..|JsonFence|] == JsonFence;
    assert t[|JsonFence|..] == y;
  }

  /**
   * A ```` ``` ```` that does not open a ```` ```json ```` is deleted and nothing else: the
   * backtick-free text before it and everything after it are kept.
   */
  lemma StripFencesKeepsAroundFence(x: string, y: string)
    requires forall k :: 0 <= k < |x| ==> x[k] != '`'
    requires !StartsWithJson(y)
    ensures StripFences(x + Fence + y) == x + StripFences(y)
  {
    var t := Fence + y;
    StripLeadingFence(y);
    StripFencesPlainPrefix(x, t);
    assert x + Fence + y == x + t;
  }

  /** A ```` ```json ```` is deleted as a whole, and the text around it is kept. */
  lemma StripFencesKeepsAroundJsonFence(x: string, y: string)
    requires forall k :: 0 <= k < |x| ==> x[k] != '`'
    ensures StripFences(x + JsonFence + y) == x + StripFences(y)
  {
    assert x + JsonFence + y == x + (JsonFence + y);
    StripFencesPlainPrefix(x, JsonFence + y);
    StripLeadingJsonFence(y);
  }

  /** A fenced JSON block whose body holds no backtick comes out as exactly its body. */
  lemma StripFencesJsonBlock(b: string)
    requires forall k :: 0 <= k < |b| ==> b[k] != '`'
    ensures StripFences(JsonFence + b + Fence) == b
  {
    assert JsonFence + b + Fence == JsonFence + (b + Fence);
    StripLeadingJsonFence(b + Fence);
    assert b + Fence == b + Fence + [];
    StripFencesKeepsAroundFence(b, []);
  }

  lemma StripFencesExample()
    ensures StripFences("```json\n{\"a\":1}\n```") == "\n{\"a\":1}\n"
  {
    var body := "\n{\"a\":1}\n";
    var s := JsonFence + body + Fence;
    assert s == "```json\n{\"a\":1}\n```";
    assert JsonFenceAt(s, 0);
    assert s[|JsonFence|..] == body + Fence;
    assert StripFences(Fence) == [];
    StripFencesPlainPrefix(body, Fence);
  }

  lemma TrimExample()
    ensures Trim("\n{\"a\":1}\n") == "{\"a\":1}"
  {
    var inner := "{\"a\":1}";
    var body := ['\n'] + inner + ['\n'];
    assert body == "\n{\"a\":1}\n";
    assert !IsJsWhitespace('{') && !IsJsWhitespace('}');
    assert inner[0] == '{' && inner[|inner| - 1] == '}';
    assert (inner + ['\n'])[0] == '{';
    assert body[1..] == inner + ['\n'];
    assert TrimStart(body) == inner + ['\n'];
    assert (inner + ['\n'])[..|inner|] == inner;
  }

  /** A fenced JSON reply loses its fences and the surrounding line breaks. */
  lemma SanitizeFencedJson()
    ensures SanitizeReply("```json\n{\"a\":1}\n```") == "{\"a\":1}"
  {
    StripFencesExample();
    TrimExample();
  }

  // ---------------------------------------------------------------------------------------
  // The handler
  // ---------------------------------------------------------------------------------------

  const NoImageMessage: string := "Không tìm thấy dữ liệu ảnh"
  const SlowNetworkMessage: string := "Mạng quá chậm, vui lòng thử lại."
  const BusyMessage: string := "AI đang bận, thử lại sau nhé."

  /**
   * The instruction sent with every image. The model service is given this value; its wording,
   * a fixed Vietnamese template literal, is `AnalysisPrompt.Text()`.
   */
  datatype Instruction = AnalysisPrompt
  {
    function Text(): string
    {
      "\n"
      + "      Bạn là một chuyên gia nhiếp ảnh chuyên nghiệp. \n"
      + "      Hãy phân tích ảnh này và đưa ra hướng dẫn cụ thể để cải thiện bức ảnh tiếp theo.\n"
      + "\n"
      + "      Yêu cầu bắt buộc:\n"
      + "      1. Nội dung tập trung vào hành động \"PHẢI LÀM GÌ\".\n"
      + "      2. Chia thành 3 nhóm: Ánh sáng; Chủ thể (chủ yếu điều chỉnh tư thế, tay, chân, mặt, thân mình ...) để ảnh đẹp nhất hợp với phông nền nhất; Thông số kỹ thuật (ISO, Speed, EV) cụ thể bằng số.\n"
      + "      3. Mỗi nhóm có ít nhất 2 gạch đầu dòng cực ngắn gọn (dưới 10 từ mỗi dòng).\n"
      + "      4. Phản hồi dưới dạng JSON thuần túy theo cấu trúc sau:\n"
      + "      {\n"
      + "        \"analysis\": {\n"
      + "          \"light\": [\"Gạch đầu dòng 1\", \"Gạch đầu dòng 2\"],\n"
      + "          \"subject\": [\"Gạch đầu dòng 1\", \"Gạch đầu dòng 2\"],\n"
      + "          \"tech\": [\"Gạch đầu dòng 1\", \"Gạch đầu dòng 2\"]\n"
      + "        }\n"
      + "      }\n"
      + "    "
    }
  }

  /** How V8 names the value `req.json()` returned when destructuring it fails. */
  const BodySource: string := "(intermediate value)"

  /** The TypeError of calling `replace` on an `image` that is truthy but not a string. */
  const ReplaceNotAFunction: JsError := JsError("TypeError", "image.replace is not a function")

  /**
   * The calls the handler makes into code outside this model, each as a function of its
   * arguments; an `Err` result stands for the call throwing.
   */
  datatype Services = Services(
    /** `Buffer.from(data, "base64")`, which never throws on a string. */
    decodeBase64: string -> seq<int>,
    /** `sharp(buffer).resize(800).jpeg({ quality: 80 }).toBuffer()`. */
    compress: seq<int> -> Result<seq<int>, JsError>,
    /** `buffer.toString("base64")`. */
    encodeBase64: seq<int> -> string,
    /** `model.generateContent` with the JPEG as inline data and the instruction's text, then `.response`. */
    generateContent: (string, Instruction) -> Result<ModelResponse, JsError>,
    /** `JSON.parse`. */
    parseJson: string -> Result<Json, JsError>)

  /** What a request comes to before it is turned into a response. */
  datatype Outcome = Advice(data: Json) | MissingImage | Threw(error: JsError)

  /** The `image` property of the parsed body, when the body can be destructured at all. */
  function ImageField(value: Json): Option<Json>
  {
    if value.JObject? then Member(value.members, "image") else None
  }

  /** The request body `{"image": s}`. */
  function ImageRequest(s: string): Json
  {
    JObject([("image", JString(s))])
  }

  /**
   * Everything after the `image` check: decode, compress, ask the model, sanitise, parse. Past
   * the check the 400 answer is out of reach: every path ends in advice or a thrown error.
   */
  function Process(image: string, svc: Services): (r: Outcome)
    ensures !r.MissingImage?
  {
    var buffer := svc.decodeBase64(StripDataUrlHeader(image));
    match svc.compress(buffer)
    case Err(e) => Threw(e)
    case Ok(jpeg) =>
      match svc.generateContent(svc.encodeBase64(jpeg), AnalysisPrompt)
      case Err(e) => Threw(e)
      case Ok(response) =>
        match response.text
        case Err(e) => Threw(e)
        case Ok(text) =>
          match svc.parseJson(SanitizeReply(text))
          case Err(e) => Threw(e)
          case Ok(data) => Advice(data)
  }

  /** The outcome of a request whose body `req.json()` resolved to, or rejected with, `body`. */
  function Analyze(body: Result<Json, JsError>, svc: Services): Outcome
  {
    match body
    case Err(e) => Threw(e)
    case Ok(value) =>
      match Destructure(value, "image", BodySource)
      case Err(e) => Threw(e)
      case Ok(image) =>
        if !Truthy(image) then MissingImage
        else if !image.value.JString? then Threw(ReplaceNotAFunction)
        else Process(image.value.s, svc)
  }

  function SuccessBody(data: Json): Json
  {
    JObject([("success", JBool(true)), ("advice", data)])
  }

  function FailureBody(message: string): Json
  {
    JObject([("success", JBool(false)), ("error", JString(message))])
  }

  const MissingImageResponse: Response := Response(400, JObject([("error", JString(NoImageMessage))]))

  /** The catch block: an `AbortError` is a slow network (504), anything else a busy model (500). */
  function CatchResponse(e: JsError): Response
  {
    if e.name == "AbortError" then Response(504, FailureBody(SlowNetworkMessage))
    else Response(500, FailureBody(BusyMessage))
  }

  function Respond(o: Outcome): Response
  {
    match o
    case Advice(data) => Response(200, SuccessBody(data))
    case MissingImage => MissingImageResponse
    case Threw(e) => CatchResponse(e)
  }

  /**
   * `POST /api/analyze`. Besides the response it reports whether the image was handed to the
   * decoder and compressor, whether the model was called, and whether the 15-second timer was
   * cleared before returning (it is not on the early 400 return).
   */
  method Post(body: Result<Json, JsError>, svc: Services)
    returns (response: Response, imageProcessed: bool, modelCalled: bool, timerCleared: bool)
    ensures response == Respond(Analyze(body, svc))
    ensures response.status == 400 ==> !imageProcessed && !modelCalled && !timerCleared
    ensures response.status != 400 ==> timerCleared
    ensures modelCalled ==> imageProcessed
  {
    imageProcessed, modelCalled, timerCleared := false, false, false;
    var thrown: JsError;
    label try: {
      if body.Err? {
        thrown := body.error;
        break try;
      }
      var destructured := Destructure(body.value, "image", BodySource);
      if destructured.Err? {
        thrown := destructured.error;
        break try;
      }
      var image := destructured.value;
      if !Truthy(image) {
        response := MissingImageResponse;
        return;
      }
      if !image.value.JString? {
        thrown := ReplaceNotAFunction;
        break try;
      }
      assert Analyze(body, svc) == Process(image.value.s, svc);
      var base64Data := StripDataUrlHeader(image.value.s);
      var buffer := svc.decodeBase64(base64Data);
      imageProcessed := true;
      var compressed := svc.compress(buffer);
      if compressed.Err? {
        thrown := compressed.error;
        break try;
      }
      var finalBase64 := svc.encodeBase64(compressed.value);
      modelCalled := true;
      var result := svc.generateContent(finalBase64, AnalysisPrompt);
      if result.Err? {
        thrown := result.error;
        break try;
      }
      timerCleared := true;
      var text := result.value.text;
      if text.Err? {
        thrown := text.error;
        break try;
      }
      var jsonStr := SanitizeReply(text.value);
      var data := svc.parseJson(jsonStr);
      if data.Err? {
        thrown := data.error;
        break try;
      }
      response := Response(200, SuccessBody(data.value));
      return;
    }
    assert Analyze(body, svc) == Threw(thrown);
    timerCleared := true;
    if thrown.name == "AbortError" {
      response := Response(504, FailureBody(SlowNetworkMessage));
    } else {
      response := Response(500, FailureBody(BusyMessage));
    }
  }

  /**
   * Status codes: 400 exactly for a missing image, 504 exactly for an `AbortError`, 500 for
   * every other failure, 200 with `{success: true, advice}` and no other field on success.
   */
  lemma RespondStatus(o: Outcome)
    ensures Respond(o).status == 400 <==> o.MissingImage?
    ensures Respond(o).status == 504 <==> o.Threw? && o.error.name == "AbortError"
    ensures Respond(o).status == 500 <==> o.Threw? && o.error.name != "AbortError"
    ensures Respond(o).status == 200 <==> o.Advice?
    ensures o.Advice? ==> Respond(o).body == JObject([("success", JBool(true)), ("advice", o.data)])
    ensures o.Threw? ==> Respond(o).body.members[0] == ("success", JBool(false))
  {
  }

  /**
   * The request is rejected with 400 exactly when the body parsed to a non-null value whose
   * `image` is missing or falsy (absent, null, false, 0 or the empty string); a JSON body that
   * is not an object has no `image` at all.
   */
  lemma MissingImageExactly(body: Result<Json, JsError>, svc: Services)
    ensures Respond(Analyze(body, svc)).status == 400
        <==> body.Ok? && !body.value.JNull? && !Truthy(ImageField(body.value))
  {
    RespondStatus(Analyze(body, svc));
  }

  /**
   * The data-URL header makes no difference: with or without it, the same payload is decoded,
   * so `header + payload` is processed exactly as the bare payload, provided the payload is
   * non-empty and does not itself begin with a header.
   */
  lemma HeaderMakesNoDifference(h: string, payload: string, svc: Services)
    requires IsDataUrlHeader(h)
    requires payload != [] && HeaderLength(payload) == 0
    ensures Analyze(Ok(ImageRequest(h + payload)), svc) == Analyze(Ok(ImageRequest(payload)), svc)
  {
    StripHeader(h, payload);
    ImageRequestProcessed(h + payload, svc);
    ImageRequestProcessed(payload, svc);
    ProcessSeesStrippedImage(h + payload, payload, svc);
  }

  /** A request carrying a non-empty image string goes straight to processing. */
  lemma ImageRequestProcessed(s: string, svc: Services)
    requires s != []
    ensures Analyze(Ok(ImageRequest(s)), svc) == Process(s, svc)
  {
    assert Member([("image", JString(s))], "image") == Some(JString(s));
    assert Destructure(ImageRequest(s), "image", BodySource) == Ok(Some(JString(s)));
  }

  /** Processing only ever sees the image with its header removed. */
  lemma ProcessSeesStrippedImage(a: string, b: string, svc: Services)
    requires StripDataUrlHeader(a) == StripDataUrlHeader(b)
    ensures Process(a, svc) == Process(b, svc)
  {
  }

  /**
   * When decoding, compressing and the model call all succeed, the outcome is decided by the
   * parse of the sanitised reply alone: its value becomes the advice, its failure is thrown
   * (and so answered with the generic 500 unless it is an `AbortError`).
   */
  lemma ReplyIsSanitisedThenParsed(image: string, svc: Services, jpeg: seq<int>, reply: ModelResponse, text: string)
    requires image != []
    requires svc.compress(svc.decodeBase64(StripDataUrlHeader(image))) == Ok(jpeg)
    requires svc.generateContent(svc.encodeBase64(jpeg), AnalysisPrompt) == Ok(reply)
    requires reply.text == Ok(text)
    ensures svc.parseJson(SanitizeReply(text)).Ok? ==>
      Analyze(Ok(ImageRequest(image)), svc) == Advice(svc.parseJson(SanitizeReply(text)).value)
    ensures svc.parseJson(SanitizeReply(text)).Err? ==>
      Analyze(Ok(ImageRequest(image)), svc) == Threw(svc.parseJson(SanitizeReply(text)).error)
  {
    ImageRequestProcessed(image, svc);
  }
}
