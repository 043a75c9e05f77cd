/**
 * The `POST` handler of the save-result route: it validates and cleans the
 * handle, checks that the Apps Script URL is configured, draws the prize on
 * the server, forwards the claim to the store and turns the store's reply
 * into the HTTP response. The draw's randomness is the injected integer `r`,
 * the clock is the `now` parameter, and the store's answer is the `upstream`
 * parameter (what `fetch` and `response.json()` produced).
 */
module SaveResult {

  import opened Wrappers
  import opened JsString
  import PrizeDraw
  import opened AppsScript

  /** The request body: not JSON at all, or a JSON object whose `instagram` field may be absent. */
  datatype Body = Unparsable | Json(instagram: Option<string>)

  /** The store's answer: no usable answer (network error, non-2xx status, unreadable JSON), or its reply. */
  datatype Upstream = Unreachable | Answered(reply: Reply)

  /** The JSON responses of the route. */
  datatype Response =
    | BadRequest(error: string)
    | ServerError(error: string)
    | StoreError(result: Reply)
    | Won(instagram: string, amount: int, message: string)
    | AlreadyClaimed(message: string, previousAmount: Cell, previousDate: string)
  {
    /** The HTTP status code: `NextResponse.json` answers 200 unless a status is given. */
    function Status(): int {
      match this
      case BadRequest(_) => 400
      case ServerError(_) => 500
      case StoreError(_) => 500
      case Won(_, _, _) => 200
      case AlreadyClaimed(_, _, _) => 200
    }

    /** The `success` field; error responses carry none, which the client reads as false. */
    predicate Success() {
      Won?
    }

    /** The `isDuplicate` field, read the same way. */
    predicate IsDuplicate() {
      AlreadyClaimed?
    }
  }

  const MissingHandle := "Vui lòng nhập tên Instagram"
  const ConfigurationError := "Server configuration error"
  const RetryError := "Đã có lỗi xảy ra, vui lòng thử lại"
  const Congratulations := "Chúc mừng bạn đã nhận được lì xì!"

  /** The route's own duplicate notice, used when the store sends no message. */
  function DuplicateNotice(clean: string): string {
    "Instagram @" + clean + " đã bốc lì xì rồi!"
  }

  /** `message || fallback`: an absent or empty message is replaced. */
  function MessageOr(message: Option<string>, fallback: string): (m: string)
    ensures m == fallback <==> message.None? || message.value == "" || message.value == fallback
    ensures m != fallback ==> message == Some(m)
  {
    if message.Some? && message.value != "" then message.value else fallback
  }

  /** `!instagram || !instagram.trim()`: the handle is absent, empty or only whitespace. */
  predicate IsBlank(instagram: Option<string>) {
    instagram.None? || Trim(instagram.value) == ""
  }

  /** The validation rejects exactly the absent handle and the handles made only of whitespace. */
  lemma IsBlankMeansWhitespace(instagram: Option<string>)
    ensures IsBlank(instagram) <==> instagram.None? || AllWhitespace(instagram.value)
  {
    if instagram.Some? {
      TrimShape(instagram.value);
    }
  }

  /** `instagram.trim().replace(/^@/, '')`: trims, then removes one leading `@` if there is one. */
  function CleanHandle(s: string): (clean: string)
    ensures |clean| == |Trim(s)| || |clean| == |Trim(s)| - 1
    ensures |clean| == |Trim(s)| - 1 <==> Trim(s) != [] && Trim(s)[0] == '@'
    ensures clean == Trim(s) || ['@'] + clean == Trim(s)
  {
    var t := Trim(s);
    if |t| > 0 && t[0] == '@' then
      assert t == ['@'] + t[1..];
      t[1..]
    else
      t
  }

  /** Cleaning undoes a prepended `@` on a trimmed handle, and leaves a trimmed handle without one alone. */
  lemma CleanHandleRoundTrip(h: string)
    requires Trimmed(h)
    ensures CleanHandle(['@'] + h) == h
    ensures h == [] || h[0] != '@' ==> CleanHandle(h) == h
  {
    TrimOfTrimmed(h);
    TrimOfTrimmed(['@'] + h);
    assert (['@'] + h)[1..] == h;
  }

  /** Cleaning a padded trimmed handle, with or without one `@` in front, gives the handle back. */
  lemma CleanPadded(before: string, v: string, after: string)
    requires AllWhitespace(before) && AllWhitespace(after)
    requires Trimmed(v) && (v == [] || v[0] != '@')
    ensures CleanHandle(before + v + after) == v
    ensures CleanHandle(before + ['@'] + v + after) == v
  {
    TrimPadded(before, v, after);
    TrimOfTrimmed(v);
    assert before + ['@'] + v + after == before + (['@'] + v) + after;
    TrimPadded(before, ['@'] + v, after);
    TrimOfTrimmed(['@'] + v);
    assert (['@'] + v)[1..] == v;
  }

  /** The URL check: `process.env.GOOGLE_APPS_SCRIPT_URL || ''` followed by `!APPS_SCRIPT_URL`. */
  predicate Configured(scriptUrl: Option<string>) {
    scriptUrl.Some? && scriptUrl.value != ""
  }

  /** The checks made before the draw, in the order the handler makes them; Ok carries the cleaned handle. */
  function Admit(body: Body, scriptUrl: Option<string>): (r: Result<string, Response>)
    ensures r.Ok? <==> body.Json? && !IsBlank(body.instagram) && Configured(scriptUrl)
    ensures r.Ok? ==> r.value == CleanHandle(body.instagram.value)
    ensures body.Unparsable? ==> r == Err(ServerError(RetryError))
    ensures body.Json? && IsBlank(body.instagram) ==> r == Err(BadRequest(MissingHandle))
    ensures body.Json? && !IsBlank(body.instagram) && !Configured(scriptUrl) ==> r == Err(ServerError(ConfigurationError))
    ensures r.Err? ==> r.error.Status() in {400, 500}
  {
    match body
    case Unparsable => Err(ServerError(RetryError))
    case Json(instagram) =>
      if IsBlank(instagram) then Err(BadRequest(MissingHandle))
      else if !Configured(scriptUrl) then Err(ServerError(ConfigurationError))
      else Ok(CleanHandle(instagram.value))
  }

  /** A handle that is only `@` with whitespace around it is admitted, and cleaned to the empty handle. */
  lemma AtOnlyAdmitted()
    ensures Admit(Json(Some(" @ ")), Some("u")) == Ok("")
  {
    assert TrimStart(" @ ") == "@ ";
    assert TrimEnd("@ ") == "@";
  }

  /**
   * The response for the store's answer to a claim for `clean` with the
   * locally drawn `amount`.
   */
  function Shape(clean: string, amount: int, upstream: Upstream): (response: Response)
    ensures response.Status() == 200 <==> upstream.Answered? && !upstream.reply.Failed?
    ensures response.Success() <==> upstream.Answered? && upstream.reply.Saved?
    ensures response.Success() ==> response.instagram == clean && response.amount == amount
    ensures response.Success() ==> response.message == MessageOr(upstream.reply.message, Congratulations)
    ensures response.IsDuplicate() <==> upstream.Answered? && upstream.reply.Duplicate?
    ensures response.IsDuplicate() ==>
      && response.previousAmount == upstream.reply.previousAmount
      && response.previousDate == upstream.reply.previousDate
      && response.message == MessageOr(upstream.reply.message, DuplicateNotice(clean))
    ensures upstream.Unreachable? ==> response == ServerError(RetryError)
    ensures upstream.Answered? && upstream.reply.Failed? ==> response == StoreError(upstream.reply)
  {
    match upstream
    case Unreachable => ServerError(RetryError)
    case Answered(reply) =>
      match reply
      case Duplicate(message, previousAmount, previousDate) =>
        AlreadyClaimed(MessageOr(message, DuplicateNotice(clean)), previousAmount, previousDate)
      case Failed(_) => StoreError(reply)
      case Saved(message, _, _, _) => Won(clean, amount, MessageOr(message, Congratulations))
  }

  /** Where the handler stands after its checks and the draw. */
  datatype Prepared = Rejected(response: Response) | Ready(clean: string, amount: int)

  /** Lines 35-61 of the handler: the checks, then the server-side draw. */
  method Prepare(body: Body, scriptUrl: Option<string>, r: int) returns (p: Prepared)
    ensures Admit(body, scriptUrl).Err? ==> p == Rejected(Admit(body, scriptUrl).error)
    ensures Admit(body, scriptUrl).Ok? ==> p == Ready(Admit(body, scriptUrl).value, PrizeDraw.Drawn(r))
  {
    var admitted := Admit(body, scriptUrl);
    if admitted.Err? {
      return Rejected(admitted.error);
    }
    var luckyAmount := PrizeDraw.WeightedRandom(r);
    return Ready(admitted.value, luckyAmount);
  }

  /**
   * `POST`: returns the response and the claim it would send to the store
   * (None when it returns before contacting the store). A blank handle is
   * answered with 400 and a missing URL with 500, both before any draw.
   */
  method Post(body: Body, scriptUrl: Option<string>, r: int, now: string, upstream: Upstream)
    returns (response: Response, sent: Option<Payload>)
    ensures body.Json? && IsBlank(body.instagram) ==> response.Status() == 400 && sent.None?
    ensures body.Json? && !IsBlank(body.instagram) && !Configured(scriptUrl) ==> response.Status() == 500 && sent.None?
    ensures body.Unparsable? ==> response.Status() == 500 && sent.None?
    ensures sent.Some? <==> Admit(body, scriptUrl).Ok?
    ensures sent.Some? ==>
      && sent.value == Payload(Some(Admit(body, scriptUrl).value), PrizeDraw.Drawn(r), now)
      && response == Shape(sent.value.instagram.value, sent.value.amount, upstream)
  {
    var p := Prepare(body, scriptUrl, r);
    match p
    case Rejected(early) =>
      response, sent := early, None;
    case Ready(clean, amount) =>
      sent := Some(Payload(Some(clean), amount, now));
      response := Shape(clean, amount, upstream);
  }
}
