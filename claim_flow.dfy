/**
 * One claim end to end: the route's checks and draw, the Apps Script
 * `doPost` on the sheet, and the route's response. Claims are sequential;
 * two requests interleaving between the scan and the append are not modelled.
 */
module ClaimFlow {

  import opened Wrappers
  import opened JsString
  import PrizeDraw
  import opened AppsScript
  import opened SaveResult

  /** The key a handle typed by the visitor is stored and compared under. */
  function Key(handle: string): string {
    Normalize(CleanHandle(handle))
  }

  /** A key that does not start with `@` is its own key. */
  lemma KeyIdempotent(h: string)
    requires Key(h) == [] || Key(h)[0] != '@'
    ensures Key(Key(h)) == Key(h)
  {
    NormalizeShape(CleanHandle(h));
    TrimOfTrimmed(Key(h));
    NormalizeIdempotent(CleanHandle(h));
  }

  /** Only one `@` is stripped: `"@@a"` keys as `"@a"`, whose own key is `"a"`. */
  lemma KeyNotIdempotent()
    ensures Key("@@a") == "@a" && Key("@a") == "a"
    ensures Key(Key("@@a")) != Key("@@a")
  {
    TrimOfTrimmed("@@a");
    TrimOfTrimmed("@a");
    TrimOfTrimmed("a");
    assert "@@a"[1..] == "@a";
    assert "@a"[1..] == "a";
    assert LowerCase("@a") == "@a" by { LowerCaseOfNoUpper("@a"); }
    assert LowerCase("a") == "a" by { LowerCaseOfNoUpper("a"); }
  }

  /** The response to one claim and the sheet afterwards. */
  function Flow(rows: seq<Row>, body: Body, scriptUrl: Option<string>, r: int, now: string, dateFormatted: string)
    : (out: (Response, seq<Row>))
    ensures Admit(body, scriptUrl).Err? ==> out == (Admit(body, scriptUrl).error, rows)
    ensures Admit(body, scriptUrl).Ok? ==> out.0.Won? || out.0.AlreadyClaimed?
    ensures out.0.AlreadyClaimed? ==> out.1 == rows
    ensures out.0.Won? ==>
      && out.0.amount == PrizeDraw.Drawn(r)
      && out.0.instagram == CleanHandle(body.instagram.value)
      && out.1 == WithHeader(rows) + [Row(now, Key(body.instagram.value), Number(PrizeDraw.Drawn(r)), dateFormatted)]
  {
    match Admit(body, scriptUrl)
    case Err(response) => (response, rows)
    case Ok(clean) =>
      var amount := PrizeDraw.Drawn(r);
      var (reply, after) := Claim(rows, Some(Payload(Some(clean), amount, now)), dateFormatted);
      (Shape(clean, amount, Answered(reply)), after)
  }

  /** The route handling one claim against the sheet. */
  method ClaimOnce(sheet: Sheet, body: Body, scriptUrl: Option<string>, r: int, now: string, dateFormatted: string)
    returns (response: Response)
    modifies sheet
    ensures (response, sheet.rows) == Flow(old(sheet.rows), body, scriptUrl, r, now, dateFormatted)
  {
    var p := Prepare(body, scriptUrl, r);
    match p
    case Rejected(early) =>
      response := early;
    case Ready(clean, amount) =>
      var reply := sheet.DoPost(Some(Payload(Some(clean), amount, now)), dateFormatted);
      response := Shape(clean, amount, Answered(reply));
  }

  /** An admitted claim is answered "already claimed" exactly when some data row holds its key. */
  lemma FlowDuplicateIff(rows: seq<Row>, h: string, scriptUrl: Option<string>, r: int, now: string, dateFormatted: string)
    requires Admit(Json(Some(h)), scriptUrl).Ok?
    ensures Flow(rows, Json(Some(h)), scriptUrl, r, now, dateFormatted).0.AlreadyClaimed? <==> Claimed(rows, Key(h))
    ensures Flow(rows, Json(Some(h)), scriptUrl, r, now, dateFormatted).0.Won? <==> !Claimed(rows, Key(h))
  {
    DuplicateIffClaimed(rows, Payload(Some(CleanHandle(h)), PrizeDraw.Drawn(r), now), dateFormatted);
  }

  /** On an empty sheet a valid claim wins an amount of the table and leaves the header and one data row. */
  lemma FirstClaimWins(handle: string, scriptUrl: Option<string>, r: int, now: string, dateFormatted: string)
    requires !IsBlank(Some(handle)) && Configured(scriptUrl)
    ensures var (response, after) := Flow([], Json(Some(handle)), scriptUrl, r, now, dateFormatted);
      && response.Won? && response.Status() == 200
      && (exists i :: 0 <= i < |PrizeDraw.LuckyConfig| && response.amount == PrizeDraw.LuckyConfig[i].amount)
      && after == [Header, Row(now, Key(handle), Number(response.amount), dateFormatted)]
  {
    PrizeDraw.DrawnFromTable(r);
  }

  /**
   * A second claim whose handle has the same key as an earlier winning one
   * answers "duplicate" with the first claim's amount and date, and leaves
   * the sheet as the first claim left it.
   */
  lemma RepeatClaimIsDuplicate(rows: seq<Row>, first: string, second: string, scriptUrl: Option<string>,
                               r1: int, r2: int, now1: string, now2: string, df1: string, df2: string)
    requires Flow(rows, Json(Some(first)), scriptUrl, r1, now1, df1).0.Won?
    requires !IsBlank(Some(second)) && Key(second) == Key(first)
    ensures var (won, after) := Flow(rows, Json(Some(first)), scriptUrl, r1, now1, df1);
      Flow(after, Json(Some(second)), scriptUrl, r2, now2, df2)
        == (AlreadyClaimed(DuplicateMessage, Number(won.amount), df1), after)
  {
    var p1 := Payload(Some(CleanHandle(first)), PrizeDraw.Drawn(r1), now1);
    var p2 := Payload(Some(CleanHandle(second)), PrizeDraw.Drawn(r2), now2);
    SecondClaimIsDuplicate(rows, p1, df1, p2, df2);
  }

  /**
   * Whitespace around the handle, one `@` in front of it and the case of its
   * ASCII letters do not change its key: every such spelling of `h` claims
   * the same prize.
   */
  lemma KeyOfVariant(before: string, v: string, after: string, h: string)
    requires AllWhitespace(before) && AllWhitespace(after)
    requires Trimmed(v) && Trimmed(h) && LowerCase(v) == LowerCase(h)
    requires h == [] || h[0] != '@'
    ensures Key(before + v + after) == Key(h)
    ensures Key(before + ['@'] + v + after) == Key(h)
  {
    if v != [] {
      SameLowerCaseSameAt(v, h);
    }
    CleanPadded(before, v, after);
    CleanPadded([], h, []);
    assert [] + h + [] == h;
    TrimLowerCase(v);
    TrimLowerCase(h);
  }

  lemma KeyOfFoo()
    ensures Key("foo") == "foo"
  {
    TrimOfTrimmed("foo");
    assert CleanHandle("foo") == "foo";
    LowerCaseOfNoUpper("foo");
  }

  lemma KeyOfUpperFoo()
    ensures Key("FOO") == "foo"
  {
    TrimOfTrimmed("FOO");
    assert CleanHandle("FOO") == "FOO";
    assert LowerCase("FOO") == "foo";
    TrimOfTrimmed("foo");
  }

  lemma KeyOfAtFoo()
    ensures Key("@Foo ") == "foo"
  {
    assert TrimStart("@Foo ") == "@Foo ";
    assert TrimEnd("@Foo ") == "@Foo";
    assert CleanHandle("@Foo ") == "Foo";
    assert LowerCase("Foo") == "foo";
    TrimOfTrimmed("foo");
  }

  /** The three spellings `"@Foo "`, `"foo"` and `"FOO"` share one key. */
  lemma SpellingsShareKey()
    ensures Key("@Foo ") == Key("foo") == Key("FOO")
  {
    KeyOfFoo();
    KeyOfUpperFoo();
    KeyOfAtFoo();
  }
}
