/**
 * The Apps Script web app behind the claim: `doPost` receives one claim,
 * makes sure the sheet has its header row, looks for an earlier claim by the
 * same normalized handle and, only when there is none, appends one row.
 * The spreadsheet is a sequence of rows; row n of the sheet (1-based) is
 * `rows[n - 1]`, and `getLastRow()` is `|rows|`.
 */
module AppsScript {

  import opened Wrappers
  import opened JsString

  /** A cell the route reads back: the amount column holds text in the header and numbers below it. */
  datatype Cell = Text(text: string) | Number(value: int)

  /** One sheet row, `[timestamp, handle, amount, date]`; timestamps and formatted dates are opaque text. */
  datatype Row = Row(timestamp: string, handle: string, amount: Cell, date: string)

  const Header: Row := Row("Timestamp", "Instagram", Text("Amount (VND)"), "Date")

  /** The parsed POST body; `instagram` is None when the field is absent. */
  datatype Payload = Payload(instagram: Option<string>, amount: int, timestamp: string)

  /** The JSON replies of `doPost`. */
  datatype Reply =
    | Saved(message: Option<string>, row: int, instagram: string, amount: int)
    | Duplicate(message: Option<string>, previousAmount: Cell, previousDate: string)
    | Failed(error: string)

  const SavedMessage := "Data saved successfully"
  const DuplicateMessage := "Instagram đã tồn tại"
  /** The error `JSON.parse` raises on a malformed body. */
  const ParseError := "SyntaxError"
  /** The error raised by `toLowerCase` on a missing `instagram` field. */
  const MissingInstagram := "TypeError"

  /** The comparison key of a handle: `toLowerCase().trim()`. */
  function Normalize(s: string): string {
    Trim(LowerCase(s))
  }

  /** A key has no upper-case letter and no surrounding whitespace; trimming first gives the same key. */
  lemma NormalizeShape(s: string)
    ensures NoUpper(Normalize(s)) && Trimmed(Normalize(s))
    ensures Normalize(s) == LowerCase(Trim(s))
  {
    TrimLowerCase(s);
    TrimShape(LowerCase(s));
    LowerCaseNoUpper(Trim(s));
  }

  /** Normalizing a key again changes nothing. */
  lemma NormalizeIdempotent(s: string)
    ensures Normalize(Normalize(s)) == Normalize(s)
  {
    var key := Normalize(s);
    NormalizeShape(s);
    LowerCaseOfNoUpper(key);
    TrimOfTrimmed(key);
  }

  /** A spelling of s that differs only in ASCII letter case, with any whitespace around it, has the key of s. */
  lemma NormalizeVariant(before: string, v: string, after: string, s: string)
    requires AllWhitespace(before) && AllWhitespace(after)
    requires LowerCase(v) == LowerCase(s)
    ensures Normalize(before + v + after) == Normalize(s)
  {
    TrimLowerCase(before + v + after);
    TrimPadded(before, v, after);
    TrimLowerCase(v);
    TrimLowerCase(s);
  }

  /** `getRange(2, 2, lastRow - 1, 1).getValues()`: the handle column below the first row. */
  function HandleColumn(rows: seq<Row>): (column: seq<string>)
    requires |rows| >= 1
    ensures |column| == |rows| - 1
    ensures forall j :: 0 <= j < |column| ==> column[j] == rows[j + 1].handle
  {
    seq(|rows| - 1, j requires 0 <= j < |rows| - 1 => rows[j + 1].handle)
  }

  /** The index of the first handle in the column that has the given key. */
  function FindClaim(column: seq<string>, key: string): (i: Option<nat>)
    ensures i.Some? ==> i.value < |column| && Normalize(column[i.value]) == key
    ensures i.Some? ==> forall j :: 0 <= j < i.value ==> Normalize(column[j]) != key
    ensures i.None? ==> forall j :: 0 <= j < |column| ==> Normalize(column[j]) != key
  {
    if |column| == 0 then None
    else if Normalize(column[0]) == key then Some(0)
    else match FindClaim(column[1..], key)
      case None => None
      case Some(j) => Some(j + 1)
  }

  /** The sheet once `doPost` has made sure it has a first row. */
  function WithHeader(rows: seq<Row>): (sheet: seq<Row>)
    ensures |sheet| >= 1 && sheet[0] == (if rows == [] then Header else rows[0])
    ensures sheet[1..] == if rows == [] then [] else rows[1..]
  {
    if |rows| == 0 then [Header] else rows
  }

  /** The reply of `doPost` and the sheet it leaves behind. */
  function Claim(rows: seq<Row>, payload: Option<Payload>, dateFormatted: string): (out: (Reply, seq<Row>))
    ensures payload.None? ==> out == (Failed(ParseError), rows)
    ensures out.0.Failed? ==> out.1 == rows || out.1 == WithHeader(rows)
    ensures out.0.Duplicate? ==> out.1 == rows
    ensures out.0.Saved? ==>
      && payload.Some? && payload.value.instagram.Some?
      && out.0.instagram == Normalize(payload.value.instagram.value)
      && out.0.amount == payload.value.amount
      && out.1 == WithHeader(rows) + [Row(payload.value.timestamp, out.0.instagram, Number(out.0.amount), dateFormatted)]
      && out.0.row == |out.1| == |WithHeader(rows)| + 1
  {
    if payload.None? then (Failed(ParseError), rows)
    else
      var data := payload.value;
      var sheet := WithHeader(rows);
      if data.instagram.None? then (Failed(MissingInstagram), sheet)
      else
        var instagram := Normalize(data.instagram.value);
        match FindClaim(HandleColumn(sheet), instagram)
        case Some(i) =>
          (Duplicate(Some(DuplicateMessage), sheet[i + 1].amount, sheet[i + 1].date), sheet)
        case None =>
          var sheet' := sheet + [Row(data.timestamp, instagram, Number(data.amount), dateFormatted)];
          (Saved(Some(SavedMessage), |sheet'|, instagram, data.amount), sheet')
  }

  /** Some data row (sheet row 2 or later) holds a handle with this key. */
  predicate Claimed(rows: seq<Row>, key: string) {
    exists n :: 1 <= n < |rows| && Normalize(rows[n].handle) == key
  }

  /** A claim with a handle is a duplicate exactly when a data row has its key, and saved otherwise. */
  lemma DuplicateIffClaimed(rows: seq<Row>, p: Payload, dateFormatted: string)
    requires p.instagram.Some?
    ensures Claim(rows, Some(p), dateFormatted).0.Duplicate? <==> Claimed(rows, Normalize(p.instagram.value))
    ensures Claim(rows, Some(p), dateFormatted).0.Saved? <==> !Claimed(rows, Normalize(p.instagram.value))
  {
    var key := Normalize(p.instagram.value);
    var sheet := WithHeader(rows);
    var column := HandleColumn(sheet);
    match FindClaim(column, key)
    case Some(i) =>
      assert Normalize(rows[i + 1].handle) == key;
    case None =>
      forall n | 1 <= n < |rows| ensures Normalize(rows[n].handle) != key {
        assert column[n - 1] == rows[n].handle;
      }
  }

  /** A duplicate reply carries the amount and date of the first data row with the incoming key. */
  lemma DuplicateIsFirstClaim(rows: seq<Row>, p: Payload, dateFormatted: string)
    requires p.instagram.Some? && Claim(rows, Some(p), dateFormatted).0.Duplicate?
    ensures exists n ::
      && 1 <= n < |rows| && Normalize(rows[n].handle) == Normalize(p.instagram.value)
      && (forall m :: 1 <= m < n ==> Normalize(rows[m].handle) != Normalize(p.instagram.value))
      && Claim(rows, Some(p), dateFormatted).0 == Duplicate(Some(DuplicateMessage), rows[n].amount, rows[n].date)
  {
    var key := Normalize(p.instagram.value);
    var column := HandleColumn(WithHeader(rows));
    var i := FindClaim(column, key).value;
    forall m | 1 <= m < i + 1 ensures Normalize(rows[m].handle) != key {
      assert column[m - 1] == rows[m].handle;
    }
  }

  /** No two data rows (sheet row 2 or later) share a key. */
  predicate UniqueKeys(rows: seq<Row>) {
    forall m, n :: 1 <= m < n < |rows| ==> Normalize(rows[m].handle) != Normalize(rows[n].handle)
  }

  /** Sequential claims keep at most one data row per key. */
  lemma ClaimKeepsUnique(rows: seq<Row>, payload: Option<Payload>, dateFormatted: string)
    requires UniqueKeys(rows)
    ensures UniqueKeys(Claim(rows, payload, dateFormatted).1)
  {
    var (reply, after) := Claim(rows, payload, dateFormatted);
    if reply.Saved? {
      DuplicateIffClaimed(rows, payload.value, dateFormatted);
      NormalizeIdempotent(payload.value.instagram.value);
    }
  }

  /** A claimed key stays claimed: no claim removes or rewrites a data row. */
  lemma ClaimedStays(rows: seq<Row>, key: string, payload: Option<Payload>, dateFormatted: string)
    requires Claimed(rows, key)
    ensures Claimed(Claim(rows, payload, dateFormatted).1, key)
  {
    var n :| 1 <= n < |rows| && Normalize(rows[n].handle) == key;
    assert Claim(rows, payload, dateFormatted).1[n] == rows[n];
  }

  /** Row 1 is never compared: replacing the header changes neither the reply nor the data rows. */
  lemma HeaderNotCompared(rows: seq<Row>, header: Row, payload: Option<Payload>, dateFormatted: string)
    requires rows != []
    ensures var (reply, after) := Claim(rows, payload, dateFormatted);
            var (reply', after') := Claim([header] + rows[1..], payload, dateFormatted);
            reply == reply' && after[1..] == after'[1..]
  {
    var rows' := [header] + rows[1..];
    assert rows'[1..] == rows[1..];
    assert HandleColumn(WithHeader(rows')) == HandleColumn(WithHeader(rows));
  }

  /** The spreadsheet, as the rows `doPost` reads and appends to. */
  class Sheet {
    var rows: seq<Row>

    constructor (initial: seq<Row>)
      ensures rows == initial
    {
      rows := initial;
    }

    /** `sheet.appendRow`. */
    method AppendRow(row: Row)
      modifies this
      ensures rows == old(rows) + [row]
    {
      rows := rows + [row];
    }

    /** `doPost` for one claim; `dateFormatted` is the timestamp formatted for the Asia/Ho_Chi_Minh time zone. */
    method DoPost(payload: Option<Payload>, dateFormatted: string) returns (reply: Reply)
      modifies this
      ensures (reply, rows) == Claim(old(rows), payload, dateFormatted)
      ensures reply.Duplicate? ==> rows == old(rows)
      ensures reply.Saved? ==> |rows| == |WithHeader(old(rows))| + 1 && rows[..|rows| - 1] == WithHeader(old(rows))
    {
      if payload.None? {
        return Failed(ParseError);
      }
      var data := payload.value;
      if |rows| == 0 {
        AppendRow(Header);
      }
      assert rows == WithHeader(old(rows));
      if data.instagram.None? {
        return Failed(MissingInstagram);
      }
      var instagram := Normalize(data.instagram.value);
      var lastRow := |rows|;
      if lastRow > 1 {
        var instagramColumn := HandleColumn(rows);
        for i := 0 to |instagramColumn|
          invariant forall j :: 0 <= j < i ==> Normalize(instagramColumn[j]) != instagram
        {
          var existingInstagram := Normalize(instagramColumn[i]);
          if existingInstagram == instagram {
            assert FindClaim(instagramColumn, instagram) == Some(i);
            var existingRow := i + 2;
            return Duplicate(Some(DuplicateMessage), rows[existingRow - 1].amount, rows[existingRow - 1].date);
          }
        }
        assert FindClaim(instagramColumn, instagram) == None;
      } else {
        assert HandleColumn(rows) == [];
      }
      AppendRow(Row(data.timestamp, instagram, Number(data.amount), dateFormatted));
      reply := Saved(Some(SavedMessage), |rows|, instagram, data.amount);
    }
  }

  /**
   * After a saved claim for one handle, a second claim whose handle has the
   * same key is a duplicate carrying the first claim's amount and date, and
   * writes nothing.
   */
  lemma SecondClaimIsDuplicate(rows: seq<Row>, first: Payload, df1: string, second: Payload, df2: string)
    requires first.instagram.Some? && second.instagram.Some?
    requires Normalize(second.instagram.value) == Normalize(first.instagram.value)
    requires Claim(rows, Some(first), df1).0.Saved?
    ensures var after := Claim(rows, Some(first), df1).1;
            Claim(after, Some(second), df2) == (Duplicate(Some(DuplicateMessage), Number(first.amount), df1), after)
  {
    var sheet := WithHeader(rows);
    var key := Normalize(first.instagram.value);
    var after := Claim(rows, Some(first), df1).1;
    assert FindClaim(HandleColumn(sheet), key).None?;
    NormalizeIdempotent(first.instagram.value);
    assert HandleColumn(after) == HandleColumn(sheet) + [key];
    FindClaimAppend(HandleColumn(sheet), key, key);
  }

  /** When no earlier row has the key and the appended row does, the appended row is found. */
  lemma {:induction false} FindClaimAppend(column: seq<string>, handle: string, key: string)
    requires FindClaim(column, key).None? && Normalize(handle) == key
    ensures FindClaim(column + [handle], key) == Some(|column|)
  {
    if column == [] {
      assert column + [handle] == [handle];
    } else {
      assert (column + [handle])[0] == column[0];
      assert (column + [handle])[1..] == column[1..] + [handle];
      FindClaimAppend(column[1..], handle, key);
    }
  }
}
