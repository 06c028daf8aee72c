/** The local logic of the transcription client (services/geminiService.ts):
    the credential check, the extraction of the base64 payload from a data
    URL, the MIME-type fallback, the empty-reply check and the client-side
    recomputation of the report total. The remote model, the file reader and
    JSON parsing are collaborators whose outcomes arrive as parameters. */
module GeminiService {

  import opened Wrappers
  import opened Types
  import Strings

  /** MIME type sent when the blob carries none. */
  const FallbackMimeType: string := "audio/webm"

  /** Why a request produced no report. */
  datatype ServiceError =
    | MissingApiKey      // no credential configured: raised before anything else
    | ReadFailed         // the file reader could not produce a data URL
    | RequestFailed      // the remote call threw
    | EmptyReply         // the remote call answered with no text
    | MalformedReply     // the reply text was not a report

  /** The audio part of the request: its MIME type and base64 payload
      (absent when the data URL held no comma). */
  datatype InlineData = InlineData(mimeType: string, data: Option<string>)

  /** What the remote model does with a request: it throws, or answers with
      some text together with the outcome of parsing that text as a report. */
  datatype RemoteReply =
    | TransportFailure
    | Replied(text: string, parsed: Option<ExpenseResponse>)

  /** The credential is usable exactly when it is defined and not empty. */
  predicate HasApiKey(apiKey: Option<string>)
  {
    apiKey.Some? && apiKey.value != ""
  }

  /** The MIME type sent for a blob: its own, or the fallback when empty. */
  function MimeTypeFor(blobType: string): (m: string)
    ensures m != ""
    ensures blobType != "" ==> m == blobType
    ensures blobType == "" ==> m == FallbackMimeType
  {
    if blobType != "" then blobType else FallbackMimeType
  }

  /** The second comma-separated field of a data URL, or `None` when the
      URL has no comma (the index is then out of range). */
  function Base64Payload(dataUrl: string): (p: Option<string>)
    ensures p.None? <==> ',' !in dataUrl
    ensures p.Some? ==> ',' !in p.value
  {
    var fields := Strings.SplitOn(dataUrl, ',');
    if |fields| >= 2 then
      Strings.JoinAppend(fields[..1], fields[1..], ',');
      assert fields[..1] + fields[1..] == fields;
      assert dataUrl[|fields[0]|] == ',';
      Some(fields[1])
    else
      None
  }

  /** The payload is the text after the first comma, up to the next comma
      or the end. */
  lemma Base64PayloadOf(header: string, payload: string, rest: string)
    requires ',' !in header && ',' !in payload
    requires rest == [] || rest[0] == ','
    ensures Base64Payload(header + "," + payload + rest) == Some(payload)
  {
    var url := header + "," + payload + rest;
    assert url == header + [','] + (payload + rest);
    Strings.SplitFirst(header, ',', payload + rest);
    var tail := Strings.SplitOn(payload + rest, ',');
    if rest == [] {
      assert payload + rest == payload;
      Strings.SplitNoSeparator(payload, ',');
    } else {
      assert payload + rest == payload + [','] + rest[1..];
      Strings.SplitFirst(payload, ',', rest[1..]);
    }
    assert tail[0] == payload;
    assert Strings.SplitOn(url, ',') == [header] + tail;
  }

  /** The report total: a left fold of `amount` over the lines from 0, in
      list order. */
  function Total(expenses: seq<ExpenseItem>): int
  {
    if expenses == [] then 0
    else Total(expenses[..|expenses| - 1]) + expenses[|expenses| - 1].amount
  }

  /** The same sum folded from the right, as an independent reference. */
  function SumFromRight(expenses: seq<ExpenseItem>): int
  {
    if expenses == [] then 0
    else expenses[0].amount + SumFromRight(expenses[1..])
  }

  /** One more line adds exactly its amount. */
  lemma TotalSnoc(expenses: seq<ExpenseItem>, e: ExpenseItem)
    ensures Total(expenses + [e]) == Total(expenses) + e.amount
  {
    assert (expenses + [e])[..|expenses|] == expenses;
  }

  /** The total of a concatenation is the sum of the totals. */
  lemma {:induction false} TotalAppend(xs: seq<ExpenseItem>, ys: seq<ExpenseItem>)
    ensures Total(xs + ys) == Total(xs) + Total(ys)
    decreases |ys|
  {
    if ys == [] {
      assert xs + ys == xs;
    } else {
      var init, last := ys[..|ys| - 1], ys[|ys| - 1];
      assert xs + ys == (xs + init) + [last];
      assert ys == init + [last];
      TotalAppend(xs, init);
      TotalSnoc(xs + init, last);
      TotalSnoc(init, last);
    }
  }

  /** Folding from the left and from the right give the same sum. */
  lemma {:induction false} TotalIsSum(expenses: seq<ExpenseItem>)
    ensures Total(expenses) == SumFromRight(expenses)
    decreases |expenses|
  {
    if expenses != [] {
      TotalIsSum(expenses[1..]);
      TotalAppend([expenses[0]], expenses[1..]);
      assert [expenses[0]] + expenses[1..] == expenses;
      assert Total([expenses[0]]) == expenses[0].amount by {
        assert [expenses[0]][..0] == [];
      }
    }
  }

  /** Non-negative amounts give a total no smaller than any one of them. */
  lemma {:induction false} TotalBounds(expenses: seq<ExpenseItem>, k: nat)
    requires forall i :: 0 <= i < |expenses| ==> expenses[i].amount >= 0
    requires k < |expenses|
    ensures 0 <= expenses[k].amount <= Total(expenses)
    decreases |expenses|
  {
    var init := expenses[..|expenses| - 1];
    if k < |init| {
      TotalBounds(init, k);
    } else if init != [] {
      TotalBounds(init, 0);
    }
  }

  /** The client-side fix: overwrite the reported total with the sum of the
      amounts, leaving every other field as parsed. */
  method RecomputeTotal(parsed: ExpenseResponse) returns (fixed: ExpenseResponse)
    ensures fixed.totalAmount == Total(parsed.expenses)
    ensures parsed.expenses == [] ==> fixed.totalAmount == 0
    ensures fixed.transcription == parsed.transcription
    ensures fixed.translation == parsed.translation
    ensures fixed.expenses == parsed.expenses
    ensures fixed.currency == parsed.currency
  {
    var sum := 0;
    var i := 0;
    while i < |parsed.expenses|
      invariant 0 <= i <= |parsed.expenses|
      invariant sum == Total(parsed.expenses[..i])
    {
      assert parsed.expenses[..i + 1] == parsed.expenses[..i] + [parsed.expenses[i]];
      TotalSnoc(parsed.expenses[..i], parsed.expenses[i]);
      sum := sum + parsed.expenses[i].amount;
      i := i + 1;
    }
    assert parsed.expenses[..i] == parsed.expenses;
    fixed := parsed.(totalAmount := sum);
  }

  /** One call of the client. `apiKey` is the configured credential,
      `dataUrl` what the file reader produced for the blob (`None` when it
      failed), `reply` what the remote model did. Returns the request sent,
      if any, and the report or the error thrown. */
  method ProcessAudioWithGemini(
    apiKey: Option<string>, audioBlob: Blob, dataUrl: Option<string>, reply: RemoteReply)
    returns (sent: Option<InlineData>, res: Result<ExpenseResponse, ServiceError>)
    ensures !HasApiKey(apiKey) ==> sent.None? && res == Err(MissingApiKey)
    ensures HasApiKey(apiKey) && dataUrl.None? ==> sent.None? && res == Err(ReadFailed)
    ensures HasApiKey(apiKey) && dataUrl.Some? ==>
      sent == Some(InlineData(MimeTypeFor(audioBlob.mimeType), Base64Payload(dataUrl.value)))
    ensures sent.Some? && reply.TransportFailure? ==> res == Err(RequestFailed)
    ensures sent.Some? && reply.Replied? && reply.text == "" ==> res == Err(EmptyReply)
    ensures sent.Some? && reply.Replied? && reply.text != "" && reply.parsed.None? ==>
      res == Err(MalformedReply)
    ensures res.Ok? <==> sent.Some? && reply.Replied? && reply.text != "" && reply.parsed.Some?
    ensures res.Ok? ==>
      var report, parsed := res.value, reply.parsed.value;
      && report.totalAmount == Total(report.expenses)
      && report.transcription == parsed.transcription
      && report.translation == parsed.translation
      && report.expenses == parsed.expenses
      && report.currency == parsed.currency
  {
    if !HasApiKey(apiKey) {
      return None, Err(MissingApiKey);
    }
    if dataUrl.None? {
      return None, Err(ReadFailed);
    }
    var payload := Base64Payload(dataUrl.value);
    sent := Some(InlineData(MimeTypeFor(audioBlob.mimeType), payload));
    match reply
    case TransportFailure =>
      res := Err(RequestFailed);
    case Replied(text, parsed) =>
      if text == "" {
        res := Err(EmptyReply);
      } else if parsed.None? {
        res := Err(MalformedReply);
      } else {
        var report := RecomputeTotal(parsed.value);
        res := Ok(report);
      }
  }
}
