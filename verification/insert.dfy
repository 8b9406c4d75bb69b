/** Row insertion (cloudtest.js, `insertRows`): the rows go out as one
    insertAll request, and a reply that reports per-row insertion errors is
    turned into a failure whose message joins every error message. */
module Insert {
  import opened Results
  import opened Json
  import opened Schema
  import opened Requests
  import Text
  import opened Seqs

  /** One error the store reports against a row. */
  datatype ErrorProto = ErrorProto(message: string)

  /** One entry of `insertErrors`: the errors reported against one row. */
  datatype RowErrors = RowErrors(errors: seq<ErrorProto>)

  /** The reply to insertAll; `insertErrors` is absent when every row was accepted. */
  datatype InsertAllResponse = InsertAllResponse(insertErrors: Option<seq<RowErrors>>)

  /** Why an insert failed: the request itself was rejected, or the store
      refused rows, described by the composite message. */
  datatype InsertFailure = RequestFailed(error: RemoteError) | RowsRejected(message: string)

  const LineBreak: string := "\n"

  function Messages(errors: seq<ErrorProto>): seq<string>
  {
    MapSeq(errors, (e: ErrorProto) => e.message)
  }

  /** One entry's messages, one per line: every message occurs in it, and
      when there is at least one message and none contains a line break,
      splitting at line breaks gives the messages back in order. */
  function EntryMessage(entry: RowErrors): (m: string)
    ensures forall j :: 0 <= j < |entry.errors| ==> Text.Infix(entry.errors[j].message, m)
    ensures |entry.errors| > 0 && (forall j :: 0 <= j < |entry.errors| ==> '\n' !in entry.errors[j].message) ==>
      Text.Split(m, '\n') == Messages(entry.errors)
  {
    var parts := Messages(entry.errors);
    Text.JoinContainsAll(parts, LineBreak);
    Text.SplitJoinWhenClean(parts, '\n');
    Text.Join(parts, LineBreak)
  }

  function EntryMessages(entries: seq<RowErrors>): seq<string>
  {
    MapSeq(entries, EntryMessage)
  }

  /** The failure message for an `insertErrors` list: each entry's messages
      joined by line breaks, then the entries joined by line breaks. Every
      message of every entry occurs in it; no entries give the empty message. */
  function CompositeMessage(entries: seq<RowErrors>): (m: string)
    ensures |entries| == 0 ==> m == ""
    ensures forall i, j :: 0 <= i < |entries| && 0 <= j < |entries[i].errors| ==>
      Text.Infix(entries[i].errors[j].message, m)
  {
    EveryMessageInJoin(entries);
    Text.Join(EntryMessages(entries), LineBreak)
  }

  /** Every message of every entry, entry by entry, in order. */
  function AllMessages(entries: seq<RowErrors>): seq<string>
    decreases |entries|
  {
    if |entries| == 0 then [] else Messages(entries[0].errors) + AllMessages(entries[1..])
  }

  /** Every entry reports at least one error. */
  predicate NoEmptyEntry(entries: seq<RowErrors>)
  {
    forall i :: 0 <= i < |entries| ==> |entries[i].errors| > 0
  }

  lemma {:induction false} AllMessagesNonEmpty(entries: seq<RowErrors>)
    requires |entries| > 0 && NoEmptyEntry(entries)
    ensures |AllMessages(entries)| > 0
  {
    assert |Messages(entries[0].errors)| > 0;
  }

  /** When no entry is empty, the two-level join equals one join of all the
      messages: exactly one line per message. */
  lemma {:induction false} CompositeIsFlatJoin(entries: seq<RowErrors>)
    requires NoEmptyEntry(entries)
    ensures CompositeMessage(entries) == Text.Join(AllMessages(entries), LineBreak)
    decreases |entries|
  {
    if |entries| == 1 {
      assert AllMessages(entries) == Messages(entries[0].errors) + AllMessages(entries[1..]);
      assert AllMessages(entries) == Messages(entries[0].errors);
    } else if |entries| > 1 {
      var rest := entries[1..];
      assert EntryMessages(entries)[1..] == EntryMessages(rest);
      CompositeIsFlatJoin(rest);
      AllMessagesNonEmpty(rest);
      Text.JoinAppend(Messages(entries[0].errors), AllMessages(rest), LineBreak);
    }
  }

  /** When no entry is empty and no message contains a line break, splitting
      the composite message at line breaks gives back every message, in order. */
  lemma {:induction false} CompositeMessageRecoverable(entries: seq<RowErrors>)
    requires |entries| > 0 && NoEmptyEntry(entries)
    requires forall m :: m in AllMessages(entries) ==> '\n' !in m
    ensures Text.Split(CompositeMessage(entries), '\n') == AllMessages(entries)
  {
    var all := AllMessages(entries);
    CompositeIsFlatJoin(entries);
    AllMessagesNonEmpty(entries);
    assert LineBreak == ['\n'];
    assert forall i :: 0 <= i < |all| ==> '\n' !in all[i];
    Text.SplitJoin(all, '\n');
    assert Text.Split(Text.Join(all, LineBreak), '\n') == all;
  }

  /** Every reported message occurs in the line-break join of the entry messages. */
  lemma EveryMessageInJoin(entries: seq<RowErrors>)
    ensures forall i, j :: 0 <= i < |entries| && 0 <= j < |entries[i].errors| ==>
      Text.Infix(entries[i].errors[j].message, Text.Join(EntryMessages(entries), LineBreak))
  {
    var joined := Text.Join(EntryMessages(entries), LineBreak);
    Text.JoinContainsAll(EntryMessages(entries), LineBreak);
    forall i, j | 0 <= i < |entries| && 0 <= j < |entries[i].errors|
      ensures Text.Infix(entries[i].errors[j].message, joined)
    {
      Text.InfixTransitive(entries[i].errors[j].message, EntryMessage(entries[i]), joined);
    }
  }

  /** The outcome of an insert given the store's reply. The reply fails only
      when `insertErrors` is present; an empty list is present too, and then
      the message is empty. */
  function InsertReplyOutcome(reply: Result<InsertAllResponse, RemoteError>): (o: Outcome<InsertFailure>)
    ensures o.Pass? <==> reply.Success? && reply.value.insertErrors.None?
    ensures reply.Failure? ==> o == Fail(RequestFailed(reply.error))
    ensures reply.Success? && reply.value.insertErrors.Some? ==>
      o == Fail(RowsRejected(CompositeMessage(reply.value.insertErrors.value)))
  {
    match reply
    case Failure(e) => Fail(RequestFailed(e))
    case Success(response) =>
      match response.insertErrors
      case None => Pass
      case Some(entries) => Fail(RowsRejected(CompositeMessage(entries)))
  }

  /** Two messages in one entry come out on two lines. */
  lemma TwoMessagesOneEntry()
    ensures InsertReplyOutcome(Success(InsertAllResponse(Some([RowErrors([ErrorProto("A"), ErrorProto("B")])]))))
         == Fail(RowsRejected("A\nB"))
  {
    var entry := RowErrors([ErrorProto("A"), ErrorProto("B")]);
    assert Messages(entry.errors) == ["A", "B"];
    assert EntryMessage(entry) == "A\nB";
    assert EntryMessages([entry]) == ["A\nB"];
  }

  /** An empty `insertErrors` list still fails, with the empty message. */
  lemma EmptyInsertErrorsFail()
    ensures InsertReplyOutcome(Success(InsertAllResponse(Some([])))) == Fail(RowsRejected(""))
  {
  }

  /** One insertRows call: the request sent and the outcome for the reply it got. */
  datatype InsertCall = InsertCall(request: InsertAllParams, outcome: Outcome<InsertFailure>)

  /** Sends `rows` to the configured table as one request; the store's reply
      is a parameter. The request carries exactly the rows given, in order,
      and the call succeeds exactly when the reply carries no `insertErrors`. */
  function InsertRows(cfg: TableConfig, rows: seq<Row>, reply: Result<InsertAllResponse, RemoteError>): (call: InsertCall)
    ensures InsertAllTarget(call.request) == TargetOf(cfg)
    ensures call.request.resource.kind == InsertAllKind
    ensures |call.request.resource.rows| == |rows|
    ensures UnwrapRows(call.request.resource.rows) == rows
    ensures call.outcome.Pass? <==> reply.Success? && reply.value.insertErrors.None?
    ensures reply.Failure? ==> call.outcome == Fail(RequestFailed(reply.error))
    ensures reply.Success? && reply.value.insertErrors.Some? ==>
      call.outcome == Fail(RowsRejected(CompositeMessage(reply.value.insertErrors.value)))
  {
    InsertCall(InsertAllRequest(cfg, rows), InsertReplyOutcome(reply))
  }
}
