/** The idempotency ledger of internal/api/idempotency.go: the table, the four
    statements the middleware issues against it, and one request served from
    beginning to end with nothing else running. */
module IdempotencyLedger {
  import opened Wrappers

  /** The unique index (workspace_id, endpoint, key). */
  datatype Key = Key(scope: string, endpoint: string, key: string)

  /** A response body is either valid JSON or it is not; only the first kind is stored. */
  datatype Body = Json(text: string) | NotJson(bytes: string)

  datatype Response = Response(status: int, body: Body)

  /** `id` names the request that inserted the row: a request inserts at most once. */
  datatype Row = Row(id: nat, fingerprint: string, response: Option<Response>)

  type Table = map<Key, Row>

  datatype Verdict = Claimed | InFlight | Mismatch | Replay(response: Response) | Unavailable

  predicate Success(response: Response) {
    200 <= response.status < 300
  }

  function Storable(response: Response): Response {
    if response.body.Json? then response else response.(body := Json("null"))
  }

  function InsertRow(t: Table, k: Key, id: nat, fingerprint: string): Table {
    if k in t then t else t[k := Row(id, fingerprint, None)]
  }

  /** What the follow-up SELECT concludes; a missing row surfaces as an error. */
  function ReadRow(t: Table, k: Key, fingerprint: string): Verdict {
    if k !in t then Unavailable
    else if t[k].fingerprint != fingerprint then Mismatch
    else match t[k].response
      case None => InFlight
      case Some(response) => Replay(response)
  }

  /** The UPDATE carries no guard on the current response. */
  function CompleteRow(t: Table, k: Key, response: Response): Table {
    if k in t then t[k := t[k].(response := Some(Storable(response)))] else t
  }

  function ReleaseRow(t: Table, k: Key): Table {
    if k in t && t[k].response.None? then t - {k} else t
  }

  /** The statement that follows the handler of a claimed request. */
  function SettleRow(t: Table, k: Key, response: Response): Table {
    if Success(response) then CompleteRow(t, k, response) else ReleaseRow(t, k)
  }

  /** What the handler did to its ResponseWriter. */
  datatype Call = WriteHeader(status: int) | Write(bytes: string)

  function RecordedStatus(calls: seq<Call>): int {
    if calls == [] then 200
    else match calls[|calls| - 1]
      case WriteHeader(status) => status
      case Write(_) => RecordedStatus(calls[..|calls| - 1])
  }

  function RecordedBytes(calls: seq<Call>): string {
    if calls == [] then ""
    else RecordedBytes(calls[..|calls| - 1]) +
         match calls[|calls| - 1] { case WriteHeader(_) => "" case Write(bytes) => bytes }
  }

  /** These three laws fix the recorded bytes: the writes, in order. */
  lemma {:induction false} BytesAreTheWrites(a: seq<Call>, b: seq<Call>, bytes: string, status: int)
    ensures RecordedBytes(a + b) == RecordedBytes(a) + RecordedBytes(b)
    ensures RecordedBytes([Write(bytes)]) == bytes && RecordedBytes([WriteHeader(status)]) == ""
  {
    if b == [] {
      assert a + b == a;
    } else {
      assert (a + b)[..|a + b| - 1] == a + b[..|b| - 1];
      BytesAreTheWrites(a, b[..|b| - 1], bytes, status);
    }
    assert [Write(bytes)][..0] == [] && [WriteHeader(status)][..0] == [];
  }

  /** And these two the status: the one last written, 200 if none was. */
  lemma {:induction false} StatusIsLastWritten(a: seq<Call>, status: int, b: seq<Call>)
    requires forall call :: call in b ==> call.Write?
    ensures RecordedStatus(a + [WriteHeader(status)] + b) == status
    ensures RecordedStatus(b) == 200
  {
    if b == [] {
      assert (a + [WriteHeader(status)] + b)[|a|] == WriteHeader(status);
    } else {
      var n := |b| - 1;
      assert b[n] in b && forall call :: call in b[..n] ==> call in b;
      assert (a + [WriteHeader(status)] + b)[..|a| + 1 + n] == a + [WriteHeader(status)] + b[..n];
      StatusIsLastWritten(a, status, b[..n]);
    }
  }

  /** The response the recorder hands to the ledger once the handler returns. */
  class BodyRecorder {
    var status: int
    var buf: string
    ghost var calls: seq<Call>

    ghost predicate Valid()
      reads this
    {
      status == RecordedStatus(calls) && buf == RecordedBytes(calls)
    }

    constructor ()
      ensures Valid() && calls == []
    {
      status, buf, calls := 200, "", [];
    }

    method RecordHeader(code: int)
      requires Valid()
      modifies this
      ensures Valid() && calls == old(calls) + [WriteHeader(code)]
      ensures status == code && buf == old(buf)
    {
      status, calls := code, calls + [WriteHeader(code)];
      assert calls[..|calls| - 1] == old(calls);
    }

    method RecordWrite(bytes: string)
      requires Valid()
      modifies this
      ensures Valid() && calls == old(calls) + [Write(bytes)]
      ensures status == old(status) && buf == old(buf) + bytes
    {
      buf, calls := buf + bytes, calls + [Write(bytes)];
      assert calls[..|calls| - 1] == old(calls);
    }
  }

  /** What a handler's calls amount to; `valid` is json.Valid. */
  function Recorded(calls: seq<Call>, valid: string -> bool): Response {
    var bytes := RecordedBytes(calls);
    Response(RecordedStatus(calls), if valid(bytes) then Json(bytes) else NotJson(bytes))
  }

  /** next(recorder, r): the handler's calls reach the recorder one by one. */
  method RunHandler(calls: seq<Call>, valid: string -> bool) returns (response: Response)
    ensures response == Recorded(calls, valid)
  {
    var recorder := new BodyRecorder();
    for i := 0 to |calls|
      invariant fresh(recorder) && recorder.Valid() && recorder.calls == calls[..i]
    {
      match calls[i] {
        case WriteHeader(status) => recorder.RecordHeader(status);
        case Write(bytes) => recorder.RecordWrite(bytes);
      }
    }
    assert calls[..|calls|] == calls;
    response := Response(recorder.status, if valid(recorder.buf) then Json(recorder.buf) else NotJson(recorder.buf));
  }

  class Ledger {
    var table: Table

    constructor ()
      ensures table == map[]
    {
      table := map[];
    }

    method TryInsert(k: Key, id: nat, fingerprint: string) returns (inserted: bool)
      modifies this
      ensures inserted <==> k !in old(table)
      ensures inserted ==> table == old(table)[k := Row(id, fingerprint, None)]
      ensures !inserted ==> table == old(table)
      ensures table == InsertRow(old(table), k, id, fingerprint)
    {
      inserted := k !in table;
      if inserted {
        table := table[k := Row(id, fingerprint, None)];
      }
    }

    method Complete(k: Key, response: Response)
      modifies this
      ensures table.Keys == old(table).Keys
      ensures k in table ==>
                && table[k].id == old(table)[k].id && table[k].fingerprint == old(table)[k].fingerprint
                && table[k].response == Some(Response(response.status,
                     if response.body.Json? then response.body else Json("null")))
      ensures forall other :: other in table && other != k ==> table[other] == old(table)[other]
      ensures table == CompleteRow(old(table), k, response)
    {
      if k in table {
        table := table[k := table[k].(response := Some(Storable(response)))];
      }
    }

    method Release(k: Key)
      modifies this
      ensures k in table <==> k in old(table) && old(table)[k].response.Some?
      ensures forall other :: other != k ==> (other in table <==> other in old(table))
      ensures forall other :: other in table ==> table[other] == old(table)[other]
      ensures table == ReleaseRow(old(table), k)
    {
      if k in table && table[k].response.None? {
        table := table - {k};
      }
    }

    method Claim(k: Key, id: nat, fingerprint: string) returns (verdict: Verdict)
      modifies this
      ensures table == InsertRow(old(table), k, id, fingerprint)
      ensures verdict.Claimed? <==> k !in old(table)
      ensures k in old(table) ==>
                var row := old(table)[k];
                && (verdict.Mismatch? <==> row.fingerprint != fingerprint)
                && (verdict.InFlight? <==> row.fingerprint == fingerprint && row.response.None?)
                && (row.fingerprint == fingerprint && row.response.Some? ==> verdict == Replay(row.response.value))
      ensures k in old(table) ==> verdict == ReadRow(old(table), k, fingerprint)
    {
      var inserted := TryInsert(k, id, fingerprint);
      if inserted {
        return Claimed;
      }
      verdict := ReadRow(table, k, fingerprint);
    }

    /** One request, uninterrupted. `ran` says whether the handler was invoked;
        `calls` is what it does with its ResponseWriter if it is. */
    method Serve(k: Key, id: nat, fingerprint: string, calls: seq<Call>, valid: string -> bool)
      returns (verdict: Verdict, ran: bool)
      modifies this
      ensures ran <==> k !in old(table)
      ensures ran ==>
                var status, bytes := RecordedStatus(calls), RecordedBytes(calls);
                var answer := Response(status, Json(if valid(bytes) then bytes else "null"));
                var stored := Row(id, fingerprint, Some(answer));
                table == if 200 <= status <= 299 then old(table)[k := stored] else old(table)
      ensures !ran ==> table == old(table)
      ensures !ran ==>
                var row := old(table)[k];
                verdict == if row.fingerprint != fingerprint then Mismatch
                           else if row.response.None? then InFlight else Replay(row.response.value)
    {
      verdict := Claim(k, id, fingerprint);
      ran := verdict.Claimed?;
      if ran {
        var handler := RunHandler(calls, valid);
        if Success(handler) {
          Complete(k, handler);
        } else {
          Release(k);
          assert table == old(table);
        }
      }
    }
  }
}
