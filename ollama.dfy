/**
 * The client for the local Ollama server: the model directory query
 * (`fetchAvailableModels`) and the streaming chat request (`streamChat`)
 * with its newline-delimited JSON read loop.
 *
 * The network is replaced by its observable outcome: the HTTP status, the
 * parsed directory body, and the sequence of reads the body reader returns.
 * `JSON.parse` is the parameter `parse`, a partial oracle from a line of text
 * to a response record.
 */
module Ollama {
  import opened Wrappers
  import opened Text

  datatype Role = User | Assistant | System

  /** One chat turn as the server sees it: `{role, content}`. */
  datatype OllamaMessage = OllamaMessage(role: Role, content: string)

  /** One decoded line of the chat stream. `message` may be absent in a record. */
  datatype OllamaResponse = OllamaResponse(
    model: string,
    createdAt: string,
    message: Option<OllamaMessage>,
    done: bool)

  datatype ModelDetails = ModelDetails(
    format: string,
    family: string,
    families: seq<string>,
    parameterSize: string,
    quantizationLevel: string)

  datatype OllamaModel = OllamaModel(
    name: string,
    modifiedAt: string,
    size: int,
    digest: string,
    details: ModelDetails)

  /** The JSON body of the directory endpoint; its `models` field may be missing. */
  datatype TagsBody = TagsBody(models: Option<seq<OllamaModel>>)

  /**
   * What `fetch('/api/api/tags')` and `response.json()` produce: no response
   * at all, or a status and a body that is `None` when it is not JSON.
   */
  datatype DirectoryResponse =
    | DirectoryUnreachable
    | DirectoryReply(status: int, body: Option<TagsBody>)

  /** The errors `fetchAvailableModels` rethrows to its caller. */
  datatype FetchError = NetworkError | HttpError(status: int) | BadJson

  /** `response.ok`: the status is in the 2xx range. */
  predicate IsOk(status: int) {
    200 <= status <= 299
  }

  /**
   * `fetchAvailableModels`: a non-ok status throws; otherwise the body's
   * `models`, or `[]` when the field is missing.
   */
  function FetchAvailableModels(response: DirectoryResponse): (r: Result<seq<OllamaModel>, FetchError>)
    ensures response.DirectoryReply? && !IsOk(response.status) ==> r == Err(HttpError(response.status))
    ensures r.Ok? <==> response.DirectoryReply? && IsOk(response.status) && response.body.Some?
    ensures r.Ok? && response.body.value.models.Some? ==> r.value == response.body.value.models.value
    ensures r.Ok? && response.body.value.models.None? ==> r.value == []
  {
    match response
    case DirectoryUnreachable => Err(NetworkError)
    case DirectoryReply(status, body) =>
      if !IsOk(status) then Err(HttpError(status))
      else if body.None? then Err(BadJson)
      else match body.value.models
        case Some(models) => Ok(models)
        case None => Ok([])
  }

  /** The body `JSON.stringify` serialises for `POST /api/chat`. */
  datatype ChatRequest = ChatRequest(model: string, messages: seq<OllamaMessage>, stream: bool)

  /** One `reader.read()`: a chunk of already-decoded text, or a rejected read. */
  datatype ReadStep = Data(chunk: string) | ReadFailure

  /**
   * What `fetch` of the chat endpoint produces: no response, or a status and
   * a body whose reader yields `steps` and then reports `done`
   * (`None` when `response.body` is missing).
   */
  datatype ChatResponse =
    | ChatUnreachable
    | ChatReply(status: int, body: Option<seq<ReadStep>>)

  /** Why `streamChat` threw. */
  datatype StreamError = ChatNetworkError | ApiError(status: int) | NoBodyStream | StreamInterrupted

  datatype StreamOutcome = Completed | Failed(error: StreamError)

  /** The records handed to the callback, in order, and how the call ended. */
  datatype Streamed = Streamed(delivered: seq<OllamaResponse>, outcome: StreamOutcome)

  type Parser = string -> Option<OllamaResponse>

  // ---------------------------------------------------------------------
  // Framing of one chunk

  /**
   * `lines.filter(line => line.trim() !== "")`; by `TrimEmptyIffBlank`,
   * `line.trim() !== ""` holds exactly when the line is not blank.
   */
  function NonBlank(lines: seq<string>): (r: seq<string>)
    ensures |r| <= |lines|
  {
    if lines == [] then []
    else
      if !IsBlank(lines[0]) then [lines[0]] + NonBlank(lines[1..])
      else NonBlank(lines[1..])
  }

  /** The filter keeps exactly the non-blank lines. */
  lemma {:induction false} NonBlankMembers(lines: seq<string>, l: string)
    ensures l in NonBlank(lines) <==> l in lines && !IsBlank(l)
  {
    if lines != [] {
      NonBlankMembers(lines[1..], l);
    }
  }

  /** The lines one chunk contributes: `chunk.split("\n")` without blank lines. */
  function ChunkLines(chunk: string): (r: seq<string>)
  {
    NonBlank(Split(chunk, '\n'))
  }

  /** The records the callback receives for `lines`: each parsed line, in order. */
  function LineRecords(parse: Parser, lines: seq<string>): seq<OllamaResponse>
  {
    if lines == [] then []
    else
      match parse(lines[0])
      case Some(record) => [record] + LineRecords(parse, lines[1..])
      case None => LineRecords(parse, lines[1..])
  }

  /** The records delivered for one chunk. */
  function ChunkRecords(parse: Parser, chunk: string): seq<OllamaResponse>
  {
    LineRecords(parse, ChunkLines(chunk))
  }

  /** `parse` as the framing of one chunk into its records. */
  function Framing(parse: Parser): string -> seq<OllamaResponse>
  {
    (chunk: string) => ChunkRecords(parse, chunk)
  }

  /** The outputs of `frame` for each chunk, concatenated in read order. */
  function FlatMap<T>(frame: string -> seq<T>, chunks: seq<string>): seq<T>
  {
    if chunks == [] then []
    else frame(chunks[0]) + FlatMap(frame, chunks[1..])
  }

  /** The records delivered for a sequence of chunks, each chunk framed on its own. */
  function StreamRecords(parse: Parser, chunks: seq<string>): seq<OllamaResponse>
  {
    FlatMap(Framing(parse), chunks)
  }

  /** The chunks read before the first rejected read. */
  function ReadsBeforeFailure(steps: seq<ReadStep>): seq<string>
  {
    if steps == [] then []
    else match steps[0]
      case Data(chunk) => [chunk] + ReadsBeforeFailure(steps[1..])
      case ReadFailure => []
  }

  /** Some read was rejected. */
  predicate Interrupted(steps: seq<ReadStep>) {
    exists k :: 0 <= k < |steps| && steps[k] == ReadFailure
  }

  /** What one call of `streamChat` delivers and how it ends. */
  function Transfer(parse: Parser, response: ChatResponse): Streamed
  {
    match response
    case ChatUnreachable => Streamed([], Failed(ChatNetworkError))
    case ChatReply(status, body) =>
      if !IsOk(status) then Streamed([], Failed(ApiError(status)))
      else if body.None? then Streamed([], Failed(NoBodyStream))
      else
        var steps := body.value;
        Streamed(StreamRecords(parse, ReadsBeforeFailure(steps)),
                 if Interrupted(steps) then Failed(StreamInterrupted) else Completed)
  }

  // ---------------------------------------------------------------------
  // The read loop

  /**
   * `streamChat(model, messages, onResponse)`: sends `request`, and returns the
   * records passed to `onResponse`, in the order they were passed, with the
   * way the call ended.
   */
  method StreamChat(model: string, messages: seq<OllamaMessage>, parse: Parser, response: ChatResponse)
    returns (request: ChatRequest, delivered: seq<OllamaResponse>, outcome: StreamOutcome)
    ensures request == ChatRequest(model, messages, true)
    ensures Streamed(delivered, outcome) == Transfer(parse, response)
    ensures outcome.Completed? ==> response.ChatReply? && IsOk(response.status)
    ensures response.ChatReply? && !IsOk(response.status) ==> delivered == [] && outcome == Failed(ApiError(response.status))
  {
    request := ChatRequest(model, messages, true);
    delivered := [];
    if response.ChatUnreachable? {
      outcome := Failed(ChatNetworkError);
      return;
    }
    if !IsOk(response.status) {
      outcome := Failed(ApiError(response.status));
      return;
    }
    if response.body.None? {
      outcome := Failed(NoBodyStream);
      return;
    }
    var reader := response.body.value;
    var i := 0;
    while true
      invariant 0 <= i <= |reader|
      invariant forall k :: 0 <= k < i ==> reader[k].Data?
      invariant delivered == StreamRecords(parse, ReadsBeforeFailure(reader[..i]))
      decreases |reader| - i
    {
      if i == |reader| {
        break;
      }
      if reader[i].ReadFailure? {
        ReadsStopAtFailure(reader, i);
        outcome := Failed(StreamInterrupted);
        return;
      }
      var records := DeliverLines(parse, ChunkLines(reader[i].chunk));
      delivered := delivered + records;
      ReadsExtend(reader, i);
      StreamRecordsAppend(parse, ReadsBeforeFailure(reader[..i]), [reader[i].chunk]);
      StreamRecordsOne(parse, reader[i].chunk);
      i := i + 1;
    }
    assert reader[..i] == reader;
    outcome := Completed;
  }

  /**
   * The inner `for (const line of lines)` loop: the records passed to the
   * callback for one chunk's lines. A line that does not parse is logged
   * and skipped.
   */
  method DeliverLines(parse: Parser, lines: seq<string>) returns (records: seq<OllamaResponse>)
    ensures records == LineRecords(parse, lines)
  {
    records := [];
    for j := 0 to |lines|
      invariant records == LineRecords(parse, lines[..j])
    {
      LineRecordsAppend(parse, lines[..j], [lines[j]]);
      assert lines[..j + 1] == lines[..j] + [lines[j]];
      match parse(lines[j])
      case Some(record) =>
        records := records + [record];
      case None =>
    }
    assert lines[..|lines|] == lines;
  }

  lemma {:induction false} ReadsAllData(steps: seq<ReadStep>)
    requires forall k :: 0 <= k < |steps| ==> steps[k].Data?
    ensures |ReadsBeforeFailure(steps)| == |steps|
    ensures forall k :: 0 <= k < |steps| ==> ReadsBeforeFailure(steps)[k] == steps[k].chunk
    ensures !Interrupted(steps)
  {
    if steps != [] {
      ReadsAllData(steps[1..]);
    }
  }

  lemma {:induction false} ReadsAppend(a: seq<ReadStep>, b: seq<ReadStep>)
    requires forall k :: 0 <= k < |a| ==> a[k].Data?
    ensures ReadsBeforeFailure(a + b) == ReadsBeforeFailure(a) + ReadsBeforeFailure(b)
  {
    if a != [] {
      assert (a + b)[1..] == a[1..] + b;
      ReadsAppend(a[1..], b);
    } else {
      assert a + b == b;
    }
  }

  lemma ReadsExtend(reader: seq<ReadStep>, i: nat)
    requires i < |reader| && reader[i].Data?
    requires forall k :: 0 <= k < i ==> reader[k].Data?
    ensures ReadsBeforeFailure(reader[..i + 1]) == ReadsBeforeFailure(reader[..i]) + [reader[i].chunk]
  {
    assert reader[..i + 1] == reader[..i] + [reader[i]];
    ReadsAppend(reader[..i], [reader[i]]);
  }

  lemma ReadsStopAtFailure(reader: seq<ReadStep>, i: nat)
    requires i < |reader| && reader[i] == ReadFailure
    requires forall k :: 0 <= k < i ==> reader[k].Data?
    ensures ReadsBeforeFailure(reader) == ReadsBeforeFailure(reader[..i])
    ensures Interrupted(reader)
  {
    assert reader == reader[..i] + reader[i..];
    ReadsAppend(reader[..i], reader[i..]);
  }

  // ---------------------------------------------------------------------
  // Properties of the framing

  /** Records of consecutive runs of lines are the records of each run, in order. */
  lemma {:induction false} LineRecordsAppend(parse: Parser, a: seq<string>, b: seq<string>)
    ensures LineRecords(parse, a + b) == LineRecords(parse, a) + LineRecords(parse, b)
  {
    if a == [] {
      assert a + b == b;
    } else {
      assert (a + b)[1..] == a[1..] + b;
      LineRecordsAppend(parse, a[1..], b);
    }
  }

  /**
   * No state carries from one read to the next: the records of a sequence of
   * chunks are the records of each chunk, concatenated.
   */
  lemma {:induction false} StreamRecordsAppend(parse: Parser, a: seq<string>, b: seq<string>)
    ensures StreamRecords(parse, a + b) == StreamRecords(parse, a) + StreamRecords(parse, b)
  {
    FlatMapAppend(Framing(parse), a, b);
  }

  /** One read delivers that chunk's records. */
  lemma StreamRecordsOne(parse: Parser, chunk: string)
    ensures StreamRecords(parse, [chunk]) == ChunkRecords(parse, chunk)
  {
    assert [chunk][1..] == [];
    assert FlatMap(Framing(parse), [chunk]) == Framing(parse)(chunk) + FlatMap(Framing(parse), []);
  }

  /** Framing reads one at a time keeps no state: the output of `a + b` is that of `a`, then of `b`. */
  lemma {:induction false} FlatMapAppend<T>(frame: string -> seq<T>, a: seq<string>, b: seq<string>)
    ensures FlatMap(frame, a + b) == FlatMap(frame, a) + FlatMap(frame, b)
  {
    if a == [] {
      assert a + b == b;
    } else {
      assert (a + b)[1..] == a[1..] + b;
      FlatMapAppend(frame, a[1..], b);
    }
  }

  /**
   * At most one record per non-blank line, and exactly one per line exactly
   * when every line parses.
   */
  lemma {:induction false} LineRecordsCount(parse: Parser, lines: seq<string>)
    ensures |LineRecords(parse, lines)| <= |lines|
    ensures |LineRecords(parse, lines)| == |lines| <==> forall k :: 0 <= k < |lines| ==> parse(lines[k]).Some?
  {
    if lines != [] {
      LineRecordsCount(parse, lines[1..]);
      if parse(lines[0]).Some? {
        forall k | 1 <= k < |lines| ensures lines[k] == lines[1..][k - 1] { }
      }
    }
  }

  /** Exactly the parsed lines are delivered, each as the record it parses to. */
  lemma {:induction false} LineRecordsMembers(parse: Parser, lines: seq<string>, record: OllamaResponse)
    ensures record in LineRecords(parse, lines) <==> exists k :: 0 <= k < |lines| && parse(lines[k]) == Some(record)
  {
    if lines != [] {
      LineRecordsMembers(parse, lines[1..], record);
      if exists k :: 0 <= k < |lines| && parse(lines[k]) == Some(record) {
        var k :| 0 <= k < |lines| && parse(lines[k]) == Some(record);
        if k > 0 {
          assert lines[1..][k - 1] == lines[k];
        }
      }
      if exists k :: 0 <= k < |lines[1..]| && parse(lines[1..][k]) == Some(record) {
        var k :| 0 <= k < |lines[1..]| && parse(lines[1..][k]) == Some(record);
        assert lines[k + 1] == lines[1..][k];
      }
    }
  }

  /**
   * A line that fails to parse is skipped, and everything around it is still
   * delivered.
   */
  lemma MalformedLineSkipped(parse: Parser, before: seq<string>, bad: string, after: seq<string>)
    requires parse(bad).None?
    ensures LineRecords(parse, before + [bad] + after) == LineRecords(parse, before) + LineRecords(parse, after)
  {
    LineRecordsAppend(parse, before + [bad], after);
    LineRecordsAppend(parse, before, [bad]);
  }

  /**
   * Blank lines never reach the parser: two parsers that agree on every
   * non-blank line deliver the same records for any chunk sequence.
   */
  lemma {:induction false} BlankLinesNeverParsed(p1: Parser, p2: Parser, chunks: seq<string>)
    requires forall s :: !IsBlank(s) ==> p1(s) == p2(s)
    ensures StreamRecords(p1, chunks) == StreamRecords(p2, chunks)
  {
    if chunks != [] {
      BlankLinesNeverParsed(p1, p2, chunks[1..]);
      var lines := ChunkLines(chunks[0]);
      forall k | 0 <= k < |lines| ensures !IsBlank(lines[k]) {
        NonBlankMembers(Split(chunks[0], '\n'), lines[k]);
      }
      NonBlankRecordsAgree(p1, p2, lines);
    }
  }

  lemma {:induction false} NonBlankRecordsAgree(p1: Parser, p2: Parser, lines: seq<string>)
    requires forall s :: !IsBlank(s) ==> p1(s) == p2(s)
    requires forall k :: 0 <= k < |lines| ==> !IsBlank(lines[k])
    ensures LineRecords(p1, lines) == LineRecords(p2, lines)
  {
    if lines != [] {
      NonBlankRecordsAgree(p1, p2, lines[1..]);
    }
  }

  /**
   * Every read's records are delivered, in place, whatever came before it —
   * in particular a record with `done: true` in an earlier read does not end
   * the loop.
   */
  lemma {:induction false} EveryReadDelivered(parse: Parser, chunks: seq<string>, j: nat)
    requires j < |chunks|
    ensures StreamRecords(parse, chunks)
         == StreamRecords(parse, chunks[..j]) + ChunkRecords(parse, chunks[j]) + StreamRecords(parse, chunks[j + 1..])
  {
    FlatMapAt(Framing(parse), chunks, j);
  }

  /** The output for read `j` sits between the output of the reads before it and after it. */
  lemma {:induction false} FlatMapAt<T>(frame: string -> seq<T>, chunks: seq<string>, j: nat)
    requires j < |chunks|
    ensures FlatMap(frame, chunks) == FlatMap(frame, chunks[..j]) + frame(chunks[j]) + FlatMap(frame, chunks[j + 1..])
  {
    if j == 0 {
      assert chunks[..0] == [];
    } else {
      var tail := chunks[1..];
      FlatMapAt(frame, tail, j - 1);
      assert tail[..j - 1] == chunks[..j][1..];
      assert tail[j - 1] == chunks[j];
      assert tail[j..] == chunks[j + 1..];
    }
  }

  /**
   * A record split across two reads is not reassembled: each fragment goes to
   * the parser on its own, so a record whose halves are not JSON is lost,
   * although the same text in one read is delivered.
   */
  lemma SplitRecordLost(parse: Parser, a: string, b: string, record: OllamaResponse)
    requires '\n' !in a && '\n' !in b
    requires !IsBlank(a) && !IsBlank(b)
    requires parse(a).None? && parse(b).None? && parse(a + b) == Some(record)
    ensures StreamRecords(parse, [a, b]) == []
    ensures StreamRecords(parse, [a + b]) == [record]
  {
    SplitNoSeparator(a, '\n');
    SplitNoSeparator(b, '\n');
    SplitNoSeparator(a + b, '\n');
    assert !IsBlank(a + b) by {
      var k :| 0 <= k < |a| && !IsWhitespace(a[k]);
      assert (a + b)[k] == a[k];
    }
    assert [a][1..] == [] && [b][1..] == [] && [a + b][1..] == [];
    assert ChunkLines(a) == [a] && ChunkLines(b) == [b] && ChunkLines(a + b) == [a + b];
    assert LineRecords(parse, [a]) == [];
    assert LineRecords(parse, [b]) == [];
    assert [a, b] == [a] + [b];
    StreamRecordsAppend(parse, [a], [b]);
    StreamRecordsOne(parse, a);
    StreamRecordsOne(parse, b);
    StreamRecordsOne(parse, a + b);
  }
}
