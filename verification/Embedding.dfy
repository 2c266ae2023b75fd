/**
 The Ollama embedding client (pkg/embedding/ollama.go): texts over the limit are
 cut at line ends, the pieces are sent in requests of bounded size, a context
 overflow halves the limit and starts again, and the vectors of one text's
 pieces are averaged. Strings stand for bytes and floats are real numbers.
 */
module Embedding {
  import opened Wrappers
  import opened Sequences

  type Vector = seq<real>

  datatype EmbedError = ContextOverflow | RequestFailed

  /** What one HTTP request comes back with. */
  datatype Answer = Vectors(vectors: seq<Vector>) | Refused(error: EmbedError)

  /**
   What the outside decides: the answer to each request, numbered from zero, and
   how much room the list of vectors has beyond its end after so many requests.
   */
  datatype Server = Server(answer: (nat, seq<string>) -> Answer, room: nat -> nat)

  const DEFAULT_MAX_INPUT_CHARS: int := 16000
  const MIN_ADAPTIVE_MAX_INPUT_CHARS: int := 512
  const MAX_ADAPTIVE_EMBED_ATTEMPTS: nat := 5

  // --- splitTextAtLines ---

  /** strings.LastIndexByte(s, '\n'). */
  function LastNewline(s: string): (i: int)
    ensures -1 <= i < |s|
  {
    if s == "" then -1
    else if s[|s| - 1] == '\n' then |s| - 1
    else LastNewline(s[..|s| - 1])
  }

  lemma {:induction false} LastNewlineIsLast(s: string)
    ensures var i := LastNewline(s);
            && (i >= 0 ==> s[i] == '\n')
            && forall k :: i < k < |s| ==> s[k] != '\n'
  {
    if s != "" && s[|s| - 1] != '\n' {
      LastNewlineIsLast(s[..|s| - 1]);
    }
  }

  /** Where the first piece of a text longer than the limit ends. */
  function CutPoint(text: string, limit: nat): (at: nat)
    requires 0 < limit < |text|
    ensures 0 < at <= limit
  {
    var nl := LastNewline(text[..limit]);
    if nl >= 0 then nl + 1 else limit
  }

  function Pieces(text: string, limit: int): (parts: seq<string>)
    ensures |parts| >= 1
    decreases |text|
  {
    if limit <= 0 || |text| <= limit then [text]
    else
      var at := CutPoint(text, limit);
      [text[..at]] + Pieces(text[at..], limit)
  }

  method SplitTextAtLines(text: string, maxChars: int) returns (parts: seq<string>)
    ensures parts == Pieces(text, maxChars)
  {
    if text == "" {
      return [""];
    }
    if maxChars <= 0 || |text| <= maxChars {
      return [text];
    }
    parts := [];
    var start := 0;
    ghost var whole := Pieces(text, maxChars);
    assert text[0..] == text && [] + whole == whole;
    while start < |text|
      invariant 0 <= start < |text|
      invariant Remain(whole, parts, Pieces(text[start..], maxChars))
    {
      if |text| - start <= maxChars {
        parts := parts + [text[start..]];
        break;
      }
      var windowEnd := start + maxChars;
      assert text[start..][..maxChars] == text[start..windowEnd];
      var nl := LastNewline(text[start..windowEnd]);
      if nl >= 0 {
        var splitAt := start + nl + 1;
        TakePiece(whole, parts, text, start, splitAt, maxChars);
        parts := parts + [text[start..splitAt]];
        start := splitAt;
        continue;
      }
      TakePiece(whole, parts, text, start, windowEnd, maxChars);
      parts := parts + [text[start..windowEnd]];
      start := windowEnd;
    }
  }

  /** All pieces are the ones cut so far, then the rest. */
  ghost predicate Remain(whole: seq<string>, parts: seq<string>, rest: seq<string>) {
    whole == parts + rest
  }

  lemma TakePiece(whole: seq<string>, parts: seq<string>, text: string, start: nat, end: nat, limit: nat)
    requires start <= |text| && 0 < limit < |text| - start
    requires end == start + CutPoint(text[start..], limit) && Remain(whole, parts, Pieces(text[start..], limit))
    ensures end < |text| && Remain(whole, parts + [text[start..end]], Pieces(text[end..], limit))
  {
    assert text[start..][..end - start] == text[start..end];
    assert text[start..][end - start..] == text[end..];
    ConcatAssociates(parts, [text[start..end]], Pieces(text[end..], limit));
  }

  function Concat(parts: seq<string>): string {
    if parts == [] then "" else parts[0] + Concat(parts[1..])
  }

  /** The pieces are the text: nothing is lost, none is too long, and none is empty unless the text is. */
  lemma {:induction false} PiecesPartition(text: string, limit: int)
    requires limit > 0
    ensures Concat(Pieces(text, limit)) == text
    ensures forall k :: 0 <= k < |Pieces(text, limit)| ==> |Pieces(text, limit)[k]| <= limit
    ensures text != "" ==> forall k :: 0 <= k < |Pieces(text, limit)| ==> Pieces(text, limit)[k] != ""
    decreases |text|
  {
    if |text| > limit {
      var at := CutPoint(text, limit);
      PiecesPartition(text[at..], limit);
      assert Pieces(text, limit)[1..] == Pieces(text[at..], limit);
      assert text == text[..at] + text[at..];
    }
  }

  /**
   Every cut is at the last line end that fits, and inside a line only when the
   whole window has none: a piece with a successor ends in a line feed and the
   next line would not have fitted, or it is exactly as long as the limit. And
   nothing is cut that would have fitted as it is.
   */
  lemma {:induction false} CutsAtLineEnds(text: string, limit: int, k: nat)
    requires limit > 0 && k + 1 < |Pieces(text, limit)|
    ensures var p := Pieces(text, limit)[k]; var q := Pieces(text, limit)[k + 1];
            || (p != "" && p[|p| - 1] == '\n' && (|p| + |q| <= limit ==> '\n' !in q))
            || (|p| == limit && '\n' !in p)
    ensures |Concat(Pieces(text, limit)[k..])| > limit
    decreases |text|
  {
    if k == 0 {
      FirstCutAtLineEnd(text, limit);
      PiecesPartition(text, limit);
      assert Pieces(text, limit)[0..] == Pieces(text, limit);
    } else {
      CutsAtLineEnds(text[CutPoint(text, limit)..], limit, k - 1);
      assert Pieces(text, limit)[k..] == Pieces(text[CutPoint(text, limit)..], limit)[k - 1..];
    }
  }

  lemma FirstCutAtLineEnd(text: string, limit: int)
    requires limit > 0 && |Pieces(text, limit)| > 1
    ensures var p := Pieces(text, limit)[0]; var q := Pieces(text, limit)[1];
            || (p != "" && p[|p| - 1] == '\n' && (|p| + |q| <= limit ==> '\n' !in q))
            || (|p| == limit && '\n' !in p)
  {
    var at := CutPoint(text, limit);
    var window := text[..limit];
    var q := Pieces(text[at..], limit)[0];
    LastNewlineIsLast(window);
    FirstPieceIsPrefix(text[at..], limit);
    assert forall i :: 0 <= i < |q| ==> q[i] == text[at + i];
    assert forall i :: 0 <= i < limit ==> window[i] == text[i];
  }

  lemma FirstPieceIsPrefix(text: string, limit: int)
    ensures Pieces(text, limit)[0] <= text
  {
  }

  // --- embedFlat ---

  function TotalChars(texts: seq<string>): nat {
    if texts == [] then 0 else TotalChars(texts[..|texts| - 1]) + |texts[|texts| - 1]|
  }

  /** The requests for the texts to come when current is already waiting to be sent. */
  function BatchesFrom(current: seq<string>, texts: seq<string>, limit: int): (batches: seq<seq<string>>)
    decreases |texts|
  {
    if texts == [] then (if current == [] then [] else [current])
    else if current != [] && TotalChars(current) + |texts[0]| > limit then
      [current] + BatchesFrom([texts[0]], texts[1..], limit)
    else BatchesFrom(current + [texts[0]], texts[1..], limit)
  }

  function Batches(texts: seq<string>, limit: int): seq<seq<string>> {
    BatchesFrom([], texts, limit)
  }

  datatype Gathered =
    | Gathered(vectors: seq<Vector>, sent: seq<seq<string>>)
    | Broken(error: EmbedError, sent: seq<seq<string>>)

  /** Sending the requests in order, up to the first refusal. */
  function Gather(server: Server, calls: nat, batches: seq<seq<string>>): Gathered
    decreases |batches|
  {
    if batches == [] then Gathered([], [])
    else
      match server.answer(calls, batches[0])
      case Refused(error) => Broken(error, [batches[0]])
      case Vectors(vs) =>
        match Gather(server, calls + 1, batches[1..])
        case Broken(error, sent) => Broken(error, [batches[0]] + sent)
        case Gathered(more, sent) => Gathered(vs + more, [batches[0]] + sent)
  }

  function FlattenBatches(batches: seq<seq<string>>): seq<string> {
    if batches == [] then [] else batches[0] + FlattenBatches(batches[1..])
  }

  lemma TotalCharsAppend(texts: seq<string>, t: string)
    ensures TotalChars(texts + [t]) == TotalChars(texts) + |t|
  {
    assert (texts + [t])[..|texts|] == texts;
  }

  lemma FlattenOneMore(batch: seq<string>, more: seq<seq<string>>)
    ensures FlattenBatches([batch] + more) == batch + FlattenBatches(more)
  {
    assert ([batch] + more)[1..] == more;
  }

  lemma {:induction false} BatchesFromPartition(current: seq<string>, texts: seq<string>, limit: int)
    requires forall k :: 0 <= k < |texts| ==> |texts[k]| <= limit
    requires current != [] ==> TotalChars(current) <= limit
    ensures var bs := BatchesFrom(current, texts, limit);
            && FlattenBatches(bs) == current + texts
            && (forall b :: b in bs ==> b != [] && TotalChars(b) <= limit)
    decreases |texts|
  {
    if texts == [] {
      if current != [] {
        FlattenOneMore(current, []);
        assert [current] + [] == [current];
      }
    } else {
      var t, rest := texts[0], texts[1..];
      assert texts == [t] + rest;
      TotalCharsAppend(current, t);
      TotalCharsAppend([], t);
      assert [] + [t] == [t];
      if current != [] && TotalChars(current) + |t| > limit {
        BatchesFromPartition([t], rest, limit);
        FlattenOneMore(current, BatchesFrom([t], rest, limit));
      } else {
        BatchesFromPartition(current + [t], rest, limit);
        ConcatAssociates(current, [t], rest);
      }
    }
  }

  /** The requests carry the pieces in order, every one of them once, and none is over the limit. */
  lemma BatchesPartition(texts: seq<string>, limit: int)
    requires forall k :: 0 <= k < |texts| ==> |texts[k]| <= limit
    ensures FlattenBatches(Batches(texts, limit)) == texts
    ensures forall b :: b in Batches(texts, limit) ==> b != [] && TotalChars(b) <= limit
  {
    BatchesFromPartition([], texts, limit);
    assert [] + texts == texts;
  }

  ghost predicate AreFull(requests: seq<seq<string>>, limit: int) {
    && (forall k :: 0 <= k < |requests| ==> requests[k] != [])
    && forall k :: 0 <= k && k + 1 < |requests| ==> TotalChars(requests[k]) + |requests[k + 1][0]| > limit
  }

  lemma {:induction false} BatchesFromFull(current: seq<string>, texts: seq<string>, limit: int)
    ensures var bs := BatchesFrom(current, texts, limit);
            (bs != [] ==> current <= bs[0]) && (current + texts != [] ==> bs != []) && AreFull(bs, limit)
    decreases |texts|
  {
    if texts != [] {
      if current != [] && TotalChars(current) + |texts[0]| > limit {
        BatchesFromFull([texts[0]], texts[1..], limit);
        var more := BatchesFrom([texts[0]], texts[1..], limit);
        assert more[0][0] == texts[0];
      } else {
        BatchesFromFull(current + [texts[0]], texts[1..], limit);
        assert current <= current + [texts[0]];
      }
    }
  }

  /** No request is cut short: the first text of the next one would have taken it over the limit. */
  lemma BatchesAreFull(texts: seq<string>, limit: int)
    ensures AreFull(Batches(texts, limit), limit)
  {
    BatchesFromFull([], texts, limit);
  }

  /** The vectors that these requests came back with, one request after the other. */
  function Answers(server: Server, calls: nat, requests: seq<seq<string>>): seq<Vector>
    decreases |requests|
  {
    if requests == [] then []
    else AnswerTo(server, calls, requests[0]) + Answers(server, calls + 1, requests[1..])
  }

  function AnswerTo(server: Server, call: nat, request: seq<string>): seq<Vector> {
    match server.answer(call, request)
    case Vectors(vs) => vs
    case Refused(_) => []
  }

  /** Each of these requests that was not refused came back with one vector of this dimension for every input. */
  ghost predicate OneVectorPerInput(server: Server, calls: nat, requests: seq<seq<string>>, dimension: nat)
    decreases |requests|
  {
    requests != [] ==>
      && (server.answer(calls, requests[0]).Vectors? ==>
            && |AnswerTo(server, calls, requests[0])| == |requests[0]|
            && OfDimension(AnswerTo(server, calls, requests[0]), dimension))
      && OneVectorPerInput(server, calls + 1, requests[1..], dimension)
  }

  ghost predicate OfDimension(vectors: seq<Vector>, dimension: nat) {
    forall k :: 0 <= k < |vectors| ==> |vectors[k]| == dimension
  }

  lemma {:induction false} GatherIsAnswers(server: Server, calls: nat, batches: seq<seq<string>>)
    ensures var g := Gather(server, calls, batches);
            g.Gathered? ==> g.sent == batches && g.vectors == Answers(server, calls, batches)
    decreases |batches|
  {
    if batches != [] {
      GatherIsAnswers(server, calls + 1, batches[1..]);
    }
  }

  /** Only the last of these requests may have been refused. */
  ghost predicate UpToRefusal(server: Server, calls: nat, requests: seq<seq<string>>) {
    forall k :: 0 <= k && k + 1 < |requests| ==> server.answer(calls + k, requests[k]).Vectors?
  }

  /** How the last of these requests was answered. */
  function LastAnswer(server: Server, calls: nat, requests: seq<seq<string>>): Answer
    requires requests != []
  {
    server.answer(calls + |requests| - 1, requests[|requests| - 1])
  }

  lemma {:induction false} GatherSendsInOrder(server: Server, calls: nat, batches: seq<seq<string>>)
    requires batches != []
    ensures var g := Gather(server, calls, batches);
            g.sent != [] && g.sent <= batches && (g.Gathered? ==> g.sent == batches)
    decreases |batches|
  {
    assert batches == [batches[0]] + batches[1..];
    if server.answer(calls, batches[0]).Vectors? && |batches| > 1 {
      GatherSendsInOrder(server, calls + 1, batches[1..]);
    }
  }

  /** Only the last request sent may have been refused, and then that is the error. */
  lemma {:induction false} GatherUpToRefusal(server: Server, calls: nat, batches: seq<seq<string>>)
    requires batches != []
    ensures var g := Gather(server, calls, batches);
            && g.sent != [] && UpToRefusal(server, calls, g.sent)
            && LastAnswer(server, calls, g.sent).Vectors? == g.Gathered?
            && (g.Broken? ==> LastAnswer(server, calls, g.sent) == Refused(g.error))
    decreases |batches|
  {
    if server.answer(calls, batches[0]).Vectors? {
      if |batches| == 1 {
        assert batches[1..] == [] && Gather(server, calls, batches).sent == [batches[0]];
      } else {
        GatherUpToRefusal(server, calls + 1, batches[1..]);
        OneRequestEarlier(server, calls, batches[0], Gather(server, calls + 1, batches[1..]).sent);
      }
    }
  }

  lemma OneRequestEarlier(server: Server, calls: nat, first: seq<string>, rest: seq<seq<string>>)
    requires rest != [] && server.answer(calls, first).Vectors? && UpToRefusal(server, calls + 1, rest)
    ensures UpToRefusal(server, calls, [first] + rest)
    ensures LastAnswer(server, calls, [first] + rest) == LastAnswer(server, calls + 1, rest)
  {
    var all := [first] + rest;
    forall k | 0 <= k && k + 1 < |all| ensures server.answer(calls + k, all[k]).Vectors? {
      if k > 0 {
        assert all[k] == rest[k - 1] && server.answer(calls + 1 + (k - 1), rest[k - 1]).Vectors?;
      }
    }
    assert all[|all| - 1] == rest[|rest| - 1];
  }

  lemma {:induction false} GatherSize(server: Server, calls: nat, batches: seq<seq<string>>, dimension: nat)
    requires OneVectorPerInput(server, calls, batches, dimension)
    ensures var g := Gather(server, calls, batches);
            g.Gathered? ==> |g.vectors| == |FlattenBatches(batches)| && OfDimension(g.vectors, dimension)
    decreases |batches|
  {
    if batches != [] {
      GatherSize(server, calls + 1, batches[1..], dimension);
    }
  }

  // --- averageVectors ---

  datatype Averaged = Average(vector: Vector) | IndexPanic

  /** The sum of component j over the vectors that have one. */
  function ComponentSum(vectors: seq<Vector>, j: nat): real {
    if vectors == [] then 0.0
    else
      var last := vectors[|vectors| - 1];
      ComponentSum(vectors[..|vectors| - 1], j) + (if j < |last| then last[j] else 0.0)
  }

  function AverageOf(vectors: seq<Vector>): Averaged {
    if vectors == [] then Average([])
    else if exists k :: 0 <= k < |vectors| && |vectors[k]| > |vectors[0]| then IndexPanic
    else Average(seq(|vectors[0]|, j requires 0 <= j => Scaled(ComponentSum(vectors, j), |vectors|)))
  }

  function Scaled(x: real, n: nat): real
    requires n > 0
  {
    x * (1.0 / n as real)
  }

  /** Adds a vector to the sums; false is the index error of a vector longer than they are. */
  method AddVector(avg: array<real>, v: Vector) returns (ok: bool)
    modifies avg
    ensures ok == (|v| <= avg.Length)
    ensures ok ==> forall j :: 0 <= j < avg.Length ==> avg[j] == old(avg[j]) + (if j < |v| then v[j] else 0.0)
  {
    for j := 0 to |v|
      invariant j <= avg.Length
      invariant forall m :: 0 <= m < j ==> avg[m] == old(avg[m]) + v[m]
      invariant forall m :: j <= m < avg.Length ==> avg[m] == old(avg[m])
    {
      if j >= avg.Length {
        return false;
      }
      avg[j] := avg[j] + v[j];
    }
    ok := true;
  }

  method ScaleVector(avg: array<real>, n: nat)
    requires n > 0
    modifies avg
    ensures forall j :: 0 <= j < avg.Length ==> avg[j] == Scaled(old(avg[j]), n)
  {
    var scale := 1.0 / n as real;
    for j := 0 to avg.Length
      invariant forall m :: 0 <= m < j ==> avg[m] == Scaled(old(avg[m]), n)
      invariant forall m :: j <= m < avg.Length ==> avg[m] == old(avg[m])
    {
      avg[j] := avg[j] * scale;
    }
  }

  lemma ComponentSumStep(vectors: seq<Vector>, i: nat, j: nat)
    requires i < |vectors|
    ensures ComponentSum(vectors[..i + 1], j)
            == ComponentSum(vectors[..i], j) + (if j < |vectors[i]| then vectors[i][j] else 0.0)
  {
    assert vectors[..i + 1][..i] == vectors[..i];
  }

  method AverageVectors(vecs: seq<Vector>) returns (r: Averaged)
    ensures r == AverageOf(vecs)
  {
    if |vecs| == 0 {
      return Average([]);
    }
    var avg := new real[|vecs[0]|](_ => 0.0);
    for i := 0 to |vecs|
      invariant forall k :: 0 <= k < i ==> |vecs[k]| <= |vecs[0]|
      invariant forall j :: 0 <= j < avg.Length ==> avg[j] == ComponentSum(vecs[..i], j)
    {
      forall j | 0 <= j < avg.Length
        ensures ComponentSum(vecs[..i + 1], j)
                == ComponentSum(vecs[..i], j) + (if j < |vecs[i]| then vecs[i][j] else 0.0)
      {
        ComponentSumStep(vecs, i, j);
      }
      var ok := AddVector(avg, vecs[i]);
      if !ok {
        assert |vecs[i]| > |vecs[0]|;
        return IndexPanic;
      }
    }
    assert vecs[..|vecs|] == vecs;
    ScaleVector(avg, |vecs|);
    r := Average(avg[..]);
  }

  /** The component-wise mean. */
  ghost predicate IsMean(mean: Vector, vectors: seq<Vector>, dimension: nat) {
    && |mean| == dimension
    && forall j :: 0 <= j < dimension ==> mean[j] * |vectors| as real == ComponentSum(vectors, j)
  }

  lemma ScaledBack(x: real, n: nat)
    requires n > 0
    ensures Scaled(x, n) * n as real == x
  {
    var r := n as real;
    assert (1.0 / r) * r == 1.0;
    assert x * (1.0 / r) * r == x * ((1.0 / r) * r);
  }

  lemma AverageIsMean(vectors: seq<Vector>, dimension: nat)
    requires vectors != [] && forall k :: 0 <= k < |vectors| ==> |vectors[k]| == dimension
    ensures AverageOf(vectors).Average? && IsMean(AverageOf(vectors).vector, vectors, dimension)
  {
    var mean := AverageOf(vectors).vector;
    forall j | 0 <= j < dimension ensures mean[j] * |vectors| as real == ComponentSum(vectors, j) {
      ScaledBack(ComponentSum(vectors, j), |vectors|);
    }
  }

  lemma OneVectorIsItsMean(v: Vector)
    ensures IsMean(v, [v], |v|)
  {
    forall j | 0 <= j < |v| ensures v[j] * 1.0 == ComponentSum([v], j) {
      assert [v][..0] == [];
    }
  }

  // --- EmbedBatch ---

  datatype BatchResult = Embedded(vectors: seq<Vector>) | BatchFailed(error: EmbedError) | Panicked

  /** All pieces of all texts, in order. */
  function FlatTexts(texts: seq<string>, limit: int): (flat: seq<string>) {
    if texts == [] then [] else FlatTexts(texts[..|texts| - 1], limit) + Pieces(texts[|texts| - 1], limit)
  }

  datatype Span = Span(start: nat, count: nat)

  function SpanOf(texts: seq<string>, limit: int, i: nat): Span
    requires i < |texts|
  {
    Span(|FlatTexts(texts[..i], limit)|, |Pieces(texts[i], limit)|)
  }

  /** The list of vectors as far as it can be sliced: its end, then vectors that were never set. */
  function Stretched(all: seq<Vector>, room: nat): (r: seq<Vector>)
    ensures |r| == |all| + room && all <= r
  {
    all + seq(room, k => [])
  }

  /**
   The vector of text i, from the vectors of all pieces: an index stops at the end
   of the list, a slice at its capacity.
   */
  function VectorFor(all: seq<Vector>, room: nat, span: Span): Averaged {
    if span.count == 1 then (if span.start < |all| then Average(all[span.start]) else IndexPanic)
    else if span.start + span.count > |all| + room then IndexPanic
    else AverageOf(Stretched(all, room)[span.start..span.start + span.count])
  }

  function SpansOf(texts: seq<string>, limit: int): (spans: seq<Span>)
    ensures |spans| == |texts| && forall i :: 0 <= i < |texts| ==> spans[i] == SpanOf(texts, limit, i)
  {
    seq(|texts|, i requires 0 <= i < |texts| => SpanOf(texts, limit, i))
  }

  function ReassembleTo(spans: seq<Span>, all: seq<Vector>, room: nat, n: nat): BatchResult
    requires n <= |spans|
  {
    if n == 0 then Embedded([])
    else
      match ReassembleTo(spans, all, room, n - 1)
      case Embedded(vs) => (
        match VectorFor(all, room, spans[n - 1])
        case Average(v) => Embedded(vs + [v])
        case IndexPanic => Panicked)
      case other => other
  }

  function NextLimit(limit: int): int {
    if limit / 2 < MIN_ADAPTIVE_MAX_INPUT_CHARS then MIN_ADAPTIVE_MAX_INPUT_CHARS else limit / 2
  }

  /** What a call leaves behind: its result, the stored limit, the limits tried and the requests sent. */
  datatype Outcome = Outcome(result: BatchResult, stored: int, limits: seq<int>, sent: seq<seq<string>>)

  /** One round of EmbedBatch under one limit, and the requests it sent. */
  datatype Attempt = Done(result: BatchResult, sent: seq<seq<string>>) | Overflow(sent: seq<seq<string>>)

  function AttemptAt(server: Server, calls: nat, texts: seq<string>, limit: int): Attempt {
    match Gather(server, calls, Batches(FlatTexts(texts, limit), limit))
    case Gathered(all, sent) =>
      Done(ReassembleTo(SpansOf(texts, limit), all, server.room(calls + |sent|), |texts|), sent)
    case Broken(error, sent) => if error == ContextOverflow then Overflow(sent) else Done(BatchFailed(error), sent)
  }

  /** What becomes of a round when its last request was answered like this; None is an overflow. */
  ghost predicate ComesTo(last: Answer, r: Option<BatchResult>) {
    match last
    case Vectors(_) => r.Some? && !r.value.BatchFailed?
    case Refused(error) =>
      match error
      case ContextOverflow => r == None
      case RequestFailed => r == Some(BatchFailed(RequestFailed))
  }

  function ResultOf(a: Attempt): Option<BatchResult> {
    if a.Done? then Some(a.result) else None
  }

  lemma {:induction false} ReassembleNeverFails(spans: seq<Span>, all: seq<Vector>, room: nat, n: nat)
    requires n <= |spans|
    ensures !ReassembleTo(spans, all, room, n).BatchFailed?
  {
    if n > 0 {
      ReassembleNeverFails(spans, all, room, n - 1);
    }
  }

  lemma SomethingToSend(texts: seq<string>, limit: int)
    requires limit > 0 && texts != []
    ensures Batches(FlatTexts(texts, limit), limit) != []
  {
    assert |Pieces(texts[|texts| - 1], limit)| >= 1;
    assert FlatTexts(texts, limit) != [];
    FlatTextsWithinLimit(texts, limit);
    BatchesPartition(FlatTexts(texts, limit), limit);
  }

  /** A round sends its requests up to the first refusal, and its last answer says what it comes to. */
  lemma RoundComesTo(server: Server, calls: nat, texts: seq<string>, limit: int)
    requires limit > 0 && texts != []
    ensures var a := AttemptAt(server, calls, texts, limit);
            && a.sent != [] && a.sent <= Batches(FlatTexts(texts, limit), limit) && UpToRefusal(server, calls, a.sent)
            && ComesTo(LastAnswer(server, calls, a.sent), ResultOf(a))
            && (LastAnswer(server, calls, a.sent).Vectors? ==> a.sent == Batches(FlatTexts(texts, limit), limit))
  {
    var batches := Batches(FlatTexts(texts, limit), limit);
    SomethingToSend(texts, limit);
    GatherSendsInOrder(server, calls, batches);
    GatherUpToRefusal(server, calls, batches);
    var g := Gather(server, calls, batches);
    if g.Gathered? {
      ReassembleNeverFails(SpansOf(texts, limit), g.vectors, server.room(calls + |g.sent|), |texts|);
    }
  }

  lemma {:induction false} FlatTextsWithinLimit(texts: seq<string>, limit: int)
    requires limit > 0
    ensures forall k :: 0 <= k < |FlatTexts(texts, limit)| ==> |FlatTexts(texts, limit)[k]| <= limit
  {
    if texts != [] {
      FlatTextsWithinLimit(texts[..|texts| - 1], limit);
      PiecesPartition(texts[|texts| - 1], limit);
    }
  }

  /** What a round comes to after so many requests, under some limit. */
  type Round = (nat, int) -> Attempt

  function RoundOf(server: Server, texts: seq<string>): Round {
    (calls: nat, limit: int) => AttemptAt(server, calls, texts, limit)
  }

  function Adapt(round: Round, calls: nat, stored: int, limit: int, attempts: nat): Outcome
    decreases attempts
  {
    if attempts == 0 then Outcome(BatchFailed(ContextOverflow), stored, [], [])
    else
      match round(calls, limit)
      case Done(result, sent) => Outcome(result, stored, [limit], sent)
      case Overflow(sent) =>
        if NextLimit(limit) >= limit then Outcome(BatchFailed(ContextOverflow), stored, [limit], sent)
        else
          var o := Adapt(round, calls + |sent|, NextLimit(limit), NextLimit(limit), attempts - 1);
          o.(limits := [limit] + o.limits, sent := sent + o.sent)
  }

  /** The whole call comes to what is left of it, after what has been sent so far. */
  ghost predicate Ahead(whole: Outcome, rest: Outcome, before: seq<seq<string>>, now: seq<seq<string>>) {
    whole.result == rest.result && whole.stored == rest.stored && before + whole.sent == now + rest.sent
  }

  /** A round that takes the requests from now to then ends the call or moves it on to the next limit. */
  lemma AdaptStep(round: Round, stored: int, limit: int, attempts: nat,
                  whole: Outcome, before: seq<seq<string>>, now: seq<seq<string>>, later: seq<seq<string>>)
    requires attempts > 0 && Ahead(whole, Adapt(round, |now|, stored, limit, attempts), before, now)
    requires later == now + round(|now|, limit).sent
    ensures var a := round(|now|, limit);
            if a.Done? then whole.result == a.result && whole.stored == stored && later == before + whole.sent
            else if NextLimit(limit) >= limit then
              whole.result == BatchFailed(ContextOverflow) && whole.stored == stored && later == before + whole.sent
            else Ahead(whole, Adapt(round, |later|, NextLimit(limit), NextLimit(limit), attempts - 1), before, later)
  {
    var a := round(|now|, limit);
    if a.Overflow? && NextLimit(limit) < limit {
      ConcatAssociates(now, a.sent, Adapt(round, |later|, NextLimit(limit), NextLimit(limit), attempts - 1).sent);
    }
  }

  class OllamaClient {
    const server: Server
    var maxInputChars: int
    var requests: seq<seq<string>>

    constructor (server: Server)
      ensures this.server == server && maxInputChars == 0 && requests == []
    {
      this.server := server;
      maxInputChars := 0;
      requests := [];
    }

    function MaxInputChars(): (n: int)
      reads this
      ensures n > 0
    {
      if maxInputChars > 0 then maxInputChars else DEFAULT_MAX_INPUT_CHARS
    }

    method SetMaxInputChars(n: int)
      modifies this`maxInputChars
      ensures maxInputChars == if n <= 0 then old(maxInputChars) else n
    {
      if n <= 0 {
        return;
      }
      maxInputChars := n;
    }

    method DoEmbed(texts: seq<string>) returns (answer: Answer)
      modifies this`requests
      ensures requests == old(requests) + [texts]
      ensures answer == server.answer(|old(requests)|, texts)
    {
      answer := server.answer(|requests|, texts);
      requests := requests + [texts];
    }

    /** embedFlat; a limit that is not positive stands for the client's own. */
    method EmbedFlat(texts: seq<string>, maxBatchChars: int) returns (r: Result<seq<Vector>, EmbedError>)
      modifies this`requests
      ensures var limit := if maxBatchChars <= 0 then MaxInputChars() else maxBatchChars;
              var g := Gather(server, |old(requests)|, Batches(texts, limit));
              && requests == old(requests) + g.sent
              && r == match g case Gathered(all, _) => Ok(all) case Broken(error, _) => Err(error)
    {
      var limit := if maxBatchChars <= 0 then MaxInputChars() else maxBatchChars;
      r := EmbedWithin(texts, limit);
    }

    method EmbedWithin(texts: seq<string>, limit: int) returns (r: Result<seq<Vector>, EmbedError>)
      modifies this`requests
      ensures var g := Gather(server, |old(requests)|, Batches(texts, limit));
              && requests == old(requests) + g.sent
              && r == match g case Gathered(all, _) => Ok(all) case Broken(error, _) => Err(error)
    {
      var all := [];
      var batchStart: nat := 0;
      var batchChars: nat := 0;
      ghost var g := Gather(server, |requests|, Batches(texts, limit));
      ghost var rest := Batches(texts, limit);
      assert texts[0..] == texts && texts[0..0] == [];
      for i := 0 to |texts|
        invariant AreWaiting(texts, batchStart, i, batchChars, rest, limit)
        invariant Continues(g, all, old(requests), requests, Gather(server, |requests|, rest))
      {
        var t := texts[i];
        ghost var more := NextText(texts, batchStart, i, batchChars, rest, limit);
        if batchChars + |t| > limit && i > batchStart {
          var gathered := SendWaiting(texts[batchStart..i], all, g, old(requests), more);
          if gathered.Err? {
            return gathered;
          }
          all := gathered.value;
          rest := more;
          batchStart := i;
          batchChars := 0;
        }
        batchChars := batchChars + |t|;
      }
      NoneLeft(texts, batchStart);
      r := FlushRemaining(texts[batchStart..], limit, all, g, old(requests));
    }

    /** Sends the texts that wait, of which more are to come, and adds their vectors to the others. */
    method SendWaiting(waiting: seq<string>, all: seq<Vector>, ghost g: Gathered, ghost before: seq<seq<string>>,
                       ghost more: seq<seq<string>>) returns (r: Result<seq<Vector>, EmbedError>)
      requires Continues(g, all, before, requests, Gather(server, |requests|, [waiting] + more))
      modifies this`requests
      ensures r.Err? ==> requests == before + g.sent && g.Broken? && g.error == r.error
      ensures r.Ok? ==> Continues(g, r.value, before, requests, Gather(server, |requests|, more))
    {
      SendNext(server, g, all, before, requests, [waiting] + more);
      assert ([waiting] + more)[1..] == more;
      var answer := DoEmbed(waiting);
      if answer.Refused? {
        return Err(answer.error);
      }
      r := Ok(all + answer.vectors);
    }

    /** Sends what is still waiting, if anything is. */
    method FlushRemaining(waiting: seq<string>, limit: int, all: seq<Vector>, ghost g: Gathered,
                          ghost before: seq<seq<string>>) returns (r: Result<seq<Vector>, EmbedError>)
      requires Continues(g, all, before, requests, Gather(server, |requests|, BatchesFrom(waiting, [], limit)))
      modifies this`requests
      ensures requests == before + g.sent
      ensures r == match g case Gathered(vectors, _) => Ok(vectors) case Broken(error, _) => Err(error)
    {
      r := Ok(all);
      if |waiting| > 0 {
        assert [waiting] + [] == [waiting];
        r := SendWaiting(waiting, all, g, before, []);
        if r.Err? {
          return;
        }
      }
      ContinuesAtEnd(server, g, r.value, before, requests);
    }

    /** One round: the requests for all pieces under this limit, and the vectors put together; nothing on overflow. */
    method EmbedOnce(texts: seq<string>, maxChars: int) returns (r: Option<BatchResult>)
      requires maxChars > 0
      modifies this`requests
      ensures var a := RoundOf(server, texts)(|old(requests)|, maxChars);
              requests == old(requests) + a.sent && r == ResultOf(a)
      ensures texts != [] ==>
                && old(requests) < requests
                && ComesTo(server.answer(|requests| - 1, requests[|requests| - 1]), r)
    {
      if texts != [] {
        RoundComesTo(server, |requests|, texts, maxChars);
      }
      var flatTexts, mapping := FlattenTexts(texts, maxChars);
      var flat := EmbedFlat(flatTexts, maxChars);
      if flat.Err? {
        return if flat.error == ContextOverflow then None else Some(BatchFailed(flat.error));
      }
      var result := Reassemble(mapping, flat.value, server.room(|requests|));
      r := Some(result);
    }

    method EmbedBatch(texts: seq<string>) returns (r: BatchResult)
      modifies this
      ensures texts == [] ==> r == Embedded([]) && unchanged(this)
      ensures texts != [] ==>
                var o := Adapt(RoundOf(server, texts), |old(requests)|, old(maxInputChars), old(MaxInputChars()),
                               MAX_ADAPTIVE_EMBED_ATTEMPTS);
                r == o.result && maxInputChars == o.stored && requests == old(requests) + o.sent
    {
      if |texts| == 0 {
        return Embedded([]);
      }
      var maxChars := MaxInputChars();
      ghost var round := RoundOf(server, texts);
      ghost var o := Adapt(round, |requests|, maxInputChars, maxChars, MAX_ADAPTIVE_EMBED_ATTEMPTS);
      for attempt := 0 to MAX_ADAPTIVE_EMBED_ATTEMPTS
        invariant maxChars > 0
        invariant Ahead(o, Adapt(round, |requests|, maxInputChars, maxChars, MAX_ADAPTIVE_EMBED_ATTEMPTS - attempt),
                        old(requests), requests)
      {
        ghost var now := requests;
        var once := EmbedOnce(texts, maxChars);
        AdaptStep(round, maxInputChars, maxChars, MAX_ADAPTIVE_EMBED_ATTEMPTS - attempt, o, old(requests), now,
                  requests);
        if once.Some? {
          return once.value;
        }
        var nextMaxChars := maxChars / 2;
        if nextMaxChars < MIN_ADAPTIVE_MAX_INPUT_CHARS {
          nextMaxChars := MIN_ADAPTIVE_MAX_INPUT_CHARS;
        }
        if nextMaxChars >= maxChars {
          return BatchFailed(ContextOverflow);
        }
        maxChars := nextMaxChars;
        SetMaxInputChars(maxChars);
      }
      r := BatchFailed(ContextOverflow);
    }
  }

  method FlattenTexts(texts: seq<string>, maxChars: int) returns (flatTexts: seq<string>, mapping: seq<Span>)
    requires maxChars > 0
    ensures flatTexts == FlatTexts(texts, maxChars)
    ensures mapping == SpansOf(texts, maxChars)
  {
    flatTexts, mapping := [], [];
    for i := 0 to |texts|
      invariant flatTexts == FlatTexts(texts[..i], maxChars)
      invariant |mapping| == i && forall k :: 0 <= k < i ==> mapping[k] == SpanOf(texts, maxChars, k)
    {
      assert texts[..i + 1][..i] == texts[..i];
      if |texts[i]| <= maxChars {
        mapping := mapping + [Span(|flatTexts|, 1)];
        flatTexts := flatTexts + [texts[i]];
      } else {
        var parts := SplitTextAtLines(texts[i], maxChars);
        mapping := mapping + [Span(|flatTexts|, |parts|)];
        flatTexts := flatTexts + parts;
      }
    }
    assert texts[..|texts|] == texts;
  }

  method Reassemble(mapping: seq<Span>, allVecs: seq<Vector>, room: nat) returns (r: BatchResult)
    ensures r == ReassembleTo(mapping, allVecs, room, |mapping|)
  {
    var results := [];
    for i := 0 to |mapping|
      invariant ReassembleTo(mapping, allVecs, room, i) == Embedded(results)
    {
      var vector := VectorOf(mapping[i], allVecs, room);
      if vector.IndexPanic? {
        ReassembleStops(mapping, allVecs, room, i + 1);
        return Panicked;
      }
      results := results + [vector.vector];
    }
    r := Embedded(results);
  }

  method VectorOf(m: Span, allVecs: seq<Vector>, room: nat) returns (r: Averaged)
    ensures r == VectorFor(allVecs, room, m)
  {
    if m.count == 1 {
      if m.start >= |allVecs| {
        return IndexPanic;
      }
      return Average(allVecs[m.start]);
    }
    if m.start + m.count > |allVecs| + room {
      return IndexPanic;
    }
    r := AverageVectors(Stretched(allVecs, room)[m.start..m.start + m.count]);
  }

  lemma {:induction false} ReassembleStops(spans: seq<Span>, all: seq<Vector>, room: nat, n: nat)
    requires n <= |spans| && !ReassembleTo(spans, all, room, n).Embedded?
    ensures ReassembleTo(spans, all, room, |spans|) == ReassembleTo(spans, all, room, n)
    decreases |spans| - n
  {
    if n < |spans| {
      ReassembleStops(spans, all, room, n + 1);
    }
  }

  // --- what a call means ---

  lemma {:induction false} FlatTextsTile(texts: seq<string>, limit: int, i: nat)
    requires i < |texts|
    ensures var span := SpanOf(texts, limit, i);
            && span.start + span.count <= |FlatTexts(texts, limit)|
            && FlatTexts(texts, limit)[span.start..span.start + span.count] == Pieces(texts[i], limit)
            && (i + 1 < |texts| ==> SpanOf(texts, limit, i + 1).start == span.start + span.count)
            && (i + 1 == |texts| ==> span.start + span.count == |FlatTexts(texts, limit)|)
  {
    var init := texts[..|texts| - 1];
    if i < |init| {
      FlatTextsTile(init, limit, i);
      assert init[..i] == texts[..i] && (i + 1 < |init| ==> init[..i + 1] == texts[..i + 1]);
      assert texts[..i + 1][..i] == texts[..i];
    }
  }

  predicate Within(span: Span, all: seq<Vector>) {
    span.count >= 1 && span.start + span.count <= |all|
  }

  ghost predicate MeanOver(span: Span, all: seq<Vector>, mean: Vector, dimension: nat) {
    Within(span, all) && IsMean(mean, all[span.start..span.start + span.count], dimension)
  }

  lemma VectorForIsMean(span: Span, all: seq<Vector>, room: nat, dimension: nat)
    requires Within(span, all) && OfDimension(all, dimension)
    ensures VectorFor(all, room, span).Average? && MeanOver(span, all, VectorFor(all, room, span).vector, dimension)
  {
    var own := all[span.start..span.start + span.count];
    if span.count == 1 {
      OneVectorIsItsMean(all[span.start]);
      assert own == [all[span.start]];
    } else {
      assert Stretched(all, room)[span.start..span.start + span.count] == own;
      AverageIsMean(own, dimension);
    }
  }

  /** With vectors enough, every text gets the mean of its own pieces' vectors, and nothing panics. */
  lemma {:induction false} ReassembleMeans(spans: seq<Span>, all: seq<Vector>, room: nat, dimension: nat, n: nat)
    requires n <= |spans| && forall i :: 0 <= i < |spans| ==> Within(spans[i], all)
    requires OfDimension(all, dimension)
    ensures var r := ReassembleTo(spans, all, room, n);
            && r.Embedded? && |r.vectors| == n
            && forall i :: 0 <= i < n ==> MeanOver(spans[i], all, r.vectors[i], dimension)
  {
    if n > 0 {
      ReassembleMeans(spans, all, room, dimension, n - 1);
      VectorForIsMean(spans[n - 1], all, room, dimension);
    }
  }

  /** These requests are exactly the pieces of the texts, in order, and none is over the limit. */
  ghost predicate CarriesPieces(requests: seq<seq<string>>, texts: seq<string>, limit: int) {
    && FlattenBatches(requests) == FlatTexts(texts, limit)
    && forall b :: b in requests ==> TotalChars(b) <= limit
  }

  /** Every text has the mean of those of these vectors that stand where its pieces stand among all pieces. */
  ghost predicate MeansOfSpans(vectors: seq<Vector>, all: seq<Vector>, texts: seq<string>, limit: int, dimension: nat) {
    && |vectors| == |texts|
    && forall i :: 0 <= i < |texts| ==> MeanOver(SpanOf(texts, limit, i), all, vectors[i], dimension)
  }

  lemma SpansGiveMeans(all: seq<Vector>, room: nat, texts: seq<string>, limit: int, dimension: nat)
    requires OfDimension(all, dimension) && |FlatTexts(texts, limit)| <= |all|
    ensures var r := ReassembleTo(SpansOf(texts, limit), all, room, |texts|);
            r.Embedded? && MeansOfSpans(r.vectors, all, texts, limit, dimension)
  {
    var spans := SpansOf(texts, limit);
    forall i | 0 <= i < |texts| ensures Within(spans[i], all) {
      FlatTextsTile(texts, limit, i);
    }
    ReassembleMeans(spans, all, room, dimension, |texts|);
  }

  /** A round all of whose requests came back with one vector per input gives every text the mean of its own pieces. */
  lemma RoundGivesMeans(server: Server, dimension: nat, calls: nat, texts: seq<string>, limit: int)
    requires limit > 0
    requires Gather(server, calls, Batches(FlatTexts(texts, limit), limit)).Gathered?
    requires OneVectorPerInput(server, calls, Batches(FlatTexts(texts, limit), limit), dimension)
    ensures var a := AttemptAt(server, calls, texts, limit);
            && a.Done? && a.result.Embedded? && CarriesPieces(a.sent, texts, limit)
            && MeansOfSpans(a.result.vectors, Answers(server, calls, a.sent), texts, limit, dimension)
  {
    var batches := Batches(FlatTexts(texts, limit), limit);
    var g := Gather(server, calls, batches);
    GatherIsAnswers(server, calls, batches);
    FlatTextsWithinLimit(texts, limit);
    BatchesPartition(FlatTexts(texts, limit), limit);
    GatherSize(server, calls, batches, dimension);
    SpansGiveMeans(g.vectors, server.room(calls + |g.sent|), texts, limit, dimension);
  }

  // --- servers that answer with too few vectors, or too many ---

  /** The access to the vectors of this span panics: an index past the end, or a slice past the capacity. */
  predicate OutOfRange(span: Span, size: nat, room: nat) {
    if span.count == 1 then span.start >= size else span.start + span.count > size + room
  }

  /** Vectors of one dimension: reading a span panics exactly when it is out of range. */
  lemma VectorForPanicsIff(all: seq<Vector>, room: nat, span: Span, dimension: nat)
    requires OfDimension(all, dimension)
    ensures VectorFor(all, room, span).IndexPanic? <==> OutOfRange(span, |all|, room)
  {
    if span.count != 1 && span.start + span.count <= |all| + room {
      var own := Stretched(all, room)[span.start..span.start + span.count];
      forall k | 0 <= k < |own| ensures |own[k]| <= |own[0]| {
        StretchedShrinks(all, room, dimension, span.start, span.start + k);
      }
    }
  }

  lemma StretchedShrinks(all: seq<Vector>, room: nat, dimension: nat, i: nat, j: nat)
    requires OfDimension(all, dimension) && i <= j < |all| + room
    ensures |Stretched(all, room)[j]| <= |Stretched(all, room)[i]|
  {
  }

  /** With vectors of one dimension, putting the texts together panics exactly when some span is out of range. */
  lemma {:induction false} ReassemblePanicsIff(spans: seq<Span>, all: seq<Vector>, room: nat, dimension: nat, n: nat)
    requires OfDimension(all, dimension) && n <= |spans|
    ensures var r := ReassembleTo(spans, all, room, n);
            && !r.BatchFailed?
            && (r.Panicked? <==> exists i :: 0 <= i < n && OutOfRange(spans[i], |all|, room))
  {
    if n > 0 {
      ReassemblePanicsIff(spans, all, room, dimension, n - 1);
      VectorForPanicsIff(all, room, spans[n - 1], dimension);
      assert OutOfRange(spans[n - 1], |all|, room) ==>
        exists i :: 0 <= i < n && OutOfRange(spans[i], |all|, room);
    }
  }

  /** Every text gets the mean over its own span exactly when there are vectors enough for all pieces. */
  lemma SpansGiveMeansIff(all: seq<Vector>, room: nat, texts: seq<string>, limit: int, dimension: nat)
    requires OfDimension(all, dimension) && texts != []
    ensures var r := ReassembleTo(SpansOf(texts, limit), all, room, |texts|);
            r.Embedded? && MeansOfSpans(r.vectors, all, texts, limit, dimension) <==> |FlatTexts(texts, limit)| <= |all|
  {
    if |FlatTexts(texts, limit)| <= |all| {
      SpansGiveMeans(all, room, texts, limit, dimension);
    } else {
      FlatTextsTile(texts, limit, |texts| - 1);
      assert !Within(SpanOf(texts, limit, |texts| - 1), all);
    }
  }

  /** Each request has a vector for every input, and they stand where its inputs stand among all inputs. */
  ghost predicate Aligned(server: Server, calls: nat, requests: seq<seq<string>>) {
    forall k :: 0 <= k < |requests| ==>
      && |AnswerTo(server, calls + k, requests[k])| >= |requests[k]|
      && |Answers(server, calls, requests[..k])| == |FlattenBatches(requests[..k])|
  }

  /** The requests before the last came back with one vector for every input, the last with no fewer. */
  ghost predicate AnsweredInStep(server: Server, calls: nat, requests: seq<seq<string>>) {
    forall k :: 0 <= k < |requests| ==>
      if k + 1 < |requests| then |AnswerTo(server, calls + k, requests[k])| == |requests[k]|
      else |AnswerTo(server, calls + k, requests[k])| >= |requests[k]|
  }

  lemma {:induction false} AnswersOneMore(server: Server, calls: nat, requests: seq<seq<string>>, k: nat)
    requires k < |requests|
    ensures Answers(server, calls, requests[..k + 1])
            == Answers(server, calls, requests[..k]) + AnswerTo(server, calls + k, requests[k])
    ensures FlattenBatches(requests[..k + 1]) == FlattenBatches(requests[..k]) + requests[k]
    decreases k
  {
    if k == 0 {
      assert requests[..1] == [requests[0]] && [requests[0]][1..] == [];
    } else {
      var rest := requests[1..];
      AnswersOneMore(server, calls + 1, rest, k - 1);
      assert requests[..k + 1][1..] == rest[..k] && requests[..k][1..] == rest[..k - 1];
    }
  }

  /** Vectors are taken for the inputs they answer exactly when the requests were answered in step. */
  lemma AlignedIff(server: Server, calls: nat, requests: seq<seq<string>>)
    ensures Aligned(server, calls, requests) <==> AnsweredInStep(server, calls, requests)
  {
    if AnsweredInStep(server, calls, requests) {
      forall k | 0 <= k < |requests|
        ensures |Answers(server, calls, requests[..k])| == |FlattenBatches(requests[..k])|
      {
        InStepSizes(server, calls, requests, k);
      }
    }
    if Aligned(server, calls, requests) {
      forall k | 0 <= k && k + 1 < |requests| ensures |AnswerTo(server, calls + k, requests[k])| == |requests[k]| {
        AnswersOneMore(server, calls, requests, k);
        assert |Answers(server, calls, requests[..k + 1])| == |FlattenBatches(requests[..k + 1])|;
      }
    }
  }

  lemma {:induction false} InStepSizes(server: Server, calls: nat, requests: seq<seq<string>>, k: nat)
    requires AnsweredInStep(server, calls, requests) && k < |requests|
    ensures |Answers(server, calls, requests[..k])| == |FlattenBatches(requests[..k])|
  {
    if k > 0 {
      InStepSizes(server, calls, requests, k - 1);
      AnswersOneMore(server, calls, requests, k - 1);
    }
  }

  /** Two texts that fit one by one but not together go in two requests. */
  lemma TwoRequests(t: string, u: string, limit: int)
    requires |t| <= limit && |u| <= limit < |t| + |u|
    ensures FlatTexts([t, u], limit) == [t, u] && Batches([t, u], limit) == [[t], [u]]
    ensures SpansOf([t, u], limit) == [Span(0, 1), Span(1, 1)]
  {
    assert [t, u][..1] == [t] && [t][..0] == [] && [t, u][1..] == [u] && [u][1..] == [];
    assert Pieces(t, limit) == [t] && Pieces(u, limit) == [u];
    assert FlatTexts([t], limit) == [] + [t];
    assert FlatTexts([t, u], limit) == [t] + [u];
    TotalCharsOfOne(t);
    assert [] + [t] == [t];
    assert BatchesFrom([t], [u], limit) == [[t]] + BatchesFrom([u], [], limit);
    assert [[t]] + [[u]] == [[t], [u]];
  }

  lemma TwoAnswers(server: Server, calls: nat, t: string, u: string, a: seq<Vector>, b: seq<Vector>)
    requires server.answer(calls, [t]) == Vectors(a) && server.answer(calls + 1, [u]) == Vectors(b)
    ensures Gather(server, calls, [[t], [u]]) == Gathered(a + b, [[t], [u]])
  {
    assert [[t], [u]][1..] == [[u]] && [[u]][1..] == [];
    assert Gather(server, calls + 1, [[u]]) == Gathered(b + [], [[u]] + []);
    assert b + [] == b && [[t]] + [[u]] == [[t], [u]];
  }

  /** A first request that is answered with one vector too many: the second text gets that one instead of its own. */
  lemma ExtraVectorShifts(server: Server, calls: nat, t: string, u: string, limit: int, own: Vector, extra: Vector,
                          other: Vector)
    requires |t| <= limit && |u| <= limit < |t| + |u|
    requires server.answer(calls, [t]) == Vectors([own, extra]) && server.answer(calls + 1, [u]) == Vectors([other])
    ensures AttemptAt(server, calls, [t, u], limit) == Done(Embedded([own, extra]), [[t], [u]])
  {
    TwoRequests(t, u, limit);
    TwoAnswers(server, calls, t, u, [own, extra], [other]);
    TwoSingleSpans([own, extra] + [other], server.room(calls + 2));
    assert [own] + [extra] == [own, extra];
  }

  lemma TwoSingleSpans(all: seq<Vector>, room: nat)
    requires |all| >= 1
    ensures ReassembleTo([Span(0, 1), Span(1, 1)], all, room, 2)
            == if |all| == 1 then Panicked else Embedded([all[0]] + [all[1]])
  {
    var spans := [Span(0, 1), Span(1, 1)];
    assert ReassembleTo(spans, all, room, 0) == Embedded([]);
    assert [] + [all[0]] == [all[0]];
    assert ReassembleTo(spans, all, room, 1) == Embedded([all[0]]);
  }

  /** A first request that is answered with no vector: the index of the second text is past the end. */
  lemma MissingVectorPanics(server: Server, calls: nat, t: string, u: string, limit: int, other: Vector)
    requires |t| <= limit && |u| <= limit < |t| + |u|
    requires server.answer(calls, [t]) == Vectors([]) && server.answer(calls + 1, [u]) == Vectors([other])
    ensures AttemptAt(server, calls, [t, u], limit) == Done(Panicked, [[t], [u]])
  {
    TwoRequests(t, u, limit);
    TwoAnswers(server, calls, t, u, [], [other]);
    TwoSingleSpans([] + [other], server.room(calls + 2));
  }

  // --- the adaptive limit ---

  /** Limits only go down, and the stored limit never falls below 512 unless it started there. */
  lemma {:induction false} LimitsDecrease(round: Round, calls: nat, stored: int, limit: int, attempts: nat)
    requires limit > 0
    ensures var o := Adapt(round, calls, stored, limit, attempts);
            && (attempts > 0 ==> |o.limits| > 0 && o.limits[0] == limit)
            && |o.limits| <= attempts
            && (forall i, j :: 0 <= i < j < |o.limits| ==> o.limits[i] > o.limits[j])
            && (o.stored == stored || MIN_ADAPTIVE_MAX_INPUT_CHARS <= o.stored < limit)
            && forall i :: 0 < i < |o.limits| ==> o.limits[i] >= MIN_ADAPTIVE_MAX_INPUT_CHARS
    decreases attempts
  {
    if attempts > 0 {
      var a := round(calls, limit);
      if a.Overflow? && NextLimit(limit) < limit {
        LimitsDecrease(round, calls + |a.sent|, NextLimit(limit), NextLimit(limit), attempts - 1);
      }
    }
  }

  /** How often m must be halved to come down to the minimum. */
  function Halvings(m: int): (k: nat)
    requires m > 0
  {
    if m <= MIN_ADAPTIVE_MAX_INPUT_CHARS then 0 else 1 + Halvings(m / 2)
  }

  function Pow2(k: nat): (p: nat)
    ensures p > 0
  {
    if k == 0 then 1 else 2 * Pow2(k - 1)
  }

  /** Halvings(m) is the least k with m div 2^k at most 512. */
  lemma {:induction false} HalvingsIsLeast(m: int, k: nat)
    requires m > 0
    ensures m / Pow2(k) <= MIN_ADAPTIVE_MAX_INPUT_CHARS <==> Halvings(m) <= k
    decreases m
  {
    if k > 0 {
      assert m / Pow2(k) == (m / 2) / Pow2(k - 1) by { DivideTwice(m, Pow2(k - 1)); }
      if m > MIN_ADAPTIVE_MAX_INPUT_CHARS {
        HalvingsIsLeast(m / 2, k - 1);
      } else {
        QuotientAtMost(m / 2, Pow2(k - 1));
      }
    }
  }

  lemma DivideTwice(m: int, p: nat)
    requires m > 0 && p > 0
    ensures m / (2 * p) == (m / 2) / p
  {
    var q, r := (m / 2) / p, (m / 2) % p;
    assert m / 2 == q * p + r;
    assert m == 2 * (m / 2) + m % 2;
    var t := 2 * r + m % 2;
    assert m == q * (2 * p) + t && 0 <= t < 2 * p;
    QuotientUnique(m, 2 * p, q, t);
  }

  lemma QuotientUnique(m: int, d: int, q: int, t: int)
    requires d > 0 && m == q * d + t && 0 <= t < d
    ensures m / d == q
  {
    var q', t' := m / d, m % d;
    assert q * d - q' * d == (q - q') * d;
    SmallMultipleIsZero(q - q', d, t' - t);
  }

  lemma SmallMultipleIsZero(x: int, d: int, y: int)
    requires d > 0 && x * d == y && -d < y < d
    ensures x == 0
  {
    assert x * d == (x - 1) * d + d == (x + 1) * d - d;
    MultipleSign(x - 1, d);
    MultipleSign(x + 1, d);
  }

  lemma MultipleSign(x: int, d: int)
    requires d > 0
    ensures (x >= 0 ==> x * d >= 0) && (x <= 0 ==> x * d <= 0)
  {
  }

  lemma QuotientAtMost(m: int, p: nat)
    requires m >= 0 && p > 0
    ensures m / p <= m
  {
    var q := m / p;
    assert m == p * q + m % p;
    assert p * q == q + (p - 1) * q;
    MultipleSign(p - 1, q + 1);
    if q > 0 { MultipleSign(p - 1, q); }
  }

  ghost predicate AlwaysOverflows(server: Server) {
    forall n: nat, request: seq<string> :: server.answer(n, request) == Refused(ContextOverflow)
  }

  /** Against a server that always overflows, a limit m above 512 is tried min(5, k + 1) times. */
  lemma OverflowAttempts(server: Server, calls: nat, texts: seq<string>, stored: int, limit: int, attempts: nat)
    requires limit > 0 && attempts > 0 && AlwaysOverflows(server) && texts != []
    ensures var o := Adapt(RoundOf(server, texts), calls, stored, limit, attempts);
            && o.result == BatchFailed(ContextOverflow)
            && |o.limits| == (if Halvings(limit) + 1 < attempts then Halvings(limit) + 1 else attempts)
  {
    var round := RoundOf(server, texts);
    forall n: nat, m: int | m > 0 ensures round(n, m).Overflow? {
      var _ := FirstRequestOverflows(server, n, texts, m);
    }
    OverflowingRounds(round, calls, stored, limit, attempts);
  }

  lemma {:induction false} OverflowingRounds(round: Round, calls: nat, stored: int, limit: int, attempts: nat)
    requires limit > 0 && attempts > 0 && forall n: nat, m: int :: m > 0 ==> round(n, m).Overflow?
    ensures var o := Adapt(round, calls, stored, limit, attempts);
            && o.result == BatchFailed(ContextOverflow)
            && |o.limits| == (if Halvings(limit) + 1 < attempts then Halvings(limit) + 1 else attempts)
    decreases attempts
  {
    var a := round(calls, limit);
    if limit > MIN_ADAPTIVE_MAX_INPUT_CHARS {
      var next := NextLimit(limit);
      assert Halvings(limit) == 1 + Halvings(next);
      if attempts > 1 {
        OverflowingRounds(round, calls + |a.sent|, next, next, attempts - 1);
      }
    }
  }

  lemma FirstRequestOverflows(server: Server, calls: nat, texts: seq<string>, limit: int)
    returns (sent: seq<seq<string>>)
    requires limit > 0 && AlwaysOverflows(server) && texts != []
    ensures AttemptAt(server, calls, texts, limit) == Overflow(sent)
  {
    var flat := FlatTexts(texts, limit);
    assert |Pieces(texts[|texts| - 1], limit)| >= 1;
    FlatTextsWithinLimit(texts, limit);
    BatchesPartition(flat, limit);
    sent := Gather(server, calls, Batches(flat, limit)).sent;
  }

  lemma NoneLeft(texts: seq<string>, b: nat)
    requires b <= |texts|
    ensures texts[b..|texts|] == texts[b..] && texts[|texts|..] == []
  {
  }

  lemma SliceGrows(texts: seq<string>, b: nat, i: nat)
    requires b <= i < |texts|
    ensures texts[b..i + 1] == texts[b..i] + [texts[i]] && texts[i..i + 1] == [texts[i]]
    ensures texts[i..] != [] && texts[i..][0] == texts[i] && texts[i..][1..] == texts[i + 1..]
  {
  }

  lemma TotalCharsOfOne(t: string)
    ensures TotalChars([t]) == |t|
  {
    TotalCharsAppend([], t);
    assert [] + [t] == [t];
  }

  /** The texts from b to i wait to be sent, so many characters in all, and these are the requests to come. */
  ghost predicate AreWaiting(texts: seq<string>, b: nat, i: nat, chars: nat, rest: seq<seq<string>>, limit: int) {
    && b <= i <= |texts| && (b == i ==> i == 0) && chars == TotalChars(texts[b..i])
    && rest == BatchesFrom(texts[b..i], texts[i..], limit)
  }

  /** What the loop does with text i: it joins the waiting request, or the request is sent first. */
  lemma NextText(texts: seq<string>, b: nat, i: nat, chars: nat, rest: seq<seq<string>>, limit: int)
    returns (more: seq<seq<string>>)
    requires AreWaiting(texts, b, i, chars, rest, limit) && i < |texts|
    ensures if i > b && chars + |texts[i]| > limit
            then rest == [texts[b..i]] + more && AreWaiting(texts, i, i + 1, |texts[i]|, more, limit)
            else AreWaiting(texts, b, i + 1, chars + |texts[i]|, rest, limit)
  {
    SliceGrows(texts, b, i);
    TotalCharsAppend(texts[b..i], texts[i]);
    TotalCharsOfOne(texts[i]);
    more := BatchesFrom(texts[i..i + 1], texts[i + 1..], limit);
  }

  /** Sending the next request either ends the gathering or moves it on by that request. */
  lemma SendNext(server: Server, g: Gathered, all: seq<Vector>, before: seq<seq<string>>, now: seq<seq<string>>,
                 rest: seq<seq<string>>)
    requires rest != [] && Continues(g, all, before, now, Gather(server, |now|, rest))
    ensures match server.answer(|now|, rest[0])
            case Refused(error) => g.Broken? && g.error == error && before + g.sent == now + [rest[0]]
            case Vectors(vs) =>
              Continues(g, all + vs, before, now + [rest[0]], Gather(server, |now| + 1, rest[1..]))
  {
    if server.answer(|now|, rest[0]).Vectors? {
      var more := Gather(server, |now| + 1, rest[1..]);
      ConcatAssociates(now, [rest[0]], more.sent);
      if more.Gathered? {
        ConcatAssociates(all, server.answer(|now|, rest[0]).vectors, more.vectors);
      }
    }
  }

  lemma ContinuesAtEnd(server: Server, g: Gathered, all: seq<Vector>, before: seq<seq<string>>, now: seq<seq<string>>)
    requires Continues(g, all, before, now, Gather(server, |now|, []))
    ensures g.Gathered? && g.vectors == all && before + g.sent == now
  {
  }

  /** The whole gathering g is what was gathered and sent so far, then the rest. */
  ghost predicate Continues(g: Gathered, all: seq<Vector>, before: seq<seq<string>>, now: seq<seq<string>>,
                            rest: Gathered) {
    && before + g.sent == now + rest.sent
    && (rest.Gathered? ==> g.Gathered? && g.vectors == all + rest.vectors)
    && (rest.Broken? ==> g.Broken? && g.error == rest.error)
  }
}
