/**
 The rounds of one EmbedBatch (pkg/embedding/ollama.go:142-202), said of how the
 server answers: what makes it try a lower limit, what ends it, and with what.
 */
module EmbeddingRounds {
  import opened Wrappers
  import opened Sequences
  import opened Embedding

  /** A round: the limit it was tried under, how many requests had gone before, and those it sent. */
  datatype Tried = Tried(limit: int, start: nat, sent: seq<seq<string>>)

  function AllSent(rounds: seq<Tried>): seq<seq<string>> {
    if rounds == [] then [] else rounds[0].sent + AllSent(rounds[1..])
  }

  /** Half the limit, but no less than 512. */
  function Lowered(limit: int): int {
    if limit < 1024 then 512 else limit / 2
  }

  /**
   The requests of the round carry pieces of the texts in order, as many each as
   its limit allows, and only the last may have been refused; if it was not, they
   carry them all.
   */
  ghost predicate IsRound(server: Server, texts: seq<string>, r: Tried) {
    && r.sent != [] && UpToRefusal(server, r.start, r.sent)
    && FlattenBatches(r.sent) <= FlatTexts(texts, r.limit)
    && (forall b :: b in r.sent ==> TotalChars(b) <= r.limit) && AreFull(r.sent, r.limit)
    && (LastAnswer(server, r.start, r.sent).Vectors? ==> CarriesPieces(r.sent, texts, r.limit))
  }

  predicate Overflowed(server: Server, r: Tried) {
    r.sent != [] && LastAnswer(server, r.start, r.sent) == Refused(ContextOverflow)
  }

  /** The next round starts where this one ended, which was in an overflow, and under a lower limit. */
  predicate Follows(server: Server, r: Tried, next: Tried) {
    && Overflowed(server, r)
    && next.start == r.start + |r.sent| && next.limit == Lowered(r.limit) < r.limit
  }

  /** Round after round, each for the texts, each but the first because the one before overflowed. */
  ghost predicate AreRounds(server: Server, texts: seq<string>, rounds: seq<Tried>) {
    && (forall k :: 0 <= k < |rounds| ==> IsRound(server, texts, rounds[k]))
    && forall k :: 0 <= k && k + 1 < |rounds| ==> Follows(server, rounds[k], rounds[k + 1])
  }

  lemma {:induction false} FlattenPrefix(a: seq<seq<string>>, b: seq<seq<string>>)
    requires a <= b
    ensures FlattenBatches(a) <= FlattenBatches(b)
  {
    if a != [] {
      FlattenPrefix(a[1..], b[1..]);
      assert FlattenBatches(b) == a[0] + FlattenBatches(b[1..]);
    }
  }

  lemma PrefixIsFull(a: seq<seq<string>>, b: seq<seq<string>>, limit: int)
    requires a <= b && AreFull(b, limit)
    ensures AreFull(a, limit)
  {
  }

  /** The round that EmbedBatch makes of its texts under a limit. */
  lemma RoundIs(server: Server, calls: nat, texts: seq<string>, limit: int)
    requires limit > 0 && texts != []
    ensures var a := AttemptAt(server, calls, texts, limit);
            && IsRound(server, texts, Tried(limit, calls, a.sent))
            && ComesTo(LastAnswer(server, calls, a.sent), ResultOf(a))
  {
    var batches := Batches(FlatTexts(texts, limit), limit);
    RoundComesTo(server, calls, texts, limit);
    FlatTextsWithinLimit(texts, limit);
    BatchesPartition(FlatTexts(texts, limit), limit);
    BatchesAreFull(FlatTexts(texts, limit), limit);
    PrefixIsFull(AttemptAt(server, calls, texts, limit).sent, batches, limit);
    FlattenPrefix(AttemptAt(server, calls, texts, limit).sent, batches);
  }

  lemma LoweredIsNext(limit: int)
    requires limit > 0
    ensures NextLimit(limit) == Lowered(limit)
  {
  }

  /** What the call comes to by the answer to its last request. */
  ghost predicate EndsAs(server: Server, o: Outcome, final: Tried, stored: int, roundsLeft: nat)
    requires final.sent != []
  {
    match LastAnswer(server, final.start, final.sent)
    case Vectors(_) => !o.result.BatchFailed? && o.stored == stored
    case Refused(error) =>
      && o.result == BatchFailed(error)
      && match error
         case RequestFailed => o.stored == stored
         case ContextOverflow =>
           if Lowered(final.limit) >= final.limit then o.stored == stored
           else roundsLeft == 0 && o.stored == Lowered(final.limit)
  }

  function Final(rounds: seq<Tried>): Tried
    requires rounds != []
  {
    rounds[|rounds| - 1]
  }

  /** Does a round that came to this lead to another? */
  predicate GoesOn(a: Attempt, limit: int, attempts: nat) {
    a.Overflow? && Lowered(limit) < limit && attempts > 1
  }

  /** The rounds that a call makes. */
  ghost function RoundsFrom(round: Round, calls: nat, limit: int, attempts: nat): (rounds: seq<Tried>)
    requires limit > 0 && attempts > 0
    ensures 0 < |rounds| <= attempts && rounds[0] == Tried(limit, calls, round(calls, limit).sent)
    ensures Final(rounds).limit > 0
    decreases attempts
  {
    var a := round(calls, limit);
    var r := Tried(limit, calls, a.sent);
    if GoesOn(a, limit, attempts) then
      [r] + RoundsFrom(round, calls + |a.sent|, Lowered(limit), attempts - 1)
    else [r]
  }

  lemma {:induction false} RoundsSend(round: Round, calls: nat, stored: int, limit: int, attempts: nat)
    requires limit > 0 && attempts > 0
    ensures AllSent(RoundsFrom(round, calls, limit, attempts)) == Adapt(round, calls, stored, limit, attempts).sent
    decreases attempts
  {
    var a, rounds := round(calls, limit), RoundsFrom(round, calls, limit, attempts);
    LoweredIsNext(limit);
    if GoesOn(a, limit, attempts) {
      RoundsSend(round, calls + |a.sent|, Lowered(limit), Lowered(limit), attempts - 1);
      assert rounds[1..] == RoundsFrom(round, calls + |a.sent|, Lowered(limit), attempts - 1);
    } else {
      assert rounds[1..] == [] && a.sent + [] == a.sent;
    }
  }

  /** Each round is as it should be, and so is each with the one after it. */
  ghost predicate Chain(rounds: seq<Tried>, good: Tried -> bool, next: (Tried, Tried) -> bool) {
    && (forall k :: 0 <= k < |rounds| ==> good(rounds[k]))
    && forall k :: 0 <= k && k + 1 < |rounds| ==> next(rounds[k], rounds[k + 1])
  }

  lemma JoinChain(r: Tried, more: seq<Tried>, good: Tried -> bool, next: (Tried, Tried) -> bool)
    requires good(r) && Chain(more, good, next) && (more != [] ==> next(r, more[0]))
    ensures Chain([r] + more, good, next)
  {
    var all := [r] + more;
    forall k | 0 <= k < |all| ensures good(all[k]) {
      assert k > 0 ==> all[k] == more[k - 1];
    }
    forall k | 0 <= k && k + 1 < |all| ensures next(all[k], all[k + 1]) {
      assert k > 0 ==> all[k] == more[k - 1];
      assert all[k + 1] == more[k];
    }
  }

  /** The requests are those that the round sends. */
  predicate Comes(round: Round, r: Tried) {
    r.limit > 0 && r.sent == round(r.start, r.limit).sent
  }

  /** The round overflows, and the next is under a lower limit. */
  predicate Leads(round: Round, r: Tried, next: Tried) {
    && Comes(round, r) && round(r.start, r.limit).Overflow?
    && next.start == r.start + |r.sent| && next.limit == Lowered(r.limit) < r.limit
  }

  /** Whatever is good of every round, and of every two that follow each other, is good of a call. */
  ghost predicate AllGood(round: Round, good: Tried -> bool, next: (Tried, Tried) -> bool) {
    (forall r :: Comes(round, r) ==> good(r)) && forall r, n :: Leads(round, r, n) ==> next(r, n)
  }

  lemma {:induction false} RoundsChain(round: Round, calls: nat, limit: int, attempts: nat, good: Tried -> bool,
                                       next: (Tried, Tried) -> bool)
    requires limit > 0 && attempts > 0 && AllGood(round, good, next)
    ensures Chain(RoundsFrom(round, calls, limit, attempts), good, next)
    decreases attempts
  {
    var r := Tried(limit, calls, round(calls, limit).sent);
    assert Comes(round, r);
    if GoesOn(round(calls, limit), limit, attempts) {
      var more := RoundsFrom(round, calls + |r.sent|, Lowered(limit), attempts - 1);
      RoundsChain(round, calls + |r.sent|, Lowered(limit), attempts - 1, good, next);
      assert Leads(round, r, more[0]);
      JoinChain(r, more, good, next);
    } else {
      assert RoundsFrom(round, calls, limit, attempts) == [r];
    }
  }

  ghost function RoundTest(server: Server, texts: seq<string>): Tried -> bool {
    (r: Tried) => IsRound(server, texts, r)
  }

  ghost function NextTest(server: Server): (Tried, Tried) -> bool {
    (r: Tried, next: Tried) => Follows(server, r, next)
  }

  lemma RoundsAreGood(server: Server, texts: seq<string>)
    requires texts != []
    ensures AllGood(RoundOf(server, texts), RoundTest(server, texts), NextTest(server))
  {
    var round := RoundOf(server, texts);
    forall r | Comes(round, r) ensures RoundTest(server, texts)(r) {
      RoundIs(server, r.start, texts, r.limit);
    }
    forall r, next | Leads(round, r, next) ensures NextTest(server)(r, next) {
      OverflowLeads(server, texts, r, next);
    }
  }

  lemma OverflowLeads(server: Server, texts: seq<string>, r: Tried, next: Tried)
    requires texts != [] && Leads(RoundOf(server, texts), r, next)
    ensures Follows(server, r, next)
  {
    RoundComesTo(server, r.start, texts, r.limit);
  }

  lemma CallRounds(server: Server, texts: seq<string>, calls: nat, limit: int, attempts: nat)
    requires limit > 0 && texts != [] && attempts > 0
    ensures AreRounds(server, texts, RoundsFrom(RoundOf(server, texts), calls, limit, attempts))
  {
    var rounds := RoundsFrom(RoundOf(server, texts), calls, limit, attempts);
    RoundsAreGood(server, texts);
    RoundsChain(RoundOf(server, texts), calls, limit, attempts, RoundTest(server, texts), NextTest(server));
    forall k | 0 <= k < |rounds| ensures IsRound(server, texts, rounds[k]) {
      assert RoundTest(server, texts)(rounds[k]);
    }
    forall k | 0 <= k && k + 1 < |rounds| ensures Follows(server, rounds[k], rounds[k + 1]) {
      assert NextTest(server)(rounds[k], rounds[k + 1]);
    }
  }

  /** The last round of a call decides what it comes to. */
  lemma {:induction false} LastRoundDecides(round: Round, calls: nat, stored: int, limit: int, attempts: nat)
    requires limit > 0 && attempts > 0
    ensures var o, rounds := Adapt(round, calls, stored, limit, attempts), RoundsFrom(round, calls, limit, attempts);
            var final := Final(rounds);
            var a := round(final.start, final.limit);
            && final.sent == a.sent && !GoesOn(a, final.limit, attempts - |rounds| + 1)
            && o.result == (if a.Done? then a.result else BatchFailed(ContextOverflow))
            && o.stored == if a.Overflow? && Lowered(final.limit) < final.limit then Lowered(final.limit)
                           else if |rounds| == 1 then stored else final.limit
    decreases attempts
  {
    var a := round(calls, limit);
    LoweredIsNext(limit);
    if GoesOn(a, limit, attempts) {
      LastRoundDecides(round, calls + |a.sent|, Lowered(limit), Lowered(limit), attempts - 1);
      assert Final(RoundsFrom(round, calls, limit, attempts))
             == Final(RoundsFrom(round, calls + |a.sent|, Lowered(limit), attempts - 1));
    }
  }

  /**
   How a call goes, whatever the server answers. The first round is under the
   client's limit; another is made only when the last request of the one before
   came back with a context overflow, under half the limit but no less than 512.
   No request follows one that was refused otherwise, or the last overflow. The
   last answer is the result: a failure is returned as it is, with the limit of
   that round kept; when the last request was answered, so were all of the round,
   which carried every piece of the texts, in order.
   */
  lemma EmbedBatchRounds(server: Server, texts: seq<string>, calls: nat, stored: int, limit: int, attempts: nat)
    returns (rounds: seq<Tried>)
    requires limit > 0 && texts != [] && attempts > 0
    ensures var o := Adapt(RoundOf(server, texts), calls, stored, limit, attempts);
            && 0 < |rounds| <= attempts && AreRounds(server, texts, rounds)
            && rounds[0].limit == limit && rounds[0].start == calls && AllSent(rounds) == o.sent
            && Final(rounds).sent != []
            && EndsAs(server, o, Final(rounds), if |rounds| == 1 then stored else Final(rounds).limit,
                      attempts - |rounds|)
  {
    var round := RoundOf(server, texts);
    rounds := RoundsFrom(round, calls, limit, attempts);
    CallRounds(server, texts, calls, limit, attempts);
    RoundsSend(round, calls, stored, limit, attempts);
    LastRoundDecides(round, calls, stored, limit, attempts);
    RoundAnswered(server, texts, Final(rounds));
    CallEnds(server, round, calls, stored, limit, attempts, Final(rounds), |rounds|);
  }

  /** What a call comes to by the answer to the last request of its last round. */
  lemma CallEnds(server: Server, round: Round, calls: nat, stored: int, limit: int, attempts: nat, final: Tried,
                 count: nat)
    requires limit > 0 && attempts > 0 && count <= attempts
    requires final == Final(RoundsFrom(round, calls, limit, attempts)) && final.sent != []
    requires count == |RoundsFrom(round, calls, limit, attempts)|
    requires ComesTo(LastAnswer(server, final.start, final.sent), ResultOf(round(final.start, final.limit)))
    ensures EndsAs(server, Adapt(round, calls, stored, limit, attempts), final,
                   if count == 1 then stored else final.limit, attempts - count)
  {
    LastRoundDecides(round, calls, stored, limit, attempts);
    EndsByLastAnswer(server, Adapt(round, calls, stored, limit, attempts), round(final.start, final.limit), final,
                     if count == 1 then stored else final.limit, attempts - count);
  }

  lemma RoundAnswered(server: Server, texts: seq<string>, r: Tried)
    requires texts != [] && Comes(RoundOf(server, texts), r)
    ensures r.sent != []
    ensures ComesTo(LastAnswer(server, r.start, r.sent), ResultOf(RoundOf(server, texts)(r.start, r.limit)))
  {
    RoundComesTo(server, r.start, texts, r.limit);
  }

  lemma EndsByLastAnswer(server: Server, o: Outcome, a: Attempt, final: Tried, stored: int, roundsLeft: nat)
    requires final.sent != [] && ComesTo(LastAnswer(server, final.start, final.sent), ResultOf(a))
    requires !GoesOn(a, final.limit, roundsLeft + 1)
    requires o.result == if a.Done? then a.result else BatchFailed(ContextOverflow)
    requires o.stored == if a.Overflow? && Lowered(final.limit) < final.limit then Lowered(final.limit) else stored
    ensures EndsAs(server, o, final, stored, roundsLeft)
  {
  }

  /**
   Whatever was refused on the way: when each request of the last round came back
   with one vector of one dimension for every input, whichever vectors these are,
   the call succeeds, and every text has the mean of the vectors that its own
   pieces were answered with under the last limit tried.
   */
  lemma EmbedBatchIsMeanOfPieces(server: Server, dimension: nat, texts: seq<string>, calls: nat, stored: int,
                                 limit: int, attempts: nat)
    returns (rounds: seq<Tried>)
    requires limit > 0 && texts != [] && attempts > 0
    ensures var o := Adapt(RoundOf(server, texts), calls, stored, limit, attempts);
            && rounds != [] && AreRounds(server, texts, rounds) && AllSent(rounds) == o.sent
            && var final := Final(rounds);
            && final.sent != []
            && (LastAnswer(server, final.start, final.sent).Vectors?
                && OneVectorPerInput(server, final.start, final.sent, dimension) ==>
                  && o.result.Embedded?
                  && MeansOfSpans(o.result.vectors, Answers(server, final.start, final.sent), texts, final.limit,
                                  dimension))
  {
    var round := RoundOf(server, texts);
    rounds := RoundsFrom(round, calls, limit, attempts);
    CallRounds(server, texts, calls, limit, attempts);
    RoundsSend(round, calls, stored, limit, attempts);
    LastRoundDecides(round, calls, stored, limit, attempts);
    AnsweredRoundGivesMeans(server, dimension, texts, Final(rounds).start, Final(rounds).limit);
  }

  lemma AnsweredRoundGivesMeans(server: Server, dimension: nat, texts: seq<string>, calls: nat, limit: int)
    requires limit > 0 && texts != []
    ensures var a := AttemptAt(server, calls, texts, limit);
            && a.sent != []
            && (LastAnswer(server, calls, a.sent).Vectors? && OneVectorPerInput(server, calls, a.sent, dimension) ==>
                  && a.Done? && a.result.Embedded?
                  && MeansOfSpans(a.result.vectors, Answers(server, calls, a.sent), texts, limit, dimension))
  {
    var a := AttemptAt(server, calls, texts, limit);
    RoundComesTo(server, calls, texts, limit);
    if LastAnswer(server, calls, a.sent).Vectors? && OneVectorPerInput(server, calls, a.sent, dimension) {
      RoundGivesMeans(server, dimension, calls, texts, limit);
    }
  }
}
