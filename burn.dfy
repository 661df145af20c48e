/**
 * The bLuna burn page (app/src/pages/basset/burn.tsx): the input check, the
 * condition that enables the Burn button, and `burnQueryOptions.fetchClient`,
 * which awaits the posted transaction and then polls the indexer by
 * transaction hash until it reports the transaction, the caller aborts, or a
 * query fails.
 */
module Burn {
  import opened Wrappers

  // ---------------------------------------------------------------------
  // Input check and Burn button
  // ---------------------------------------------------------------------

  /** The amount text field: empty, or a decimal number. */
  datatype AmountInput = Empty | Entered(amount: real)

  /** `big(burnAmount.length > 0 ? burnAmount : 0)` */
  function AmountOrZero(input: AmountInput): real {
    match input
    case Empty => 0.0
    case Entered(a) => a
  }

  /** `big(userUblunaBalance ?? 0)`: the balance in micro units, 0 while unknown. */
  function BalanceOrZero(balance: Option<real>): real {
    balance.GetOr(0.0)
  }

  /** `burnInputError` is present: the amount, scaled by `micro` (the MICRO
      constant), exceeds the known balance. */
  predicate InputError(input: AmountInput, balance: Option<real>, micro: real) {
    AmountOrZero(input) * micro > BalanceOrZero(balance)
  }

  /** The input check compares whole tokens with the balance in tokens: an
      error is reported exactly when the amount is above balance / MICRO. */
  lemma InputErrorThreshold(input: AmountInput, balance: Option<real>, micro: real)
    requires micro > 0.0
    ensures InputError(input, balance, micro) <==> AmountOrZero(input) > BalanceOrZero(balance) / micro
  {
  }

  /** A larger amount never clears an error a smaller one raised. */
  lemma InputErrorMonotone(a1: real, a2: real, balance: Option<real>, micro: real)
    requires micro > 0.0 && a1 <= a2
    requires InputError(Entered(a1), balance, micro)
    ensures InputError(Entered(a2), balance, micro)
  {
  }

  /** The Burn button is active: wallet status 'ready', a non-empty amount
      above 0, and no input error. */
  predicate BurnEnabled(walletReady: bool, input: AmountInput, balance: Option<real>, micro: real) {
    walletReady && input.Entered? && input.amount > 0.0 && !InputError(input, balance, micro)
  }

  /** An active button means a positive amount that the known balance covers;
      in particular the balance has been loaded and is positive. */
  lemma BurnEnabledMeansCovered(walletReady: bool, input: AmountInput, balance: Option<real>, micro: real)
    requires micro > 0.0
    ensures BurnEnabled(walletReady, input, balance, micro) <==>
            walletReady && input.Entered? && 0.0 < input.amount && input.amount * micro <= BalanceOrZero(balance)
    ensures BurnEnabled(walletReady, input, balance, micro) ==> balance.Some? && balance.value > 0.0
  {
  }

  // ---------------------------------------------------------------------
  // fetchClient: post, then poll until confirmed
  // ---------------------------------------------------------------------

  /** The part of the posted transaction's result the fetch uses: the hash it
      queries by, and the block height it displays. */
  datatype TxResult = TxResult(txhash: string, height: int)

  /** One record of the indexer's answer; its fields are not used here. */
  datatype TxInfo = TxInfo(raw: string)

  /** How the awaited post ends: a result, a rejection, or the abort signal
      firing first (then `stopWithAbortSignal` gives up the wait). */
  datatype PostOutcome = Posted(txResult: TxResult) | PostRejected(error: string) | PostAborted

  /** What one indexer query yields: the parsed records, or a failure. */
  datatype QueryAnswer = Rows(txInfos: seq<TxInfo>) | QueryRejected(error: string)

  /** The environment of one loop iteration: the abort flag as sampled at
      the top of the iteration, and the answer the query would get. */
  datatype Poll = Poll(aborted: bool, answer: QueryAnswer)

  /** The phases of the fetch. `Waiting` counts the queries issued so far. */
  datatype Phase =
    | Waiting(txResult: TxResult, queries: nat)
    | Done(txResult: TxResult, txInfos: seq<TxInfo>)
    | Stopped
    | Failed(error: string)

  /** What the fetch does that an observer sees. */
  datatype Effect = InProgressUpdate(txResult: TxResult) | Query(txHash: string) | Sleep(ms: nat)

  /** A run of the fetch: the phase it reached and its effects in order. */
  datatype Trace = Trace(phase: Phase, effects: seq<Effect>)

  /** The pause between two queries, in milliseconds. */
  const POLL_DELAY_MS: nat := 500

  /** The post settles: a result moves the fetch to `Waiting` and is reported
      as progress; a rejection or an abort ends the fetch. */
  function PostStep(post: PostOutcome): (t: Trace)
    ensures t.phase.Waiting? <==> post.Posted?
    ensures t.phase.Waiting? ==> t.phase.txResult == post.txResult && t.phase.queries == 0
    ensures t.effects == (if post.Posted? then [InProgressUpdate(post.txResult)] else [])
    ensures post.PostRejected? ==> t.phase == Failed(post.error)
    ensures post.PostAborted? ==> t.phase == Stopped
  {
    match post
    case Posted(tx) => Trace(Waiting(tx, 0), [InProgressUpdate(tx)])
    case PostRejected(e) => Trace(Failed(e), [])
    case PostAborted => Trace(Stopped, [])
  }

  /** One iteration of `while (true)`: the abort check, then a query by the
      transaction hash, then either the end (records found, or the query
      failed) or a pause before the next iteration. */
  function PollStep(tx: TxResult, queries: nat, poll: Poll): (t: Trace)
    ensures poll.aborted ==> t == Trace(Stopped, [])
    ensures !poll.aborted ==> |t.effects| > 0 && t.effects[0] == Query(tx.txhash)
    ensures t.phase.Waiting? <==> Idle(poll)
    ensures t.phase.Waiting? ==> t == Trace(Waiting(tx, queries + 1), [Query(tx.txhash), Sleep(POLL_DELAY_MS)])
    ensures t.phase.Done? <==> !poll.aborted && poll.answer.Rows? && |poll.answer.txInfos| > 0
    ensures t.phase.Done? ==> t.phase == Done(tx, poll.answer.txInfos)
    ensures t.phase.Done? ==> t.effects == [Query(tx.txhash)]
    ensures t.phase.Failed? <==> !poll.aborted && poll.answer.QueryRejected?
    ensures t.phase.Failed? ==> t == Trace(Failed(poll.answer.error), [Query(tx.txhash)])
  {
    if poll.aborted then Trace(Stopped, [])
    else
      match poll.answer
      case QueryRejected(e) => Trace(Failed(e), [Query(tx.txhash)])
      case Rows(infos) =>
        if |infos| > 0 then Trace(Done(tx, infos), [Query(tx.txhash)])
        else Trace(Waiting(tx, queries + 1), [Query(tx.txhash), Sleep(POLL_DELAY_MS)])
  }

  /** The loop run over the environments of its next iterations; only
      `Waiting` takes a step, every other phase is final. */
  function PollLoop(phase: Phase, polls: seq<Poll>): Trace
    decreases |polls|
  {
    if !phase.Waiting? || polls == [] then Trace(phase, [])
    else
      var step := PollStep(phase.txResult, phase.queries, polls[0]);
      var rest := PollLoop(step.phase, polls[1..]);
      Trace(rest.phase, step.effects + rest.effects)
  }

  /** The whole fetch over a finite stretch of its environment. */
  function Fetch(post: PostOutcome, polls: seq<Poll>): Trace {
    var start := PostStep(post);
    var rest := PollLoop(start.phase, polls);
    Trace(rest.phase, start.effects + rest.effects)
  }

  /** `burnQueryOptions.fetchClient`, run against the post outcome and the
      environments of as many iterations as `polls` holds. When they run out
      while the loop still waits, the result is the `Waiting` phase. */
  method FetchClient(post: PostOutcome, polls: seq<Poll>) returns (phase: Phase, effects: seq<Effect>)
    ensures Trace(phase, effects) == Fetch(post, polls)
  {
    match post {
      case PostRejected(e) => return Failed(e), [];
      case PostAborted => return Stopped, [];
      case Posted(_) =>
    }
    var txResult := post.txResult;
    effects := [InProgressUpdate(txResult)];
    phase := Waiting(txResult, 0);
    var i := 0;
    while i < |polls|
      invariant 0 <= i <= |polls|
      invariant phase == Waiting(txResult, i)
      invariant Fetch(post, polls) == Trace(PollLoop(phase, polls[i..]).phase, effects + PollLoop(phase, polls[i..]).effects)
    {
      assert polls[i..][1..] == polls[i + 1..];
      if polls[i].aborted {
        return Stopped, effects;
      }
      effects := effects + [Query(txResult.txhash)];
      match polls[i].answer {
        case QueryRejected(e) =>
          return Failed(e), effects;
        case Rows(txInfos) =>
          if |txInfos| > 0 {
            return Done(txResult, txInfos), effects;
          }
      }
      effects := effects + [Sleep(POLL_DELAY_MS)];
      phase := Waiting(txResult, i + 1);
      i := i + 1;
    }
  }

  // ---------------------------------------------------------------------
  // Trace properties
  // ---------------------------------------------------------------------

  /** An iteration that does not end the loop: no abort, an empty answer. */
  predicate Idle(poll: Poll) {
    !poll.aborted && poll.answer == Rows([])
  }

  /** The index of the first iteration that ends the loop, or |polls|. */
  function FirstSettle(polls: seq<Poll>): (k: nat)
    ensures k <= |polls|
    ensures forall j :: 0 <= j < k ==> Idle(polls[j])
    ensures k < |polls| ==> !Idle(polls[k])
  {
    if polls == [] || !Idle(polls[0]) then 0 else 1 + FirstSettle(polls[1..])
  }

  /** The effects of `k` idle iterations: a query by `txHash` and a pause, `k` times. */
  function IdleEffects(txHash: string, k: nat): seq<Effect> {
    if k == 0 then [] else [Query(txHash), Sleep(POLL_DELAY_MS)] + IdleEffects(txHash, k - 1)
  }

  /** The number of queries among `effects`. */
  function QueryCount(effects: seq<Effect>): nat {
    if effects == [] then 0 else (if effects[0].Query? then 1 else 0) + QueryCount(effects[1..])
  }

  lemma {:induction false} QueryCountAppend(a: seq<Effect>, b: seq<Effect>)
    ensures QueryCount(a + b) == QueryCount(a) + QueryCount(b)
  {
    if a == [] {
      assert a + b == b;
    } else {
      assert (a + b)[1..] == a[1..] + b;
      QueryCountAppend(a[1..], b);
    }
  }

  lemma {:induction false} IdleEffectsQueries(txHash: string, k: nat)
    ensures QueryCount(IdleEffects(txHash, k)) == k
  {
    if k > 0 {
      QueryCountAppend([Query(txHash), Sleep(POLL_DELAY_MS)], IdleEffects(txHash, k - 1));
      IdleEffectsQueries(txHash, k - 1);
    }
  }

  /** The loop, from `Waiting`, runs idle iterations up to the first one that
      ends it and stops there; if none does, it is still waiting after one
      query per iteration. There is no iteration cap. */
  lemma {:induction false} PollLoopOutcome(tx: TxResult, n: nat, polls: seq<Poll>)
    ensures var k := FirstSettle(polls);
            PollLoop(Waiting(tx, n), polls) ==
              if k == |polls| then Trace(Waiting(tx, n + k), IdleEffects(tx.txhash, k))
              else
                var last := PollStep(tx, n + k, polls[k]);
                Trace(last.phase, IdleEffects(tx.txhash, k) + last.effects)
    decreases |polls|
  {
    if polls != [] && Idle(polls[0]) {
      PollLoopOutcome(tx, n + 1, polls[1..]);
      var k := FirstSettle(polls[1..]);
      assert FirstSettle(polls) == k + 1;
      if k < |polls[1..]| {
        assert polls[1..][k] == polls[k + 1];
      }
    }
  }

  /** While every iteration is idle the fetch keeps waiting: one query and
      one pause per iteration, and no cap on their number. */
  lemma FetchWaitsWhileIdle(tx: TxResult, polls: seq<Poll>)
    requires forall j :: 0 <= j < |polls| ==> Idle(polls[j])
    ensures Fetch(Posted(tx), polls) == Trace(Waiting(tx, |polls|), [InProgressUpdate(tx)] + IdleEffects(tx.txhash, |polls|))
  {
    assert FirstSettle(polls) == |polls|;
    var rest := PollLoop(Waiting(tx, 0), polls);
    assert Fetch(Posted(tx), polls) == Trace(rest.phase, [InProgressUpdate(tx)] + rest.effects);
    PollLoopOutcome(tx, 0, polls);
  }

  /** After a successful post the fetch is the progress update, the idle
      iterations, and then the step of the first iteration that ends it. */
  lemma FetchSettlesAt(tx: TxResult, polls: seq<Poll>, k: nat)
    requires k < |polls| && forall j :: 0 <= j < k ==> Idle(polls[j])
    requires !Idle(polls[k])
    ensures Fetch(Posted(tx), polls) ==
              Trace(PollStep(tx, k, polls[k]).phase,
                    [InProgressUpdate(tx)] + IdleEffects(tx.txhash, k) + PollStep(tx, k, polls[k]).effects)
  {
    assert FirstSettle(polls) == k;
    var rest := PollLoop(Waiting(tx, 0), polls);
    assert Fetch(Posted(tx), polls) == Trace(rest.phase, [InProgressUpdate(tx)] + rest.effects);
    PollLoopOutcome(tx, 0, polls);
    var last := PollStep(tx, k, polls[k]);
    assert [InProgressUpdate(tx)] + (IdleEffects(tx.txhash, k) + last.effects)
        == [InProgressUpdate(tx)] + IdleEffects(tx.txhash, k) + last.effects;
  }

  /** Every effect of the loop is a query by the transaction's hash or a pause. */
  lemma {:induction false} PollLoopEffects(phase: Phase, polls: seq<Poll>)
    ensures forall i :: 0 <= i < |PollLoop(phase, polls).effects| ==>
              var e := PollLoop(phase, polls).effects[i];
              !e.InProgressUpdate? && (e.Query? ==> phase.Waiting? && e.txHash == phase.txResult.txhash)
    decreases |polls|
  {
    if phase.Waiting? && polls != [] {
      var step := PollStep(phase.txResult, phase.queries, polls[0]);
      PollLoopEffects(step.phase, polls[1..]);
    }
  }

  /** `inProgressUpdate({txResult})` is emitted once, first, before any query,
      exactly when the post yields a result; every query is keyed by that
      result's `txhash`. */
  lemma InProgressUpdateOnceThenQueriesByHash(post: PostOutcome, polls: seq<Poll>)
    ensures var effects := Fetch(post, polls).effects;
            && (post.Posted? ==> |effects| > 0 && effects[0] == InProgressUpdate(post.txResult))
            && (!post.Posted? ==> effects == [])
            && (forall i :: 0 < i < |effects| ==> !effects[i].InProgressUpdate?)
            && (forall i :: 0 <= i < |effects| && effects[i].Query? ==> effects[i].txHash == post.txResult.txhash)
  {
    PollLoopEffects(PostStep(post).phase, polls);
  }

  /** The first non-empty answer ends the fetch with the posted result and
      those records, after exactly one query per iteration so far. */
  lemma FirstNonEmptyAnswerIsReturned(tx: TxResult, polls: seq<Poll>, k: nat)
    requires k < |polls| && forall j :: 0 <= j < k ==> Idle(polls[j])
    requires !polls[k].aborted && polls[k].answer.Rows? && |polls[k].answer.txInfos| > 0
    ensures Fetch(Posted(tx), polls).phase == Done(tx, polls[k].answer.txInfos)
    ensures QueryCount(Fetch(Posted(tx), polls).effects) == k + 1
  {
    FetchSettlesAt(tx, polls, k);
    QueryCountAppend([InProgressUpdate(tx)], IdleEffects(tx.txhash, k));
    QueryCountAppend([InProgressUpdate(tx)] + IdleEffects(tx.txhash, k), [Query(tx.txhash)]);
    IdleEffectsQueries(tx.txhash, k);
  }

  /** An abort seen at the top of an iteration stops the fetch there: no
      query is issued in that iteration or after it. */
  lemma AbortStopsBeforeQuery(tx: TxResult, polls: seq<Poll>, k: nat)
    requires k < |polls| && forall j :: 0 <= j < k ==> Idle(polls[j])
    requires polls[k].aborted
    ensures Fetch(Posted(tx), polls).phase == Stopped
    ensures QueryCount(Fetch(Posted(tx), polls).effects) == k
  {
    FetchSettlesAt(tx, polls, k);
    QueryCountAppend([InProgressUpdate(tx)], IdleEffects(tx.txhash, k));
    assert [InProgressUpdate(tx)] + IdleEffects(tx.txhash, k) + [] == [InProgressUpdate(tx)] + IdleEffects(tx.txhash, k);
    IdleEffectsQueries(tx.txhash, k);
  }

  /** A failing query is not caught: it ends the fetch with its error. */
  lemma QueryFailurePropagates(tx: TxResult, polls: seq<Poll>, k: nat)
    requires k < |polls| && forall j :: 0 <= j < k ==> Idle(polls[j])
    requires !polls[k].aborted && polls[k].answer.QueryRejected?
    ensures Fetch(Posted(tx), polls).phase == Failed(polls[k].answer.error)
    ensures QueryCount(Fetch(Posted(tx), polls).effects) == k + 1
  {
    FetchSettlesAt(tx, polls, k);
    QueryCountAppend([InProgressUpdate(tx)], IdleEffects(tx.txhash, k));
    QueryCountAppend([InProgressUpdate(tx)] + IdleEffects(tx.txhash, k), [Query(tx.txhash)]);
    IdleEffectsQueries(tx.txhash, k);
  }

  /** The fetch ends only by a non-empty answer, an abort or a failure, each
      of which it can point to; otherwise it is still waiting, with every
      iteration so far idle. */
  lemma FetchEndsOnlyBy(post: PostOutcome, polls: seq<Poll>)
    ensures var p := Fetch(post, polls).phase;
            && (p.Done? ==>
                  (post == Posted(p.txResult) && |p.txInfos| > 0 &&
                   exists k :: 0 <= k < |polls| && polls[k] == Poll(false, Rows(p.txInfos))))
            && (p.Stopped? ==> post == PostAborted || exists k :: 0 <= k < |polls| && polls[k].aborted)
            && (p.Failed? ==>
                  (post == PostRejected(p.error) ||
                   exists k :: 0 <= k < |polls| && polls[k] == Poll(false, QueryRejected(p.error))))
            && (p.Waiting? ==>
                  (post == Posted(p.txResult) && p.queries == |polls| &&
                   forall k :: 0 <= k < |polls| ==> Idle(polls[k])))
  {
    if post.Posted? {
      var k := FirstSettle(polls);
      if k == |polls| {
        FetchWaitsWhileIdle(post.txResult, polls);
      } else {
        FetchSettlesAt(post.txResult, polls, k);
      }
    }
  }
}
