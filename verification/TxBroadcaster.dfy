/**
 Multi-RPC broadcast with replacement (txBroadcaster.ts): one nonce, a fee-bumping loop, three kinds
 of result. `Step` is one atomic action of a call or of the world around it; `LegalRun` are the event
 lists that can happen. The loop itself is `Broadcaster.BroadcastWithReplacement`, which is proved to
 produce such a run.
 */
module TxBroadcaster {
  import opened Ordered
  import opened Chain
  import opened FeeLadder
  import Arithmetic

  const ONE_GWEI: nat := 1_000_000_000
  const FIFTY_GWEI: nat := 50_000_000_000
  const POLL_INTERVAL_MS: nat := 500

  datatype FailureKind = NoRpcAccepted | Reverted | LoopExhausted | Threw

  datatype BroadcastResult =
    | Mined(txHash: Tx)
    | Pending(txHash: Tx)
    | Failed(error: FailureKind, lastTxHash: Option<Tx>)

  datatype Options = Options(replacementDelayMs: nat, maxReplacements: int, priorityFeeBumpPercent: nat)

  /** What one call works on; the fees are those after defaulting. */
  datatype Job = Job(call: LiquidationCall, nonce: nat, priorityFee: nat, maxFee: nat, options: Options, canSign: bool)

  /** `Polling` is the inner loop's guard, `Asking` the wait for a receipt, `Sleeping` the pause after none. */
  datatype Phase = Signing | Polling | Asking | Sleeping | Done(result: BroadcastResult)

  /** The loop's variables; `signed` and `sent` are the transactions signed and accepted, in order. */
  datatype Progress = Progress(
    phase: Phase,
    attempt: nat,
    currentPriorityFee: nat,
    currentMaxFee: nat,
    startTime: nat,
    signed: seq<Tx>,
    sent: seq<Tx>,
    polls: seq<nat>)

  /** `talk` is what the call has said to the nodes so far, and their answers. */
  datatype World = World(chain: ChainState, clock: nat, progress: Progress, talk: seq<Exchange>)

  datatype Event =
    | Others(chain: ChainState, clock: nat)
    | SignFails
    | Broadcast(accepts: seq<bool>)
    | Ask
    | Answer(status: Option<bool>)
    | Wake(clock: nat)
    | Expire

  function Start(job: Job): Progress {
    Progress(if job.options.maxReplacements < 0 then Done(Failed(LoopExhausted, None)) else Signing,
             0, job.priorityFee, job.maxFee, 0, [], [], [])
  }

  /** A call about to start. */
  function Begin(job: Job, chain: ChainState, clock: nat): World {
    World(chain, clock, Start(job), [])
  }

  function Last<T>(s: seq<T>): T
    requires s != []
  {
    s[|s| - 1]
  }

  predicate Legal(job: Job, w: World, e: Event) {
    var p := w.progress;
    match e
    case Others(chain, clock) => OthersOnly(w.chain, chain, job.call.user) && clock >= w.clock
    case SignFails => p.phase == Signing && !job.canSign
    case Broadcast(_) => p.phase == Signing
    case Ask => p.phase == Polling && w.clock - p.startTime < job.options.replacementDelayMs
    case Answer(status) =>
      && p.phase == Asking && p.sent != []
      && (status.Some? ==>
            job.nonce in w.chain.consumed && w.chain.consumed[job.nonce] == Own(Last(p.sent), status.value))
    case Wake(clock) => p.phase == Sleeping && clock >= w.clock + POLL_INTERVAL_MS
    case Expire => p.phase == Polling && p.sent != [] && w.clock - p.startTime >= job.options.replacementDelayMs
  }

  /** After a rejected broadcast: the last attempt classifies, an earlier one tries again, same fees. */
  function AfterRejection(job: Job, p: Progress): Progress {
    if p.attempt == job.options.maxReplacements then
      p.(phase := Done(if p.sent != [] then Pending(Last(p.sent)) else Failed(NoRpcAccepted, None)))
    else
      p.(attempt := p.attempt + 1)
  }

  function AfterTimeout(job: Job, p: Progress): Progress
    requires p.sent != []
  {
    if p.attempt == job.options.maxReplacements then
      p.(phase := Done(Pending(Last(p.sent))))
    else
      var percent := job.options.priorityFeeBumpPercent;
      p.(phase := Signing, attempt := p.attempt + 1,
         currentPriorityFee := Bump(p.currentPriorityFee, percent),
         currentMaxFee := Bump(p.currentMaxFee, percent))
  }

  function Step(job: Job, w: World, e: Event): World
    requires Legal(job, w, e)
  {
    var p := w.progress;
    match e
    case Others(chain, clock) => w.(chain := chain, clock := clock)
    case SignFails => w.(progress := p.(phase := Done(Failed(Threw, None))))
    case Broadcast(accepts) =>
      var tx := Tx(job.call, job.nonce, p.currentPriorityFee, p.currentMaxFee);
      var q := p.(signed := p.signed + [tx]);
      var talk := w.talk + [Offered(tx, accepts)];
      if true in accepts then
        w.(chain := w.chain.(accepted := w.chain.accepted + {tx}), talk := talk,
           progress := q.(phase := Polling, sent := p.sent + [tx], polls := p.polls + [0], startTime := w.clock))
      else
        w.(progress := AfterRejection(job, q), talk := talk)
    case Ask =>
      var polls := if p.polls == [] then [] else p.polls[..|p.polls| - 1] + [Last(p.polls) + 1];
      w.(progress := p.(phase := Asking, polls := polls))
    case Answer(status) =>
      var tx := Last(p.sent);
      var phase := match status
        case None => Sleeping
        case Some(success) => Done(if success then Mined(tx) else Failed(Reverted, Some(tx)));
      w.(progress := p.(phase := phase), talk := w.talk + [Asked(tx, status)])
    case Wake(clock) =>
      w.(clock := clock, progress := p.(phase := Polling), talk := w.talk + [Slept(POLL_INTERVAL_MS)])
    case Expire => w.(progress := AfterTimeout(job, p))
  }

  /** The events of a run, oldest innermost. */
  datatype Trace = Empty | Then(prefix: Trace, event: Event)

  ghost predicate LegalRun(job: Job, w: World, es: Trace)
    decreases es, 0
  {
    es.Empty? || (LegalRun(job, w, es.prefix) && Legal(job, After(job, w, es.prefix), es.event))
  }

  ghost function After(job: Job, w: World, es: Trace): World
    requires LegalRun(job, w, es)
    decreases es, 1
  {
    if es.Empty? then w else Step(job, After(job, w, es.prefix), es.event)
  }

  // ----- What every run keeps -----

  /** ⌈delay / 500⌉. */
  function PollCap(delayMs: nat): nat {
    (delayMs + POLL_INTERVAL_MS - 1) / POLL_INTERVAL_MS
  }

  /** The k-th transaction a call gets accepted: same call, same nonce, k times bumped fees. */
  function Rung(job: Job, k: nat): Tx {
    Tx(job.call, job.nonce, Ladder(job.priorityFee, job.options.priorityFeeBumpPercent, k),
       Ladder(job.maxFee, job.options.priorityFeeBumpPercent, k))
  }

  ghost predicate OnLadder(job: Job, t: Tx) {
    exists k :: 0 <= k && t == Rung(job, k)
  }

  ghost predicate FeesAt(job: Job, p: Progress, k: nat) {
    && p.currentPriorityFee == Ladder(job.priorityFee, job.options.priorityFeeBumpPercent, k)
    && p.currentMaxFee == Ladder(job.maxFee, job.options.priorityFeeBumpPercent, k)
  }

  /** The result is a true statement about the chain. */
  ghost predicate ResultIsTrue(job: Job, chain: ChainState, p: Progress, r: BroadcastResult) {
    match r
    case Mined(t) =>
      p.sent != [] && t == Last(p.sent) && job.nonce in chain.consumed && chain.consumed[job.nonce] == Own(t, true)
    case Pending(t) => p.sent != [] && t == Last(p.sent) && |p.signed| == job.options.maxReplacements + 1
    case Failed(Reverted, Some(t)) =>
      p.sent != [] && t == Last(p.sent) && job.nonce in chain.consumed && chain.consumed[job.nonce] == Own(t, false)
    case Failed(NoRpcAccepted, None) => p.sent == [] && |p.signed| == job.options.maxReplacements + 1 > 0
    case Failed(LoopExhausted, None) => p.sent == [] && p.signed == [] && job.options.maxReplacements < 0
    case Failed(Threw, None) => !job.canSign && |p.signed| <= job.options.maxReplacements
    case Failed(_, _) => false
  }

  ghost predicate PhaseInvariant(job: Job, chain: ChainState, clock: nat, p: Progress) {
    var delay := job.options.replacementDelayMs;
    match p.phase
    case Signing => p.attempt <= job.options.maxReplacements && |p.signed| == p.attempt && FeesAt(job, p, |p.sent|)
    case Polling =>
      && p.attempt <= job.options.maxReplacements && |p.signed| == p.attempt + 1
      && p.sent != [] && |p.polls| == |p.sent| && FeesAt(job, p, |p.sent| - 1)
      && p.startTime + POLL_INTERVAL_MS * Last(p.polls) <= clock
    case Asking | Sleeping =>
      && p.attempt <= job.options.maxReplacements && |p.signed| == p.attempt + 1
      && p.sent != [] && |p.polls| == |p.sent| && FeesAt(job, p, |p.sent| - 1) && Last(p.polls) > 0
      && p.startTime + POLL_INTERVAL_MS * (Last(p.polls) - 1) <= clock
    case Done(r) => ResultIsTrue(job, chain, p, r)
  }

  ghost predicate RunInvariant(job: Job, before: ChainState, w: World) {
    var p := w.progress;
    && Follows(before, w.chain)
    && |p.polls| == |p.sent| <= |p.signed|
    && |p.signed| <= (if job.options.maxReplacements < 0 then 0 else job.options.maxReplacements + 1)
    && (forall t :: t in p.signed ==> OnLadder(job, t))
    && (forall t :: t in p.sent ==> t in p.signed && t in w.chain.accepted)
    && (forall k :: 0 <= k < |p.sent| ==> p.sent[k] == Rung(job, k))
    && (forall k :: 0 <= k < |p.polls| ==> p.polls[k] <= PollCap(job.options.replacementDelayMs))
    && (forall t :: t in w.chain.accepted && t.call.user == job.call.user ==> t in before.accepted || t in p.sent)
    && PhaseInvariant(job, w.chain, w.clock, p)
  }

  lemma RejectionKeepsInvariant(job: Job, before: ChainState, w: World, accepts: seq<bool>)
    requires RunInvariant(job, before, w) && Legal(job, w, Broadcast(accepts)) && true !in accepts
    ensures RunInvariant(job, before, Step(job, w, Broadcast(accepts)))
  {
    var p := w.progress;
    assert Tx(job.call, job.nonce, p.currentPriorityFee, p.currentMaxFee) == Rung(job, |p.sent|);
  }

  lemma AcceptanceKeepsInvariant(job: Job, before: ChainState, w: World, accepts: seq<bool>)
    requires RunInvariant(job, before, w) && Legal(job, w, Broadcast(accepts)) && true in accepts
    ensures RunInvariant(job, before, Step(job, w, Broadcast(accepts)))
  {
    var p := w.progress;
    assert Tx(job.call, job.nonce, p.currentPriorityFee, p.currentMaxFee) == Rung(job, |p.sent|);
  }

  lemma AskKeepsInvariant(job: Job, before: ChainState, w: World)
    requires RunInvariant(job, before, w) && Legal(job, w, Ask)
    ensures RunInvariant(job, before, Step(job, w, Ask))
  {
    assert POLL_INTERVAL_MS * Last(w.progress.polls) < job.options.replacementDelayMs;
  }

  lemma StepKeepsInvariant(job: Job, before: ChainState, w: World, e: Event)
    requires RunInvariant(job, before, w) && Legal(job, w, e)
    ensures RunInvariant(job, before, Step(job, w, e))
  {
    match e
    case Others(_, _) =>
    case SignFails =>
    case Broadcast(accepts) =>
      if true in accepts {
        AcceptanceKeepsInvariant(job, before, w, accepts);
      } else {
        RejectionKeepsInvariant(job, before, w, accepts);
      }
    case Ask => AskKeepsInvariant(job, before, w);
    case Answer(_) =>
    case Wake(_) =>
    case Expire =>
  }

  /** Everything above holds after every legal run from a fresh call. */
  lemma {:induction false} RunKeepsInvariant(job: Job, chain: ChainState, clock: nat, es: Trace)
    requires WellFormed(chain)
    requires LegalRun(job, Begin(job, chain, clock), es)
    ensures RunInvariant(job, chain, After(job, Begin(job, chain, clock), es))
  {
    if es.Then? {
      var init := es.prefix;
      RunKeepsInvariant(job, chain, clock, init);
      StepKeepsInvariant(job, chain, After(job, Begin(job, chain, clock), init), es.event);
    }
  }

  // ----- What is said to the nodes -----

  /**
   What was said and heard so far: the offers are the signed transactions, in order, each at the rung of as
   many bumps as were accepted before it; accepted are the sent ones; receipts are asked for the last
   accepted one only, and none came but the one that ends the call; every pause is the poll interval.
   */
  ghost predicate TalkInvariant(job: Job, w: World) {
    && OfferedTxs(w.talk) == w.progress.signed
    && AcceptedTxs(w.talk) == w.progress.sent
    && (forall i :: 0 <= i < |w.talk| ==> Fitting(job, w.talk, i))
    && (forall i :: 0 <= i < |w.talk| && w.talk[i].Asked? && w.talk[i].status.Some? ==>
          i == |w.talk| - 1 && w.progress.phase == Done(ReceiptResult(w.talk[i])))
    && (w.progress.phase.Done? ==> match w.progress.phase.result
          case Mined(t) => w.talk != [] && Last(w.talk) == Asked(t, Some(true))
          case Failed(Reverted, Some(t)) => w.talk != [] && Last(w.talk) == Asked(t, Some(false))
          case _ => true)
  }

  /** The i-th exchange against those before it. */
  ghost predicate Fitting(job: Job, talk: seq<Exchange>, i: nat)
    requires i < |talk|
  {
    var accepted := AcceptedTxs(talk[..i]);
    match talk[i]
    case Offered(tx, _) => tx == Rung(job, |accepted|)
    case Asked(tx, _) => accepted != [] && tx == Last(accepted)
    case Slept(ms) => accepted != [] && ms == POLL_INTERVAL_MS
  }

  function ReceiptResult(x: Exchange): BroadcastResult
    requires x.Asked? && x.status.Some?
  {
    if x.status.value then Mined(x.tx) else Failed(Reverted, Some(x.tx))
  }

  lemma AppendedFits(job: Job, talk: seq<Exchange>, x: Exchange)
    requires forall i :: 0 <= i < |talk| ==> Fitting(job, talk, i)
    requires match x
      case Offered(tx, _) => tx == Rung(job, |AcceptedTxs(talk)|)
      case Asked(tx, _) => AcceptedTxs(talk) != [] && tx == Last(AcceptedTxs(talk))
      case Slept(ms) => AcceptedTxs(talk) != [] && ms == POLL_INTERVAL_MS
    ensures forall i :: 0 <= i < |talk| + 1 ==> Fitting(job, talk + [x], i)
  {
    forall i | 0 <= i < |talk| + 1 ensures Fitting(job, talk + [x], i) {
      assert (talk + [x])[..i] == talk[..i];
      if i == |talk| {
        assert talk[..i] == talk;
      } else {
        assert Fitting(job, talk, i);
      }
    }
  }

  lemma StepKeepsTalk(job: Job, before: ChainState, w: World, e: Event)
    requires RunInvariant(job, before, w) && TalkInvariant(job, w) && Legal(job, w, e)
    ensures TalkInvariant(job, Step(job, w, e))
  {
    match e
    case Others(_, _) =>
    case SignFails =>
    case Broadcast(accepts) => BroadcastKeepsTalk(job, before, w, accepts);
    case Ask =>
    case Answer(status) => AnswerKeepsTalk(job, before, w, status);
    case Wake(clock) => WakeKeepsTalk(job, before, w, clock);
    case Expire =>
  }

  lemma BroadcastKeepsTalk(job: Job, before: ChainState, w: World, accepts: seq<bool>)
    requires RunInvariant(job, before, w) && TalkInvariant(job, w) && Legal(job, w, Broadcast(accepts))
    ensures TalkInvariant(job, Step(job, w, Broadcast(accepts)))
  {
    var x := Offered(Tx(job.call, job.nonce, w.progress.currentPriorityFee, w.progress.currentMaxFee), accepts);
    TxsOfAppended(w.talk, x);
    AppendedFits(job, w.talk, x);
  }

  lemma AnswerKeepsTalk(job: Job, before: ChainState, w: World, status: Option<bool>)
    requires RunInvariant(job, before, w) && TalkInvariant(job, w) && Legal(job, w, Answer(status))
    ensures TalkInvariant(job, Step(job, w, Answer(status)))
  {
    var x := Asked(Last(w.progress.sent), status);
    TxsOfAppended(w.talk, x);
    AppendedFits(job, w.talk, x);
  }

  lemma WakeKeepsTalk(job: Job, before: ChainState, w: World, clock: nat)
    requires RunInvariant(job, before, w) && TalkInvariant(job, w) && Legal(job, w, Wake(clock))
    ensures TalkInvariant(job, Step(job, w, Wake(clock)))
  {
    TxsOfAppended(w.talk, Slept(POLL_INTERVAL_MS));
    AppendedFits(job, w.talk, Slept(POLL_INTERVAL_MS));
  }

  lemma {:induction false} RunKeepsTalk(job: Job, chain: ChainState, clock: nat, es: Trace)
    requires WellFormed(chain) && LegalRun(job, Begin(job, chain, clock), es)
    ensures TalkInvariant(job, After(job, Begin(job, chain, clock), es))
  {
    if es.Then? {
      RunKeepsTalk(job, chain, clock, es.prefix);
      RunKeepsInvariant(job, chain, clock, es.prefix);
      StepKeepsTalk(job, chain, After(job, Begin(job, chain, clock), es.prefix), es.event);
    }
  }

  /** What the exchanges of a call must show for its result; `attempts` is the number of transactions it may sign. */
  ghost predicate Shows(talk: seq<Exchange>, attempts: int, r: BroadcastResult) {
    match r
    case Mined(t) => talk != [] && Last(talk) == Asked(t, Some(true)) && t in AcceptedTxs(talk)
    case Failed(Reverted, Some(t)) => talk != [] && Last(talk) == Asked(t, Some(false)) && t in AcceptedTxs(talk)
    case Pending(t) =>
      && |OfferedTxs(talk)| == attempts
      && AcceptedTxs(talk) != [] && t == Last(AcceptedTxs(talk))
      && forall x :: x in talk && x.Asked? ==> x.status == None
    case Failed(NoRpcAccepted, None) =>
      |OfferedTxs(talk)| == attempts && forall x :: x in talk ==> x.Offered? && true !in x.accepts
    case Failed(LoopExhausted, None) => talk == [] && attempts <= 0
    case Failed(Threw, None) => |OfferedTxs(talk)| < attempts
    case Failed(_, _) => false
  }

  /**
   The result is what was said and heard: a receipt of an accepted transaction; or, for `pending`, all
   offers made, the last accepted one named and no receipt for any poll; or all offers made and every one of
   them refused by every provider.
   */
  lemma ResultsAreHeard(job: Job, chain: ChainState, clock: nat, es: Trace, r: BroadcastResult)
    requires WellFormed(chain) && Returns(job, chain, clock, es, r)
    ensures Shows(End(job, chain, clock, es).talk, job.options.maxReplacements + 1, r)
  {
    var w := End(job, chain, clock, es);
    RunKeepsInvariant(job, chain, clock, es);
    RunKeepsTalk(job, chain, clock, es);
    if AcceptedTxs(w.talk) == [] {
      NothingAccepted(job, w.talk);
    }
    if job.options.maxReplacements < 0 {
      TailRunsStayDone(job, chain, clock, es);
      TailRunsSayNothing(job, chain, clock, es);
    }
  }

  lemma {:induction false} AcceptedOnlyGrow(talk: seq<Exchange>, i: nat)
    requires i <= |talk|
    ensures AcceptedTxs(talk[..i]) <= AcceptedTxs(talk)
    decreases |talk|
  {
    if i < |talk| {
      var init := talk[..|talk| - 1];
      AcceptedOnlyGrow(init, i);
      assert init[..i] == talk[..i];
    } else {
      assert talk[..i] == talk;
    }
  }

  lemma AcceptedUpTo(talk: seq<Exchange>, i: nat)
    requires i < |talk|
    ensures AcceptedTxs(talk[..i + 1])
         == if talk[i].Offered? && true in talk[i].accepts then AcceptedTxs(talk[..i]) + [talk[i].tx]
            else AcceptedTxs(talk[..i])
  {
    assert talk[..i + 1][..i] == talk[..i];
  }

  lemma RefusedAt(job: Job, talk: seq<Exchange>, i: nat)
    requires i < |talk| && AcceptedTxs(talk) == [] && Fitting(job, talk, i)
    ensures talk[i].Offered? && true !in talk[i].accepts
  {
    AcceptedOnlyGrow(talk, i);
    AcceptedOnlyGrow(talk, i + 1);
    AcceptedUpTo(talk, i);
  }

  lemma NothingAccepted(job: Job, talk: seq<Exchange>)
    requires AcceptedTxs(talk) == [] && forall i :: 0 <= i < |talk| ==> Fitting(job, talk, i)
    ensures forall x :: x in talk ==> x.Offered? && true !in x.accepts
  {
    forall i | 0 <= i < |talk| ensures talk[i].Offered? && true !in talk[i].accepts {
      RefusedAt(job, talk, i);
    }
  }

  lemma {:induction false} TailRunsSayNothing(job: Job, chain: ChainState, clock: nat, es: Trace)
    requires job.options.maxReplacements < 0
    requires LegalRun(job, Begin(job, chain, clock), es)
    ensures End(job, chain, clock, es).talk == []
  {
    if es.Then? {
      TailRunsSayNothing(job, chain, clock, es.prefix);
      TailRunsStayDone(job, chain, clock, es.prefix);
    }
  }

  /**
   What a call does itself is, for every other user, only the work of others: the guarantee that
   matches the `Others` steps of their calls.
   */
  lemma OwnStepsAreOthersForTheRest(job: Job, before: ChainState, w: World, e: Event, user: string)
    requires RunInvariant(job, before, w) && Legal(job, w, e) && !e.Others?
    requires user != job.call.user
    ensures OthersOnly(w.chain, Step(job, w, e).chain, user)
  {
    StepKeepsInvariant(job, before, w, e);
  }

  // ----- What a result means -----

  /** The world after a run of a call started on `chain`. */
  ghost function End(job: Job, chain: ChainState, clock: nat, es: Trace): World
    requires LegalRun(job, Begin(job, chain, clock), es)
  {
    After(job, Begin(job, chain, clock), es)
  }

  ghost predicate Returns(job: Job, chain: ChainState, clock: nat, es: Trace, r: BroadcastResult) {
    && LegalRun(job, Begin(job, chain, clock), es)
    && End(job, chain, clock, es).progress.phase == Done(r)
  }

  /**
   Every result is a true statement about the chain: `mined` names a transaction of this call that
   succeeded, `pending` the last one accepted once all replacements are used up, and `failed` means
   nothing was ever accepted or the nonce went to a reverted transaction of this call - unless signing threw.
   */
  lemma EveryResultIsTrue(job: Job, chain: ChainState, clock: nat, es: Trace, r: BroadcastResult)
    requires WellFormed(chain) && Returns(job, chain, clock, es, r)
    ensures var w := End(job, chain, clock, es); var sent := w.progress.sent;
      && (forall t :: t in sent ==> t in w.chain.accepted && t.call == job.call && t.nonce == job.nonce)
      && (r.Mined? ==> r.txHash in sent && Succeeded(w.chain, r.txHash))
      && (r.Pending? ==> sent != [] && r.txHash == Last(sent))
      && (r.Pending? || (r.Failed? && r.error == NoRpcAccepted) ==>
            |w.progress.signed| == job.options.maxReplacements + 1)
      && (r.Failed? && r.error == Reverted ==>
            r.lastTxHash.Some? && r.lastTxHash.value in sent && job.nonce in w.chain.consumed
            && w.chain.consumed[job.nonce] == Own(r.lastTxHash.value, false))
      && (r.Failed? && r.error != Reverted ==> r.lastTxHash == None)
      && (r.Failed? && r.error != Reverted && job.canSign ==> sent == [])
      && (r.Failed? && r.error == LoopExhausted <==> job.options.maxReplacements < 0)
  {
    RunKeepsInvariant(job, chain, clock, es);
    if job.options.maxReplacements < 0 {
      TailRunsStayDone(job, chain, clock, es);
    }
  }

  lemma {:induction false} TailRunsStayDone(job: Job, chain: ChainState, clock: nat, es: Trace)
    requires job.options.maxReplacements < 0
    requires LegalRun(job, Begin(job, chain, clock), es)
    ensures End(job, chain, clock, es).progress == Start(job)
  {
    if es.Then? {
      TailRunsStayDone(job, chain, clock, es.prefix);
    }
  }

  /** All transactions a call signs share one nonce, so at most one of them ever lands. */
  lemma AtMostOneLands(job: Job, chain: ChainState, clock: nat, es: Trace, later: ChainState, t1: Tx, t2: Tx)
    requires WellFormed(chain) && LegalRun(job, Begin(job, chain, clock), es)
    requires Follows(End(job, chain, clock, es).chain, later)
    requires t1 in End(job, chain, clock, es).progress.signed && Landed(later, t1)
    requires t2 in End(job, chain, clock, es).progress.signed && Landed(later, t2)
    ensures t1 == t2
  {
    RunKeepsInvariant(job, chain, clock, es);
  }

  /** No earlier transaction of the user is still fighting for this nonce. */
  ghost predicate NonceIsFree(job: Job, chain: ChainState) {
    && job.nonce !in chain.consumed
    && forall t :: t in chain.accepted && t.call.user == job.call.user ==> t.nonce != job.nonce
  }

  /** `r` is final: as long as nobody broadcasts for the user again, no signed transaction succeeds. */
  ghost predicate NothingCanSucceed(job: Job, w: World) {
    forall later, t :: OthersOnly(w.chain, later, job.call.user) && t in w.progress.signed ==> !Succeeded(later, t)
  }

  lemma FailureIsFinal(job: Job, chain: ChainState, clock: nat, es: Trace, r: BroadcastResult)
    requires WellFormed(chain) && NonceIsFree(job, chain)
    requires Returns(job, chain, clock, es, r) && r.Failed?
    requires job.canSign || job.options.maxReplacements <= 0
    ensures NothingCanSucceed(job, End(job, chain, clock, es))
  {
    RunKeepsInvariant(job, chain, clock, es);
    var w := End(job, chain, clock, es);
    forall later, t | OthersOnly(w.chain, later, job.call.user) && t in w.progress.signed
      ensures !Succeeded(later, t)
    {
      assert t.nonce == job.nonce && t.call == job.call;
    }
  }

  /** A signer that throws after an accepted broadcast makes `failed` report a live transaction. */
  lemma ThrowingSignerHidesLiveTransaction(job: Job, chain: ChainState, clock: nat)
    returns (es: Trace, later: ChainState)
    requires WellFormed(chain) && NonceIsFree(job, chain)
    requires !job.canSign && job.options.maxReplacements > 0
    ensures Returns(job, chain, clock, es, Failed(Threw, None))
    ensures OthersOnly(End(job, chain, clock, es).chain, later, job.call.user)
    ensures exists t :: t in End(job, chain, clock, es).progress.signed && Succeeded(later, t)
    ensures End(job, chain, clock, es).chain == chain.(accepted := chain.accepted + {Rung(job, 0)})
    ensures End(job, chain, clock, es).progress.sent == [Rung(job, 0)]
  {
    var w0 := Begin(job, chain, clock);
    var tx := Rung(job, 0);
    assert true in [true];
    var r1 := Then(Empty, Broadcast([true]));
    var w1 := After(job, w0, r1);
    var r2 := Then(r1, Others(w1.chain, clock + job.options.replacementDelayMs));
    var w2 := After(job, w0, r2);
    var r3 := Then(r2, Expire);
    var w3 := After(job, w0, r3);
    es := Then(r3, SignFails);
    later := w1.chain.(consumed := w1.chain.consumed[job.nonce := Own(tx, true)]);
    assert later.consumed[job.nonce] == Own(tx, true);
    assert tx in w1.progress.signed && w3.progress.signed == w1.progress.signed;
  }

  /** Exactly when every `failed` result is final: the signer never throws, or there is no replacement. */
  lemma FailureIsFinalIff(job: Job, chain: ChainState, clock: nat)
    requires WellFormed(chain) && NonceIsFree(job, chain)
    ensures (forall es, r :: Returns(job, chain, clock, es, r) && r.Failed? ==>
               NothingCanSucceed(job, End(job, chain, clock, es)))
       <==> job.canSign || job.options.maxReplacements <= 0
  {
    if job.canSign || job.options.maxReplacements <= 0 {
      forall es, r | Returns(job, chain, clock, es, r) && r.Failed?
        ensures NothingCanSucceed(job, End(job, chain, clock, es))
      {
        FailureIsFinal(job, chain, clock, es, r);
      }
    } else {
      var es, later := ThrowingSignerHidesLiveTransaction(job, chain, clock);
      assert Returns(job, chain, clock, es, Failed(Threw, None));
      assert !NothingCanSucceed(job, End(job, chain, clock, es));
    }
  }

  /**
   What a `failed` result is worth by itself: it is final exactly when nothing was accepted, or the nonce
   is gone and not to a success of this call. A `Reverted` result always is; one that threw is not while
   its nonce is still open.
   */
  lemma FailedResultIsFinalIff(job: Job, chain: ChainState, clock: nat, es: Trace, error: FailureKind, hash: Option<Tx>)
    requires WellFormed(chain) && NonceIsFree(job, chain)
    requires Returns(job, chain, clock, es, Failed(error, hash))
    ensures var w := End(job, chain, clock, es);
      && (NothingCanSucceed(job, w) <==>
            w.progress.sent == []
            || (job.nonce in w.chain.consumed
                && forall t :: t in w.progress.sent ==> w.chain.consumed[job.nonce] != Own(t, true)))
      && (error == Reverted ==> NothingCanSucceed(job, w))
      && (error == NoRpcAccepted || error == LoopExhausted ==> w.progress.sent == [])
  {
    RunKeepsInvariant(job, chain, clock, es);
    var w := End(job, chain, clock, es);
    forall later, t | OthersOnly(w.chain, later, job.call.user) && t in w.progress.signed && Succeeded(later, t)
      ensures t in w.progress.sent && later.consumed[job.nonce] == Own(t, true)
    {
      assert t.nonce == job.nonce && t.call == job.call;
    }
    if w.progress.sent != [] {
      var t := Last(w.progress.sent);
      if job.nonce !in w.chain.consumed {
        var later := w.chain.(consumed := w.chain.consumed[job.nonce := Own(t, true)]);
        assert later.consumed[job.nonce] == Own(t, true);
        assert OthersOnly(w.chain, later, job.call.user) && Succeeded(later, t);
      } else if x :| x in w.progress.sent && w.chain.consumed[job.nonce] == Own(x, true) {
        assert OthersOnly(w.chain, w.chain, job.call.user) && Succeeded(w.chain, x);
      }
    }
  }

  /** Replacements that are all refused end the call with the last accepted transaction. */
  lemma {:induction false} RefusedReplacements(job: Job, w0: World, es: Trace) returns (es': Trace)
    requires LegalRun(job, w0, es)
    requires var p := After(job, w0, es).progress;
      p.phase == Signing && p.attempt <= job.options.maxReplacements && p.sent != []
    ensures LegalRun(job, w0, es') && After(job, w0, es').chain == After(job, w0, es).chain
    ensures After(job, w0, es').progress.phase == Done(Pending(Last(After(job, w0, es).progress.sent)))
    decreases job.options.maxReplacements - After(job, w0, es).progress.attempt
  {
    var refused := Broadcast([false]);
    assert true !in refused.accepts;
    var r1 := Then(es, refused);
    var w1 := After(job, w0, r1);
    es' := r1;
    if !w1.progress.phase.Done? {
      es' := RefusedReplacements(job, w0, r1);
    }
  }

  /** The first transaction is mined unnoticed, every replacement is refused, the result is `pending`. */
  lemma MinedButPending(job: Job, chain: ChainState, clock: nat) returns (es: Trace)
    requires WellFormed(chain) && NonceIsFree(job, chain)
    requires job.options.maxReplacements >= 0
    ensures Returns(job, chain, clock, es, Pending(Rung(job, 0)))
    ensures Succeeded(End(job, chain, clock, es).chain, Rung(job, 0))
  {
    var w0 := Begin(job, chain, clock);
    var tx := Rung(job, 0);
    assert true in [true];
    var r1 := Then(Empty, Broadcast([true]));
    var w1 := After(job, w0, r1);
    var mined := w1.chain.(consumed := w1.chain.consumed[job.nonce := Own(tx, true)]);
    var r2 := Then(r1, Others(mined, clock + job.options.replacementDelayMs));
    var w2 := After(job, w0, r2);
    var r3 := Then(r2, Expire);
    var w3 := After(job, w0, r3);
    assert w3.chain == mined && Last(w3.progress.sent) == tx;
    es := r3;
    if !w3.progress.phase.Done? {
      es := RefusedReplacements(job, w0, r3);
    }
    assert mined.consumed[job.nonce] == Own(tx, true);
  }

  /**
   Exactly when `pending` excludes "already mined": never for a call that signs anything. Only a negative
   maxReplacements, which returns no `pending` at all, makes it true.
   */
  lemma PendingExcludesMinedIff(job: Job, chain: ChainState, clock: nat)
    requires WellFormed(chain) && NonceIsFree(job, chain)
    ensures (forall es, t :: Returns(job, chain, clock, es, Pending(t)) ==>
               !Succeeded(End(job, chain, clock, es).chain, t))
       <==> job.options.maxReplacements < 0
  {
    if job.options.maxReplacements < 0 {
      forall es, t ensures !Returns(job, chain, clock, es, Pending(t)) {
        if LegalRun(job, Begin(job, chain, clock), es) {
          TailRunsStayDone(job, chain, clock, es);
        }
      }
    } else {
      var es := MinedButPending(job, chain, clock);
      assert Returns(job, chain, clock, es, Pending(Rung(job, 0)));
    }
  }

  /** With the options the executor uses, a call may return `pending` for a transaction that succeeded. */
  lemma PendingMayAlreadyBeMined(job: Job, chain: ChainState, clock: nat) returns (es: Trace, t: Tx)
    requires WellFormed(chain) && NonceIsFree(job, chain)
    requires job.options == Options(3000, 3, 20)
    ensures Returns(job, chain, clock, es, Pending(t)) && Succeeded(End(job, chain, clock, es).chain, t)
  {
    PendingExcludesMinedIff(job, chain, clock);
    es, t :| Returns(job, chain, clock, es, Pending(t)) && Succeeded(End(job, chain, clock, es).chain, t);
  }

  // ----- Bounds and termination -----

  /**
   A call signs at most maxReplacements + 1 transactions and polls each accepted one at most
   ⌈delay / 500⌉ times; the accepted ones climb the fee ladder, and every signed transaction
   has priority fee <= max fee exactly when the starting fees do.
   */
  lemma CallBounds(job: Job, chain: ChainState, clock: nat, es: Trace)
    requires WellFormed(chain) && LegalRun(job, Begin(job, chain, clock), es)
    requires job.options.maxReplacements >= 0
    ensures var p := End(job, chain, clock, es).progress;
      && |p.sent| <= |p.signed| <= job.options.maxReplacements + 1
      && |p.polls| == |p.sent|
      && (forall k :: 0 <= k < |p.sent| ==> p.sent[k] == Rung(job, k))
      && (forall k :: 0 <= k < |p.polls| ==> p.polls[k] <= PollCap(job.options.replacementDelayMs))
      && (forall t :: t in p.signed ==>
            (t.maxPriorityFeePerGas <= t.maxFeePerGas <==> job.priorityFee <= job.maxFee))
  {
    RunKeepsInvariant(job, chain, clock, es);
    forall t | t in End(job, chain, clock, es).progress.signed
      ensures t.maxPriorityFeePerGas <= t.maxFeePerGas <==> job.priorityFee <= job.maxFee
    {
      var k :| 0 <= k && t == Rung(job, k);
      LadderKeepsFeeValidity(job.priorityFee, job.maxFee, job.options.priorityFeeBumpPercent, k);
    }
  }

  /** The call's own events; `Others` belongs to the world. */
  ghost function OwnEvents(es: Trace): nat {
    if es.Empty? then 0 else OwnEvents(es.prefix) + if es.event.Others? then 0 else 1
  }

  /** Steps one attempt can take: broadcast, then ask, hear and sleep up to the cap, then time out. */
  function StepsPerAttempt(job: Job): nat {
    3 * PollCap(job.options.replacementDelayMs) + 2
  }

  /** What is left to do. */
  ghost function Rank(job: Job, p: Progress): int {
    var cap, perAttempt := PollCap(job.options.replacementDelayMs), StepsPerAttempt(job);
    var attemptsLeft := job.options.maxReplacements - p.attempt;
    match p.phase
    case Signing => attemptsLeft * perAttempt + perAttempt
    case Polling => attemptsLeft * perAttempt + if p.polls == [] then 0 else 3 * (cap - Last(p.polls)) + 1
    case Asking => attemptsLeft * perAttempt + if p.polls == [] then 0 else 3 * (cap - Last(p.polls)) + 3
    case Sleeping => attemptsLeft * perAttempt + if p.polls == [] then 0 else 3 * (cap - Last(p.polls)) + 2
    case Done(_) => 0
  }

  lemma RankFalls(job: Job, before: ChainState, w: World, e: Event)
    requires RunInvariant(job, before, w) && Legal(job, w, e)
    ensures if e.Others? then Rank(job, Step(job, w, e).progress) == Rank(job, w.progress)
            else 0 <= Rank(job, Step(job, w, e).progress) < Rank(job, w.progress)
  {
    var v := Step(job, w, e);
    if e.Others? {
      assert v.progress == w.progress;
    } else {
      StepKeepsInvariant(job, before, w, e);
      OwnStepLowersRank(job, w.chain, w.clock, w.progress, v.chain, v.clock, v.progress, e);
    }
  }

  /** The same for the progress alone. */
  lemma OwnStepLowersRank(job: Job, chain: ChainState, clock: nat, p: Progress,
                          later: ChainState, time: nat, q: Progress, e: Event)
    requires PhaseInvariant(job, chain, clock, p) && PhaseInvariant(job, later, time, q)
    requires PollsCapped(job, p) && PollsCapped(job, q)
    requires Legal(job, World(chain, clock, p, []), e) && !e.Others?
    requires Step(job, World(chain, clock, p, []), e).progress == q
    ensures 0 <= Rank(job, q) < Rank(job, p)
  {
    var perAttempt := StepsPerAttempt(job);
    var left := job.options.maxReplacements - p.attempt;
    Arithmetic.MulNonNegative(left, perAttempt);
    if q.phase == Signing {
      Arithmetic.MulOneLess(left, perAttempt);
      Arithmetic.MulNonNegative(left - 1, perAttempt);
    }
  }

  ghost predicate PollsCapped(job: Job, p: Progress) {
    forall k :: 0 <= k < |p.polls| ==> p.polls[k] <= PollCap(job.options.replacementDelayMs)
  }

  lemma {:induction false} RankBoundsEvents(job: Job, chain: ChainState, clock: nat, es: Trace)
    requires WellFormed(chain) && LegalRun(job, Begin(job, chain, clock), es)
    ensures OwnEvents(es) + Rank(job, End(job, chain, clock, es).progress) <= Rank(job, Start(job))
    ensures OwnEvents(es) > 0 ==> Rank(job, End(job, chain, clock, es).progress) >= 0
  {
    if es.Then? {
      var init := es.prefix;
      RankBoundsEvents(job, chain, clock, init);
      RunKeepsInvariant(job, chain, clock, init);
      RankFalls(job, chain, End(job, chain, clock, init), es.event);
    }
  }

  lemma RankAtStart(job: Job)
    requires job.options.maxReplacements >= 0
    ensures 0 <= Rank(job, Start(job)) == (job.options.maxReplacements + 1) * StepsPerAttempt(job)
  {
    var n, perAttempt := job.options.maxReplacements, StepsPerAttempt(job);
    assert n * perAttempt + perAttempt == (n + 1) * perAttempt;
    Arithmetic.MulNonNegative(n + 1, perAttempt);
  }

  lemma StepsAreBounded(job: Job, chain: ChainState, clock: nat, es: Trace)
    requires WellFormed(chain) && LegalRun(job, Begin(job, chain, clock), es)
    requires job.options.maxReplacements >= 0
    ensures OwnEvents(es) <= (job.options.maxReplacements + 1) * StepsPerAttempt(job)
  {
    RankBoundsEvents(job, chain, clock, es);
    RankAtStart(job);
  }

  lemma RunningCallCanMove(job: Job, before: ChainState, w: World) returns (e: Event)
    requires RunInvariant(job, before, w) && !w.progress.phase.Done?
    ensures !e.Others? && Legal(job, w, e)
  {
    match w.progress.phase
    case Signing => e := Broadcast([]);
    case Polling => e := if w.clock - w.progress.startTime < job.options.replacementDelayMs then Ask else Expire;
    case Asking => e := Answer(None);
    case Sleeping => e := Wake(w.clock + POLL_INTERVAL_MS);
  }

  /**
   A call always returns: it takes at most (maxReplacements + 1)(3⌈delay/500⌉ + 2) steps of its own,
   and while it has not returned it has a step to take.
   */
  lemma CallsReturn(job: Job, chain: ChainState, clock: nat, es: Trace) returns (next: Event)
    requires WellFormed(chain) && LegalRun(job, Begin(job, chain, clock), es)
    requires job.options.maxReplacements >= 0
    ensures OwnEvents(es) <= (job.options.maxReplacements + 1) * StepsPerAttempt(job)
    ensures !End(job, chain, clock, es).progress.phase.Done? ==>
      !next.Others? && Legal(job, End(job, chain, clock, es), next)
  {
    StepsAreBounded(job, chain, clock, es);
    RunKeepsInvariant(job, chain, clock, es);
    next := Expire;
    if !End(job, chain, clock, es).progress.phase.Done? {
      next := RunningCallCanMove(job, chain, End(job, chain, clock, es));
    }
  }

  // ----- The loop -----

  /** The fields of ethers' TransactionRequest the broadcaster reads. */
  datatype TxRequest = TxRequest(
    call: LiquidationCall,
    nonce: Option<nat>,
    maxPriorityFeePerGas: nat,
    maxFeePerGas: nat)

  /** `x || d`: zero is falsy. */
  function OrDefault(x: nat, d: nat): nat {
    if x == 0 then d else x
  }

  function JobOf(request: TxRequest, nonce: nat, options: Options, canSign: bool): Job {
    Job(request.call, nonce, OrDefault(request.maxPriorityFeePerGas, ONE_GWEI),
        OrDefault(request.maxFeePerGas, FIFTY_GWEI), options, canSign)
  }

  ghost predicate AskedAbout(talk: seq<Exchange>, tx: Tx) {
    exists i :: 0 <= i < |talk| && talk[i].Asked? && talk[i].tx == tx
  }

  ghost predicate AllAsked(txs: seq<Tx>, talk: seq<Exchange>) {
    forall t :: t in txs ==> AskedAbout(talk, t)
  }

  lemma AskedStays(txs: seq<Tx>, talk: seq<Exchange>, more: seq<Exchange>)
    requires AllAsked(txs, talk) && talk <= more
    ensures AllAsked(txs, more)
  {
    forall t | t in txs ensures AskedAbout(more, t) {
      var i :| 0 <= i < |talk| && talk[i].Asked? && talk[i].tx == t;
      assert more[i] == talk[i];
    }
  }

  lemma OffersAreOfTheCall(job: Job, w: World)
    requires TalkInvariant(job, w)
    ensures forall x :: x in w.talk && x.Offered? ==> x.tx.call == job.call && x.tx.nonce == job.nonce
  {
    forall i | 0 <= i < |w.talk| && w.talk[i].Offered?
      ensures w.talk[i].tx.call == job.call && w.talk[i].tx.nonce == job.nonce
    {
      assert Fitting(job, w.talk, i);
    }
  }

  class Broadcaster {
    const options: Options
    /** The number of RPC URLs; the first is also the monitor. */
    const providers: nat

    constructor (rpcUrls: nat, replacementDelayMs: nat, maxReplacements: int, priorityFeeBumpPercent: nat)
      ensures providers == rpcUrls
      ensures options.replacementDelayMs == (if replacementDelayMs > 0 then replacementDelayMs else 3000)
      ensures options.maxReplacements == (if maxReplacements != 0 then maxReplacements else 3)
      ensures options.priorityFeeBumpPercent == (if priorityFeeBumpPercent > 0 then priorityFeeBumpPercent else 20)
    {
      providers := rpcUrls;
      options := Options(OrDefault(replacementDelayMs, 3000), if maxReplacements == 0 then 3 else maxReplacements,
                         OrDefault(priorityFeeBumpPercent, 20));
    }

    /** The local view of a running call, as the machine's progress. */
    ghost predicate InStep(job: Job, before: World, base: seq<Exchange>, es: Trace, node: Node, p: Progress)
      reads node
    {
      && LegalRun(job, before, es)
      && var w := After(job, before, es);
      && w.chain == node.chain && w.clock == node.clock && w.progress == p
      && node.talk == base + w.talk
      && (forall x :: x in w.talk && x.Offered? ==> |x.accepts| == providers)
      && WellFormed(node.chain)
    }

    /**
     Runs to a result, whatever the node answers and the world does in between. The ghost results are
     the call as a job of the machine and the legal run it took from the old chain to the new one.
     `pendingNonce` is the wallet's answer, if it is asked; without a nonce nothing is signed.
     */
    method BroadcastWithReplacement(node: Node, request: TxRequest, canSign: bool, pendingNonce: Option<nat>)
      returns (result: BroadcastResult, ghost started: bool, ghost job: Job, ghost es: Trace)
      requires WellFormed(node.chain)
      modifies node
      ensures WellFormed(node.chain)
      ensures started <==> request.nonce.Some? || pendingNonce.Some?
      ensures !started ==> result == Failed(Threw, None)
      ensures !started ==> OthersOnly(old(node.chain), node.chain, request.call.user) && node.talk == old(node.talk)
      ensures started ==>
        && job.call == request.call && job.options == options && job.canSign == canSign
        && job.nonce == (if request.nonce.Some? then request.nonce.value else pendingNonce.value)
        && job.priorityFee == (if request.maxPriorityFeePerGas > 0 then request.maxPriorityFeePerGas else 1_000_000_000)
        && job.maxFee == (if request.maxFeePerGas > 0 then request.maxFeePerGas else 50_000_000_000)
      ensures started ==> Returns(job, old(node.chain), old(node.clock), es, result)
      ensures started ==> End(job, old(node.chain), old(node.clock), es).chain == node.chain
      ensures started ==> End(job, old(node.chain), old(node.clock), es).clock == node.clock
      ensures old(node.talk) <= node.talk
      ensures started ==> var talk := node.talk[|old(node.talk)|..];
        && talk == End(job, old(node.chain), old(node.clock), es).talk
        && OfferedTxs(talk) == End(job, old(node.chain), old(node.clock), es).progress.signed
        && AcceptedTxs(talk) == End(job, old(node.chain), old(node.clock), es).progress.sent
        && (forall x :: x in talk && x.Offered? ==>
              |x.accepts| == providers && x.tx.call == request.call && x.tx.nonce == job.nonce)
        && Shows(talk, options.maxReplacements + 1, result)
        && (options.replacementDelayMs > 0 ==> forall t :: t in AcceptedTxs(talk) ==> AskedAbout(talk, t))
    {
      var user := request.call.user;
      var currentNonce := request.nonce;
      ghost var base := node.talk;
      started, job, es := false, JobOf(request, 0, options, canSign), Empty;
      node.Interfere(user);
      if currentNonce == None {
        currentNonce := pendingNonce;
        if currentNonce == None {
          return Failed(Threw, None), started, job, es;
        }
      }
      var nonce := currentNonce.value;
      started, job := true, JobOf(request, nonce, options, canSign);
      ghost var before := Begin(job, old(node.chain), old(node.clock));
      assert LegalRun(job, before, Empty);
      es := Then(Empty, Others(node.chain, node.clock));

      ghost var p;
      result, p, es := ReplacementLoop(node, request, nonce, canSign, job, before, base, es);
      RunKeepsInvariant(job, old(node.chain), old(node.clock), es);
      RunKeepsTalk(job, old(node.chain), old(node.clock), es);
      ResultsAreHeard(job, old(node.chain), old(node.clock), es, result);
      OffersAreOfTheCall(job, After(job, before, es));
    }

    /** The loop itself: the local variables follow the machine's progress until there is a result. */
    method ReplacementLoop(node: Node, request: TxRequest, nonce: nat, canSign: bool, ghost job: Job,
                           ghost before: World, ghost base: seq<Exchange>, ghost es: Trace)
      returns (result: BroadcastResult, ghost p: Progress, ghost es': Trace)
      requires job == JobOf(request, nonce, options, canSign)
      requires InStep(job, before, base, es, node, Start(job))
      modifies node
      ensures InStep(job, before, base, es', node, p) && p.phase == Done(result)
      ensures |base| <= |node.talk| && old(node.talk) <= node.talk
      ensures options.replacementDelayMs > 0 ==> AllAsked(p.sent, node.talk[|base|..])
    {
      p, es' := Start(job), es;
      var currentPriorityFee := OrDefault(request.maxPriorityFeePerGas, ONE_GWEI);
      var currentMaxFee := OrDefault(request.maxFeePerGas, FIFTY_GWEI);
      var lastTxHash: Option<Tx> := None;
      var broadcastSucceededOnce := false;
      var attempt := 0;
      while attempt <= options.maxReplacements
        invariant InStep(job, before, base, es', node, p)
        invariant 0 <= attempt
        invariant options.maxReplacements >= 0 ==> attempt <= options.maxReplacements
        invariant if options.maxReplacements < 0 then p == Start(job) else p.phase == Signing
        invariant p.attempt == attempt && p.currentPriorityFee == currentPriorityFee && p.currentMaxFee == currentMaxFee
        invariant broadcastSucceededOnce == (p.sent != [])
        invariant lastTxHash == if p.sent == [] then None else Some(Last(p.sent))
        invariant |base| <= |node.talk| && old(node.talk) <= node.talk
        invariant options.replacementDelayMs > 0 ==> AllAsked(p.sent, node.talk[|base|..])
      {
        var tx := Tx(request.call, nonce, currentPriorityFee, currentMaxFee);
        var threw, txHash;
        threw, txHash, p, es' := SignAndBroadcast(node, tx, canSign, job, before, base, es', p);
        if threw {
          return Failed(Threw, None), p, es';
        }
        if txHash == None {
          if attempt == options.maxReplacements {
            if broadcastSucceededOnce && lastTxHash.Some? {
              return Pending(lastTxHash.value), p, es';
            }
            return Failed(NoRpcAccepted, lastTxHash), p, es';
          }
          attempt := attempt + 1;
          continue;
        }
        lastTxHash := Some(tx);
        broadcastSucceededOnce := true;
        var receipt;
        receipt, p, es' := AwaitOrTimeOut(node, tx, job, before, base, es', p);
        if receipt.Some? {
          if receipt.value {
            return Mined(tx), p, es';
          } else {
            return Failed(Reverted, Some(tx)), p, es';
          }
        }
        if attempt == options.maxReplacements {
          return Pending(tx), p, es';
        }
        currentPriorityFee := Bump(currentPriorityFee, options.priorityFeeBumpPercent);
        currentMaxFee := Bump(currentMaxFee, options.priorityFeeBumpPercent);
        attempt := attempt + 1;
      }
      // Only a negative maxReplacements leads here, so the `pending` arm of the tail is dead.
      if lastTxHash.Some? {
        assert false;
      }
      return Failed(LoopExhausted, None), p, es';
    }

    /** The replacement delay is over: the machine's `Expire`. */
    lemma TimeOut(job: Job, before: World, base: seq<Exchange>, es: Trace, node: Node, p: Progress)
      returns (p': Progress, es': Trace)
      requires InStep(job, before, base, es, node, p) && Legal(job, After(job, before, es), Expire)
      ensures InStep(job, before, base, es', node, p') && p' == AfterTimeout(job, p)
    {
      p' := AfterTimeout(job, p);
      es' := Then(es, Expire);
    }

    /** The world acts between two of the call's steps. */
    method Interleave(ghost job: Job, ghost before: World, ghost base: seq<Exchange>, ghost es: Trace, node: Node,
                      ghost p: Progress, user: string)
      returns (ghost es': Trace)
      requires InStep(job, before, base, es, node, p) && user == job.call.user
      modifies node
      ensures InStep(job, before, base, es', node, p) && node.clock >= old(node.clock)
      ensures node.talk == old(node.talk)
    {
      node.Interfere(user);
      es' := Then(es, Others(node.chain, node.clock));
    }

    /** Signs the current transaction and offers it to every RPC; its hash if any of them took it. */
    method SignAndBroadcast(node: Node, tx: Tx, canSign: bool, ghost job: Job, ghost before: World,
                            ghost base: seq<Exchange>, ghost es: Trace, ghost p: Progress)
      returns (threw: bool, txHash: Option<Tx>, ghost p': Progress, ghost es': Trace)
      requires InStep(job, before, base, es, node, p) && p.phase == Signing && job.canSign == canSign
      requires tx == Tx(job.call, job.nonce, p.currentPriorityFee, p.currentMaxFee)
      modifies node
      ensures InStep(job, before, base, es', node, p')
      ensures |base| <= |old(node.talk)| && old(node.talk) <= node.talk
      ensures threw ==> p' == p.(phase := Done(Failed(Threw, None)))
      ensures !threw && txHash == None ==> p' == AfterRejection(job, p.(signed := p.signed + [tx]))
      ensures !threw && txHash.Some? ==>
        && txHash.value == tx
        && p' == p.(phase := Polling, signed := p.signed + [tx], sent := p.sent + [tx], polls := p.polls + [0],
                    startTime := node.clock)
    {
      threw, txHash, p', es' := false, None, p, es;
      if !canSign {
        threw := *;
        if threw {
          p' := p.(phase := Done(Failed(Threw, None)));
          es' := Then(es, SignFails);
          return;
        }
      }
      es' := Interleave(job, before, base, es, node, p, tx.call.user);
      var accepts := node.BroadcastToAll(tx, providers);
      p' := Step(job, After(job, before, es'), Broadcast(accepts)).progress;
      es' := Then(es', Broadcast(accepts));
      txHash := if true in accepts then Some(tx) else None;
    }

    /** The wait after an accepted broadcast, with every transaction accepted so far asked about. */
    method AwaitOrTimeOut(node: Node, tx: Tx, ghost job: Job, ghost before: World, ghost base: seq<Exchange>,
                          ghost es: Trace, ghost p: Progress)
      returns (status: Option<bool>, ghost p': Progress, ghost es': Trace)
      requires InStep(job, before, base, es, node, p) && p.phase == Polling && p.startTime == node.clock
      requires p.sent != [] && Last(p.sent) == tx
      requires tx.nonce == job.nonce && tx.call == job.call && job.options == options
      requires options.replacementDelayMs > 0 ==> AllAsked(p.sent[..|p.sent| - 1], node.talk[|base|..])
      modifies node
      ensures InStep(job, before, base, es', node, p') && p'.sent == p.sent
      ensures |base| <= |old(node.talk)| && old(node.talk) <= node.talk
      ensures options.replacementDelayMs > 0 ==> AllAsked(p.sent, node.talk[|base|..])
      ensures status.Some? ==> p'.phase == Done(if status.value then Mined(tx) else Failed(Reverted, Some(tx)))
      ensures status == None ==> p' == AfterTimeout(job, p.(polls := p'.polls))
    {
      ghost var heard := node.talk[|base|..];
      status, p', es' := AwaitInclusion(node, tx, job, before, base, es, p);
      if options.replacementDelayMs > 0 {
        AskedStays(p.sent[..|p.sent| - 1], heard, node.talk[|base|..]);
        assert p.sent == p.sent[..|p.sent| - 1] + [tx];
      }
      if status == None {
        p', es' := TimeOut(job, before, base, es', node, p');
      }
    }

    /** The timed polling loop: a receipt's status, or none once the replacement delay has passed. */
    method AwaitInclusion(node: Node, tx: Tx, ghost job: Job, ghost before: World, ghost base: seq<Exchange>,
                          ghost es: Trace, ghost p: Progress)
      returns (status: Option<bool>, ghost p': Progress, ghost es': Trace)
      requires InStep(job, before, base, es, node, p) && p.phase == Polling && p.startTime == node.clock
      requires p.sent != [] && Last(p.sent) == tx
      requires tx.nonce == job.nonce && tx.call == job.call && job.options == options
      modifies node
      ensures InStep(job, before, base, es', node, p')
      ensures status.Some? ==> p'.phase == Done(if status.value then Mined(tx) else Failed(Reverted, Some(tx)))
      ensures status == None ==>
        && Legal(job, After(job, before, es'), Expire)
        && p' == p.(polls := p'.polls)
      ensures p'.sent == p.sent
      ensures |base| <= |old(node.talk)| && old(node.talk) <= node.talk
      ensures options.replacementDelayMs > 0 ==> AskedAbout(node.talk[|base|..], tx)
    {
      status, p', es' := None, p, es;
      var startTime := node.clock;
      while node.clock - startTime < options.replacementDelayMs
        invariant InStep(job, before, base, es', node, p')
        invariant status == None && p' == p.(polls := p'.polls)
        invariant |base| <= |old(node.talk)| && old(node.talk) <= node.talk
        invariant node.clock >= startTime
        invariant node.clock > startTime ==> AskedAbout(node.talk[|base|..], tx)
        decreases startTime + options.replacementDelayMs - node.clock
      {
        status, p', es' := PollOnce(node, tx, job, before, base, es', p');
        if status.Some? {
          return;
        }
        ghost var heard := node.talk[|base|..];
        p', es' := Pause(node, job, before, base, es', p');
        assert node.talk[|base|..] == heard + [Slept(POLL_INTERVAL_MS)];
        AskedStays([tx], heard, node.talk[|base|..]);
      }
    }

    /** Asks the monitor for the receipt, while the world goes on. */
    method PollOnce(node: Node, tx: Tx, ghost job: Job, ghost before: World, ghost base: seq<Exchange>,
                    ghost es: Trace, ghost p: Progress)
      returns (status: Option<bool>, ghost p': Progress, ghost es': Trace)
      requires InStep(job, before, base, es, node, p) && p.phase == Polling
      requires p.sent != [] && Last(p.sent) == tx && tx.nonce == job.nonce && tx.call == job.call
      requires node.clock - p.startTime < job.options.replacementDelayMs
      modifies node
      ensures InStep(job, before, base, es', node, p')
      ensures node.clock >= old(node.clock)
      ensures node.talk == old(node.talk) + [Asked(tx, status)]
      ensures AskedAbout(node.talk[|base|..], tx)
      ensures p' == p.(polls := p'.polls, phase := match status
        case None => Sleeping
        case Some(success) => Done(if success then Mined(tx) else Failed(Reverted, Some(tx))))
    {
      p' := Step(job, After(job, before, es), Ask).progress;
      es' := Then(es, Ask);
      es' := Interleave(job, before, base, es', node, p', tx.call.user);
      ghost var heard := After(job, before, es').talk;
      status := node.GetReceipt(tx);
      p' := Step(job, After(job, before, es'), Answer(status)).progress;
      es' := Then(es', Answer(status));
      assert node.talk[|base|..] == heard + [Asked(tx, status)];
      assert (heard + [Asked(tx, status)])[|heard|].tx == tx;
    }

    /** The pause after a poll without a receipt. */
    method Pause(node: Node, ghost job: Job, ghost before: World, ghost base: seq<Exchange>, ghost es: Trace,
                 ghost p: Progress)
      returns (ghost p': Progress, ghost es': Trace)
      requires InStep(job, before, base, es, node, p) && p.phase == Sleeping
      modifies node
      ensures InStep(job, before, base, es', node, p') && p' == p.(phase := Polling)
      ensures node.clock >= old(node.clock) + POLL_INTERVAL_MS
      ensures node.talk == old(node.talk) + [Slept(POLL_INTERVAL_MS)]
    {
      node.Sleep(POLL_INTERVAL_MS);
      p' := Step(job, After(job, before, es), Wake(node.clock)).progress;
      es' := Then(es, Wake(node.clock));
    }
  }
}
