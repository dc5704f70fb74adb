/** The dispatch loop of `runPipeline` with its translation workers and the controller's
    channel, over any number of pipeline cycles.  A worker is a goroutine that translates,
    submits, then gives back its wait-group count and its slot, in that order. */
module WorkerPool {
  import opened Types

  const CHANNEL_CAP: nat := 100

  datatype Phase =
    | Idle                    // between cycles
    | Reading                 // in the loop over the recognition results
    | Passed                  // a final result has passed the pause gate
    | Acquiring(seqNo: int)   // numbered, waiting for a worker slot
    | Joining                 // results ended, in `translateWg.Wait`
    | Closed                  // `Stop` has closed the channel

  datatype Agent = Agent(
    workers: nat, phase: Phase, seqNo: int,
    sem: nat, wg: nat,                     // tokens in the semaphore, wait-group counter
    translating: set<int>, submitted: set<int>, finishing: set<int>,
    ch: seq<Translation>,
    // history: numbers given in this cycle, all numbers given and received, least number never
    // given, cycles started, and cycles that gave a number
    given: seq<int>, numbered: multiset<int>, consumed: multiset<int>, most: int, cycle: nat, busy: nat)

  datatype Action =
    | StartCycle | PassGate | Assign | Acquire | Submit(t: Translation) | WgDone(k: int) | FreeSlot(k: int)
    | EndResults | Joined | CloseChannel | Consume

  predicate Initial(a: Agent) {
    && a.phase == Idle && a.workers >= 3 && a.seqNo == 0 && a.sem == 0 && a.wg == 0
    && a.translating == {} && a.submitted == {} && a.finishing == {} && a.ch == []
    && a.given == [] && a.numbered == multiset{} && a.consumed == multiset{} && a.most == 0 && a.cycle == 0
    && a.busy == 0
  }

  predicate Enabled(a: Agent, x: Action) {
    match x
    case StartCycle => a.phase.Idle?
    case PassGate => a.phase.Reading?
    case Assign => a.phase.Passed?
    case Acquire => a.phase.Acquiring? && a.sem < a.workers
    case Submit(t) => t.seqNo in a.translating && |a.ch| < CHANNEL_CAP
    case WgDone(k) => k in a.submitted && a.wg > 0
    case FreeSlot(k) => k in a.finishing && a.sem > 0
    case EndResults => a.phase.Reading?
    case Joined => a.phase.Joining? && a.wg == 0
    case CloseChannel => a.phase.Idle?
    case Consume => a.ch != []
  }

  function Next(a: Agent, x: Action): Agent
    requires Enabled(a, x)
  {
    match x
    // Each cycle makes its own semaphore; workers still finishing hold the previous one.
    case StartCycle => a.(phase := Reading, seqNo := 0, sem := 0, wg := 0, finishing := {}, given := [],
        cycle := a.cycle + 1)
    case PassGate => a.(phase := Passed)
    case Assign =>
      a.(phase := Acquiring(a.seqNo), seqNo := a.seqNo + 1, given := a.given + [a.seqNo],
         numbered := a.numbered + multiset{a.seqNo}, most := if a.most <= a.seqNo then a.seqNo + 1 else a.most,
         busy := if a.seqNo == 0 then a.busy + 1 else a.busy)
    case Acquire => a.(phase := Reading, sem := a.sem + 1, wg := a.wg + 1,
        translating := a.translating + {a.phase.seqNo})
    case Submit(t) => a.(translating := a.translating - {t.seqNo}, submitted := a.submitted + {t.seqNo},
        ch := a.ch + [t])
    case WgDone(k) => a.(wg := a.wg - 1, submitted := a.submitted - {k}, finishing := a.finishing + {k})
    case FreeSlot(k) => a.(sem := a.sem - 1, finishing := a.finishing - {k})
    case EndResults => a.(phase := Joining)
    case Joined => a.(phase := Idle)
    case CloseChannel => a.(phase := Closed)
    case Consume => a.(ch := a.ch[1..], consumed := a.consumed + multiset{a.ch[0].seqNo})
  }

  ghost predicate Run(a: Agent, acts: seq<Action>, a': Agent)
    decreases acts
  {
    if acts == [] then a == a'
    else Enabled(a, acts[0]) && Run(Next(a, acts[0]), acts[1..], a')
  }

  function SeqNos(ch: seq<Translation>): seq<int> {
    seq(|ch|, i requires 0 <= i < |ch| => ch[i].seqNo)
  }

  function SlotWaiter(p: Phase): multiset<int> {
    if p.Acquiring? then multiset{p.seqNo} else multiset{}
  }

  // ---- The invariant ---------------------------------------------------------------------

  /** The counters count the workers, whose numbers are distinct and of this cycle. */
  ghost predicate Counters(a: Agent) {
    && a.wg == |a.translating| + |a.submitted|
    && a.sem == a.wg + |a.finishing| <= a.workers
    && a.translating !! a.submitted && a.translating !! a.finishing && a.submitted !! a.finishing
    && (forall k :: k in a.translating || k in a.submitted || k in a.finishing ==> 0 <= k < a.seqNo)
    && (a.phase.Acquiring? ==>
          && 0 <= a.phase.seqNo == a.seqNo - 1
          && a.phase.seqNo !in a.translating && a.phase.seqNo !in a.submitted && a.phase.seqNo !in a.finishing)
    && (a.phase.Idle? || a.phase.Closed? ==> a.translating == {} && a.submitted == {})
  }

  ghost predicate Balanced(numbered: multiset<int>, consumed: multiset<int>, inChannel: seq<int>,
          translating: set<int>, waiting: multiset<int>) {
    numbered == consumed + multiset(inChannel) + multiset(translating) + waiting
  }

  /** Every number given is in exactly one place. */
  ghost predicate Partition(a: Agent) {
    && Balanced(a.numbered, a.consumed, SeqNos(a.ch), a.translating, SlotWaiter(a.phase))
    && |a.ch| <= CHANNEL_CAP
  }

  /** Numbers are given without gaps. */
  ghost predicate Contiguous(a: Agent) {
    && |a.given| == a.seqNo <= a.most
    && (forall i :: 0 <= i < |a.given| ==> a.given[i] == i)
    && (forall k :: k in a.numbered <==> 0 <= k < a.most)
    && a.numbered[0] == a.busy <= a.cycle
    && (a.seqNo == 0 && a.cycle > 0 ==> a.busy < a.cycle)
    && (a.busy <= 1 ==> forall k :: a.numbered[k] <= 1)
    && (a.busy <= 1 && a.seqNo > 0 ==> a.most == a.seqNo)
    && (a.cycle <= 1 ==> a.most == a.seqNo)
    && (a.cycle == 0 ==> a.most == 0 && (a.phase.Idle? || a.phase.Closed?))
  }

  ghost predicate Inv(a: Agent) {
    Counters(a) && Partition(a) && Contiguous(a)
  }

  lemma InitialInv(a: Agent)
    requires Initial(a)
    ensures Inv(a)
  {
  }

  lemma KeepsCounters(a: Agent, x: Action)
    requires Counters(a) && Contiguous(a) && Enabled(a, x)
    ensures Counters(Next(a, x))
  {
  }

  lemma KeepsPartition(a: Agent, x: Action)
    requires Partition(a) && Counters(a) && Enabled(a, x)
    ensures Partition(Next(a, x))
  {
    match x
    case Assign => Give(a.numbered, a.consumed, SeqNos(a.ch), a.translating, a.seqNo);
    case Submit(t) =>
      assert SeqNos(a.ch + [t]) == SeqNos(a.ch) + [t.seqNo];
      MoveToChannel(a.numbered, a.consumed, SeqNos(a.ch), a.translating, SlotWaiter(a.phase), t.seqNo);
    case Consume =>
      assert SeqNos(a.ch) == [a.ch[0].seqNo] + SeqNos(a.ch[1..]);
      MoveToConsumed(a.numbered, a.consumed, SeqNos(a.ch[1..]), a.translating, SlotWaiter(a.phase), a.ch[0].seqNo);
    case Acquire => MoveToWorker(a.numbered, a.consumed, SeqNos(a.ch), a.translating, a.phase.seqNo);
    case _ =>
  }

  lemma Give(numbered: multiset<int>, consumed: multiset<int>, inChannel: seq<int>, translating: set<int>, k: int)
    requires Balanced(numbered, consumed, inChannel, translating, multiset{})
    ensures Balanced(numbered + multiset{k}, consumed, inChannel, translating, multiset{k})
  {
  }

  lemma MoveToWorker(numbered: multiset<int>, consumed: multiset<int>, inChannel: seq<int>, translating: set<int>,
          k: int)
    requires Balanced(numbered, consumed, inChannel, translating, multiset{k}) && k !in translating
    ensures Balanced(numbered, consumed, inChannel, translating + {k}, multiset{})
  {
    MultisetOfSet(translating, k);
  }

  lemma MoveToChannel(numbered: multiset<int>, consumed: multiset<int>, inChannel: seq<int>, translating: set<int>,
          waiting: multiset<int>, k: int)
    requires Balanced(numbered, consumed, inChannel, translating, waiting) && k in translating
    ensures Balanced(numbered, consumed, inChannel + [k], translating - {k}, waiting)
  {
    MultisetOfSet(translating - {k}, k);
    assert translating - {k} + {k} == translating;
    assert multiset(inChannel + [k]) == multiset(inChannel) + multiset{k};
  }

  lemma MoveToConsumed(numbered: multiset<int>, consumed: multiset<int>, rest: seq<int>, translating: set<int>,
          waiting: multiset<int>, k: int)
    requires Balanced(numbered, consumed, [k] + rest, translating, waiting)
    ensures Balanced(numbered, consumed + multiset{k}, rest, translating, waiting)
  {
    assert multiset([k] + rest) == multiset{k} + multiset(rest);
  }

  lemma MultisetOfSet(s: set<int>, k: int)
    requires k !in s
    ensures multiset(s + {k}) == multiset(s) + multiset{k}
  {
  }

  lemma KeepsContiguous(a: Agent, x: Action)
    requires Contiguous(a) && Enabled(a, x)
    ensures Contiguous(Next(a, x))
  {
  }

  lemma {:induction false} RunKeepsInv(a: Agent, acts: seq<Action>, a': Agent)
    requires Inv(a) && Run(a, acts, a')
    ensures Inv(a')
    decreases acts
  {
    if acts != [] {
      KeepsCounters(a, acts[0]);
      KeepsPartition(a, acts[0]);
      KeepsContiguous(a, acts[0]);
      RunKeepsInv(Next(a, acts[0]), acts[1..], a');
    }
  }

  // ---- Main results ----------------------------------------------------------------------

  /** At most `workers` goroutines hold a slot, and the numbers given but not yet received by
      the controller are at most `workers` + 101. */
  lemma Backpressure(a0: Agent, acts: seq<Action>, a: Agent)
    requires Initial(a0) && Run(a0, acts, a)
    ensures |a.translating| + |a.submitted| + |a.finishing| <= a.workers
    ensures |a.numbered| - |a.consumed| == |a.ch| + |a.translating| + |SlotWaiter(a.phase)|
    ensures |a.numbered| - |a.consumed| <= a.workers + 101
  {
    RunKeepsInv(a0, acts, a);
  }

  /** A translated result waits for the channel exactly while 100 results are in it. */
  lemma SubmitWaits(a0: Agent, acts: seq<Action>, a: Agent, t: Translation)
    requires Initial(a0) && Run(a0, acts, a) && t.seqNo in a.translating
    ensures |a.ch| <= 100 && (!Enabled(a, Submit(t)) <==> |a.ch| == 100)
  {
    RunKeepsInv(a0, acts, a);
  }

  /** Numbering has no gaps: the numbers given in a cycle are 0, 1, 2, ... in that order. */
  lemma NumberedInOrder(a0: Agent, acts: seq<Action>, a: Agent)
    requires Initial(a0) && Run(a0, acts, a)
    ensures |a.given| == a.seqNo && forall i :: 0 <= i < |a.given| ==> a.given[i] == i
    ensures a.cycle <= 1 ==> forall k :: a.numbered[k] == if 0 <= k < a.seqNo then 1 else 0
  {
    RunKeepsInv(a0, acts, a);
  }

  /** When `translateWg.Wait` returns, every number given so far has been submitted exactly once:
      it is in the channel or was received. */
  lemma WaitMeansSubmitted(a0: Agent, acts: seq<Action>, a: Agent)
    requires Initial(a0) && Run(a0, acts, a) && Enabled(a, Joined)
    ensures a.translating == {} && a.submitted == {}
    ensures a.numbered == a.consumed + multiset(SeqNos(a.ch))
  {
    RunKeepsInv(a0, acts, a);
  }

  /** No submission follows the close: once the channel is closed, none is ever possible. */
  lemma NoSubmitAfterClose(a0: Agent, acts: seq<Action>, a: Agent, later: seq<Action>, a': Agent, t: Translation)
    requires Initial(a0) && Run(a0, acts, a) && a.phase.Closed? && Run(a, later, a')
    ensures a'.phase.Closed? && !Enabled(a', Submit(t))
  {
    RunKeepsInv(a0, acts, a);
    StaysClosed(a, later, a');
  }

  lemma {:induction false} StaysClosed(a: Agent, acts: seq<Action>, a': Agent)
    requires a.phase.Closed? && a.translating == {} && Run(a, acts, a')
    ensures a'.phase.Closed? && a'.translating == {}
    decreases acts
  {
    if acts != [] {
      ClosedStep(a, acts[0]);
      StaysClosed(Next(a, acts[0]), acts[1..], a');
    }
  }

  lemma ClosedStep(a: Agent, x: Action)
    requires a.phase.Closed? && a.translating == {} && Enabled(a, x)
    ensures Next(a, x).phase.Closed? && Next(a, x).translating == {}
  {
  }
}
