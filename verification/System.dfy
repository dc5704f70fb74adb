/** The whole pipeline: the agent with its workers feeds the controller through the channel,
    and shares its pause flags.  Completeness at a graceful close, what a restart of the
    pipeline loses, and the quiescence after a pause of all outputs. */
module System {
  import opened Types
  import opened Sections
  import Routing
  import Pool = WorkerPool
  import Delivery
  import Guarantees

  datatype Sys = Sys(agent: Pool.Agent, ctrl: Delivery.State)

  datatype Action = OfAgent(x: Pool.Action) | OfController(a: Delivery.Action) | Receive

  predicate Initial(s: Sys) {
    Pool.Initial(s.agent) && Delivery.Initial(s.ctrl)
  }

  /** The agent passes a result on only while some output is not paused; the controller flushes
      once the channel is closed and empty; receiving joins the two. */
  predicate Enabled(s: Sys, a: Action) {
    match a
    case OfAgent(x) => !x.Consume? && Pool.Enabled(s.agent, x) && (x.PassGate? ==> !AllPaused(s.ctrl.sh))
    case OfController(b) =>
      && !b.Receive? && Delivery.Enabled(s.ctrl, b)
      && (b.FlushBegin? ==> s.agent.phase.Closed? && s.agent.ch == [])
    case Receive => s.agent.ch != [] && s.ctrl.pc.Select?
  }

  function Next(s: Sys, a: Action): Sys
    requires Enabled(s, a)
  {
    match a
    case OfAgent(x) => s.(agent := Pool.Next(s.agent, x))
    case OfController(b) => s.(ctrl := Delivery.Next(s.ctrl, b))
    case Receive => Sys(Pool.Next(s.agent, Pool.Consume), Delivery.Next(s.ctrl, Delivery.Receive(s.agent.ch[0])))
  }

  ghost predicate Run(s: Sys, acts: seq<Action>, s': Sys)
    decreases acts
  {
    if acts == [] then s == s'
    else Enabled(s, acts[0]) && Run(Next(s, acts[0]), acts[1..], s')
  }

  // ---- The coupling ----------------------------------------------------------------------

  /** Output i has not yet looked at the translation being routed. */
  predicate Unseen(pc: Delivery.Pc, i: nat) {
    (pc.Route? && pc.i <= i) || ((pc.Drain? || pc.Admitted?) && pc.i < i)
  }

  /** An output has taken in exactly the numbers received, up to the one being routed. */
  ghost predicate Current(pc: Delivery.Pc, i: nat, acc: map<int, string>, consumed: multiset<int>) {
    && (forall k :: k in acc ==> k in consumed)
    && (forall k :: k in consumed && k !in acc ==> Unseen(pc, i) && k == pc.t.seqNo)
  }

  ghost predicate Coupled(s: Sys) {
    && (forall i :: 0 <= i < |s.ctrl.outputs| && s.ctrl.outputs[i].name in s.ctrl.rel.accepted ==>
          Current(s.ctrl.pc, i, s.ctrl.rel.accepted[s.ctrl.outputs[i].name], s.agent.consumed))
    && (RoutesOne(s.ctrl.pc) ==> s.ctrl.pc.t.seqNo in s.agent.consumed)
    && (Closing(s.ctrl.pc) ==> s.agent.phase.Closed? && s.agent.ch == [])
  }

  predicate RoutesOne(pc: Delivery.Pc) { pc.Route? || pc.Drain? || pc.Admitted? }

  ghost predicate Inv(s: Sys) {
    Pool.Inv(s.agent) && Delivery.Inv(s.ctrl) && Coupled(s)
  }

  lemma InitialInv(s: Sys)
    requires Initial(s)
    ensures Inv(s)
  {
    Delivery.InitialInv(s.ctrl);
    Pool.InitialInv(s.agent);
    InitialCoupled(s);
  }

  lemma InitialCoupled(s: Sys)
    requires Initial(s)
    ensures Coupled(s)
  {
  }

  lemma KeepsInv(s: Sys, a: Action)
    requires Inv(s) && Enabled(s, a)
    ensures Inv(Next(s, a))
  {
    match a
    case OfAgent(x) =>
      KeepsPoolInv(s.agent, x);
      AgentKeepsCoupled(s, x);
    case OfController(b) =>
      Delivery.KeepsInv(s.ctrl, b);
      ControllerKeepsCoupled(s, b);
    case Receive =>
      KeepsPoolInv(s.agent, Pool.Consume);
      Delivery.KeepsInv(s.ctrl, Delivery.Receive(s.agent.ch[0]));
      ReceiveKeepsCoupled(s);
  }

  lemma KeepsPoolInv(a: Pool.Agent, x: Pool.Action)
    requires Pool.Inv(a) && Pool.Enabled(a, x)
    ensures Pool.Inv(Pool.Next(a, x))
  {
    Pool.KeepsCounters(a, x);
    Pool.KeepsPartition(a, x);
    Pool.KeepsContiguous(a, x);
  }

  lemma AgentKeepsCoupled(s: Sys, x: Pool.Action)
    requires Coupled(s) && Pool.Inv(s.agent) && Pool.Enabled(s.agent, x) && !x.Consume?
    ensures Coupled(s.(agent := Pool.Next(s.agent, x)))
  {
  }

  lemma ReceiveKeepsCoupled(s: Sys)
    requires Coupled(s) && Enabled(s, Receive)
    ensures Coupled(Next(s, Receive))
  {
  }

  lemma ControllerKeepsCoupled(s: Sys, b: Delivery.Action)
    requires Coupled(s) && Pool.Inv(s.agent) && Delivery.Inv(s.ctrl) && Enabled(s, OfController(b))
    ensures Coupled(Next(s, OfController(b)))
  {
    if b.Store? {
      StoreKeepsCoupled(s);
    } else {
      OtherSteps(s.ctrl, b);
      UnchangedKeepsCoupled(s, Delivery.Next(s.ctrl, b));
    }
  }

  /** The controller has taken in nothing, and what it routes is the same. */
  ghost predicate TookNothing(c: Delivery.State, c': Delivery.State) {
    && c'.rel.accepted == c.rel.accepted && |c'.outputs| == |c.outputs|
    && (forall i :: 0 <= i < |c.outputs| ==> c'.outputs[i].name == c.outputs[i].name)
    && SamePlace(c.pc, c'.pc, |c.outputs|)
  }

  predicate Closing(pc: Delivery.Pc) { pc.Flushing? || pc.FlushSending? || pc == Delivery.Stopped(true) }

  lemma OtherSteps(c: Delivery.State, b: Delivery.Action)
    requires Delivery.Enabled(c, b) && !b.Store? && !b.Receive?
    requires |c.routing| == |c.outputs|
    ensures TookNothing(c, Delivery.Next(c, b))
    ensures Closing(Delivery.Next(c, b).pc) ==> b.FlushBegin? || Closing(c.pc)
  {
    Guarantees.AcceptedSame(c, b);
    KeepsNames(c, b);
    KeepsRoute(c, b);
  }

  lemma KeepsNames(c: Delivery.State, b: Delivery.Action)
    requires Delivery.Enabled(c, b) && !b.Store?
    ensures var c' := Delivery.Next(c, b);
            && |c'.outputs| == |c.outputs|
            && (forall i :: 0 <= i < |c.outputs| ==> c'.outputs[i].name == c.outputs[i].name)
  {
  }

  /** Seen from the outputs, the program counters are at the same place. */
  ghost predicate SamePlace(pc: Delivery.Pc, pc': Delivery.Pc, n: nat) {
    && (forall i: nat :: i < n ==> (Unseen(pc', i) <==> Unseen(pc, i)))
    && (RoutesOne(pc') ==> RoutesOne(pc) && pc'.t == pc.t)
  }

  lemma KeepsRoute(c: Delivery.State, b: Delivery.Action)
    requires Delivery.Enabled(c, b) && !b.Store? && !b.Receive? && |c.routing| == |c.outputs|
    ensures SamePlace(c.pc, Delivery.Next(c, b).pc, |c.outputs|)
    ensures Closing(Delivery.Next(c, b).pc) ==> b.FlushBegin? || Closing(c.pc)
  {
    if b.Release? || b.Enqueue? || b.NextOutput? || b.EndRoute? {
      RoutingStep(c, b);
    } else {
      OtherPlaces(c, b);
    }
  }

  lemma RoutingStep(c: Delivery.State, b: Delivery.Action)
    requires Delivery.Enabled(c, b) && |c.routing| == |c.outputs|
    requires b.Release? || b.Enqueue? || b.NextOutput? || b.EndRoute?
    ensures SamePlace(c.pc, Delivery.Next(c, b).pc, |c.outputs|) && !Closing(Delivery.Next(c, b).pc)
  {
  }

  lemma OtherPlaces(c: Delivery.State, b: Delivery.Action)
    requires Delivery.Enabled(c, b) && !b.Store? && !b.Receive?
    requires !b.Release? && !b.Enqueue? && !b.NextOutput? && !b.EndRoute?
    ensures var pc' := Delivery.Next(c, b).pc;
            && (pc' == c.pc || (!RoutesOne(pc') && !RoutesOne(c.pc)))
            && (Closing(pc') ==> b.FlushBegin? || Closing(c.pc))
  {
  }

  lemma UnchangedKeepsCoupled(s: Sys, c': Delivery.State)
    requires Coupled(s) && TookNothing(s.ctrl, c')
    requires Closing(c'.pc) ==> s.agent.phase.Closed? && s.agent.ch == []
    ensures Coupled(s.(ctrl := c'))
  {
  }

  lemma StoreKeepsCoupled(s: Sys)
    requires Coupled(s) && Pool.Inv(s.agent) && Delivery.Inv(s.ctrl) && Enabled(s, OfController(Delivery.Store))
    ensures Coupled(Next(s, OfController(Delivery.Store)))
  {
    var c := s.ctrl;
    var n := Delivery.At(c).name;
    assert Delivery.BufferOk(n, c.senders[n], c.rel.accepted[n], c.rel.fates[n], Delivery.FocusOf(c));
    NumbersAreNatural(s.agent, c.pc.t.seqNo);
    StoredSees(c);
    SeenKeepsCoupled(s, Delivery.Stored(c));
  }

  lemma NumbersAreNatural(a: Pool.Agent, k: int)
    requires Pool.Inv(a) && k in a.consumed
    ensures 0 <= k
  {
    assert k in a.numbered;
  }

  lemma SeenKeepsCoupled(s: Sys, c': Delivery.State)
    requires Coupled(s) && s.ctrl.pc.Route? && s.ctrl.pc.i < |s.ctrl.outputs| && c'.outputs == s.ctrl.outputs
    requires forall i, j :: 0 <= i < j < |s.ctrl.outputs| ==> s.ctrl.outputs[i].name != s.ctrl.outputs[j].name
    requires c'.pc == Delivery.Drain(s.ctrl.pc.t, s.ctrl.pc.i) && c'.rel.accepted.Keys == s.ctrl.rel.accepted.Keys
    requires var n := s.ctrl.outputs[s.ctrl.pc.i].name;
             && n in c'.rel.accepted
             && c'.rel.accepted[n].Keys == s.ctrl.rel.accepted[n].Keys + {s.ctrl.pc.t.seqNo}
             && (forall x :: x in c'.rel.accepted && x != n ==> c'.rel.accepted[x] == s.ctrl.rel.accepted[x])
    ensures Coupled(s.(ctrl := c'))
  {
  }

  /** After the store the output has taken in the number: now, or before if it was a stale one. */
  lemma StoredSees(c: Delivery.State)
    requires c.pc.Route? && Delivery.Placed(c) && 0 <= c.pc.t.seqNo
    requires forall k :: 0 <= k < c.senders[Delivery.At(c).name].nextSeq ==> k in c.rel.accepted[Delivery.At(c).name]
    ensures var c' := Delivery.Stored(c);
            var n := Delivery.At(c).name;
            && c'.pc == Delivery.Drain(c.pc.t, c.pc.i) && c'.outputs == c.outputs
            && c'.rel.accepted.Keys == c.rel.accepted.Keys
            && c'.rel.accepted[n].Keys == c.rel.accepted[n].Keys + {c.pc.t.seqNo}
            && (forall x :: x in c.rel.accepted && x != n ==> c'.rel.accepted[x] == c.rel.accepted[x])
  {
  }

  lemma {:induction false} RunKeepsInv(s: Sys, acts: seq<Action>, s': Sys)
    requires Inv(s) && Run(s, acts, s')
    ensures Inv(s')
    decreases acts
  {
    if acts != [] {
      KeepsInv(s, acts[0]);
      RunKeepsInv(Next(s, acts[0]), acts[1..], s');
    }
  }

  // ---- What the reorder buffers keep for good --------------------------------------------

  /** A number below the next one stays in the buffer of an output only if it was received twice. */
  ghost predicate StrayOk(pc: Delivery.Pc, i: nat, snd: Sender, acc: map<int, string>, consumed: multiset<int>) {
    && (forall k :: k in snd.pending && k < snd.nextSeq ==> consumed[k] >= 2)
    && (Unseen(pc, i) && pc.t.seqNo in acc ==> consumed[pc.t.seqNo] >= 2)
  }

  ghost predicate StraysOk(s: Sys) {
    var c := s.ctrl;
    forall i :: 0 <= i < |c.outputs| && c.outputs[i].name in c.senders && c.outputs[i].name in c.rel.accepted ==>
      StrayOk(c.pc, i, c.senders[c.outputs[i].name], c.rel.accepted[c.outputs[i].name], s.agent.consumed)
  }

  lemma StepKeepsStrays(s: Sys, a: Action)
    requires Inv(s) && StraysOk(s) && Enabled(s, a)
    ensures StraysOk(Next(s, a))
  {
    match a
    case OfAgent(x) => AgentKeepsStrays(s, x);
    case Receive => ReceiveKeepsStrays(s);
    case OfController(b) => ControllerKeepsStrays(s, b);
  }

  lemma AgentKeepsStrays(s: Sys, x: Pool.Action)
    requires StraysOk(s) && Pool.Enabled(s.agent, x) && !x.Consume?
    ensures StraysOk(s.(agent := Pool.Next(s.agent, x)))
  {
    assert Pool.Next(s.agent, x).consumed == s.agent.consumed;
  }

  lemma ControllerKeepsStrays(s: Sys, b: Delivery.Action)
    requires Inv(s) && StraysOk(s) && Enabled(s, OfController(b))
    ensures StraysOk(Next(s, OfController(b)))
  {
    if b.Store? {
      StoreKeepsStrays(s);
    } else {
      OtherSteps(s.ctrl, b);
      BuffersOnlyShrink(s.ctrl, b);
      ShrunkKeepsStrays(s, Delivery.Next(s.ctrl, b));
    }
  }

  lemma ReceiveKeepsStrays(s: Sys)
    requires Coupled(s) && StraysOk(s) && Enabled(s, Receive)
    ensures StraysOk(Next(s, Receive))
  {
    var s', c := Next(s, Receive), s.ctrl;
    forall i | 0 <= i < |c.outputs| && c.outputs[i].name in c.senders && c.outputs[i].name in c.rel.accepted
      ensures StrayOk(s'.ctrl.pc, i, c.senders[c.outputs[i].name], c.rel.accepted[c.outputs[i].name], s'.agent.consumed)
    {
      var n := c.outputs[i].name;
      assert Current(c.pc, i, c.rel.accepted[n], s.agent.consumed);
      assert StrayOk(c.pc, i, c.senders[n], c.rel.accepted[n], s.agent.consumed);
    }
  }

  /** Each buffer loses at most the next number. */
  ghost predicate Shrunk(snd: Sender, snd': Sender) {
    (snd'.pending == snd.pending && snd'.nextSeq == snd.nextSeq)
    || (snd'.pending == snd.pending - {snd.nextSeq} && snd'.nextSeq == snd.nextSeq + 1)
  }

  lemma BuffersOnlyShrink(c: Delivery.State, b: Delivery.Action)
    requires Delivery.Enabled(c, b) && !b.Store?
    ensures var senders' := Delivery.Next(c, b).senders;
            senders'.Keys == c.senders.Keys && forall n :: n in c.senders ==> Shrunk(c.senders[n], senders'[n])
  {
    if !b.Release? && !b.Enqueue? {
      SameBuffers(c, b);
    }
  }

  lemma SameBuffers(c: Delivery.State, b: Delivery.Action)
    requires Delivery.Enabled(c, b) && !b.Store? && !b.Release? && !b.Enqueue?
    ensures Delivery.Next(c, b).senders == c.senders
  {
  }

  lemma ShrunkKeepsStrays(s: Sys, c': Delivery.State)
    requires StraysOk(s) && TookNothing(s.ctrl, c')
    requires c'.senders.Keys == s.ctrl.senders.Keys
    requires forall n :: n in s.ctrl.senders ==> Shrunk(s.ctrl.senders[n], c'.senders[n])
    ensures StraysOk(s.(ctrl := c'))
  {
    var c := s.ctrl;
    forall i | 0 <= i < |c.outputs| && c.outputs[i].name in c.senders && c.outputs[i].name in c.rel.accepted
      ensures StrayOk(c'.pc, i, c'.senders[c.outputs[i].name], c.rel.accepted[c.outputs[i].name], s.agent.consumed)
    {
      var n := c.outputs[i].name;
      assert StrayOk(c.pc, i, c.senders[n], c.rel.accepted[n], s.agent.consumed);
      assert Shrunk(c.senders[n], c'.senders[n]);
      assert Unseen(c'.pc, i) ==> RoutesOne(c'.pc);
    }
  }

  lemma StoreKeepsStrays(s: Sys)
    requires Inv(s) && StraysOk(s) && Enabled(s, OfController(Delivery.Store))
    ensures StraysOk(Next(s, OfController(Delivery.Store)))
  {
    var c := s.ctrl;
    var n := Delivery.At(c).name;
    assert Delivery.BufferOk(n, c.senders[n], c.rel.accepted[n], c.rel.fates[n], Delivery.FocusOf(c));
    NumbersAreNatural(s.agent, c.pc.t.seqNo);
    StoredSees(c);
    StrayStored(s, Delivery.Stored(c), n, Routing.SelectText(Delivery.At(c).targetLang, c.pc.t));
  }

  lemma StrayStored(s: Sys, c': Delivery.State, n: string, text: string)
    requires StraysOk(s) && s.ctrl.pc.Route? && s.ctrl.pc.i < |s.ctrl.outputs| && c'.outputs == s.ctrl.outputs
    requires forall i, j :: 0 <= i < j < |s.ctrl.outputs| ==> s.ctrl.outputs[i].name != s.ctrl.outputs[j].name
    requires n == s.ctrl.outputs[s.ctrl.pc.i].name && n in s.ctrl.senders && n in s.ctrl.rel.accepted
    requires 0 <= s.ctrl.pc.t.seqNo
    requires forall k :: 0 <= k < s.ctrl.senders[n].nextSeq ==> k in s.ctrl.rel.accepted[n]
    requires c'.pc == Delivery.Drain(s.ctrl.pc.t, s.ctrl.pc.i) && c'.rel.accepted.Keys == s.ctrl.rel.accepted.Keys
    requires forall x :: x in c'.rel.accepted && x != n ==> c'.rel.accepted[x] == s.ctrl.rel.accepted[x]
    requires var snd := s.ctrl.senders[n];
             c'.senders == s.ctrl.senders[n := snd.(pending := snd.pending[s.ctrl.pc.t.seqNo := text])]
    ensures StraysOk(s.(ctrl := c'))
  {
    var c := s.ctrl;
    forall i | 0 <= i < |c.outputs| && c.outputs[i].name in c'.senders && c.outputs[i].name in c'.rel.accepted
      ensures StrayOk(c'.pc, i, c'.senders[c.outputs[i].name], c'.rel.accepted[c.outputs[i].name], s.agent.consumed)
    {
      var x := c.outputs[i].name;
      assert StrayOk(c.pc, i, c.senders[x], c.rel.accepted[x], s.agent.consumed);
    }
  }

  lemma {:induction false} RunKeepsStrays(s: Sys, acts: seq<Action>, s': Sys)
    requires Inv(s) && StraysOk(s) && Run(s, acts, s')
    ensures StraysOk(s')
    decreases acts
  {
    if acts != [] {
      KeepsInv(s, acts[0]);
      StepKeepsStrays(s, acts[0]);
      RunKeepsStrays(Next(s, acts[0]), acts[1..], s');
    }
  }

  // ---- Completeness at a graceful close --------------------------------------------------

  /** When the closed channel is drained and the queue is flushed, every number given by the agent has
      been received; every output has released exactly the numbers 0 .. most-1, each with its
      fate; no message waits; and a buffer is empty but for numbers that were given twice. */
  lemma CompleteAtClose(s0: Sys, acts: seq<Action>, s: Sys, i: nat)
    requires Initial(s0) && Run(s0, acts, s)
    requires s.ctrl.pc == Delivery.Stopped(true) && i < |s.ctrl.outputs|
    ensures s.agent.consumed == s.agent.numbered
    ensures var n := s.ctrl.outputs[i].name;
            && n in s.ctrl.senders && n in s.ctrl.rel.fates
            && s.ctrl.senders[n].nextSeq == |s.ctrl.rel.fates[n]| == s.agent.most
            && (forall k :: k in s.ctrl.senders[n].pending ==> k < s.agent.most && s.agent.numbered[k] >= 2)
            && (s.agent.busy <= 1 ==> s.ctrl.senders[n].pending == map[])
    ensures Delivery.Msgs(s.ctrl.done) == s.ctrl.rel.enq && s.ctrl.queue == []
    ensures s.agent.cycle <= 1 ==> s.agent.busy <= 1 && s.agent.most == s.agent.seqNo
  {
    InitialInv(s0);
    RunKeepsInv(s0, acts, s);
    RunKeepsStrays(s0, acts, s);
    OutputComplete(s, i);
    AllReceived(s.agent);
    NothingWaits(s.ctrl);
  }

  lemma OutputComplete(s: Sys, i: nat)
    requires Delivery.Shape(s.ctrl) && Delivery.Buffers(s.ctrl.senders, s.ctrl.rel, Delivery.FocusOf(s.ctrl))
    requires Pool.Inv(s.agent) && Coupled(s) && StraysOk(s)
    requires s.ctrl.pc == Delivery.Stopped(true) && i < |s.ctrl.outputs|
    ensures var n := s.ctrl.outputs[i].name;
            && n in s.ctrl.senders && n in s.ctrl.rel.fates
            && s.ctrl.senders[n].nextSeq == |s.ctrl.rel.fates[n]| == s.agent.most
            && (forall k :: k in s.ctrl.senders[n].pending ==> k < s.agent.most && s.agent.numbered[k] >= 2)
            && (s.agent.busy <= 1 ==> s.ctrl.senders[n].pending == map[])
  {
    var n := s.ctrl.outputs[i].name;
    assert Delivery.BufferOk(n, s.ctrl.senders[n], s.ctrl.rel.accepted[n], s.ctrl.rel.fates[n],
        Delivery.FocusOf(s.ctrl));
    assert StrayOk(s.ctrl.pc, i, s.ctrl.senders[n], s.ctrl.rel.accepted[n], s.agent.consumed);
    AllReceived(s.agent);
    AllTakenIn(s.ctrl.pc, i, s.ctrl.rel.accepted[n], s.agent.consumed);
    AllReleased(n, s.ctrl.senders[n], s.ctrl.rel.accepted[n], s.ctrl.rel.fates[n], s.agent.most);
  }

  lemma AllTakenIn(pc: Delivery.Pc, i: nat, acc: map<int, string>, consumed: multiset<int>)
    requires Current(pc, i, acc, consumed) && !Unseen(pc, i)
    ensures forall k :: k in acc <==> k in consumed
  {
  }

  lemma NothingWaits(c: Delivery.State)
    requires Delivery.Ledger(c.done, Delivery.InHand(c), Delivery.Waiting(c), c.rel.enq, c.sh.nextId)
    requires c.pc == Delivery.Stopped(true) && c.queue == []
    ensures Delivery.Msgs(c.done) == c.rel.enq
  {
    assert Delivery.Msgs(c.done) + [] + [] == Delivery.Msgs(c.done);
  }

  lemma AllReceived(a: Pool.Agent)
    requires Pool.Inv(a) && a.phase.Closed? && a.ch == []
    ensures a.consumed == a.numbered
    ensures forall k :: k in a.consumed <==> 0 <= k < a.most
  {
    assert Pool.SeqNos(a.ch) == [];
  }

  lemma AllReleased(n: string, snd: Sender, acc: map<int, string>, fates: seq<Delivery.Fate>, most: int)
    requires Delivery.BufferOk(n, snd, acc, fates, Delivery.Free) && 0 <= most
    requires forall k :: k in acc <==> 0 <= k < most
    ensures snd.nextSeq == |fates| == most && forall k :: k in snd.pending ==> k < most
  {
    assert snd.nextSeq !in acc && (snd.nextSeq > most ==> most in acc);
  }

  // ---- What a restart of the pipeline loses ----------------------------------------------

  /** Numbering restarts at 0 with each cycle while the controller goes on counting.  So at a graceful
      close every output has fates for `most` numbers only, the largest count of one cycle, and
      that is every translation exactly when at most one cycle numbered a result. */
  lemma LostOnRestart(s0: Sys, acts: seq<Action>, s: Sys, i: nat)
    requires Initial(s0) && Run(s0, acts, s)
    requires s.ctrl.pc == Delivery.Stopped(true) && i < |s.ctrl.outputs|
    ensures s.ctrl.outputs[i].name in s.ctrl.rel.fates
    ensures var fates := s.ctrl.rel.fates[s.ctrl.outputs[i].name];
            && |fates| <= |s.agent.consumed| == |s.agent.numbered|
            && (|fates| == |s.agent.numbered| <==> s.agent.busy <= 1)
  {
    CompleteAtClose(s0, acts, s, i);
    InitialInv(s0);
    RunKeepsInv(s0, acts, s);
    Multiplicities(s.agent.numbered, s.agent.most);
  }

  lemma {:induction false} Multiplicities(m: multiset<int>, most: int)
    requires 0 <= most && forall k :: k in m <==> 0 <= k < most
    ensures most <= |m|
    ensures most == |m| <==> forall k :: m[k] <= 1
    decreases most
  {
    if most == 0 {
      assert m == multiset{};
    } else {
      var top := most - 1;
      Without(m, top);
      Multiplicities(m[top := 0], top);
      assert top in m;
    }
  }

  lemma Without(m: multiset<int>, x: int)
    ensures |m| == |m[x := 0]| + m[x]
    ensures forall k :: m[x := 0][k] == if k == x then 0 else m[k]
  {
    assert m == m[x := 0][x := m[x]];
  }
}
