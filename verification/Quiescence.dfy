/** What happens after `/off` has paused all outputs.  The pause flags are read before the act
    they gate, in an earlier critical section; so what has passed its gate by then still
    happens, once, and nothing else does. */
module Quiescence {
  import opened Types
  import opened Sections
  import opened System
  import Pool = WorkerPool
  import Delivery
  import Guarantees

  /** The steps other than a resume and the flush of a closing controller. */
  predicate Quiet(a: Action) {
    a.OfController? ==> !(a.a.SetPaused? && !a.a.paused) && !a.a.FlushBegin?
  }

  /** The messages sent so far, in order. */
  function SentMsgs(done: seq<Delivery.Done>): seq<DelayedMsg> {
    if done == [] then []
    else SentMsgs(done[..|done| - 1]) + if Delivery.WasSent(done[|done| - 1]) then [done[|done| - 1].msg] else []
  }

  /** Sent, or taken with the pause flag already read as clear. */
  function SentOrInHand(c: Delivery.State): seq<DelayedMsg> {
    SentMsgs(c.done) + Delivery.InHand(c)
  }

  /** Queued, or released with the pause flag already read as clear. */
  function QueuedOrAdmitted(c: Delivery.State): nat {
    |c.rel.enq| + if c.pc.Admitted? then 1 else 0
  }

  /** Numbered, or past the pause gate of the agent. */
  function NumberedOrPassed(a: Pool.Agent): nat {
    |a.numbered| + if a.phase.Passed? then 1 else 0
  }

  ghost predicate Silent(s: Sys, s': Sys) {
    && SentOrInHand(s'.ctrl) == SentOrInHand(s.ctrl)
    && QueuedOrAdmitted(s'.ctrl) == QueuedOrAdmitted(s.ctrl)
    && NumberedOrPassed(s'.agent) == NumberedOrPassed(s.agent)
  }

  /** Once all outputs are paused, in every continuation without a resume or a flush they stay so; what is
      sent, queued and numbered is what had passed its gate before. */
  lemma {:induction false} QuietAfterOff(s: Sys, acts: seq<Action>, s': Sys)
    requires Inv(s) && Run(s, acts, s') && (forall a :: a in acts ==> Quiet(a))
    requires AllPaused(s.ctrl.sh) && Delivery.BeforeFlush(s.ctrl.pc)
    ensures AllPaused(s'.ctrl.sh) && Silent(s, s')
    decreases acts
  {
    if acts != [] {
      var t := Next(s, acts[0]);
      QuietStep(s, acts[0]);
      KeepsInv(s, acts[0]);
      QuietAfterOff(t, acts[1..], s');
    }
  }

  /** The same messages sent, the same number queued, the same number of sentences numbered. */
  ghost predicate NothingNew(s: Sys, s': Sys) {
    && SentMsgs(s'.ctrl.done) == SentMsgs(s.ctrl.done)
    && |s'.ctrl.rel.enq| == |s.ctrl.rel.enq| && |s'.agent.numbered| == |s.agent.numbered|
  }

  /** A continuation without a resume and without the start of a flush. */
  ghost predicate QuietRun(s: Sys, acts: seq<Action>, s': Sys) {
    Run(s, acts, s') && forall a :: a in acts ==> Quiet(a)
  }

  /** Nothing is past a gate: no message in hand, none on its way into the queue, no sentence past the pause
      check of the agent. */
  predicate NonePastGate(s: Sys) {
    !s.ctrl.pc.Sending? && !s.ctrl.pc.Admitted? && !s.agent.phase.Passed?
  }

  /** Once all outputs are paused, every quiet continuation sends, queues and numbers nothing if and only if
      nothing is past a gate. */
  lemma NothingAfterOff(s: Sys)
    requires Inv(s) && AllPaused(s.ctrl.sh) && Delivery.BeforeFlush(s.ctrl.pc)
    ensures (forall acts, s' :: QuietRun(s, acts, s') ==> NothingNew(s, s')) <==> NonePastGate(s)
  {
    if NonePastGate(s) {
      forall acts, s' | QuietRun(s, acts, s') ensures NothingNew(s, s') {
        QuietAfterOff(s, acts, s');
        GatesShut(s, acts, s');
        assert SentMsgs(s.ctrl.done) + [] == SentMsgs(s.ctrl.done);
        assert SentMsgs(s'.ctrl.done) + [] == SentMsgs(s'.ctrl.done);
      }
    } else {
      var a := SomethingHappens(s);
      assert Run(Next(s, a), [], Next(s, a));
      RunCons(s, a, [], Next(s, a));
      assert QuietRun(s, [a] + [], Next(s, a));
    }
  }

  /** What is past a gate can happen in the next step. */
  lemma SomethingHappens(s: Sys) returns (a: Action)
    requires Inv(s) && !NonePastGate(s)
    ensures Enabled(s, a) && Quiet(a) && !NothingNew(s, Next(s, a))
  {
    if s.ctrl.pc.Sending? {
      a := OfController(Delivery.SendDone);
      SendHappens(s.ctrl);
    } else if s.ctrl.pc.Admitted? {
      a := OfController(Delivery.Enqueue(s.ctrl.clock));
      EnqueueHappens(s.ctrl);
    } else {
      a := OfAgent(Pool.Assign);
      AssignHappens(s.agent);
    }
  }

  lemma AssignHappens(a: Pool.Agent)
    requires a.phase.Passed?
    ensures Pool.Enabled(a, Pool.Assign) && |Pool.Next(a, Pool.Assign).numbered| == |a.numbered| + 1
  {
  }

  lemma SendHappens(c: Delivery.State)
    requires c.pc.Sending?
    ensures |SentMsgs(Delivery.Sent(c).done)| == |SentMsgs(c.done)| + 1
  {
    assert Delivery.Sent(c).done[..|c.done|] == c.done;
  }

  lemma EnqueueHappens(c: Delivery.State)
    requires Delivery.Shape(c) && c.pc.Admitted?
    ensures Delivery.Enabled(c, Delivery.Enqueue(c.clock))
    ensures |Delivery.Enqueued(c, c.clock).rel.enq| == |c.rel.enq| + 1
  {
  }

  lemma RunCons(s: Sys, a: Action, acts: seq<Action>, s': Sys)
    requires Enabled(s, a) && Run(Next(s, a), acts, s')
    ensures Run(s, [a] + acts, s')
  {
    assert ([a] + acts)[1..] == acts;
  }

  lemma {:induction false} GatesShut(s: Sys, acts: seq<Action>, s': Sys)
    requires Inv(s) && Run(s, acts, s') && (forall a :: a in acts ==> Quiet(a))
    requires AllPaused(s.ctrl.sh) && Delivery.BeforeFlush(s.ctrl.pc)
    requires !s.ctrl.pc.Sending? && !s.ctrl.pc.Admitted? && !s.agent.phase.Passed?
    ensures !s'.ctrl.pc.Sending? && !s'.ctrl.pc.Admitted? && !s'.agent.phase.Passed? && Delivery.InHand(s'.ctrl) == []
    decreases acts
  {
    if acts != [] {
      QuietStep(s, acts[0]);
      KeepsInv(s, acts[0]);
      GatesShut(Next(s, acts[0]), acts[1..], s');
    }
  }

  lemma QuietStep(s: Sys, a: Action)
    requires Inv(s) && Enabled(s, a) && Quiet(a) && AllPaused(s.ctrl.sh) && Delivery.BeforeFlush(s.ctrl.pc)
    ensures var s' := Next(s, a);
            && AllPaused(s'.ctrl.sh) && Delivery.BeforeFlush(s'.ctrl.pc) && Silent(s, s')
            && (s'.ctrl.pc.Sending? ==> s.ctrl.pc.Sending?)
            && (s'.ctrl.pc.Admitted? ==> s.ctrl.pc.Admitted?)
            && (s'.agent.phase.Passed? ==> s.agent.phase.Passed?)
  {
    match a
    case OfAgent(x) => QuietAgentStep(s.agent, x);
    case Receive =>
    case OfController(b) =>
      OutputsPaused(s.ctrl);
      if b.Take? { NoSendWhenPaused(s.ctrl); }
      QuietControllerStep(s.ctrl, b);
  }

  lemma QuietAgentStep(a: Pool.Agent, x: Pool.Action)
    requires Pool.Enabled(a, x) && !x.PassGate?
    ensures NumberedOrPassed(Pool.Next(a, x)) == NumberedOrPassed(a)
    ensures Pool.Next(a, x).phase.Passed? ==> a.phase.Passed?
  {
  }

  /** All outputs have a pause flag, so each is paused. */
  lemma OutputsPaused(c: Delivery.State)
    requires Delivery.Shape(c) && AllPaused(c.sh)
    ensures Delivery.InRoute(c) ==> IsPaused(c.sh, Delivery.At(c).name)
  {
  }

  lemma NoSendWhenPaused(c: Delivery.State)
    requires Delivery.Inv(c) && AllPaused(c.sh) && Delivery.Enabled(c, Delivery.Take)
    ensures IsPaused(c.sh, c.pc.unread[0].output)
  {
    Delivery.WaitingIds(c);
    var m := c.pc.unread[0];
    assert m in Delivery.Waiting(c);
    assert c.rel.enq[m.id].output in c.rel.fates;
  }

  lemma QuietControllerStep(c: Delivery.State, b: Delivery.Action)
    requires Delivery.Enabled(c, b) && !b.Receive? && Quiet(OfController(b)) && AllPaused(c.sh)
    requires Delivery.BeforeFlush(c.pc)
    requires Delivery.InRoute(c) ==> IsPaused(c.sh, Delivery.At(c).name)
    requires b.Take? ==> IsPaused(c.sh, c.pc.unread[0].output)
    ensures var c' := Delivery.Next(c, b);
            && AllPaused(c'.sh) && Delivery.BeforeFlush(c'.pc)
            && SentOrInHand(c') == SentOrInHand(c) && QueuedOrAdmitted(c') == QueuedOrAdmitted(c)
            && (c'.pc.Sending? ==> c.pc.Sending?) && (c'.pc.Admitted? ==> c.pc.Admitted?)
  {
    QuietFlags(c, b);
    QuietPlaces(c, b);
    QuietSends(c, b);
  }

  lemma QuietFlags(c: Delivery.State, b: Delivery.Action)
    requires Delivery.Enabled(c, b) && Quiet(OfController(b)) && AllPaused(c.sh)
    ensures AllPaused(Delivery.Next(c, b).sh)
  {
    if !b.SetPaused? {
      SameFlags(c, b);
    }
  }

  lemma QuietPlaces(c: Delivery.State, b: Delivery.Action)
    requires Delivery.Enabled(c, b) && !b.Receive? && Quiet(OfController(b)) && Delivery.BeforeFlush(c.pc)
    requires Delivery.InRoute(c) ==> IsPaused(c.sh, Delivery.At(c).name)
    requires b.Take? ==> IsPaused(c.sh, c.pc.unread[0].output)
    ensures var c' := Delivery.Next(c, b);
            && Delivery.BeforeFlush(c'.pc) && QueuedOrAdmitted(c') == QueuedOrAdmitted(c)
            && (c'.pc.Sending? ==> c.pc.Sending?) && (c'.pc.Admitted? ==> c.pc.Admitted?)
  {
  }

  lemma QuietSends(c: Delivery.State, b: Delivery.Action)
    requires Delivery.Enabled(c, b) && Quiet(OfController(b)) && Delivery.BeforeFlush(c.pc)
    requires b.Take? ==> IsPaused(c.sh, c.pc.unread[0].output)
    ensures SentOrInHand(Delivery.Next(c, b)) == SentOrInHand(c)
  {
    var c' := Delivery.Next(c, b);
    if c'.done != c.done {
      assert c'.done[..|c.done|] == c.done;
      assert SentMsgs(c.done) + [c'.done[|c.done|].msg] + [] == SentMsgs(c.done) + [c'.done[|c.done|].msg];
    }
  }

  // ---- The command among the other steps -------------------------------------------------

  /** The steps of the command for one output. */
  function Off(name: string): Action {
    OfController(Delivery.SetPaused(name, true))
  }

  predicate Resumes(a: Action) {
    a.OfController? && a.a.SetPaused? && !a.a.paused
  }

  predicate Flagged(sh: Shared, name: string) {
    name in sh.paused
  }

  /** Among any other steps, but without a resume, flags only get set: a flag is set at the end if and only if
      it was set before or was set in between. */
  lemma {:induction false} FlagsOnlyGetSet(s: Sys, acts: seq<Action>, s': Sys, name: string)
    requires Run(s, acts, s') && forall a :: a in acts ==> !Resumes(a)
    ensures Flagged(s'.ctrl.sh, name) <==> Flagged(s.ctrl.sh, name) || Off(name) in acts
    ensures IsPaused(s'.ctrl.sh, name) <==> IsPaused(s.ctrl.sh, name) || Off(name) in acts
    decreases acts
  {
    if acts != [] {
      assert acts == [acts[0]] + acts[1..];
      FlagStep(s, acts[0], name);
      FlagsOnlyGetSet(Next(s, acts[0]), acts[1..], s', name);
    }
  }

  lemma FlagStep(s: Sys, a: Action, name: string)
    requires Enabled(s, a) && !Resumes(a)
    ensures Flagged(Next(s, a).ctrl.sh, name) <==> Flagged(s.ctrl.sh, name) || a == Off(name)
    ensures IsPaused(Next(s, a).ctrl.sh, name) <==> IsPaused(s.ctrl.sh, name) || a == Off(name)
  {
    if a.OfController? && !a.a.SetPaused? {
      SameFlags(s.ctrl, a.a);
    }
  }

  lemma SameFlags(c: Delivery.State, b: Delivery.Action)
    requires Delivery.Enabled(c, b) && !b.SetPaused?
    ensures Delivery.Next(c, b).sh.paused == c.sh.paused
  {
  }

  predicate IsOutput(outputs: seq<OutputConfig>, name: string) {
    exists o :: o in outputs && o.name == name
  }

  /** `/off` sets the flag of every output once, interleaved with any other steps but a resume.  When it is through,
      all outputs count as paused if and only if every other flag was set already or got set
      meanwhile. */
  lemma OffPausesAll(s: Sys, acts: seq<Action>, s': Sys)
    requires Inv(s) && Run(s, acts, s') && s.ctrl.outputs != [] && (forall a :: a in acts ==> !Resumes(a))
    requires forall o :: o in s.ctrl.outputs ==> Off(o.name) in acts
    ensures AllPaused(s'.ctrl.sh) <==>
            forall name :: name in s.ctrl.sh.paused && !IsOutput(s.ctrl.outputs, name) ==>
              s.ctrl.sh.paused[name] || Off(name) in acts
  {
    forall name ensures Flagged(s'.ctrl.sh, name) <==> Flagged(s.ctrl.sh, name) || Off(name) in acts {
      FlagsOnlyGetSet(s, acts, s', name);
    }
    forall name ensures IsPaused(s'.ctrl.sh, name) <==> IsPaused(s.ctrl.sh, name) || Off(name) in acts {
      FlagsOnlyGetSet(s, acts, s', name);
    }
    assert Flagged(s'.ctrl.sh, s.ctrl.outputs[0].name);
    AllOrNot(s.ctrl.sh, s'.ctrl.sh, s.ctrl.outputs, acts);
  }

  lemma AllOrNot(sh: Shared, sh': Shared, outputs: seq<OutputConfig>, acts: seq<Action>)
    requires forall name :: Flagged(sh', name) <==> Flagged(sh, name) || Off(name) in acts
    requires forall name :: IsPaused(sh', name) <==> IsPaused(sh, name) || Off(name) in acts
    requires (forall o :: o in outputs ==> Off(o.name) in acts) && exists name :: Flagged(sh', name)
    ensures AllPaused(sh') <==>
            forall name :: name in sh.paused && !IsOutput(outputs, name) ==> sh.paused[name] || Off(name) in acts
  {
    if forall name :: name in sh.paused && !IsOutput(outputs, name) ==> sh.paused[name] || Off(name) in acts {
      forall name | name in sh'.paused ensures sh'.paused[name] {
        assert Flagged(sh', name);
        assert IsPaused(sh', name);
      }
    } else {
      var name :| name in sh.paused && !IsOutput(outputs, name) && !sh.paused[name] && Off(name) !in acts;
      assert Flagged(sh', name) && !IsPaused(sh', name);
    }
  }

  /** So after `/off` on a controller whose other flags are set, whatever went on meanwhile, every further
      quiet continuation sends, queues and numbers what had passed its gate by then, and no
      more. */
  lemma QuietAfterCommand(s: Sys, acts: seq<Action>, s': Sys, later: seq<Action>, s'': Sys)
    requires Inv(s) && QuietRun(s, acts, s') && Delivery.BeforeFlush(s.ctrl.pc) && s.ctrl.outputs != []
    requires forall o :: o in s.ctrl.outputs ==> Off(o.name) in acts
    requires forall name :: name in s.ctrl.sh.paused && !IsOutput(s.ctrl.outputs, name) ==> s.ctrl.sh.paused[name]
    requires QuietRun(s', later, s'')
    ensures AllPaused(s'.ctrl.sh) && AllPaused(s''.ctrl.sh) && Silent(s', s'')
  {
    OffPausesAll(s, acts, s');
    RunKeepsInv(s, acts, s');
    StaysBeforeFlush(s, acts, s');
    QuietAfterOff(s', later, s'');
  }

  lemma {:induction false} StaysBeforeFlush(s: Sys, acts: seq<Action>, s': Sys)
    requires QuietRun(s, acts, s') && Delivery.BeforeFlush(s.ctrl.pc)
    ensures Delivery.BeforeFlush(s'.ctrl.pc)
    decreases acts
  {
    if acts != [] {
      StepBeforeFlush(s, acts[0]);
      StaysBeforeFlush(Next(s, acts[0]), acts[1..], s');
    }
  }

  lemma StepBeforeFlush(s: Sys, a: Action)
    requires Enabled(s, a) && Quiet(a) && Delivery.BeforeFlush(s.ctrl.pc)
    ensures Delivery.BeforeFlush(Next(s, a).ctrl.pc)
  {
    if a.OfController? {
      StaysOnThisSide(s.ctrl, a.a);
    }
  }

  lemma StaysOnThisSide(c: Delivery.State, b: Delivery.Action)
    requires Delivery.Enabled(c, b) && !b.FlushBegin? && Delivery.BeforeFlush(c.pc)
    ensures Delivery.BeforeFlush(Delivery.Next(c, b).pc)
  {
  }

  // ---- It does happen --------------------------------------------------------------------

  /** Steps of the controller alone are steps of the pipeline. */
  lemma {:induction false} Lift(s: Sys, own: seq<Delivery.Action>, c: Delivery.State) returns (acts: seq<Action>)
    requires Delivery.Run(s.ctrl, own, c) && forall b :: b in own ==> !b.Receive? && !b.FlushBegin?
    ensures Run(s, acts, s.(ctrl := c))
    decreases own
  {
    if own == [] {
      acts := [];
    } else {
      var rest := Lift(s.(ctrl := Delivery.Next(s.ctrl, own[0])), own[1..], c);
      RunCons(s, OfController(own[0]), rest, s.(ctrl := c));
      acts := [OfController(own[0])] + rest;
    }
  }

  lemma {:induction false} Chain(s: Sys, acts: seq<Action>, s1: Sys, more: seq<Action>, s': Sys)
    requires Run(s, acts, s1) && Run(s1, more, s')
    ensures Run(s, acts + more, s')
    decreases acts
  {
    if acts == [] {
      assert [] + more == more;
    } else {
      assert (acts + more)[1..] == acts[1..] + more;
      Chain(Next(s, acts[0]), acts[1..], s1, more, s');
    }
  }

  /** A run from the start in which `/off` has set the only flag while a message was in hand: it is sent
      afterwards. */
  lemma SentAfterOff() returns (s0: Sys, acts: seq<Action>, s: Sys)
    ensures Initial(s0) && Run(s0, acts, s) && acts != [] && acts[|acts| - 1] == Off("a")
    ensures AllPaused(s.ctrl.sh) && Delivery.BeforeFlush(s.ctrl.pc) && s.ctrl.done == []
    ensures var send := OfController(Delivery.SendDone);
            Enabled(s, send) && Quiet(send) && |SentMsgs(Next(s, send).ctrl.done)| == 1
  {
    var t := Translation(0, "x", "ja", map[]);
    var o := OutputConfig("a", "", "acc", [], "", "", false);
    var c0 := Guarantees.OneOutput(o);
    s0 := Sys(Pool.Agent(3, Pool.Idle, 0, 0, 0, {}, {}, {}, [], [], multiset{}, multiset{}, 0, 0, 0), c0);
    var first, s1 := FirstSubmitted(s0, t);
    var second, s2 := MessageInHand(s1, o, t);
    Chain(s0, first, s1, second, s2);
    s := OffWhileInHand(s2);
    Chain(s0, first + second, s2, [Off("a")], s);
    acts := first + second + [Off("a")];
  }

  lemma OffWhileInHand(s: Sys) returns (s': Sys)
    requires s.ctrl.pc.Sending? && s.ctrl.done == [] && s.ctrl.sh.paused == map["a" := false]
    ensures Run(s, [Off("a")], s') && AllPaused(s'.ctrl.sh) && Delivery.BeforeFlush(s'.ctrl.pc) && s'.ctrl.done == []
    ensures var send := OfController(Delivery.SendDone);
            Enabled(s', send) && Quiet(send) && |SentMsgs(Next(s', send).ctrl.done)| == 1
  {
    s' := Next(s, Off("a"));
    assert Run(s', [], s');
    RunCons(s, Off("a"), [], s');
    assert "a" in s'.ctrl.sh.paused && s'.ctrl.sh.paused["a"];
    SendHappens(s'.ctrl);
  }

  /** The agent numbers, translates and submits a first result. */
  lemma FirstSubmitted(s0: Sys, t: Translation) returns (acts: seq<Action>, s: Sys)
    requires s0.agent == Pool.Agent(3, Pool.Idle, 0, 0, 0, {}, {}, {}, [], [], multiset{}, multiset{}, 0, 0, 0)
    requires t.seqNo == 0 && !AllPaused(s0.ctrl.sh)
    ensures Run(s0, acts, s) && s.ctrl == s0.ctrl && s.agent.ch == [t]
  {
    var start, pass, assign := OfAgent(Pool.StartCycle), OfAgent(Pool.PassGate), OfAgent(Pool.Assign);
    var acquire, submit := OfAgent(Pool.Acquire), OfAgent(Pool.Submit(t));
    var s1 := Next(s0, start);
    var s2 := Next(s1, pass);
    var s3 := Next(s2, assign);
    var s4 := Next(s3, acquire);
    s := Next(s4, submit);
    assert Run(s, [], s);
    RunCons(s4, submit, [], s);
    RunCons(s3, acquire, [submit] + [], s);
    RunCons(s2, assign, [acquire] + ([submit] + []), s);
    RunCons(s1, pass, [assign] + ([acquire] + ([submit] + [])), s);
    RunCons(s0, start, [pass] + ([assign] + ([acquire] + ([submit] + []))), s);
    acts := [start] + ([pass] + ([assign] + ([acquire] + ([submit] + []))));
  }

  /** The controller receives it, queues its message and takes it when it is due. */
  lemma MessageInHand(s: Sys, o: OutputConfig, t: Translation) returns (acts: seq<Action>, s': Sys)
    requires s.agent.ch == [t] && t == Translation(0, "x", "ja", map[]) && o.name == "a" && o.targetLang == ""
    requires Delivery.Initial(s.ctrl) && s.ctrl.outputs == [o] && s.ctrl.clock == 0
    requires s.ctrl.senders == map["a" := Sender(0, 0, map[])]
    requires s.ctrl.sh == Shared(map["a" := false], map["a" := OutputState(false, "", [], [])], {}, 0)
    ensures Run(s, acts, s') && s'.ctrl.pc.Sending? && s'.ctrl.done == [] && s'.ctrl.sh.paused == map["a" := false]
  {
    assert "a" in s.ctrl.senders.Keys;
    var own, c := RoutedAndTaken(s.ctrl, o, t);
    var s1 := Next(s, Receive);
    var rest := Lift(s1, own, c);
    s' := s1.(ctrl := c);
    RunCons(s, Receive, rest, s');
    acts := [Receive] + rest;
  }

  lemma RoutedAndTaken(c: Delivery.State, o: OutputConfig, t: Translation)
      returns (own: seq<Delivery.Action>, c': Delivery.State)
    requires t == Translation(0, "x", "ja", map[]) && o.name == "a" && o.targetLang == ""
    requires c.outputs == [o] && c.clock == 0 && c.senders == map["a" := Sender(0, 0, map[])]
    requires "a" in c.rel.accepted && "a" in c.rel.fates && c.queue == [] && c.done == []
    requires c.sh == Shared(map["a" := false], map["a" := OutputState(false, "", [], [])], {}, 0)
    ensures Delivery.Run(Delivery.Begun(c, t), own, c') && forall b :: b in own ==> !b.Receive? && !b.FlushBegin?
    ensures c'.pc.Sending? && c'.done == [] && c'.sh.paused == map["a" := false]
  {
    var first, c1 := Guarantees.FirstMessage(Delivery.Begun(c, t), o, t);
    var more;
    more, c' := TakenWhenDue(c1, t);
    Delivery.RunAppend(Delivery.Begun(c, t), first, c1, more, c');
    own := first + more;
  }

  lemma TakenWhenDue(c: Delivery.State, t: Translation) returns (own: seq<Delivery.Action>, c': Delivery.State)
    requires c.pc == Delivery.Drain(t, 0) && Delivery.Placed(c) && |c.routing| == 1 && Delivery.At(c).name == "a"
    requires c.senders["a"].nextSeq !in c.senders["a"].pending && c.clock == 0 && c.sh.skip == {}
    requires c.queue == [DelayedMsg(0, "x", SEND_DELAY, "a", 0)] && c.sh.paused == map["a" := false]
    ensures Delivery.Run(c, own, c') && c'.pc.Sending? && c'.done == c.done && c'.sh.paused == c.sh.paused
    ensures own == [Delivery.NextOutput, Delivery.EndRoute, Delivery.TickBegin(SEND_DELAY), Delivery.Take]
  {
    var begin := Delivery.TickBegin(SEND_DELAY);
    var c1 := Delivery.Next(c.(pc := Delivery.Select), begin);
    c1 := Guarantees.BackToSelect(c, t, begin, c1);
    c' := Delivery.Taken(c1);
    Delivery.RunCons(c1, Delivery.Take, [], c');
    Delivery.RunAppend(c, [Delivery.NextOutput, Delivery.EndRoute, begin], c1, [Delivery.Take], c');
    own := [Delivery.NextOutput, Delivery.EndRoute, begin] + [Delivery.Take];
  }
}
