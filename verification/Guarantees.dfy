/** What every run of the delivery machine guarantees, whatever arrives, is skipped or is
    paused in whichever order. */
module Guarantees {
  import opened Types
  import opened Sections
  import opened Routing
  import opened Delivery

  // ---- Order and at-most-once ------------------------------------------------------------

  /** The positions in `done` of the messages handed to `sendMessage` for an output. */
  function SentIds(done: seq<Done>, n: string): (ids: seq<nat>)
    ensures forall i :: 0 <= i < |ids| ==> ids[i] < |done| && done[ids[i]].msg.output == n && WasSent(done[ids[i]])
    ensures forall i, j :: 0 <= i < j < |ids| ==> ids[i] < ids[j]
    ensures forall k: nat :: k < |done| && done[k].msg.output == n && WasSent(done[k]) ==> k in ids
  {
    if done == [] then []
    else
      var last := |done| - 1;
      var before := SentIds(done[..last], n);
      if done[last].msg.output == n && WasSent(done[last]) then before + [last] else before
  }

  /** Their sequence numbers, in the order of sending. */
  function SentSeqs(s: State, n: string): seq<int>
    requires |s.done| <= |s.rel.origin|
  {
    var ids := SentIds(s.done, n);
    seq(|ids|, i requires 0 <= i < |ids| => s.rel.origin[ids[i]])
  }

  /** Per output, the messages sent over a whole run, on ticks and while flushing, have strictly
      increasing sequence numbers: none overtakes another and none is sent twice. */
  lemma SentInOrder(s0: State, acts: seq<Action>, s: State, n: string)
    requires Initial(s0) && Run(s0, acts, s)
    ensures |s.done| <= |s.rel.origin|
    ensures forall i, j :: 0 <= i < j < |SentSeqs(s, n)| ==> SentSeqs(s, n)[i] < SentSeqs(s, n)[j]
  {
    InitialInv(s0);
    RunKeepsInv(s0, acts, s);
    DoneIsPrefix(s);
    IdsInOrder(s, n);
  }

  lemma IdsInOrder(s: State, n: string)
    requires OriginsOk(s.rel.fates, s.rel.enq, s.rel.origin) && |s.done| <= |s.rel.enq|
    requires forall i :: 0 <= i < |s.done| ==> s.done[i].msg == s.rel.enq[i]
    ensures forall i, j :: 0 <= i < j < |SentSeqs(s, n)| ==> SentSeqs(s, n)[i] < SentSeqs(s, n)[j]
  {
    var ids := SentIds(s.done, n);
    forall i, j | 0 <= i < j < |ids| ensures s.rel.origin[ids[i]] < s.rel.origin[ids[j]] {
      assert s.rel.enq[ids[i]].output == s.rel.enq[ids[j]].output == n;
    }
  }

  lemma DoneIsPrefix(s: State)
    requires Ledger(s.done, InHand(s), Waiting(s), s.rel.enq, s.sh.nextId)
    ensures |s.done| <= |s.rel.enq|
    ensures forall i :: 0 <= i < |s.done| ==> s.done[i].msg == s.rel.enq[i] && s.done[i].msg.id == i
  {
    assert forall i :: 0 <= i < |s.done| ==> s.rel.enq[i] == Msgs(s.done)[i];
  }

  // ---- Conservation ----------------------------------------------------------------------

  /** Where a sequence number that output n has taken in is now. */
  datatype Place = Buffered | Held | Settled(fate: Fate)
  datatype Stage = ToCome | Taken | Over(outcome: Outcome)

  ghost predicate SeqIsAt(s: State, n: string, k: int, p: Place)
    requires n in s.senders && n in s.rel.fates
  {
    IsAt(s.senders[n], s.rel.fates[n], FocusOf(s), n, k, p)
  }

  ghost predicate IsAt(snd: Sender, fates: seq<Fate>, focus: Focus, n: string, k: int, p: Place) {
    match p
    case Buffered => snd.nextSeq <= k && k in snd.pending
    case Held => focus.Holding? && focus.name == n && k == snd.nextSeq - 1
    case Settled(f) => 0 <= k < |fates| && fates[k] == f
  }

  ghost predicate MsgIsAt(s: State, m: DelayedMsg, st: Stage) {
    match st
    case ToCome => m in Waiting(s)
    case Taken => InHand(s) == [m]
    case Over(outcome) => Done(m, outcome) in s.done
  }

  /** No sequence number is lost or doubled: each that an output has taken in is in exactly
      one place, and its fate matches its text. */
  lemma SeqsConserved(s0: State, acts: seq<Action>, s: State, n: string, k: int)
    requires Initial(s0) && Run(s0, acts, s)
    requires n in s.rel.accepted && k in s.rel.accepted[n]
    ensures n in s.senders && n in s.rel.fates
    ensures exists p :: SeqIsAt(s, n, k, p)
    ensures forall p, q :: SeqIsAt(s, n, k, p) && SeqIsAt(s, n, k, q) ==> p == q
    ensures forall f :: SeqIsAt(s, n, k, Settled(f)) ==> FateOk(s.rel.enq, s.rel.origin, n, k, s.rel.accepted[n][k], f)
  {
    InitialInv(s0);
    RunKeepsInv(s0, acts, s);
    assert BufferOk(n, s.senders[n], s.rel.accepted[n], s.rel.fates[n], FocusOf(s));
    PlaceOf(s, n, k);
  }

  lemma PlaceOf(s: State, n: string, k: int)
    requires n in s.senders && n in s.rel.accepted && n in s.rel.fates && k in s.rel.accepted[n]
    requires BufferOk(n, s.senders[n], s.rel.accepted[n], s.rel.fates[n], FocusOf(s))
    requires FatesOk(s.rel.enq, s.rel.origin, n, s.rel.accepted[n], s.rel.fates[n])
    ensures exists p :: SeqIsAt(s, n, k, p)
    ensures forall p, q :: SeqIsAt(s, n, k, p) && SeqIsAt(s, n, k, q) ==> p == q
    ensures forall f :: SeqIsAt(s, n, k, Settled(f)) ==> FateOk(s.rel.enq, s.rel.origin, n, k, s.rel.accepted[n][k], f)
  {
    OnePlace(s.senders[n], s.rel, FocusOf(s), n, k);
    var p :| IsAt(s.senders[n], s.rel.fates[n], FocusOf(s), n, k, p);
    assert SeqIsAt(s, n, k, p);
  }

  /** No message is lost or doubled: each id issued stems from one sequence number of its output,
      whose text it carries, and is in exactly one stage. */
  lemma MessagesConserved(s0: State, acts: seq<Action>, s: State, id: nat)
    requires Initial(s0) && Run(s0, acts, s) && id < |s.rel.enq|
    ensures |s.rel.origin| == |s.rel.enq| == s.sh.nextId
    ensures var n, k := s.rel.enq[id].output, s.rel.origin[id];
            && n in s.rel.fates && n in s.rel.accepted && k in s.rel.accepted[n]
            && s.rel.enq[id].text == s.rel.accepted[n][k] != ""
            && (forall n', k' :: n' in s.rel.fates && 0 <= k' < |s.rel.fates[n']| ==>
                  (s.rel.fates[n'][k'] == Issued(id) <==> n' == n && k' == k))
    ensures exists st :: MsgIsAt(s, s.rel.enq[id], st)
    ensures forall st, st' :: MsgIsAt(s, s.rel.enq[id], st) && MsgIsAt(s, s.rel.enq[id], st') ==> st == st'
  {
    InitialInv(s0);
    RunKeepsInv(s0, acts, s);
    OneSource(s.senders, s.rel, FocusOf(s), id);
    SomeStage(s, id);
    OneStage(s, id);
  }

  lemma OneSource(senders: map<string, Sender>, rel: Releases, focus: Focus, id: nat)
    requires Buffers(senders, rel, focus) && id < |rel.enq|
    ensures |rel.origin| == |rel.enq|
    ensures var n, k := rel.enq[id].output, rel.origin[id];
            && n in rel.fates && n in rel.accepted && k in rel.accepted[n]
            && rel.enq[id].text == rel.accepted[n][k] != ""
            && (forall n', k' :: n' in rel.fates && 0 <= k' < |rel.fates[n']| ==>
                  (rel.fates[n'][k'] == Issued(id) <==> n' == n && k' == k))
  {
    var n, k := rel.enq[id].output, rel.origin[id];
    assert FateOk(rel.enq, rel.origin, n, k, rel.accepted[n][k], rel.fates[n][k]);
    forall n', k' | n' in rel.fates && 0 <= k' < |rel.fates[n']| && rel.fates[n'][k'] == Issued(id)
      ensures n' == n && k' == k
    {
      assert FateOk(rel.enq, rel.origin, n', k', rel.accepted[n'][k'], rel.fates[n'][k']);
    }
  }

  lemma OnePlace(snd: Sender, rel: Releases, focus: Focus, n: string, k: int)
    requires n in rel.accepted && n in rel.fates && k in rel.accepted[n]
    requires BufferOk(n, snd, rel.accepted[n], rel.fates[n], focus)
    requires FatesOk(rel.enq, rel.origin, n, rel.accepted[n], rel.fates[n])
    ensures exists p :: IsAt(snd, rel.fates[n], focus, n, k, p)
    ensures forall p, q :: IsAt(snd, rel.fates[n], focus, n, k, p) && IsAt(snd, rel.fates[n], focus, n, k, q) ==> p == q
    ensures forall f :: IsAt(snd, rel.fates[n], focus, n, k, Settled(f)) ==>
              FateOk(rel.enq, rel.origin, n, k, rel.accepted[n][k], f)
  {
    var p := if snd.nextSeq <= k then Buffered
             else if k < |rel.fates[n]| then Settled(rel.fates[n][k]) else Held;
    assert IsAt(snd, rel.fates[n], focus, n, k, p);
  }

  lemma SomeStage(s: State, id: nat)
    requires Ledger(s.done, InHand(s), Waiting(s), s.rel.enq, s.sh.nextId) && id < |s.rel.enq|
    ensures exists st :: MsgIsAt(s, s.rel.enq[id], st)
  {
    DoneIsPrefix(s);
    HandId(s);
    StageByPosition(s, InHand(s), Waiting(s), id, s.rel.enq[id]);
  }

  lemma StageByPosition(s: State, hand: seq<DelayedMsg>, waiting: seq<DelayedMsg>, id: nat, m: DelayedMsg)
    requires hand == InHand(s) && waiting == Waiting(s) && id < |s.done| + |hand| + |waiting|
    requires id < |s.done| ==> s.done[id].msg == m
    requires id == |s.done| && hand != [] ==> hand == [m]
    requires |s.done| + |hand| <= id ==> waiting[id - |s.done| - |hand|] == m
    ensures exists st :: MsgIsAt(s, m, st)
  {
    if id < |s.done| {
      assert s.done[id] == Done(m, s.done[id].outcome);
      assert MsgIsAt(s, m, Over(s.done[id].outcome));
    } else if id < |s.done| + |hand| {
      assert MsgIsAt(s, m, Taken);
    } else {
      assert MsgIsAt(s, m, ToCome);
    }
  }

  lemma OneStage(s: State, id: nat)
    requires Ledger(s.done, InHand(s), Waiting(s), s.rel.enq, s.sh.nextId) && id < |s.rel.enq|
    ensures forall st, st' :: MsgIsAt(s, s.rel.enq[id], st) && MsgIsAt(s, s.rel.enq[id], st') ==> st == st'
  {
    forall st | MsgIsAt(s, s.rel.enq[id], st) ensures st == StageById(s.done, |InHand(s)|, id) {
      StageIs(s, id, st);
    }
  }

  /** Where a message is follows from its id. */
  function StageById(done: seq<Done>, hand: nat, id: nat): Stage {
    if id < |done| then Over(done[id].outcome) else if id < |done| + hand then Taken else ToCome
  }

  lemma StageIs(s: State, id: nat, st: Stage)
    requires Ledger(s.done, InHand(s), Waiting(s), s.rel.enq, s.sh.nextId) && id < |s.rel.enq|
    requires MsgIsAt(s, s.rel.enq[id], st)
    ensures st == StageById(s.done, |InHand(s)|, id)
  {
    var m := s.rel.enq[id];
    HandId(s);
    match st
    case ToCome =>
      var i :| 0 <= i < |Waiting(s)| && Waiting(s)[i] == m;
      assert s.rel.enq[|s.done| + |InHand(s)| + i].id == |s.done| + |InHand(s)| + i;
    case Taken =>
      assert s.rel.enq[|s.done|].id == |s.done|;
    case Over(outcome) =>
      DoneIsPrefix(s);
      var i :| 0 <= i < |s.done| && s.done[i] == Done(m, outcome);
      assert i == m.id == id;
  }

  lemma HandId(s: State)
    requires Ledger(s.done, InHand(s), Waiting(s), s.rel.enq, s.sh.nextId)
    ensures InHand(s) != [] ==> |s.done| < |s.rel.enq| && InHand(s) == [s.rel.enq[|s.done|]]
    ensures forall i :: 0 <= i < |Waiting(s)| ==> Waiting(s)[i] == s.rel.enq[|s.done| + |InHand(s)| + i]
    ensures |s.done| + |InHand(s)| + |Waiting(s)| == |s.rel.enq|
  {
    assert InHand(s) != [] ==> InHand(s)[0] == s.rel.enq[|s.done|];
  }

  // ---- Delay and first-in-first-out ------------------------------------------------------

  /** The messages taken, over all ticks and the flush, are a prefix of those queued; the rest
      wait in order; and no tick hands a message over before it is due. */
  lemma TakenInOrderAndOnTime(s0: State, acts: seq<Action>, s: State)
    requires Initial(s0) && Run(s0, acts, s)
    ensures |s.done| + |InHand(s)| <= |s.rel.enq|
    ensures Msgs(s.done) == s.rel.enq[..|s.done|] && Waiting(s) == s.rel.enq[|s.done| + |InHand(s)|..]
    ensures forall d :: d in s.done && d.outcome.Handed? ==> d.msg.sendAt <= d.outcome.at
    ensures forall i, j :: 0 <= i < j < |Waiting(s)| ==> Waiting(s)[i].sendAt <= Waiting(s)[j].sendAt
  {
    InitialInv(s0);
    RunKeepsInv(s0, acts, s);
    SplitQueue(s);
  }

  lemma SplitQueue(s: State)
    requires Ledger(s.done, InHand(s), Waiting(s), s.rel.enq, s.sh.nextId)
    ensures |s.done| + |InHand(s)| <= |s.rel.enq|
    ensures Msgs(s.done) == s.rel.enq[..|s.done|] && Waiting(s) == s.rel.enq[|s.done| + |InHand(s)|..]
  {
    var front := Msgs(s.done) + InHand(s);
    assert s.rel.enq == front + Waiting(s);
  }

  // ---- The pending lists -----------------------------------------------------------------

  /** Before the flush, in the middle of ticks too, the pending list of an output shows its waiting
      messages in order, without those skipped after they were issued. */
  lemma PendingLists(s0: State, acts: seq<Action>, s: State, n: string)
    requires Initial(s0) && Run(s0, acts, s) && BeforeFlush(s.pc) && n in s.sh.ui
    ensures s.sh.ui[n].pending == View(Waiting(s), n, s.sh.skip - s.req.early)
    ensures forall m :: m in Waiting(s) && m.output == n ==>
              (PendingOf(m) in s.sh.ui[n].pending <==> m.id !in s.sh.skip || m.id in s.req.early)
  {
    InitialInv(s0);
    RunKeepsInv(s0, acts, s);
    WaitingIds(s);
    var hidden := s.sh.skip - s.req.early;
    ViewIds(Waiting(s), n, hidden);
    forall m | m in Waiting(s) && m.output == n && m.id !in hidden ensures PendingOf(m) in s.sh.ui[n].pending {
      ViewComplete(Waiting(s), n, hidden, m);
    }
  }

  /** Said entry by entry: the list announces, in the order of the queue and with the due time in whole milliseconds,
      exactly the waiting messages of the output without those skipped after they were issued. */
  lemma PendingShown(s0: State, acts: seq<Action>, s: State, n: string) returns (at: seq<nat>)
    requires Initial(s0) && Run(s0, acts, s) && BeforeFlush(s.pc) && n in s.sh.ui
    ensures Lists(s.sh.ui[n].pending, Waiting(s), n, s.sh.skip - s.req.early, at)
  {
    PendingLists(s0, acts, s, n);
    at := ViewLists(Waiting(s), n, s.sh.skip - s.req.early);
  }

  /** The lists are the queue minus the whole skip set exactly when no waiting message was
      named only by skips that came before its id was issued. */
  lemma PendingListsExact(s0: State, acts: seq<Action>, s: State)
    requires Initial(s0) && Run(s0, acts, s) && BeforeFlush(s.pc)
    ensures (forall n :: n in s.sh.ui ==> s.sh.ui[n].pending == View(Waiting(s), n, s.sh.skip))
       <==> (forall m :: m in Waiting(s) ==> m.id !in s.req.early)
  {
    InitialInv(s0);
    RunKeepsInv(s0, acts, s);
    WaitingIds(s);
    if forall m :: m in Waiting(s) ==> m.id !in s.req.early {
      forall n | n in s.sh.ui ensures s.sh.ui[n].pending == View(Waiting(s), n, s.sh.skip) {
        ViewOnlyQueued(Waiting(s), n, s.sh.skip - s.req.early, s.sh.skip);
      }
    } else {
      var m :| m in Waiting(s) && m.id in s.req.early;
      OutputKnown(s, m);
      ViewComplete(Waiting(s), m.output, s.sh.skip - s.req.early, m);
      ViewIds(Waiting(s), m.output, s.sh.skip);
      assert PendingOf(m) in s.sh.ui[m.output].pending && PendingOf(m) !in View(Waiting(s), m.output, s.sh.skip);
    }
  }

  lemma OutputKnown(s: State, m: DelayedMsg)
    requires Inv(s) && m in Waiting(s)
    ensures m.output in s.sh.ui
  {
    WaitingIds(s);
    assert s.rel.enq[m.id].output in s.rel.fates;
  }

  /** A caller that only skips issued ids keeps the condition of `PendingListsExact`. */
  ghost predicate SkipsIssuedIds(s: State, acts: seq<Action>)
    decreases acts
  {
    acts == [] ||
    (&& Enabled(s, acts[0])
     && (acts[0].Skip? ==> acts[0].id < s.sh.nextId)
     && SkipsIssuedIds(Next(s, acts[0]), acts[1..]))
  }

  lemma {:induction false} IssuedSkipsLeaveNoEarly(s: State, acts: seq<Action>, s': State)
    requires Run(s, acts, s') && SkipsIssuedIds(s, acts) && s.req.early == {}
    ensures s'.req.early == {}
    decreases acts
  {
    if acts != [] {
      IssuedSkipsLeaveNoEarly(Next(s, acts[0]), acts[1..], s');
    }
  }

  /** The condition is needed: skipping id 0 before any message makes the first message show
      as pending although it will not be sent. */
  lemma EarlySkipBreaksIndex() returns (s0: State, acts: seq<Action>, s: State)
    ensures Initial(s0) && Run(s0, acts, s) && s.pc.Drain?
    ensures "a" in s.sh.ui && s.sh.ui["a"].pending == [PendingMsg(0, "x", 3000)] && 0 in s.sh.skip && |Waiting(s)| == 1
  {
    var o := OutputConfig("a", "", "acc", [], "", "", false);
    s0 := OneOutput(o);
    var t := Translation(0, "x", "ja", map[]);
    var s1 := SkipAsked(s0, 0);
    assert s1.sh == Shared(map["a" := false], map["a" := OutputState(false, "", [], [])], {0}, 0) by {
      assert RemoveId([], 0) == [];
      assert s1.sh.ui == s0.sh.ui;
    }
    var last;
    last, s := FirstMessage(s1.(pc := Route(t, 0)), o, t);
    acts := SkipBefore(s0, 0, t, s1, last, s);
  }

  lemma SkipBefore(s0: State, id: int, t: Translation, s1: State, last: seq<Action>, s: State)
      returns (acts: seq<Action>)
    requires s1 == SkipAsked(s0, id) && s1.pc == Select && Run(Begun(s1, t), last, s)
    ensures Run(s0, acts, s)
  {
    RunCons(s1, Receive(t), last, s);
    RunCons(s0, Skip(id), [Receive(t)] + last, s);
    acts := [Skip(id)] + ([Receive(t)] + last);
  }

  lemma OneOutput(o: OutputConfig) returns (s0: State)
    requires o.name == "a"
    ensures Initial(s0) && s0.outputs == [o] && s0.clock == 0 && s0.senders == map["a" := Sender(0, 0, map[])]
    ensures s0.sh == Shared(map["a" := false], map["a" := OutputState(false, "", [], [])], {}, 0)
  {
    s0 := State([o], [o], Shared(map["a" := false], map["a" := OutputState(false, "", [], [])], {}, 0),
                map["a" := Sender(0, 0, map[])], [], 0, Select,
                Releases(map["a" := map[]], map["a" := []], [], []), [], Requests({}, {}));
  }

  /** Output "a" routes its first translation, with the text "x": it is queued. */
  lemma FirstMessage(s2: State, o: OutputConfig, t: Translation) returns (acts: seq<Action>, s: State)
    requires s2.outputs == s2.routing == [o] && o.name == "a" && o.targetLang == ""
    requires s2.senders == map["a" := Sender(0, 0, map[])]
    requires s2.pc == Route(t, 0) && t.seqNo == 0 && t.sourceText == "x" && "a" in s2.rel.accepted
    requires "a" in s2.rel.fates
    requires s2.clock == 0 && s2.queue == [] && s2.sh.nextId == 0 && !IsPaused(s2.sh, "a")
    requires "a" in s2.sh.ui && s2.sh.ui["a"].pending == []
    ensures Run(s2, acts, s) && acts == [Store, Release, Enqueue(0)]
    ensures s.pc == Drain(t, 0) && s.outputs == s.routing == s2.outputs && s.done == s2.done && s.clock == 0
    ensures s.queue == [DelayedMsg(0, "x", SEND_DELAY, "a", 0)] && "a" in s.rel.accepted && "a" in s.rel.fates
    ensures "a" in s.senders && s.senders["a"].nextSeq == 1 && 1 !in s.senders["a"].pending
    ensures s.sh.skip == s2.sh.skip && s.sh.paused == s2.sh.paused
    ensures "a" in s.sh.ui && s.sh.ui["a"].pending == [PendingMsg(0, "x", 3000)]
  {
    var s3 := Stored(s2);
    var s4 := Released(s3);
    s := Enqueued(s4, 0);
    assert UnixMilli(SEND_DELAY) == 3000;
    RunCons(s4, Enqueue(0), [], s);
    RunCons(s3, Release, [Enqueue(0)], s);
    RunCons(s2, Store, [Release] + [Enqueue(0)], s);
    acts := [Store] + ([Release] + [Enqueue(0)]);
  }

  // ---- Skips are final -------------------------------------------------------------------

  predicate Doomed(s: State, id: int) {
    (id in s.sh.skip && |s.done| + |InHand(s)| <= id < s.sh.nextId) || Gone(s, id)
  }

  predicate Gone(s: State, id: int) {
    0 <= id < |s.done| && s.done[id].outcome == Skipped
  }

  /** Once an issued message that still waits is skipped, no later tick or flush sends it: in
      every continuation it waits in the skip set or has been skipped. */
  lemma {:induction false} SkipIsFinal(s: State, acts: seq<Action>, s': State, id: int)
    requires Inv(s) && Run(s, acts, s') && Doomed(s, id)
    ensures Doomed(s', id)
    ensures 0 <= id < |s'.done| ==> s'.done[id].outcome == Skipped
    decreases acts
  {
    if acts != [] {
      StepDoomed(s, acts[0], id);
      KeepsInv(s, acts[0]);
      SkipIsFinal(Next(s, acts[0]), acts[1..], s', id);
    }
  }

  lemma SkipDooms(s: State, id: int)
    requires Inv(s) && exists m :: m in Waiting(s) && m.id == id
    ensures Doomed(Next(s, Skip(id)), id)
  {
    WaitingIds(s);
    var s' := Next(s, Skip(id));
    assert InHand(s') == InHand(s);
  }

  lemma StepDoomed(s: State, a: Action, id: int)
    requires Inv(s) && Enabled(s, a) && Doomed(s, id)
    ensures Doomed(Next(s, a), id)
  {
    if a.Take? || a.FlushTake? {
      HeadId(s);
      TakingSteps(s, a);
    } else {
      OtherSteps(s, a);
    }
    DoomCarries(s, Next(s, a), id);
  }

  /** Nothing done is undone, no skip is forgotten before its message is taken, and a message
      taken although it is in the skip set is skipped. */
  ghost predicate SkipsCarry(s: State, s': State) {
    var d, d' := |s.done| + |InHand(s)|, |s'.done| + |InHand(s')|;
    && s.done <= s'.done && s.sh.nextId <= s'.sh.nextId && d <= d' <= d + 1
    && (forall id :: id in s.sh.skip && !(d <= id < d') ==> id in s'.sh.skip)
    && (d < d' && d in s.sh.skip ==> Gone(s', d))
  }

  lemma DoomCarries(s: State, s': State, id: int)
    requires SkipsCarry(s, s') && Doomed(s, id)
    ensures Doomed(s', id)
  {
  }

  lemma TakingSteps(s: State, a: Action)
    requires Enabled(s, a) && (a.Take? || a.FlushTake?) && s.pc.unread[0].id == |s.done|
    ensures SkipsCarry(s, Next(s, a))
  {
  }

  lemma OtherSteps(s: State, a: Action)
    requires Enabled(s, a) && !a.Take? && !a.FlushTake?
    ensures SkipsCarry(s, Next(s, a))
  {
  }

  lemma HeadId(s: State)
    requires Inv(s) && InHand(s) == [] && (s.pc.Ticking? || s.pc.Flushing?) && s.pc.unread != []
    requires s.pc.Ticking? ==> Due(s.pc)
    ensures s.pc.unread[0].id == |s.done| < s.sh.nextId
  {
    if s.pc.Ticking? { NoneKept(s); }
    HandId(s);
    assert Waiting(s)[0] == s.pc.unread[0];
  }

  /** The number of messages taken so far: they are those with the ids below it. */
  function TakenCount(s: State): nat { |s.done| + |InHand(s)| }

  /** A skip is used up when its message is taken, on a tick and in the flush: unless it is asked for again, it is no
      longer in the skip set afterwards. */
  lemma {:induction false} SkipsAreUsedUp(s: State, acts: seq<Action>, s': State, id: int)
    requires Inv(s) && Run(s, acts, s') && Skip(id) !in acts
    requires TakenCount(s) <= id || id !in s.sh.skip
    ensures TakenCount(s') <= id || id !in s'.sh.skip
    decreases acts
  {
    if acts != [] {
      StepUsesUp(s, acts[0], id);
      KeepsInv(s, acts[0]);
      SkipsAreUsedUp(Next(s, acts[0]), acts[1..], s', id);
    }
  }

  lemma StepUsesUp(s: State, a: Action, id: int)
    requires Inv(s) && Enabled(s, a) && a != Skip(id)
    requires TakenCount(s) <= id || id !in s.sh.skip
    ensures TakenCount(Next(s, a)) <= id || id !in Next(s, a).sh.skip
  {
    if a.Take? || a.FlushTake? {
      HeadId(s);
      TakenIsUsed(s, a);
    } else {
      NothingTakenUp(s, a);
    }
  }

  lemma TakenIsUsed(s: State, a: Action)
    requires Enabled(s, a) && (a.Take? || a.FlushTake?)
    ensures TakenCount(Next(s, a)) <= TakenCount(s) + 1 == |s.done| + 1
    ensures Next(s, a).sh.skip == s.sh.skip - {s.pc.unread[0].id}
  {
  }

  lemma NothingTakenUp(s: State, a: Action)
    requires Enabled(s, a) && !a.Take? && !a.FlushTake?
    ensures TakenCount(Next(s, a)) == TakenCount(s)
    ensures Next(s, a).sh.skip == s.sh.skip + if a.Skip? then {a.id} else {}
  {
  }

  /** No message is skipped on another's account: one that was skipped was named by a skip. */
  lemma SkippedOnlyOnRequest(s0: State, acts: seq<Action>, s: State, id: nat)
    requires Initial(s0) && Run(s0, acts, s) && id < |s.done| && s.done[id].outcome == Skipped
    ensures id in s.req.ids
    ensures s.done[id].msg.id == id
  {
    InitialInv(s0);
    RunKeepsInv(s0, acts, s);
    DoneIsPrefix(s);
    assert s.done[id] in s.done;
  }

  // ---- The flush, and what is settled for good -------------------------------------------

  predicate Flushes(pc: Pc) { pc.Flushing? || pc.FlushSending? || pc == Stopped(true) }

  /** The flush sends every message that is not skipped, due or not, paused or not. */
  lemma FlushIgnoresPause(s: State, acts: seq<Action>, s': State)
    requires Inv(s) && Run(s, acts, s') && Flushes(s.pc)
    ensures s.done <= s'.done
    ensures forall i :: |s.done| <= i < |s'.done| ==>
              s'.done[i].outcome == Flushed || (s'.done[i].outcome == Skipped && i in s'.req.ids)
    ensures s'.pc == Stopped(true) ==> |s'.done| == s.sh.nextId
  {
    FlushOutcomes(s, acts, s');
    RunKeepsInv(s, acts, s');
    NamedBySkip(s'.done, s'.req.ids, s');
    HandId(s');
  }

  lemma NamedBySkip(done: seq<Done>, ids: set<int>, s: State)
    requires Ledger(s.done, InHand(s), Waiting(s), s.rel.enq, s.sh.nextId) && SkippedOnRequest(done, ids)
    requires done == s.done
    ensures forall i :: 0 <= i < |done| && done[i].outcome == Skipped ==> i in ids
  {
    DoneIsPrefix(s);
    assert forall i :: 0 <= i < |done| ==> done[i] in done;
  }

  lemma {:induction false} FlushOutcomes(s: State, acts: seq<Action>, s': State)
    requires Run(s, acts, s') && Flushes(s.pc)
    ensures Flushes(s'.pc) && s'.sh.nextId == s.sh.nextId && s.done <= s'.done
    ensures forall i :: |s.done| <= i < |s'.done| ==> s'.done[i].outcome in {Flushed, Skipped}
    decreases acts
  {
    if acts != [] {
      FlushStep(s, acts[0]);
      FlushOutcomes(Next(s, acts[0]), acts[1..], s');
    }
  }

  lemma FlushStep(s: State, a: Action)
    requires Enabled(s, a) && Flushes(s.pc)
    ensures var s' := Next(s, a);
            && Flushes(s'.pc) && s'.sh.nextId == s.sh.nextId
            && s.done <= s'.done && |s'.done| <= |s.done| + 1
            && (|s'.done| > |s.done| ==> s'.done[|s.done|].outcome in {Flushed, Skipped})
  {
  }

  /** The first release settles a sequence number: its fate and the text it was accepted with never change,
      whatever arrives under it later.  (And a message carries the accepted text of its number, by
      `MessagesConserved`.) */
  lemma {:induction false} FateIsFinal(s: State, acts: seq<Action>, s': State, n: string, k: int)
    requires Inv(s) && Run(s, acts, s') && n in s.rel.fates && 0 <= k < |s.rel.fates[n]|
    ensures n in s.rel.accepted && n in s'.rel.accepted && n in s'.rel.fates && |s.rel.fates[n]| <= |s'.rel.fates[n]|
    ensures s'.rel.fates[n][k] == s.rel.fates[n][k]
    ensures k in s.rel.accepted[n] && k in s'.rel.accepted[n] && s'.rel.accepted[n][k] == s.rel.accepted[n][k]
    decreases acts
  {
    Accepted(s.senders, s.rel, FocusOf(s), n, k);
    if acts != [] {
      FatesGrow(s, acts[0], n);
      AcceptedKept(s, acts[0], n, k);
      KeepsInv(s, acts[0]);
      FateIsFinal(Next(s, acts[0]), acts[1..], s', n, k);
    }
  }

  lemma Accepted(senders: map<string, Sender>, rel: Releases, focus: Focus, n: string, k: int)
    requires Buffers(senders, rel, focus) && n in rel.fates && 0 <= k < |rel.fates[n]|
    ensures n in senders && n in rel.accepted && k in rel.accepted[n] && k < senders[n].nextSeq
  {
    assert BufferOk(n, senders[n], rel.accepted[n], rel.fates[n], focus);
  }

  lemma FatesGrow(s: State, a: Action, n: string)
    requires Enabled(s, a) && n in s.rel.fates
    ensures n in Next(s, a).rel.fates && s.rel.fates[n] <= Next(s, a).rel.fates[n]
  {
    if !a.Release? && !a.Enqueue? {
      FatesKept(s, a);
    }
  }

  lemma FatesKept(s: State, a: Action)
    requires Enabled(s, a) && !a.Release? && !a.Enqueue?
    ensures Next(s, a).rel.fates == s.rel.fates
  {
  }

  /** A text that arrives under a number below the next one is not accepted. */
  lemma AcceptedKept(s: State, a: Action, n: string, k: int)
    requires Enabled(s, a) && n in s.rel.accepted && k in s.rel.accepted[n] && n in s.senders
    requires k < s.senders[n].nextSeq
    ensures n in Next(s, a).rel.accepted && k in Next(s, a).rel.accepted[n]
    ensures Next(s, a).rel.accepted[n][k] == s.rel.accepted[n][k]
  {
    if !a.Store? {
      AcceptedSame(s, a);
    }
  }

  lemma AcceptedSame(s: State, a: Action)
    requires Enabled(s, a) && !a.Store?
    ensures Next(s, a).rel.accepted == s.rel.accepted
  {
  }

  // ---- How the goroutine may end ---------------------------------------------------------

  /** Once the goroutine has ended, every message ever queued has been dealt with if and only if it ended with
      the flush, or on a cancellation with nothing queued. */
  lemma StoppedExact(s0: State, acts: seq<Action>, s: State)
    requires Initial(s0) && Run(s0, acts, s) && s.pc.Stopped?
    ensures Msgs(s.done) == s.rel.enq <==> s.pc == Stopped(true) || s.queue == []
  {
    InitialInv(s0);
    RunKeepsInv(s0, acts, s);
    assert Msgs(s.done) + [] + s.queue == s.rel.enq;
  }

  /** It does happen that a cancellation leaves a message: a run to the end of the goroutine, without the flush,
      with one message queued and none dealt with. */
  lemma CancelLoses() returns (s0: State, acts: seq<Action>, s: State)
    ensures Initial(s0) && Run(s0, acts, s) && s.pc == Stopped(false) && |s.queue| == 1 && s.done == []
  {
    var o := OutputConfig("a", "", "acc", [], "", "", false);
    s0 := OneOutput(o);
    var t := Translation(0, "x", "ja", map[]);
    var first, s2 := FirstMessage(s0.(pc := Route(t, 0)), o, t);
    s := BackToSelect(s2, t, Cancel, s2.(pc := Stopped(false)));
    RunAppend(s0.(pc := Route(t, 0)), first, s2, [NextOutput, EndRoute, Cancel], s);
    RunCons(s0, Receive(t), first + [NextOutput, EndRoute, Cancel], s);
    acts := [Receive(t)] + (first + [NextOutput, EndRoute, Cancel]);
  }

  /** The only output is through, and the loop takes its next step. */
  lemma BackToSelect(s: State, t: Translation, next: Action, s1: State) returns (s': State)
    requires s.pc == Drain(t, 0) && Placed(s) && |s.routing| == 1 && !HasNext(s)
    requires Enabled(s.(pc := Select), next) && s1 == Next(s.(pc := Select), next)
    ensures s' == s1 && Run(s, [NextOutput, EndRoute, next], s')
  {
    s' := s1;
    RunCons(s.(pc := Select), next, [], s');
    RunCons(s.(pc := Route(t, 1)), EndRoute, [next], s');
    RunCons(s, NextOutput, [EndRoute, next], s');
  }

  // ---- The list a translation is routed over ---------------------------------------------

  /** What the next step buffers for the output the routing loop has come to. */
  ghost predicate WillBuffer(s: State, n: string, k: int, text: string) {
    && Enabled(s, Store) && n in Next(s, Store).senders
    && k in Next(s, Store).senders[n].pending && Next(s, Store).senders[n].pending[k] == text
  }

  /** A translation is routed over the outputs as they were configured when it arrived, when they are only replaced
      meanwhile: the text of each is selected by its target at that time. */
  lemma RoutedAsConfigured(s: State, t: Translation, acts: seq<Action>, s': State)
    requires s.pc == Select && Run(Next(s, Receive(t)), acts, s') && (forall u :: Receive(u) !in acts)
    requires forall i, cfg :: Reconfigure(i, cfg, true) !in acts
    requires s'.pc.Route? && Enabled(s', Store)
    ensures s'.pc.i < |s.outputs|
    ensures var o := s.outputs[s'.pc.i];
            WillBuffer(s', o.name, t.seqNo, SelectText(o.targetLang, t))
  {
    RoutingStays(Next(s, Receive(t)), t, acts, s');
  }

  /** An edit in place is seen by the loop when it gets there. */
  lemma RoutedAsEdited(s: State, i: nat, cfg: OutputConfig)
    requires s.pc.Route? && s.pc.i == i && Enabled(s, Store) && Enabled(s, Reconfigure(i, cfg, true))
    requires s.outputs[i].name == At(s).name
    ensures WillBuffer(Next(s, Reconfigure(i, cfg, true)), cfg.name, s.pc.t.seqNo, SelectText(cfg.targetLang, s.pc.t))
  {
  }

  /** While the routing of the translation goes on, its list stays. */
  ghost predicate Routes(pc: Pc, t: Translation) {
    pc.Route? || pc.Drain? || pc.Admitted? ==> pc.t == t
  }

  lemma {:induction false} RoutingStays(s: State, t: Translation, acts: seq<Action>, s': State)
    requires Run(s, acts, s') && Routes(s.pc, t) && (forall u :: Receive(u) !in acts)
    requires forall i, cfg :: Reconfigure(i, cfg, true) !in acts
    ensures s'.routing == s.routing && Routes(s'.pc, t)
    decreases acts
  {
    if acts != [] {
      assert acts[0] in acts && forall a :: a in acts[1..] ==> a in acts;
      RoutingStep(s, t, acts[0]);
      RoutingStays(Next(s, acts[0]), t, acts[1..], s');
    }
  }

  lemma RoutingStep(s: State, t: Translation, a: Action)
    requires Enabled(s, a) && Routes(s.pc, t) && !a.Receive? && (a.Reconfigure? ==> !a.live)
    ensures Next(s, a).routing == s.routing && Routes(Next(s, a).pc, t)
  {
  }
}
