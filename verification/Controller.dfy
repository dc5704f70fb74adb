/** The controller as an object.  Each method computes the function of its critical section or of
    its pass over the queue; what holds over all runs is proved about those functions. */
module Controller {
  import opened Types
  import opened Splitter
  import opened Rotation
  import opened Sections
  import opened Routing
  import opened Reorder
  import opened Passes
  import Delivery
  import L = Loop

  /** `SkipPending` and a tick remove at most one entry: the first with the id. */
  method RemoveFirst(p: seq<PendingMsg>, id: int) returns (r: seq<PendingMsg>)
    ensures r == RemoveId(p, id)
  {
    for i := 0 to |p|
      invariant forall k :: 0 <= k < i ==> p[k].id != id
    {
      if p[i].id == id {
        RemoveAt(p, id, i);
        return p[..i] + p[i + 1..];
      }
    }
    RemoveAbsent(p, id);
    return p;
  }

  /** The least positive message limit among the bots of a pool that are there. */
  method MinMessageLen(accounts: seq<string>, pool: Pool) returns (minMax: int)
    ensures minMax == MinLimit(accounts, pool)
  {
    minMax := 0;
    for i := 0 to |accounts|
      invariant minMax == MinLimit(accounts[..i], pool)
    {
      assert accounts[..i + 1][..i] == accounts[..i];
      if accounts[i] in pool {
        var ml := pool[accounts[i]];
        if ml > 0 && (minMax <= 0 || ml < minMax) {
          minMax := ml;
        }
      }
    }
    assert accounts[..|accounts|] == accounts;
  }

  datatype Shown = Shown(name: string, state: OutputState, remaining: seq<int>)

  /** Whole seconds, rounded up, until a message is due (times in milliseconds). */
  function RemainSec(sendAt: int, now: int): (sec: int)
    ensures 0 <= sec && sendAt <= now + 1000 * sec
    ensures sec > 0 ==> now + 1000 * (sec - 1) < sendAt
  {
    var remain := (sendAt - now + 999) / 1000;
    if remain < 0 then 0 else remain
  }

  function ShownStates(outputs: seq<OutputConfig>, states: map<string, OutputState>, now: int): seq<Shown> {
    if outputs == [] then []
    else if outputs[0].name !in states then ShownStates(outputs[1..], states, now)
    else
      var st := states[outputs[0].name];
      [Shown(outputs[0].name, st,
          seq(|st.pending|, j requires 0 <= j < |st.pending| => RemainSec(st.pending[j].sendAt, now)))]
      + ShownStates(outputs[1..], states, now)
  }

  /** The shown entries are the configured outputs that have a state, in configuration order, `at` being their places;
      every pending message shows the least number of whole seconds, not negative, that reaches its due time. */
  ghost predicate ShowsOutputs(shown: seq<Shown>, outputs: seq<OutputConfig>, states: map<string, OutputState>,
          now: int, at: seq<nat>)
  {
    && |at| == |shown|
    && (forall i, j :: 0 <= i < j < |at| ==> at[i] < at[j])
    && (forall k: nat :: k in at <==> k < |outputs| && outputs[k].name in states)
    && (forall i :: 0 <= i < |at| ==> at[i] < |outputs| && ShowsOutput(shown[i], outputs[at[i]], states, now))
  }

  ghost predicate ShowsOutput(shown: Shown, o: OutputConfig, states: map<string, OutputState>, now: int) {
    && shown.name == o.name && o.name in states && shown.state == states[o.name]
    && |shown.remaining| == |shown.state.pending|
    && forall j :: 0 <= j < |shown.remaining| ==> CountsDown(shown.state.pending[j].sendAt, now, shown.remaining[j])
  }

  ghost predicate CountsDown(sendAt: int, now: int, sec: int) {
    0 <= sec && sendAt <= now + 1000 * sec && (sec > 0 ==> now + 1000 * (sec - 1) < sendAt)
  }

  lemma {:induction false} ShownExact(outputs: seq<OutputConfig>, states: map<string, OutputState>, now: int)
    returns (at: seq<nat>)
    ensures ShowsOutputs(ShownStates(outputs, states, now), outputs, states, now, at)
    decreases |outputs|
  {
    at := [];
    if outputs != [] {
      var last := |outputs| - 1;
      var front, o := outputs[..last], outputs[last];
      assert outputs == front + [o];
      at := ShownExact(front, states, now);
      ShownAppend(front, o, states, now);
      if o.name in states {
        at := at + [last];
      }
    }
  }

  lemma {:induction false} ShownAppend(outputs: seq<OutputConfig>, o: OutputConfig, states: map<string, OutputState>,
          now: int)
    ensures ShownStates(outputs + [o], states, now) ==
            ShownStates(outputs, states, now) + ShownStates([o], states, now)
  {
    if outputs != [] {
      assert (outputs + [o])[1..] == outputs[1..] + [o];
      ShownAppend(outputs[1..], o, states, now);
    } else {
      assert [] + [o] == [o];
    }
  }

  class Controller {
    var outputs: seq<OutputConfig>
    var paused: map<string, bool>
    var outputStates: map<string, OutputState>
    var skipSet: set<int>
    var nextMsgID: nat
    var rrIndex: map<string, nat>
    var senders: map<string, Sender>
    var delayQueue: array<DelayedMsg>   // backing array of the delay queue
    var queued: nat                     // its length
    ghost var log: seq<Delivered>       // everything handed to bots

    ghost predicate Valid()
      reads this
    {
      queued <= delayQueue.Length && HaveSenders(outputs, senders)
    }

    ghost function Locked(): Shared
      reads this
    {
      Shared(paused, outputStates, skipSet, nextMsgID)
    }

    ghost function State(): Ctl
      reads this
    {
      Ctl(Locked(), rrIndex, log)
    }

    ghost function Queue(): seq<DelayedMsg>
      reads this, delayQueue
      requires queued <= delayQueue.Length
    {
      delayQueue[..queued]
    }

    /** All outputs start unpaused, with empty buffers and an empty queue. */
    constructor (outputs: seq<OutputConfig>)
      ensures Valid() && fresh(delayQueue) && this.outputs == outputs && Queue() == []
      ensures L.AsStarted(outputs, State(), senders) && forall n :: n in paused ==> n in senders && !paused[n]
    {
      this.outputs := outputs;
      paused, outputStates, senders := map[], map[], map[];
      skipSet, nextMsgID, rrIndex, log := {}, 0, map[], [];
      delayQueue := new DelayedMsg[0];
      queued := 0;
      new;
      for i := 0 to |outputs|
        invariant this.outputs == outputs && queued == 0 && delayQueue.Length == 0 && fresh(delayQueue)
        invariant skipSet == {} && nextMsgID == 0 && rrIndex == map[] && log == []
        invariant forall n :: n in paused <==> exists o :: o in outputs[..i] && o.name == n
        invariant paused.Keys == outputStates.Keys == senders.Keys
        invariant forall n :: n in paused ==>
          !paused[n] && outputStates[n] == OutputState(false, "", [], []) && senders[n] == Sender(0, 0, map[])
      {
        assert outputs[..i + 1] == outputs[..i] + [outputs[i]];
        var name := outputs[i].name;
        paused := paused[name := false];
        outputStates := outputStates[name := OutputState(false, "", [], [])];
        senders := senders[name := Sender(0, 0, map[])];
      }
      assert outputs[..|outputs|] == outputs;
    }

    // ---- Pausing and skipping ------------------------------------------------------------

    method SetPaused(name: string, value: bool)
      modifies this`paused, this`outputStates
      ensures Locked() == SetPausedIn(old(Locked()), name, value)
    {
      paused := paused[name := value];
      if name in outputStates {
        outputStates := outputStates[name := outputStates[name].(paused := value)];
      }
    }

    method TogglePause(name: string) returns (value: bool)
      modifies this`paused, this`outputStates
      ensures value == !IsPaused(old(Locked()), name) == !(name in old(paused) && old(paused)[name])
      ensures Locked() == SetPausedIn(old(Locked()), name, value)
    {
      value := !(name in paused && paused[name]);
      paused := paused[name := value];
      if name in outputStates {
        outputStates := outputStates[name := outputStates[name].(paused := value)];
      }
    }

    /** Despite its name: true when all outputs are paused, and there is one. */
    method IsAnyPaused() returns (all: bool)
      ensures all == AllPaused(Locked())
      ensures all <==> paused != map[] && forall name :: name in paused ==> paused[name]
    {
      var todo := paused.Keys;
      while todo != {}
        invariant todo <= paused.Keys
        invariant forall name :: name in paused.Keys - todo ==> paused[name]
        decreases todo
      {
        var name :| name in todo;
        if !paused[name] {
          return false;
        }
        todo := todo - {name};
      }
      assert forall name :: name in paused ==> name in paused.Keys - todo;
      return paused != map[];
    }

    method SkipPending(msgID: int)
      modifies this`skipSet, this`outputStates
      ensures Locked() == SkipIn(old(Locked()), msgID)
    {
      skipSet := skipSet + {msgID};
      var todo := outputStates.Keys;
      while todo != {}
        invariant skipSet == old(skipSet) + {msgID} && todo <= outputStates.Keys == old(outputStates).Keys
        invariant forall name :: name in outputStates ==>
          outputStates[name] == if name in todo then old(outputStates)[name]
                                else var st := old(outputStates)[name]; st.(pending := RemoveId(st.pending, msgID))
        decreases todo
      {
        var name :| name in todo;
        var rest := RemoveFirst(outputStates[name].pending, msgID);
        outputStates := outputStates[name := outputStates[name].(pending := rest)];
        todo := todo - {name};
      }
      assert outputStates == SkipIn(old(Locked()), msgID).ui;
    }

    /** The states of the configured outputs, in configuration order, with the remaining
        seconds of their pending messages. */
    method OutputStates(now: int) returns (shown: seq<Shown>)
      ensures shown == ShownStates(outputs, outputStates, now)
    {
      shown := [];
      for i := 0 to |outputs|
        invariant ShownStates(outputs, outputStates, now) == shown + ShownStates(outputs[i..], outputStates, now)
      {
        assert outputs[i..][1..] == outputs[i + 1..];
        if outputs[i].name in outputStates {
          var st := outputStates[outputs[i].name];
          var remaining := seq(|st.pending|, j requires 0 <= j < |st.pending| => RemainSec(st.pending[j].sendAt, now));
          shown := shown + [Shown(outputs[i].name, st, remaining)];
        }
      }
    }

    // ---- Sending -------------------------------------------------------------------------

    method SendMessage(m: DelayedMsg, pool: Pool, errors: int -> set<nat>)
      modifies this`rrIndex, this`outputStates, this`log
      ensures State() == SendOn(old(State()), outputs, m, pool, errors)
    {
      var found := Find(m.output);
      if found == [] {
        return;
      }
      var o := found[0];
      var accounts := o.AccountPool();
      if accounts == [] {
        return;
      }
      var prefix := o.prefix + if o.showSeq then SEQ_EMOJIS[m.seqNum % |SEQ_EMOJIS|] else "";
      var minMax := MinMessageLen(accounts, pool);
      var chunks := SplitWithWrap(m.text, prefix, o.suffix, minMax);
      SendChunks(m.output, chunks, accounts, pool, errors(m.id));
      AddToRecent(m);
    }

    method AddToRecent(m: DelayedMsg)
      modifies this`outputStates
      ensures Locked() == NoteSent(old(Locked()), m)
      ensures m.output in outputStates ==>
        m.output in old(outputStates) &&
        LastFive(outputStates[m.output].recent, old(outputStates)[m.output].recent + [m.text])
    {
      if m.output in outputStates {
        var recent := outputStates[m.output].recent + [m.text];
        if |recent| > MAX_RECENT {
          recent := recent[|recent| - MAX_RECENT..];
        }
        outputStates := outputStates[m.output := outputStates[m.output].(recent := recent)];
      }
    }

    method Find(name: string) returns (found: seq<OutputConfig>)
      ensures found == FindOutput(outputs, name)
      ensures forall i: nat :: First(outputs, i, name) ==> found == [outputs[i]]
      ensures found == [] <==> forall o :: o in outputs ==> o.name != name
    {
      FoundFirst(outputs, name);
      for i := 0 to |outputs|
        invariant FindOutput(outputs, name) == FindOutput(outputs[i..], name)
      {
        if outputs[i].name == name {
          return [outputs[i]];
        }
        assert outputs[i..][1..] == outputs[i + 1..];
      }
      return [];
    }

    /** The loop over the chunks: a missing bot loses its chunk, an error ends the message. */
    method SendChunks(name: string, chunks: seq<string>, accounts: seq<string>, pool: Pool, fails: set<nat>)
      requires accounts != []
      modifies this`rrIndex, this`log
      ensures var attempts := Attempts(chunks, 0, accounts, Index(old(rrIndex), name) % |accounts|, pool, fails);
              && rrIndex == (if attempts == [] then old(rrIndex)
                             else old(rrIndex)[name := NextIndex(Index(old(rrIndex), name), |attempts|, |accounts|)])
              && log == old(log) + Tagged(name, attempts, accounts, pool)
    {
      ghost var first := Index(rrIndex, name) % |accounts|;
      ghost var slot := first;
      ghost var made: seq<Attempt> := [];
      var n := 0;
      while n < |chunks|
        invariant 0 <= n == |made| <= |chunks|
        invariant slot < |accounts| && slot == Index(rrIndex, name) % |accounts|
        invariant slot == if n == 0 then first else Following(made[n - 1].account, |accounts|)
        invariant rrIndex == IndexAfter(old(rrIndex), name, made, |accounts|)
        invariant log == old(log) + Tagged(name, made, accounts, pool)
        invariant Chain(made, chunks, accounts, first, pool, fails)
        invariant n > 0 ==> made[n - 1].reply != Failed
      {
        ghost var attempt := Attempt(slot, chunks[n], ReplyOf(pool, accounts[slot], n in fails));
        TagOne(name, made, attempt, accounts, pool);
        ChainGrows(made, chunks, accounts, first, pool, fails, slot);
        var reply := SendChunk(name, chunks[n], accounts, pool, n in fails, slot);
        made := made + [attempt];
        slot := Following(slot, |accounts|);
        n := n + 1;
        if reply == Failed {
          break;
        }
      }
      ChainStores(made, chunks, accounts, Index(old(rrIndex), name), pool, fails, old(rrIndex), name);
    }

    /** Picks the next account and has its bot, if it is there, send the chunk. */
    method SendChunk(name: string, chunk: string, accounts: seq<string>, pool: Pool, fails: bool, ghost slot: nat)
      returns (reply: Reply)
      requires accounts != [] && slot == Index(rrIndex, name) % |accounts|
      modifies this`rrIndex, this`log
      ensures rrIndex == old(rrIndex)[name := Following(slot, |accounts|)]
      ensures reply == ReplyOf(pool, accounts[slot], fails)
      ensures reply == Missing <==> accounts[slot] !in pool
      ensures reply == Failed <==> accounts[slot] in pool && fails
      ensures log == old(log) + [Tag(name, Attempt(slot, chunk, reply), accounts, pool)]
      ensures Following(slot, |accounts|) == Index(rrIndex, name) % |accounts|
    {
      var idx := Index(rrIndex, name) % |accounts|;
      rrIndex := rrIndex[name := (idx + 1) % |accounts|];
      reply := if accounts[idx] !in pool then Missing else if fails then Failed else Sent;
      log := log + [Tag(name, Attempt(idx, chunk, reply), accounts, pool)];
      DivModUnique(rrIndex[name], |accounts|, 0, rrIndex[name]);
    }

    // ---- The delay queue -----------------------------------------------------------------

    /** Appending, with a larger backing array when the old one is full. */
    method Append(m: DelayedMsg)
      requires queued <= delayQueue.Length
      modifies this`delayQueue, this`queued, delayQueue
      ensures queued <= delayQueue.Length && (delayQueue == old(delayQueue) || fresh(delayQueue))
      ensures Queue() == old(Queue()) + [m]
    {
      ghost var before := delayQueue[..queued];
      if queued == delayQueue.Length {
        var larger := new DelayedMsg[2 * queued + 1](_ => m);
        for i := 0 to queued
          invariant delayQueue == old(delayQueue) && queued == old(queued) && delayQueue[..queued] == before
          invariant larger[..i] == before[..i]
        {
          larger[i] := delayQueue[i];
        }
        delayQueue := larger;
      }
      assert delayQueue[..queued] == before;
      delayQueue[queued] := m;
      queued := queued + 1;
      assert delayQueue[..queued] == before + [m];
    }

    /** A due message on a tick: the critical section, then the send unless skipped or paused. */
    method TakeDue(dm: DelayedMsg, now: int, pool: Pool, errors: int -> set<nat>)
      returns (ghost outcome: Delivery.Outcome)
      requires dm.sendAt <= now
      modifies this`skipSet, this`outputStates, this`rrIndex, this`log
      ensures var one := TickOne(old(State()), outputs, dm, now, pool, errors);
              State() == one.c && one.taken == [Delivery.Done(dm, outcome)]
    {
      var skipped := dm.id in skipSet;
      var isPaused := dm.output in paused && paused[dm.output];
      ghost var sh := Locked();
      if skipped {
        skipSet := skipSet - {dm.id};
      }
      if dm.output in outputStates {
        var rest := RemoveFirst(outputStates[dm.output].pending, dm.id);
        outputStates := outputStates[dm.output := outputStates[dm.output].(pending := rest)];
      }
      assert !skipped ==> sh.skip - {dm.id} == sh.skip;
      assert Locked() == TakeIn(sh, dm);
      if skipped {
        outcome := Delivery.Skipped;
        return;
      }
      if isPaused {
        outcome := Delivery.DroppedAtSend;
        return;
      }
      SendMessage(dm, pool, errors);
      outcome := Delivery.Handed(now);
    }

    /** One message of a tick.  If it is not due it is appended to the kept ones, over messages already read;
        what is unread, from `next` on, stays. */
    method ProcessOne(dm: DelayedMsg, kept: nat, ghost next: nat, now: int, pool: Pool, errors: int -> set<nat>)
      returns (kept': nat, ghost one: Pass)
      requires kept < next <= queued <= delayQueue.Length
      modifies this`skipSet, this`outputStates, this`rrIndex, this`log, delayQueue
      ensures one == TickOne(old(State()), outputs, dm, now, pool, errors) && State() == one.c
      ensures kept' == kept + |one.kept| <= next
      ensures delayQueue[..kept'] == old(delayQueue[..kept]) + one.kept
      ensures delayQueue[next..queued] == old(delayQueue[next..queued])
    {
      one := TickOne(State(), outputs, dm, now, pool, errors);
      if now < dm.sendAt {
        delayQueue[kept] := dm;
        kept' := kept + 1;
      } else {
        ghost var outcome := TakeDue(dm, now, pool, errors);
        kept' := kept;
        assert delayQueue[..kept] + [] == delayQueue[..kept];
      }
    }

    /** What the rest of a tick comes to when these messages are still to be read. */
    ghost function Remainder(unread: seq<DelayedMsg>, now: int, pool: Pool, errors: int -> set<nat>): Pass
      reads this
    {
      TickAll(State(), outputs, unread, now, pool, errors)
    }

    /** Compacts the queue in place: what is kept is written over the front of the array while the rest is
        still being read. */
    method Compact(now: int, pool: Pool, errors: int -> set<nat>) returns (kept: nat, ghost taken: seq<Delivery.Done>)
      requires queued <= delayQueue.Length
      modifies this`skipSet, this`outputStates, this`rrIndex, this`log, delayQueue
      ensures kept <= queued
      ensures TickAll(old(State()), outputs, old(Queue()), now, pool, errors)
           == Pass(State(), delayQueue[..kept], taken)
    {
      ghost var all := Remainder(Queue(), now, pool, errors);
      ghost var rest := all;
      taken := [];
      ghost var remaining: seq<DelayedMsg> := [];
      ghost var unread := Queue();
      kept := 0;
      var i := 0;
      while i < queued
        invariant 0 <= kept <= i <= queued
        invariant remaining == delayQueue[..kept] && unread == delayQueue[i..queued]
        invariant rest == Remainder(unread, now, pool, errors) && all == Join(remaining, taken, rest)
      {
        ghost var one;
        assert unread[1..] == delayQueue[i + 1..queued];
        kept, one := ProcessOne(delayQueue[i], kept, i + 1, now, pool, errors);
        JoinMorePass(all, remaining, taken, one, rest, Remainder(unread[1..], now, pool, errors));
        rest := Remainder(unread[1..], now, pool, errors);
        remaining := remaining + one.kept;
        taken := taken + one.taken;
        unread := unread[1..];
        i := i + 1;
      }
      assert unread == [] && rest == Pass(State(), [], []);
      assert remaining + [] == remaining && taken + [] == taken;
    }

    /** A tick: the queue afterwards is what the compaction kept. */
    method ProcessDelayQueue(now: int, pool: Pool, errors: int -> set<nat>) returns (ghost taken: seq<Delivery.Done>)
      requires Valid()
      modifies this`skipSet, this`outputStates, this`rrIndex, this`log, this`queued, delayQueue
      ensures Valid()
      ensures TickAll(old(State()), outputs, old(Queue()), now, pool, errors) == Pass(State(), Queue(), taken)
      ensures Queue() == NotDue(old(Queue()), now)
    {
      TickPartitions(State(), outputs, Queue(), now, pool, errors);
      var kept;
      kept, taken := Compact(now, pool, errors);
      queued := kept;
    }

    method FlushDelayQueue(pool: Pool, errors: int -> set<nat>) returns (ghost taken: seq<Delivery.Done>)
      requires Valid()
      modifies this`skipSet, this`outputStates, this`rrIndex, this`log
      ensures FlushAll(old(State()), outputs, Queue(), pool, errors) == Pass(State(), [], taken)
    {
      taken := [];
      ghost var all := FlushAll(State(), outputs, Queue(), pool, errors);
      assert [] + all.taken == all.taken;
      for i := 0 to queued
        invariant all == Join([], taken, FlushAll(State(), outputs, Queue()[i..], pool, errors))
      {
        var dm := delayQueue[i];
        assert Queue()[i..][1..] == Queue()[i + 1..];
        JoinFlush(taken, State(), outputs, Queue()[i..], pool, errors);
        taken := taken + FlushOne(State(), outputs, dm, pool, errors).taken;
        if dm.id in skipSet {
          skipSet := skipSet - {dm.id};
        } else {
          SendMessage(dm, pool, errors);
        }
      }
      assert taken + [] == taken;
    }

    // ---- Routing -------------------------------------------------------------------------

    /** Queues a released text: the id and the pending entry under the mutex, then the queue. */
    method Admit(name: string, text: string, now: int, seqNum: nat)
      requires queued <= delayQueue.Length
      modifies this`nextMsgID, this`outputStates, this`delayQueue, this`queued, delayQueue
      ensures queued <= delayQueue.Length && (delayQueue == old(delayQueue) || fresh(delayQueue))
      ensures Locked() == AdmitIn(old(Locked()), NewMessage(old(Locked()), name, text, now, seqNum))
      ensures Queue() == old(Queue()) + [NewMessage(old(Locked()), name, text, now, seqNum)]
    {
      var msgID := nextMsgID;
      nextMsgID := nextMsgID + 1;
      var sendAt := now + SEND_DELAY;
      if name in outputStates {
        var st := outputStates[name];
        outputStates := outputStates[name := st.(pending := st.pending + [PendingMsg(msgID, text, UnixMilli(sendAt))],
            lastText := text)];
      }
      Append(DelayedMsg(msgID, text, sendAt, name, seqNum));
    }

    /** One turn of the release loop. */
    method ReleaseOne(name: string, now: int)
      requires queued <= delayQueue.Length && name in senders && senders[name].nextSeq in senders[name].pending
      modifies this`nextMsgID, this`outputStates, this`delayQueue, this`queued, this`senders, delayQueue
      ensures queued <= delayQueue.Length && (delayQueue == old(delayQueue) || fresh(delayQueue))
      ensures var one := DrainOne(old(Locked()), name, old(senders)[name], now);
              Locked() == one.0 && senders == old(senders)[name := one.1] && Queue() == old(Queue()) + one.2
    {
      var s := senders[name];
      var txt := s.pending[s.nextSeq];
      s := s.(nextSeq := s.nextSeq + 1, pending := s.pending - {s.nextSeq});
      if txt != "" && !(name in paused && paused[name]) {
        Admit(name, txt, now, s.seqCounter);
        s := s.(seqCounter := s.seqCounter + 1);
      } else {
        assert Queue() + [] == Queue();
      }
      senders := senders[name := s];
    }

    /** What the release loop of an output comes to from here on. */
    ghost function Undrained(name: string, clock: int -> int): (Shared, Sender, seq<DelayedMsg>)
      reads this
      requires name in senders
    {
      DrainAll(Locked(), name, senders[name], clock)
    }

    /** One turn of the release loop, and what is left of it. */
    method ReleaseNext(name: string, clock: int -> int) returns (ghost added: seq<DelayedMsg>)
      requires queued <= delayQueue.Length && name in senders && senders[name].nextSeq in senders[name].pending
      modifies this`nextMsgID, this`outputStates, this`delayQueue, this`queued, this`senders, delayQueue
      ensures queued <= delayQueue.Length && (delayQueue == old(delayQueue) || fresh(delayQueue))
      ensures Queue() == old(Queue()) + added && name in senders && senders == old(senders)[name := senders[name]]
      ensures |senders[name].pending| < old(|senders[name].pending|)
      ensures old(Undrained(name, clock)) == JoinQueue(added, Undrained(name, clock))
    {
      DrainShrinks(Locked(), name, senders[name], clock(nextMsgID));
      added := DrainOne(Locked(), name, senders[name], clock(nextMsgID)).2;
      ReleaseOne(name, clock(nextMsgID));
    }

    /** The release loop of one output. */
    method DrainOutput(name: string, clock: int -> int)
      requires queued <= delayQueue.Length && name in senders
      modifies this`nextMsgID, this`outputStates, this`delayQueue, this`queued, this`senders, delayQueue
      ensures queued <= delayQueue.Length && (delayQueue == old(delayQueue) || fresh(delayQueue))
      ensures var all := DrainAll(old(Locked()), name, old(senders)[name], clock);
              Locked() == all.0 && senders == old(senders)[name := all.1] && Queue() == old(Queue()) + all.2
    {
      ghost var all := Undrained(name, clock);
      ghost var rest := all;
      ghost var queue, added := Queue(), [];
      assert queue + [] == queue;
      JoinNone(all);
      while senders[name].nextSeq in senders[name].pending
        invariant queued <= delayQueue.Length && (delayQueue == old(delayQueue) || fresh(delayQueue))
        invariant name in senders && senders == old(senders)[name := senders[name]] && Queue() == queue + added
        invariant rest == Undrained(name, clock) && all == JoinQueue(added, rest)
        decreases |senders[name].pending|
      {
        ghost var more := ReleaseNext(name, clock);
        Assoc(queue, added, more);
        JoinMore(all, added, more, rest, Undrained(name, clock));
        rest := Undrained(name, clock);
        added := added + more;
      }
      assert rest == (Locked(), senders[name], []) && added + [] == added;
    }

    /** The text an output gets of a translation. */
    method TextFor(targetLang: string, t: Translation) returns (text: string)
      ensures text == SelectText(targetLang, t)
    {
      text := "";
      if targetLang == "" {
        text := t.sourceText;
      } else {
        if targetLang in t.texts {
          text := t.texts[targetLang];
        }
        if text == "" && IsLangMatch(t.sourceLang, targetLang) {
          text := t.sourceText;
        }
      }
    }

    /** One translation, for one output. */
    method RouteTo(o: OutputConfig, t: Translation, clock: int -> int)
      requires queued <= delayQueue.Length && o.name in senders
      modifies this`nextMsgID, this`outputStates, this`delayQueue, this`queued, this`senders, delayQueue
      ensures queued <= delayQueue.Length && (delayQueue == old(delayQueue) || fresh(delayQueue))
      ensures var one := RouteOne(old(Locked()), old(senders), o, t, clock);
              Locked() == one.0 && senders == one.1 && Queue() == old(Queue()) + one.2
    {
      var text := TextFor(o.targetLang, t);
      var s := senders[o.name];
      senders := senders[o.name := s.(pending := s.pending[t.seqNo := text])];
      assert senders[o.name] == Arrived(old(senders)[o.name], t.seqNo, text);
      DrainOutput(o.name, clock);
    }

    /** What routing a translation to the outputs from `i` on comes to. */
    ghost function Remaining(i: nat, t: Translation, clock: int -> int): (Shared, map<string, Sender>, seq<DelayedMsg>)
      reads this
      requires Valid() && i <= |outputs|
    {
      RouteAll(Locked(), senders, outputs, i, t, clock)
    }

    /** The i-th output of the routing loop. */
    method RouteNext(i: nat, t: Translation, clock: int -> int) returns (ghost added: seq<DelayedMsg>)
      requires Valid() && i < |outputs|
      modifies this`nextMsgID, this`outputStates, this`delayQueue, this`queued, this`senders, delayQueue
      ensures Valid() && (delayQueue == old(delayQueue) || fresh(delayQueue)) && Queue() == old(Queue()) + added
      ensures old(Remaining(i, t, clock)) == JoinQueue(added, Remaining(i + 1, t, clock))
    {
      added := RouteOne(Locked(), senders, outputs[i], t, clock).2;
      RouteTo(outputs[i], t, clock);
    }

    /** One translation, for all outputs in configuration order. */
    method Consume(t: Translation, clock: int -> int)
      requires Valid()
      modifies this`nextMsgID, this`outputStates, this`delayQueue, this`queued, this`senders, delayQueue
      ensures Valid() && (delayQueue == old(delayQueue) || fresh(delayQueue))
      ensures var all := RouteAll(old(Locked()), old(senders), outputs, 0, t, clock);
              Locked() == all.0 && senders == all.1 && Queue() == old(Queue()) + all.2
    {
      ghost var all := Remaining(0, t, clock);
      ghost var rest := all;
      ghost var queue, added := Queue(), [];
      assert queue + [] == queue;
      JoinNone(all);
      for i := 0 to |outputs|
        invariant Valid() && (delayQueue == old(delayQueue) || fresh(delayQueue))
        invariant Queue() == queue + added && rest == Remaining(i, t, clock) && all == JoinQueue(added, rest)
      {
        ghost var more := RouteNext(i, t, clock);
        Assoc(queue, added, more);
        JoinMore(all, added, more, rest, Remaining(i + 1, t, clock));
        rest := Remaining(i + 1, t, clock);
        added := added + more;
      }
      assert rest == (Locked(), senders, []) && added + [] == added;
    }

    /** Replaces the configuration of the first output with the name. */
    method UpdateOutput(cfg: OutputConfig)
      requires Valid()
      modifies this`outputs
      ensures Valid() && outputs == L.Updated(old(outputs), cfg)
    {
      ghost var at := L.UpdatedAt(outputs, cfg);
      L.UpdatedKeepsSenders(outputs, cfg, senders);
      for i := 0 to |outputs|
        invariant outputs == old(outputs) && i <= at
      {
        if outputs[i].name == cfg.name {
          outputs := outputs[i := cfg];
          return;
        }
      }
    }

    ghost predicate Is(e: L.Engine)
      reads this, delayQueue
    {
      && Valid() && outputs == e.outputs && State() == e.c && senders == e.senders && Queue() == e.queue
    }

    /** One event. */
    method Handle(ev: L.Event, ghost e: L.Engine) returns (ghost e': L.Engine)
      requires Is(e)
      modifies this, delayQueue
      ensures (delayQueue == old(delayQueue) || fresh(delayQueue)) && e' == L.Turn(e, ev) && Is(e')
    {
      e' := L.Turn(e, ev);
      match ev {
        case Arrive(t, clock, _) => Consume(t, clock);
        case Tick(now, pool, errors) => var taken := ProcessDelayQueue(now, pool, errors);
        case SkipRequest(id) => SkipPending(id);
        case PauseChange(name, paused) => SetPaused(name, paused);
        case Update(cfg) => UpdateOutput(cfg);
      }
    }

    /** The life of the controller's goroutine: what wakes it, and what others do to the controller, one after
        another, then its end.  `last` is the engine when the loop ends. */
    method Run(events: seq<L.Event>, ending: L.Ending, ghost start: int) returns (ghost last: L.Engine)
      requires Valid()
      modifies this, delayQueue
      ensures last == L.Turns(L.Engine(old(outputs), old(State()), old(senders), old(Queue()), [], start), events)
      ensures Valid() && outputs == last.outputs && senders == last.senders && Queue() == last.queue
      ensures State() == L.Ended(last, ending).c
    {
      ghost var first := L.Engine(outputs, State(), senders, Queue(), [], start);
      last := first;
      for i := 0 to |events|
        invariant delayQueue == old(delayQueue) || fresh(delayQueue)
        invariant last == L.Turns(first, events[..i]) && Is(last)
      {
        assert events[..i + 1][..i] == events[..i];
        last := Handle(events[i], last);
      }
      assert events[..|events|] == events;
      match ending {
        case Closed(pool, errors) => var taken := FlushDelayQueue(pool, errors);
        case Cancelled =>
      }
    }
  }

  lemma TagOne(name: string, made: seq<Attempt>, attempt: Attempt, accounts: seq<string>, pool: Pool)
    ensures Tagged(name, made + [attempt], accounts, pool) ==
            Tagged(name, made, accounts, pool) + [Tag(name, attempt, accounts, pool)]
  {
  }
}
