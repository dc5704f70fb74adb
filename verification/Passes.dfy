/** One pass of the controller's loop when nothing interleaves: routing a translation, a tick,
    the final flush.  The class methods compute these functions, and each is a run of
    the step machine. */
module Passes {
  import opened Types
  import opened Splitter
  import opened Rotation
  import opened Sections
  import opened Routing
  import opened Reorder
  import opened Delivery

  // ---- Sending ---------------------------------------------------------------------------

  /** What a bot of an output was asked to send, and its message limit then (0: none, or no such bot). */
  datatype Delivered = Delivered(output: string, attempt: Attempt, limit: int)

  /** The protected fields, the rotation indices, and everything handed to bots so far. */
  datatype Ctl = Ctl(sh: Shared, rr: map<string, nat>, log: seq<Delivered>)

  function Index(rr: map<string, nat>, name: string): nat {
    if name in rr then rr[name] else 0
  }

  function Tagged(name: string, attempts: seq<Attempt>, accounts: seq<string>, pool: Pool): seq<Delivered> {
    seq(|attempts|, i requires 0 <= i < |attempts| => Tag(name, attempts[i], accounts, pool))
  }

  function Tag(name: string, attempt: Attempt, accounts: seq<string>, pool: Pool): Delivered {
    Delivered(name, attempt, BotLimit(accounts, pool, attempt.account))
  }

  /** The attempts `sendMessage` makes for a message of an output with accounts. */
  function MessageAttempts(rr: map<string, nat>, o: OutputConfig, m: DelayedMsg, pool: Pool,
          fails: set<nat>): seq<Attempt>
    requires o.AccountPool() != []
  {
    var accounts := o.AccountPool();
    var chunks := Chunks(m.text, FullPrefix(o, m.seqNum), o.suffix, MinLimit(accounts, pool));
    Attempts(chunks, 0, accounts, Index(rr, m.output) % |accounts|, pool, fails)
  }

  /** `sendMessage`; `errors(id)` are the chunks of a message whose send returns an error. */
  function SendOn(c: Ctl, outputs: seq<OutputConfig>, m: DelayedMsg, pool: Pool, errors: int -> set<nat>): (c': Ctl)
    ensures c'.sh == SendIn(c.sh, outputs, m)
  {
    var found := FindOutput(outputs, m.output);
    if found == [] || found[0].AccountPool() == [] then c
    else
      var attempts := MessageAttempts(c.rr, found[0], m, pool, errors(m.id));
      Ctl(NoteSent(c.sh, m),
          c.rr[m.output := NextIndex(Index(c.rr, m.output), |attempts|, |found[0].AccountPool()|)],
          c.log + Tagged(m.output, attempts, found[0].AccountPool(), pool))
  }

  // ---- A tick and the flush --------------------------------------------------------------

  /** The outcome of a tick: the new state, the messages kept, the messages taken. */
  datatype Pass = Pass(c: Ctl, kept: seq<DelayedMsg>, taken: seq<Done>)

  function TickOne(c: Ctl, outputs: seq<OutputConfig>, m: DelayedMsg, now: int, pool: Pool,
          errors: int -> set<nat>): Pass {
    if now < m.sendAt then Pass(c, [m], [])
    else
      var taken := c.(sh := TakeIn(c.sh, m));
      match VerdictOn(c.sh, m)
      case SkipIt => Pass(taken, [], [Done(m, Skipped)])
      case DropIt => Pass(taken, [], [Done(m, DroppedAtSend)])
      case SendIt => Pass(SendOn(taken, outputs, m, pool, errors), [], [Done(m, Handed(now))])
  }

  function TickAll(c: Ctl, outputs: seq<OutputConfig>, queue: seq<DelayedMsg>, now: int, pool: Pool,
          errors: int -> set<nat>): Pass
    decreases queue
  {
    if queue == [] then Pass(c, [], [])
    else
      var one := TickOne(c, outputs, queue[0], now, pool, errors);
      var rest := TickAll(one.c, outputs, queue[1..], now, pool, errors);
      Pass(rest.c, one.kept + rest.kept, one.taken + rest.taken)
  }

  /** A pass of which the messages `kept` and `taken` have been dealt with already. */
  function Join(kept: seq<DelayedMsg>, taken: seq<Done>, rest: Pass): Pass {
    Pass(rest.c, kept + rest.kept, taken + rest.taken)
  }

  lemma JoinMorePass(all: Pass, kept: seq<DelayedMsg>, taken: seq<Done>, one: Pass, before: Pass, after: Pass)
    requires all == Join(kept, taken, before) && before == Join(one.kept, one.taken, after)
    ensures all == Join(kept + one.kept, taken + one.taken, after)
  {
    Assoc(kept, one.kept, after.kept);
    Assoc(taken, one.taken, after.taken);
  }

  function NotDue(queue: seq<DelayedMsg>, now: int): seq<DelayedMsg> {
    if queue == [] then [] else (if now < queue[0].sendAt then [queue[0]] else []) + NotDue(queue[1..], now)
  }

  function NowDue(queue: seq<DelayedMsg>, now: int): seq<DelayedMsg> {
    if queue == [] then [] else (if now < queue[0].sendAt then [] else [queue[0]]) + NowDue(queue[1..], now)
  }

  /** A tick is a stable partition of the queue: it keeps exactly the messages not due, in order, and takes
      exactly the due ones, in order.  This needs no assumption on the due times. */
  lemma {:induction false} TickPartitions(c: Ctl, outputs: seq<OutputConfig>, queue: seq<DelayedMsg>, now: int,
          pool: Pool, errors: int -> set<nat>)
    ensures var p := TickAll(c, outputs, queue, now, pool, errors);
            p.kept == NotDue(queue, now) && Msgs(p.taken) == NowDue(queue, now)
    decreases queue
  {
    if queue == [] {
      assert Msgs([]) == [];
    } else {
      OnePartitions(c, outputs, queue[0], now, pool, errors);
      var one, rest := TickSplit(c, outputs, queue, now, pool, errors);
      TickPartitions(one.c, outputs, queue[1..], now, pool, errors);
      MsgsJoin(one.taken, rest.taken);
    }
  }

  lemma OnePartitions(c: Ctl, outputs: seq<OutputConfig>, m: DelayedMsg, now: int, pool: Pool, errors: int -> set<nat>)
    ensures var one := TickOne(c, outputs, m, now, pool, errors);
            && one.kept == (if now < m.sendAt then [m] else [])
            && Msgs(one.taken) == (if now < m.sendAt then [] else [m])
  {
  }

  lemma MsgsJoin(a: seq<Done>, b: seq<Done>)
    ensures Msgs(a + b) == Msgs(a) + Msgs(b)
  {
  }

  /** The first message of a tick, and the others. */
  lemma TickSplit(c: Ctl, outputs: seq<OutputConfig>, queue: seq<DelayedMsg>, now: int, pool: Pool,
      errors: int -> set<nat>) returns (one: Pass, rest: Pass)
    requires queue != []
    ensures one == TickOne(c, outputs, queue[0], now, pool, errors)
    ensures rest == TickAll(one.c, outputs, queue[1..], now, pool, errors)
    ensures TickAll(c, outputs, queue, now, pool, errors) == Pass(rest.c, one.kept + rest.kept, one.taken + rest.taken)
  {
    one := TickOne(c, outputs, queue[0], now, pool, errors);
    rest := TickAll(one.c, outputs, queue[1..], now, pool, errors);
  }

  /** The same configuration, reorder buffers and clock. */
  ghost predicate SameRest(s: State, s': State) {
    s'.outputs == s.outputs && s'.senders == s.senders && s'.rel == s.rel && s'.clock == s.clock
  }

  /** A tick that nothing interrupts is a run of the step machine. */
  lemma {:induction false} TickIsARun(s: State, c: Ctl, pool: Pool, errors: int -> set<nat>)
    returns (acts: seq<Action>, s': State)
    requires s.pc.Ticking? && c.sh == s.sh
    ensures Run(s, acts, s') && SameRest(s, s')
    ensures var p := TickAll(c, s.outputs, s.pc.unread, s.pc.now, pool, errors);
            s'.sh == p.c.sh && s'.done == s.done + p.taken && s'.pc == Ticking(s.pc.now, s.pc.kept + p.kept, [])
    decreases |s.pc.unread|
  {
    if s.pc.unread == [] {
      acts, s' := [], s;
      assert s.pc.kept + [] == s.pc.kept && s.done + [] == s.done;
    } else {
      var one := TickOne(c, s.outputs, s.pc.unread[0], s.pc.now, pool, errors);
      var first, s1 := OneIsARun(s, c, pool, errors);
      var others;
      others, s' := TickIsARun(s1, one.c, pool, errors);
      RunAppend(s, first, s1, others, s');
      acts := first + others;
      var rest := TickAll(one.c, s.outputs, s.pc.unread[1..], s.pc.now, pool, errors);
      Assoc(s.pc.kept, one.kept, rest.kept);
      Assoc(s.done, one.taken, rest.taken);
    }
  }

  lemma Assoc<T>(a: seq<T>, b: seq<T>, c: seq<T>)
    ensures a + b + c == a + (b + c)
  {
  }

  lemma OneIsARun(s: State, c: Ctl, pool: Pool, errors: int -> set<nat>) returns (acts: seq<Action>, s': State)
    requires s.pc.Ticking? && s.pc.unread != [] && c.sh == s.sh
    ensures Run(s, acts, s') && SameRest(s, s')
    ensures var one := TickOne(c, s.outputs, s.pc.unread[0], s.pc.now, pool, errors);
            s'.sh == one.c.sh && s'.done == s.done + one.taken &&
            s'.pc == Ticking(s.pc.now, s.pc.kept + one.kept, s.pc.unread[1..])
  {
    var m := s.pc.unread[0];
    assert s.pc.kept + [] == s.pc.kept && s.done + [] == s.done;
    if s.pc.now < m.sendAt {
      acts, s' := [Keep], Kept(s);
    } else if VerdictOn(s.sh, m) == SendIt {
      acts, s' := [Take, SendDone], Delivery.Sent(Taken(s));
      assert acts[1..] == [SendDone];
      assert Run(Taken(s), [SendDone], s');
    } else {
      acts, s' := [Take], Taken(s);
    }
  }

  /** Flushing looks only at the skip set: pause flags and due times do not matter. */
  function FlushOne(c: Ctl, outputs: seq<OutputConfig>, m: DelayedMsg, pool: Pool, errors: int -> set<nat>): Pass {
    if m.id in c.sh.skip then Pass(c.(sh := FlushIn(c.sh, m)), [], [Done(m, Skipped)])
    else Pass(SendOn(c, outputs, m, pool, errors), [], [Done(m, Flushed)])
  }

  function FlushAll(c: Ctl, outputs: seq<OutputConfig>, queue: seq<DelayedMsg>, pool: Pool, errors: int -> set<nat>)
    : Pass
    decreases queue
  {
    if queue == [] then Pass(c, [], [])
    else
      var one := FlushOne(c, outputs, queue[0], pool, errors);
      Join([], one.taken, FlushAll(one.c, outputs, queue[1..], pool, errors))
  }

  lemma JoinFlush(taken: seq<Done>, c: Ctl, outputs: seq<OutputConfig>, queue: seq<DelayedMsg>, pool: Pool,
      errors: int -> set<nat>)
    requires queue != []
    ensures var one := FlushOne(c, outputs, queue[0], pool, errors);
            Join([], taken, FlushAll(c, outputs, queue, pool, errors)) ==
            Join([], taken + one.taken, FlushAll(one.c, outputs, queue[1..], pool, errors))
  {
    var one := FlushOne(c, outputs, queue[0], pool, errors);
    Assoc(taken, one.taken, FlushAll(one.c, outputs, queue[1..], pool, errors).taken);
  }

  /** A flush that nothing interrupts is a run of the step machine, with the same outcomes. */
  lemma {:induction false} FlushIsARun(s: State, c: Ctl, pool: Pool, errors: int -> set<nat>)
    returns (acts: seq<Action>, s': State)
    requires s.pc.Flushing? && c.sh == s.sh
    ensures Run(s, acts, s') && SameRest(s, s') && s'.pc == Flushing([])
    ensures var p := FlushAll(c, s.outputs, s.pc.unread, pool, errors);
            s'.sh == p.c.sh && s'.done == s.done + p.taken
    decreases |s.pc.unread|
  {
    if s.pc.unread == [] {
      acts, s' := [], s;
      assert s.done + [] == s.done;
    } else {
      var one := FlushOne(c, s.outputs, s.pc.unread[0], pool, errors);
      var first, s1 := FlushOneIsARun(s, c, pool, errors);
      var others;
      others, s' := FlushIsARun(s1, one.c, pool, errors);
      RunAppend(s, first, s1, others, s');
      acts := first + others;
      Assoc(s.done, one.taken, FlushAll(one.c, s.outputs, s.pc.unread[1..], pool, errors).taken);
    }
  }

  lemma FlushOneIsARun(s: State, c: Ctl, pool: Pool, errors: int -> set<nat>) returns (acts: seq<Action>, s': State)
    requires s.pc.Flushing? && s.pc.unread != [] && c.sh == s.sh
    ensures Run(s, acts, s') && SameRest(s, s') && s'.pc == Flushing(s.pc.unread[1..])
    ensures var one := FlushOne(c, s.outputs, s.pc.unread[0], pool, errors);
            s'.sh == one.c.sh && s'.done == s.done + one.taken
  {
    if s.pc.unread[0].id in s.sh.skip {
      acts, s' := [FlushTake], FlushTaken(s);
    } else {
      acts, s' := [FlushTake, FlushSent], FlushedOne(FlushTaken(s));
      assert acts[1..] == [FlushSent];
      assert Run(FlushTaken(s), [FlushSent], s');
    }
  }

  // ---- Routing ---------------------------------------------------------------------------

  /** One turn of the release loop of an output: what it queues, at time `now`. */
  function DrainOne(sh: Shared, name: string, snd: Sender, now: int): (Shared, Sender, seq<DelayedMsg>)
    requires snd.nextSeq in snd.pending
  {
    var text := snd.pending[snd.nextSeq];
    if text == "" || IsPaused(sh, name) then (sh, Popped(snd), [])
    else
      var m := NewMessage(sh, name, text, now, snd.seqCounter);
      (AdmitIn(sh, m), Popped(snd).(seqCounter := snd.seqCounter + 1), [m])
  }

  /** The release loop of an output; `clock(id)` is the time at which message `id` is queued. */
  function DrainAll(sh: Shared, name: string, snd: Sender, clock: int -> int): (Shared, Sender, seq<DelayedMsg>)
    decreases |snd.pending|
  {
    if snd.nextSeq !in snd.pending then (sh, snd, [])
    else
      var one := DrainOne(sh, name, snd, clock(sh.nextId));
      var rest := DrainAll(one.0, name, one.1, clock);
      (rest.0, rest.1, one.2 + rest.2)
  }

  function JoinQueue<A, B>(added: seq<DelayedMsg>, rest: (A, B, seq<DelayedMsg>)): (A, B, seq<DelayedMsg>) {
    (rest.0, rest.1, added + rest.2)
  }

  lemma DrainShrinks(sh: Shared, name: string, snd: Sender, now: int)
    requires snd.nextSeq in snd.pending
    ensures |DrainOne(sh, name, snd, now).1.pending| < |snd.pending|
  {
  }

  lemma JoinDrain(added: seq<DelayedMsg>, sh: Shared, name: string, snd: Sender, clock: int -> int)
    requires snd.nextSeq in snd.pending
    ensures var one := DrainOne(sh, name, snd, clock(sh.nextId));
            && JoinQueue(added, DrainAll(sh, name, snd, clock)) ==
               JoinQueue(added + one.2, DrainAll(one.0, name, one.1, clock))
            && |one.1.pending| < |snd.pending|
  {
    var one := DrainOne(sh, name, snd, clock(sh.nextId));
    Assoc(added, one.2, DrainAll(one.0, name, one.1, clock).2);
  }

  function Texts(queue: seq<DelayedMsg>): seq<string> {
    seq(|queue|, i requires 0 <= i < |queue| => queue[i].text)
  }

  function NonEmpty(texts: seq<string>): seq<string> {
    if texts == [] then [] else (if texts[0] == "" then [] else [texts[0]]) + NonEmpty(texts[1..])
  }

  /** One turn of the loop, told apart from the rest of it. */
  lemma DrainStep(sh: Shared, name: string, snd: Sender, clock: int -> int)
    returns (sh': Shared, snd': Sender, first: seq<DelayedMsg>)
    requires snd.nextSeq in snd.pending
    ensures var rest := DrainAll(sh', name, snd', clock);
            DrainAll(sh, name, snd, clock) == (rest.0, rest.1, first + rest.2)
    ensures |snd'.pending| < |snd.pending| && snd' == Popped(snd).(seqCounter := snd.seqCounter + |first|)
    ensures IsPaused(sh', name) == IsPaused(sh, name) && sh'.nextId == sh.nextId + |first|
    ensures var text := snd.pending[snd.nextSeq];
            Texts(first) == (if text == "" || IsPaused(sh, name) then [] else [text])
    ensures |first| <= 1 && (first != [] ==> Numbered(first[0], sh.nextId, snd.seqCounter, name, clock))
  {
    var one := DrainOne(sh, name, snd, clock(sh.nextId));
    sh', snd', first := one.0, one.1, one.2;
  }

  /** What an output queues in one release loop: the non-empty texts of the reorder buffer, in sequence;
      nothing when it is paused. */
  lemma {:induction false} DrainQueuesTexts(sh: Shared, name: string, snd: Sender, clock: int -> int)
    ensures Texts(DrainAll(sh, name, snd, clock).2) == if IsPaused(sh, name) then [] else NonEmpty(Ready(snd))
    ensures var all := DrainAll(sh, name, snd, clock);
            all.1 == Drained(snd).(seqCounter := snd.seqCounter + |all.2|)
    decreases |snd.pending|
  {
    if snd.nextSeq in snd.pending {
      var sh', snd', first := DrainStep(sh, name, snd, clock);
      DrainQueuesTexts(sh', name, snd', clock);
      CounterOnly(Popped(snd), snd'.seqCounter);
      FirstReady(snd);
      TextsJoin(first, DrainAll(sh', name, snd', clock).2);
    }
  }

  lemma TextsJoin(a: seq<DelayedMsg>, b: seq<DelayedMsg>)
    ensures Texts(a + b) == Texts(a) + Texts(b)
  {
  }

  lemma FirstReady(snd: Sender)
    requires snd.nextSeq in snd.pending
    ensures var text := snd.pending[snd.nextSeq];
            NonEmpty(Ready(snd)) == (if text == "" then [] else [text]) + NonEmpty(Ready(Popped(snd)))
  {
    assert Ready(snd)[1..] == Ready(Popped(snd));
  }

  predicate Numbered(m: DelayedMsg, id: int, seqNum: int, name: string, clock: int -> int) {
    m.id == id && m.seqNum == seqNum && m.output == name && m.sendAt == clock(id) + 3_000_000_000
  }

  /** Ids and emoji numbers are used up one for each message queued. */
  lemma {:induction false} DrainCounts(sh: Shared, name: string, snd: Sender, clock: int -> int)
    ensures var all := DrainAll(sh, name, snd, clock);
            all.0.nextId == sh.nextId + |all.2| && all.1.seqCounter == snd.seqCounter + |all.2|
    decreases |snd.pending|
  {
    if snd.nextSeq in snd.pending {
      var sh', snd', first := DrainStep(sh, name, snd, clock);
      DrainCounts(sh', name, snd', clock);
    }
  }

  /** The i-th of them gets the i-th id and emoji number from the next one on, and is due three seconds after
      it was queued. */
  lemma {:induction false} DrainNumber(sh: Shared, name: string, snd: Sender, clock: int -> int, i: nat,
          m: DelayedMsg, id: int, seqNum: int)
    requires i < |DrainAll(sh, name, snd, clock).2| && m == DrainAll(sh, name, snd, clock).2[i]
    requires id == sh.nextId + i && seqNum == snd.seqCounter + i
    ensures Numbered(m, id, seqNum, name, clock)
    decreases |snd.pending|
  {
    var sh', snd', first := DrainStep(sh, name, snd, clock);
    ItemOf(first, DrainAll(sh', name, snd', clock).2, i);
    if i >= |first| {
      DrainNumber(sh', name, snd', clock, i - |first|, m, id, seqNum);
    }
  }

  lemma ItemOf<T>(a: seq<T>, b: seq<T>, i: nat)
    requires i < |a| + |b|
    ensures (a + b)[i] == if i < |a| then a[i] else b[i - |a|]
  {
  }

  lemma {:induction false} CounterOnly(snd: Sender, n: nat)
    ensures Ready(snd.(seqCounter := n)) == Ready(snd)
    ensures Drained(snd.(seqCounter := n)) == Drained(snd).(seqCounter := n)
    decreases |snd.pending|
  {
    if snd.nextSeq in snd.pending {
      CounterOnly(Popped(snd), n);
      assert Popped(snd.(seqCounter := n)) == Popped(snd).(seqCounter := n);
    }
  }

  predicate HaveSenders(outputs: seq<OutputConfig>, senders: map<string, Sender>) {
    forall o :: o in outputs ==> o.name in senders
  }

  /** Routing a translation to one output. */
  function RouteOne(sh: Shared, senders: map<string, Sender>, o: OutputConfig, t: Translation, clock: int -> int)
    : (Shared, map<string, Sender>, seq<DelayedMsg>)
    requires o.name in senders
  {
    var r := DrainAll(sh, o.name, Arrived(senders[o.name], t.seqNo, SelectText(o.targetLang, t)), clock);
    (r.0, senders[o.name := r.1], r.2)
  }

  /** Routing a translation to the outputs from `i` on. */
  function RouteAll(sh: Shared, senders: map<string, Sender>, outputs: seq<OutputConfig>, i: nat, t: Translation,
          clock: int -> int)
    : (r: (Shared, map<string, Sender>, seq<DelayedMsg>))
    requires i <= |outputs| && HaveSenders(outputs, senders)
    ensures r.1.Keys == senders.Keys
    decreases |outputs| - i
  {
    if i == |outputs| then (sh, senders, [])
    else
      var one := RouteOne(sh, senders, outputs[i], t, clock);
      JoinQueue(one.2, RouteAll(one.0, one.1, outputs, i + 1, t, clock))
  }

  lemma JoinNone<A, B>(rest: (A, B, seq<DelayedMsg>))
    ensures JoinQueue([], rest) == rest
  {
    assert [] + rest.2 == rest.2;
  }

  lemma JoinMore<A, B>(all: (A, B, seq<DelayedMsg>), added: seq<DelayedMsg>, more: seq<DelayedMsg>,
          before: (A, B, seq<DelayedMsg>), after: (A, B, seq<DelayedMsg>))
    requires all == JoinQueue(added, before) && before == JoinQueue(more, after)
    ensures all == JoinQueue(added + more, after)
  {
    Assoc(added, more, after.2);
  }

  /** The times of the messages to come do not go backwards, nor past the end of the pass. */
  ghost predicate ClockRuns(s: State, clock: int -> int, end: int) {
    && s.clock <= end
    && forall id, id' :: s.sh.nextId <= id <= id' ==> s.clock <= clock(id) <= clock(id') <= end
  }

  ghost predicate NothingTaken(s: State, s': State) {
    && s'.senders.Keys == s.senders.Keys
    && s'.rel.accepted.Keys == s.rel.accepted.Keys && s'.rel.fates.Keys == s.rel.fates.Keys
    && s'.done == s.done
  }

  /** A release loop that nothing interrupts is a run of the step machine. */
  lemma {:induction false} DrainIsARun(s: State, clock: int -> int, end: int) returns (acts: seq<Action>, s': State)
    requires s.pc.Drain? && Placed(s) && ClockRuns(s, clock, end)
    ensures Run(s, acts, s') && s'.pc == s.pc && s'.outputs == s.outputs && s'.routing == s.routing
    ensures NothingTaken(s, s')
    ensures ClockRuns(s', clock, end)
    ensures var n := At(s).name;
            var r := DrainAll(s.sh, n, s.senders[n], clock);
            s'.sh == r.0 && s'.senders == s.senders[n := r.1] && s'.queue == s.queue + r.2
            && n in s'.senders && s'.senders[n].nextSeq !in s'.senders[n].pending
    decreases |s.senders[At(s).name].pending|
  {
    var n := At(s).name;
    if !HasNext(s) {
      acts, s' := [], s;
      assert s.queue + [] == s.queue && s.senders[n := s.senders[n]] == s.senders;
    } else {
      DrainSplit(s.queue, s.senders, s.sh, n, clock);
      var first, s1 := ReleaseIsARun(s, clock(s.sh.nextId));
      var others;
      others, s' := DrainIsARun(s1, clock, end);
      RunAppend(s, first, s1, others, s');
      acts := first + others;
    }
  }

  lemma DrainSplit(queue: seq<DelayedMsg>, senders: map<string, Sender>, sh: Shared, n: string, clock: int -> int)
    requires n in senders && senders[n].nextSeq in senders[n].pending
    ensures var one := DrainOne(sh, n, senders[n], clock(sh.nextId));
            var rest := DrainAll(one.0, n, one.1, clock);
            var all := DrainAll(sh, n, senders[n], clock);
            && all.0 == rest.0 && all.1 == rest.1 && queue + one.2 + rest.2 == queue + all.2
            && senders[n := one.1][n := rest.1] == senders[n := all.1]
            && |one.1.pending| < |senders[n].pending|
  {
    JoinDrain(queue, sh, n, senders[n], clock);
  }

  lemma ReleaseIsARun(s: State, now: int) returns (acts: seq<Action>, s': State)
    requires s.pc.Drain? && Placed(s) && HasNext(s) && s.clock <= now
    ensures Run(s, acts, s') && s'.pc == s.pc && s'.outputs == s.outputs && s'.routing == s.routing && Placed(s')
    ensures NothingTaken(s, s')
    ensures var n := At(s).name;
            var one := DrainOne(s.sh, n, s.senders[n], now);
            s'.sh == one.0 && s'.senders == s.senders[n := one.1] && s'.queue == s.queue + one.2
    ensures s'.clock == s.clock || (s'.clock == now && s'.sh.nextId == s.sh.nextId + 1)
    ensures s'.sh.nextId >= s.sh.nextId
  {
    var s1 := Delivery.Released(s);
    if s1.pc.Drain? {
      acts, s' := [Release], s1;
      assert s.queue + [] == s.queue;
    } else {
      acts, s' := [Release, Enqueue(now)], Enqueued(s1, now);
      assert acts[1..] == [Enqueue(now)];
      assert Run(s1, [Enqueue(now)], s');
      var n := At(s).name;
      var popped := Popped(s.senders[n]);
      assert s'.senders == s.senders[n := popped][n := popped.(seqCounter := s.senders[n].seqCounter + 1)];
    }
  }

  /** Routing a translation to all outputs, when nothing interrupts, is a run of the step machine. */
  lemma {:induction false} RouteIsARun(s: State, clock: int -> int, end: int) returns (acts: seq<Action>, s': State)
    requires s.pc.Route? && s.pc.i <= |s.routing| && ClockRuns(s, clock, end)
    requires s.senders.Keys == s.rel.accepted.Keys == s.rel.fates.Keys && HaveSenders(s.routing, s.senders)
    ensures Run(s, acts, s') && s'.pc == Select && s'.outputs == s.outputs && s'.routing == s.routing
    ensures ClockRuns(s', clock, end)
    ensures s'.senders.Keys == s'.rel.accepted.Keys == s'.rel.fates.Keys && s'.done == s.done
    ensures var r := RouteAll(s.sh, s.senders, s.routing, s.pc.i, s.pc.t, clock);
            s'.sh == r.0 && s'.senders == r.1 && s'.queue == s.queue + r.2
    decreases |s.routing| - s.pc.i
  {
    if s.pc.i == |s.routing| {
      acts, s' := [EndRoute], s.(pc := Select);
      assert s.queue + [] == s.queue;
      assert Run(s', [], s');
    } else {
      var drain, s2 := RouteStep(s, clock, end);
      var others;
      others, s' := RouteIsARun(s2, clock, end);
      RunAppend(s, drain, s2, others, s');
      acts := drain + others;
    }
  }

  /** One output, and what remains. */
  lemma RouteStep(s: State, clock: int -> int, end: int) returns (acts: seq<Action>, s2: State)
    requires s.pc.Route? && s.pc.i < |s.routing| && ClockRuns(s, clock, end)
    requires s.senders.Keys == s.rel.accepted.Keys == s.rel.fates.Keys && HaveSenders(s.routing, s.senders)
    ensures Run(s, acts, s2) && s2.pc == Route(s.pc.t, s.pc.i + 1) && s2.outputs == s.outputs && s2.routing == s.routing
    ensures s2.senders.Keys == s2.rel.accepted.Keys == s2.rel.fates.Keys && HaveSenders(s2.routing, s2.senders)
    ensures s2.done == s.done && ClockRuns(s2, clock, end)
    ensures var rest := RouteAll(s2.sh, s2.senders, s2.routing, s2.pc.i, s2.pc.t, clock);
            var all := RouteAll(s.sh, s.senders, s.routing, s.pc.i, s.pc.t, clock);
            all.0 == rest.0 && all.1 == rest.1 && s2.queue + rest.2 == s.queue + all.2
  {
    assert At(s) in s.routing && At(s) == s.routing[s.pc.i];
    acts, s2 := OutputIsARun(s, clock, end);
    RouteSplit(s.queue, s.sh, s.senders, s.routing, s.pc.i, s.pc.t, clock, s2.queue, s2.sh, s2.senders, s2.pc.i);
  }

  lemma OutputIsARun(s: State, clock: int -> int, end: int) returns (acts: seq<Action>, s': State)
    requires s.pc.Route? && Placed(s) && ClockRuns(s, clock, end)
    ensures Run(s, acts, s') && s'.pc == Route(s.pc.t, s.pc.i + 1) && s'.outputs == s.outputs && s'.routing == s.routing
    ensures NothingTaken(s, s')
    ensures ClockRuns(s', clock, end)
    ensures var one := RouteOne(s.sh, s.senders, At(s), s.pc.t, clock);
            s'.sh == one.0 && s'.senders == one.1 && s'.queue == s.queue + one.2
  {
    var s1 := StoreIsARun(s, clock, end);
    var drain;
    drain, s' := RestOfOutput(s1, clock, end);
    RunAppend(s, [Store], s1, drain, s');
    acts := [Store] + drain;
  }

  lemma RestOfOutput(s: State, clock: int -> int, end: int) returns (acts: seq<Action>, s': State)
    requires s.pc.Drain? && Placed(s) && ClockRuns(s, clock, end)
    ensures Run(s, acts, s') && s'.pc == Route(s.pc.t, s.pc.i + 1) && s'.outputs == s.outputs && s'.routing == s.routing
    ensures NothingTaken(s, s')
    ensures ClockRuns(s', clock, end)
    ensures var n := At(s).name;
            var r := DrainAll(s.sh, n, s.senders[n], clock);
            s'.sh == r.0 && s'.senders == s.senders[n := r.1] && s'.queue == s.queue + r.2
  {
    var drain, s2 := DrainIsARun(s, clock, end);
    s' := s2.(pc := Route(s.pc.t, s.pc.i + 1));
    assert Enabled(s2, NextOutput) && Run(s', [], s');
    RunAppend(s, drain, s2, [NextOutput], s');
    acts := drain + [NextOutput];
  }

  lemma StoreIsARun(s: State, clock: int -> int, end: int) returns (s1: State)
    requires s.pc.Route? && Placed(s) && ClockRuns(s, clock, end)
    ensures Run(s, [Store], s1) && s1.pc == Drain(s.pc.t, s.pc.i) && s1.outputs == s.outputs && s1.routing == s.routing
    ensures NothingTaken(s, s1)
    ensures s1.sh == s.sh && s1.queue == s.queue && ClockRuns(s1, clock, end)
    ensures var n := At(s).name;
            s1.senders == s.senders[n := Arrived(s.senders[n], s.pc.t.seqNo, SelectText(At(s).targetLang, s.pc.t))]
  {
    s1 := Stored(s);
    assert Run(s1, [], s1);
  }

  /** After the first output the others are routed from the state it has left. */
  lemma RouteSplit(queue: seq<DelayedMsg>, sh: Shared, senders: map<string, Sender>, outputs: seq<OutputConfig>,
      i: nat, t: Translation, clock: int -> int, queue': seq<DelayedMsg>, sh': Shared, senders': map<string, Sender>,
      i': nat)
    requires i < |outputs| && HaveSenders(outputs, senders) && i' == i + 1
    requires var one := RouteOne(sh, senders, outputs[i], t, clock);
             sh' == one.0 && senders' == one.1 && queue' == queue + one.2
    ensures HaveSenders(outputs, senders')
    ensures var rest := RouteAll(sh', senders', outputs, i', t, clock);
            var all := RouteAll(sh, senders, outputs, i, t, clock);
            all.0 == rest.0 && all.1 == rest.1 && queue' + rest.2 == queue + all.2
  {
    var one := RouteOne(sh, senders, outputs[i], t, clock);
    Assoc(queue, one.2, RouteAll(one.0, one.1, outputs, i + 1, t, clock).2);
  }
}
