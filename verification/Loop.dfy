/** The loop of `run` over a whole sequence of events, one at a time: a run of the step machine, so
    that all its guarantees hold of the loop, and fair to the accounts of each output. */
module Loop {
  import opened Types
  import Splitter
  import opened Rotation
  import opened Sections
  import opened Passes
  import opened Delivery

  /** What happens one after another: the loop is woken by a translation or by its ticker, or somebody skips a
      message, sets a pause flag or updates an output in between.  An arrival is routed between the time
      before it and `end`, its messages being queued at `clock(id)`; `errors(id)` are the chunks of
      a message whose send fails. */
  datatype Event =
    | Arrive(t: Translation, clock: int -> int, end: int)
    | Tick(now: int, pool: Pool, errors: int -> set<nat>)
    | SkipRequest(id: int)
    | PauseChange(name: string, paused: bool)
    | Update(cfg: OutputConfig)

  /** How the loop ends. */
  datatype Ending = Cancelled | Closed(pool: Pool, errors: int -> set<nat>)

  /** What the loop works on, what it has done with messages, and the time of the last event. */
  datatype Engine = Engine(
    outputs: seq<OutputConfig>, c: Ctl, senders: map<string, Sender>,
    queue: seq<DelayedMsg>, done: seq<Done>, clock: int)

  predicate Ready(e: Engine) {
    HaveSenders(e.outputs, e.senders)
  }

  function Turn(e: Engine, ev: Event): (e': Engine)
    requires Ready(e)
    ensures Ready(e')
  {
    match ev
    case Arrive(t, clock, end) =>
      var r := RouteAll(e.c.sh, e.senders, e.outputs, 0, t, clock);
      e.(c := e.c.(sh := r.0), senders := r.1, queue := e.queue + r.2, clock := end)
    case Tick(now, pool, errors) =>
      var p := TickAll(e.c, e.outputs, e.queue, now, pool, errors);
      e.(c := p.c, queue := p.kept, done := e.done + p.taken, clock := now)
    case SkipRequest(id) => e.(c := e.c.(sh := SkipIn(e.c.sh, id)))
    case PauseChange(name, paused) => e.(c := e.c.(sh := SetPausedIn(e.c.sh, name, paused)))
    case Update(cfg) =>
      UpdatedKeepsSenders(e.outputs, cfg, e.senders);
      e.(outputs := Updated(e.outputs, cfg))
  }

  /** The configuration with the first output of this name replaced. */
  function Updated(outputs: seq<OutputConfig>, cfg: OutputConfig): seq<OutputConfig> {
    if outputs == [] then []
    else if outputs[0].name == cfg.name then [cfg] + outputs[1..]
    else [outputs[0]] + Updated(outputs[1..], cfg)
  }

  /** An update replaces one output by another configuration of the same name, or does nothing when there is
      no output of the name. */
  lemma {:induction false} UpdatedAt(outputs: seq<OutputConfig>, cfg: OutputConfig) returns (i: nat)
    ensures i <= |outputs| && (forall j :: 0 <= j < i ==> outputs[j].name != cfg.name)
    ensures i == |outputs| ==> Updated(outputs, cfg) == outputs
    ensures i < |outputs| ==> cfg.name == outputs[i].name && Updated(outputs, cfg) == outputs[i := cfg]
  {
    if outputs == [] || outputs[0].name == cfg.name {
      i := 0;
    } else {
      var rest := UpdatedAt(outputs[1..], cfg);
      i := rest + 1;
    }
  }

  lemma UpdatedKeepsSenders(outputs: seq<OutputConfig>, cfg: OutputConfig, senders: map<string, Sender>)
    requires HaveSenders(outputs, senders)
    ensures HaveSenders(Updated(outputs, cfg), senders)
  {
    var i := UpdatedAt(outputs, cfg);
    if i < |outputs| {
      assert outputs[i] in outputs;
    }
  }

  function Turns(e: Engine, events: seq<Event>): (e': Engine)
    requires Ready(e)
    ensures Ready(e')
    decreases |events|
  {
    if events == [] then e else Turn(Turns(e, events[..|events| - 1]), events[|events| - 1])
  }

  /** After the end: a flush empties the queue, a cancellation leaves everything as it is. */
  function Ended(e: Engine, ending: Ending): Engine {
    match ending
    case Cancelled => e
    case Closed(pool, errors) =>
      var p := FlushAll(e.c, e.outputs, e.queue, pool, errors);
      e.(c := p.c, queue := [], done := e.done + p.taken)
  }

  // ---- The loop is a run of the machine --------------------------------------------------

  /** The event does not come before the time of the last one. */
  ghost predicate InTime(e: Engine, ev: Event) {
    match ev
    case Arrive(_, clock, end) =>
      e.clock <= end && forall id, id' :: e.c.sh.nextId <= id <= id' ==> e.clock <= clock(id) <= clock(id') <= end
    case Tick(now, _, _) => e.clock <= now
    case _ => true
  }

  ghost predicate AllInTime(e: Engine, events: seq<Event>)
    requires Ready(e)
  {
    forall i :: 0 <= i < |events| ==> InTime(Turns(e, events[..i]), events[i])
  }

  ghost predicate Matches(e: Engine, s: State) {
    && s.pc == Select && s.outputs == e.outputs && s.sh == e.c.sh && s.senders == e.senders
    && s.queue == e.queue && s.done == e.done && s.clock <= e.clock
    && s.senders.Keys == s.rel.accepted.Keys == s.rel.fates.Keys
  }

  lemma TurnIsARun(s: State, e: Engine, ev: Event) returns (acts: seq<Action>, s': State)
    requires Matches(e, s) && Ready(e) && InTime(e, ev)
    ensures Run(s, acts, s') && Matches(Turn(e, ev), s')
  {
    match ev
    case Arrive(t, clock, end) =>
      var s1 := s.(pc := Route(t, 0), routing := s.outputs);
      var route;
      route, s' := RouteIsARun(s1, clock, end);
      RunCons(s, Receive(t), route, s');
      acts := [Receive(t)] + route;
    case Tick(now, pool, errors) =>
      acts, s' := WholeTick(s, e.c, now, pool, errors);
    case _ =>
      acts, s' := BetweenTurns(s, e, ev);
  }

  lemma BetweenTurns(s: State, e: Engine, ev: Event) returns (acts: seq<Action>, s': State)
    requires Matches(e, s) && Ready(e) && !ev.Arrive? && !ev.Tick?
    ensures Run(s, acts, s') && Matches(Turn(e, ev), s')
  {
    match ev
    case SkipRequest(id) =>
      acts, s' := [Skip(id)], SkipAsked(s, id);
      assert Run(s', [], s');
    case PauseChange(name, paused) =>
      acts, s' := [SetPaused(name, paused)], s.(sh := SetPausedIn(s.sh, name, paused));
      assert Run(s', [], s');
    case Update(cfg) =>
      var i := UpdatedAt(s.outputs, cfg);
      if i < |s.outputs| {
        acts, s' := [Reconfigure(i, cfg, false)], Reconfigured(s, i, cfg, false);
        assert Run(s', [], s');
      } else {
        acts, s' := [], s;
      }
  }

  lemma WholeTick(s: State, c: Ctl, now: int, pool: Pool, errors: int -> set<nat>)
    returns (acts: seq<Action>, s': State)
    requires s.pc == Select && c.sh == s.sh && s.clock <= now
    ensures Run(s, acts, s') && s'.pc == Select && s'.outputs == s.outputs && s'.senders == s.senders && s'.rel == s.rel
    ensures s'.clock == now
    ensures var p := TickAll(c, s.outputs, s.queue, now, pool, errors);
            s'.sh == p.c.sh && s'.queue == p.kept && s'.done == s.done + p.taken
  {
    var s1 := s.(clock := now, pc := Ticking(now, [], s.queue));
    var tick, s2 := TickIsARun(s1, c, pool, errors);
    s' := s2.(queue := s2.pc.kept, pc := Select);
    assert Enabled(s2, TickEnd) && Run(s', [], s');
    RunAppend(s1, tick, s2, [TickEnd], s');
    RunCons(s, TickBegin(now), tick + [TickEnd], s');
    acts := [TickBegin(now)] + (tick + [TickEnd]);
    var kept := TickAll(c, s.outputs, s.queue, now, pool, errors).kept;
    assert [] + kept == kept;
  }

  /** Whatever events come, in whichever order, the loop does what some run of the machine does; so
      order, conservation and all other guarantees of its runs hold of the loop. */
  lemma {:induction false} LoopIsARun(s: State, e: Engine, events: seq<Event>) returns (acts: seq<Action>, s': State)
    requires Matches(e, s) && Ready(e) && AllInTime(e, events)
    ensures Run(s, acts, s') && Matches(Turns(e, events), s')
    decreases |events|
  {
    if events == [] {
      acts, s' := [], s;
    } else {
      var last := |events| - 1;
      var before := events[..last];
      assert forall i :: 0 <= i < last ==> before[..i] == events[..i];
      var s1, more;
      acts, s1 := LoopIsARun(s, e, before);
      more, s' := TurnIsARun(s1, Turns(e, before), events[last]);
      RunAppend(s, acts, s1, more, s');
      acts := acts + more;
    }
  }

  /** A controller as its constructor and the pause changes before `Start` leave it, with distinct output names,
      starts in an initial state of the machine; so the state of its loop after any events is reachable,
      and every guarantee applies. */
  lemma LoopIsReachable(e: Engine, events: seq<Event>) returns (s0: State, acts: seq<Action>, s: State)
    requires forall i, j :: 0 <= i < j < |e.outputs| ==> e.outputs[i].name != e.outputs[j].name
    requires AsStarted(e.outputs, e.c, e.senders) && e.queue == [] && e.done == []
    requires Ready(e) && AllInTime(e, events)
    ensures Initial(s0) && Run(s0, acts, s) && Inv(s) && Matches(Turns(e, events), s)
  {
    s0 := StartState(e);
    acts, s := LoopIsARun(s0, e, events);
    InitialInv(s0);
    RunKeepsInv(s0, acts, s);
  }

  lemma StartState(e: Engine) returns (s0: State)
    requires forall i, j :: 0 <= i < j < |e.outputs| ==> e.outputs[i].name != e.outputs[j].name
    requires AsStarted(e.outputs, e.c, e.senders) && Ready(e) && e.queue == [] && e.done == []
    ensures Initial(s0) && Matches(e, s0)
  {
    s0 := StartOf(e);
    StartsInitial(e);
  }

  /** The state of the machine that goes with the engine at its start. */
  ghost function StartOf(e: Engine): State {
    State(e.outputs, e.outputs, e.c.sh, e.senders, [], e.clock, Select,
          Releases(map n | n in e.senders :: map[], map n | n in e.senders :: [], [], []), [], Requests({}, {}))
  }

  lemma StartsInitial(e: Engine)
    requires forall i, j :: 0 <= i < j < |e.outputs| ==> e.outputs[i].name != e.outputs[j].name
    requires AsStarted(e.outputs, e.c, e.senders) && Ready(e)
    ensures Initial(StartOf(e))
  {
  }

  /** Nothing has happened yet but pause changes, also of names without an output. */
  ghost predicate AsStarted(outputs: seq<OutputConfig>, c: Ctl, senders: map<string, Sender>) {
    && c.sh.skip == {} && c.sh.nextId == 0 && c.rr == map[] && c.log == []
    && c.sh.ui.Keys == senders.Keys <= c.sh.paused.Keys
    && (forall n :: n in senders <==> exists o :: o in outputs && o.name == n)
    && (forall n :: n in senders ==>
          c.sh.ui[n] == OutputState(c.sh.paused[n], "", [], []) && senders[n] == Sender(0, 0, map[]))
  }

  lemma PausingKeepsStart(outputs: seq<OutputConfig>, c: Ctl, senders: map<string, Sender>, name: string, paused: bool)
    requires AsStarted(outputs, c, senders)
    ensures AsStarted(outputs, c.(sh := SetPausedIn(c.sh, name, paused)), senders)
  {
  }

  /** The same for the end: a flush on the closed channel or a cancellation. */
  lemma EndIsARun(s: State, e: Engine, ending: Ending) returns (acts: seq<Action>, s': State)
    requires Matches(e, s)
    ensures Run(s, acts, s') && s'.pc == Stopped(ending.Closed?) && s'.outputs == e.outputs
    ensures var last := Ended(e, ending);
            s'.sh == last.c.sh && s'.queue == last.queue && s'.done == last.done && s'.senders == last.senders
  {
    match ending
    case Cancelled =>
      acts, s' := [Cancel], s.(pc := Stopped(false));
      assert Run(s', [], s');
    case Closed(pool, errors) =>
      acts, s' := CloseIsARun(s, e.c, pool, errors);
  }

  lemma CloseIsARun(s: State, c: Ctl, pool: Pool, errors: int -> set<nat>) returns (acts: seq<Action>, s': State)
    requires s.pc == Select && c.sh == s.sh
    ensures Run(s, acts, s') && s'.pc == Stopped(true) && s'.outputs == s.outputs && s'.senders == s.senders
    ensures var p := FlushAll(c, s.outputs, s.queue, pool, errors);
            s'.sh == p.c.sh && s'.done == s.done + p.taken && s'.queue == []
  {
    var s1 := s.(pc := Flushing(s.queue));
    var flush, s2 := FlushIsARun(s1, c, pool, errors);
    s' := s2.(queue := [], pc := Stopped(true));
    assert Enabled(s2, FlushEnd) && Run(s', [], s');
    RunAppend(s1, flush, s2, [FlushEnd], s');
    RunCons(s, FlushBegin, flush + [FlushEnd], s');
    acts := [FlushBegin] + (flush + [FlushEnd]);
  }

  // ---- Fairness to the accounts ----------------------------------------------------------

  /** The attempts made for one output. */
  function AttemptsOf(log: seq<Delivered>, n: string): seq<Attempt> {
    if log == [] then []
    else AttemptsOf(log[..|log| - 1], n) + if log[|log| - 1].output == n then [log[|log| - 1].attempt] else []
  }

  /** The j-th attempt of the output used account j mod k, and the stored index is at the next one. */
  ghost predicate InTurn(c: Ctl, n: string, k: nat) {
    Cyclic(AttemptsOf(c.log, n), Index(c.rr, n), k)
  }

  ghost predicate Cyclic(attempts: seq<Attempt>, index: nat, k: nat) {
    && k > 0
    && (forall j :: 0 <= j < |attempts| ==> attempts[j].account == j % k)
    && index % k == |attempts| % k
  }

  /** The number of accounts of an output. */
  ghost predicate HasAccounts(outputs: seq<OutputConfig>, n: string, k: nat) {
    FindOutput(outputs, n) != [] && |FindOutput(outputs, n)[0].AccountPool()| == k
  }

  lemma {:induction false} AttemptsAppend(log: seq<Delivered>, more: seq<Delivered>, n: string)
    ensures AttemptsOf(log + more, n) == AttemptsOf(log, n) + AttemptsOf(more, n)
    decreases |more|
  {
    if more == [] {
      assert log + more == log;
    } else {
      var all := log + more;
      assert all[..|all| - 1] == log + more[..|more| - 1];
      AttemptsAppend(log, more[..|more| - 1], n);
    }
  }

  lemma {:induction false} AttemptsTagged(attempts: seq<Attempt>, x: string, n: string, accounts: seq<string>,
      pool: Pool)
    ensures AttemptsOf(Tagged(x, attempts, accounts, pool), n) == if x == n then attempts else []
    decreases |attempts|
  {
    if attempts != [] {
      var last := |attempts| - 1;
      assert Tagged(x, attempts, accounts, pool)[..last] == Tagged(x, attempts[..last], accounts, pool);
      AttemptsTagged(attempts[..last], x, n, accounts, pool);
      assert attempts == attempts[..last] + [attempts[last]];
    }
  }

  /** Sending a message of any output keeps every output in turn, also when bots are missing and
      sends fail. */
  lemma SendKeepsTurn(c: Ctl, outputs: seq<OutputConfig>, m: DelayedMsg, pool: Pool, errors: int -> set<nat>,
          n: string, k: nat)
    requires InTurn(c, n, k) && HasAccounts(outputs, n, k)
    ensures InTurn(SendOn(c, outputs, m, pool, errors), n, k)
  {
    var found := FindOutput(outputs, m.output);
    if found != [] && found[0].AccountPool() != [] {
      AttemptsKeepTurn(c, found[0], m, pool, errors(m.id), n, k);
    }
  }

  lemma AttemptsKeepTurn(c: Ctl, o: OutputConfig, m: DelayedMsg, pool: Pool, fails: set<nat>, n: string, k: nat)
    requires InTurn(c, n, k) && o.AccountPool() != [] && (m.output == n ==> |o.AccountPool()| == k)
    ensures var attempts := MessageAttempts(c.rr, o, m, pool, fails);
            var next := NextIndex(Index(c.rr, m.output), |attempts|, |o.AccountPool()|);
            var more := Tagged(m.output, attempts, o.AccountPool(), pool);
            InTurn(Ctl(NoteSent(c.sh, m), c.rr[m.output := next], c.log + more), n, k)
  {
    var attempts := MessageAttempts(c.rr, o, m, pool, fails);
    AttemptsAppend(c.log, Tagged(m.output, attempts, o.AccountPool(), pool), n);
    AttemptsTagged(attempts, m.output, n, o.AccountPool(), pool);
    if m.output == n {
      OwnAttempts(c, o, m, pool, fails, k);
    } else {
      assert AttemptsOf(c.log, n) + [] == AttemptsOf(c.log, n);
    }
  }

  lemma OwnAttempts(c: Ctl, o: OutputConfig, m: DelayedMsg, pool: Pool, fails: set<nat>, k: nat)
    requires InTurn(c, m.output, k) && |o.AccountPool()| == k
    ensures var attempts := MessageAttempts(c.rr, o, m, pool, fails);
            Cyclic(AttemptsOf(c.log, m.output) + attempts, NextIndex(Index(c.rr, m.output), |attempts|, k), k)
  {
    var attempts := MessageAttempts(c.rr, o, m, pool, fails);
    forall j | 0 <= j < |attempts| ensures attempts[j].account == (Index(c.rr, m.output) + j) % k {
      MessageAccount(c.rr, o, m, pool, fails, j);
    }
    StaysCyclic(AttemptsOf(c.log, m.output), attempts, Index(c.rr, m.output), k);
  }

  lemma MessageAccount(rr: map<string, nat>, o: OutputConfig, m: DelayedMsg, pool: Pool, fails: set<nat>, j: nat)
    requires o.AccountPool() != [] && j < |MessageAttempts(rr, o, m, pool, fails)|
    ensures MessageAttempts(rr, o, m, pool, fails)[j].account == (Index(rr, m.output) + j) % |o.AccountPool()|
  {
    var accounts := o.AccountPool();
    var chunks := Splitter.Chunks(m.text, FullPrefix(o, m.seqNum), o.suffix, MinLimit(accounts, pool));
    AttemptAccount(chunks, 0, accounts, Index(rr, m.output) % |accounts|, pool, fails, j);
    ModAdd(Index(rr, m.output), j, |accounts|);
  }

  lemma StaysCyclic(before: seq<Attempt>, more: seq<Attempt>, index: nat, k: nat)
    requires Cyclic(before, index, k)
    requires forall j :: 0 <= j < |more| ==> more[j].account == (index + j) % k
    ensures Cyclic(before + more, NextIndex(index, |more|, k), k)
  {
    forall j | |before| <= j < |before + more| ensures (before + more)[j].account == j % k {
      SameRemainder(index, |before|, j - |before|, k);
      assert (before + more)[j] == more[j - |before|];
    }
    SameRemainder(index, |before|, |more|, k);
    ModAdd(index + |more|, 0, k);
  }

  lemma SameRemainder(a: nat, b: nat, j: nat, k: nat)
    requires k > 0 && a % k == b % k
    ensures (a + j) % k == (b + j) % k
  {
    ModAdd(a, j, k);
    ModAdd(b, j, k);
  }

  lemma {:induction false} TickKeepsTurn(c: Ctl, outputs: seq<OutputConfig>, queue: seq<DelayedMsg>, now: int,
          pool: Pool, errors: int -> set<nat>, n: string, k: nat)
    requires InTurn(c, n, k) && HasAccounts(outputs, n, k)
    ensures InTurn(TickAll(c, outputs, queue, now, pool, errors).c, n, k)
    decreases |queue|
  {
    if queue != [] {
      var one := TickOne(c, outputs, queue[0], now, pool, errors);
      OneKeepsTurn(c, outputs, queue[0], now, pool, errors, n, k);
      TickKeepsTurn(one.c, outputs, queue[1..], now, pool, errors, n, k);
    }
  }

  lemma OneKeepsTurn(c: Ctl, outputs: seq<OutputConfig>, m: DelayedMsg, now: int, pool: Pool,
          errors: int -> set<nat>, n: string, k: nat)
    requires InTurn(c, n, k) && HasAccounts(outputs, n, k)
    ensures InTurn(TickOne(c, outputs, m, now, pool, errors).c, n, k)
  {
    SendKeepsTurn(c.(sh := TakeIn(c.sh, m)), outputs, m, pool, errors, n, k);
  }

  /** Updates keep the number of accounts of the output. */
  ghost predicate KeepsPool(events: seq<Event>, n: string, k: nat) {
    forall i :: 0 <= i < |events| && events[i].Update? && events[i].cfg.name == n ==> |events[i].cfg.AccountPool()| == k
  }

  lemma {:induction false} TurnsKeepTurn(e: Engine, events: seq<Event>, n: string, k: nat)
    requires Ready(e) && InTurn(e.c, n, k) && HasAccounts(e.outputs, n, k) && KeepsPool(events, n, k)
    ensures InTurn(Turns(e, events).c, n, k) && HasAccounts(Turns(e, events).outputs, n, k)
    decreases |events|
  {
    if events != [] {
      var last := |events| - 1;
      TurnsKeepTurn(e, events[..last], n, k);
      OneTurnKeepsTurn(Turns(e, events[..last]), events[last], n, k);
    }
  }

  lemma OneTurnKeepsTurn(e: Engine, ev: Event, n: string, k: nat)
    requires Ready(e) && InTurn(e.c, n, k) && HasAccounts(e.outputs, n, k)
    requires ev.Update? && ev.cfg.name == n ==> |ev.cfg.AccountPool()| == k
    ensures InTurn(Turn(e, ev).c, n, k) && HasAccounts(Turn(e, ev).outputs, n, k)
  {
    match ev
    case Tick(now, pool, errors) => TickKeepsTurn(e.c, e.outputs, e.queue, now, pool, errors, n, k);
    case Update(cfg) =>
      var i := UpdatedAt(e.outputs, cfg);
      if i < |e.outputs| {
        FindReplaced(e.outputs, i, cfg, n);
      }
    case _ =>
  }

  lemma {:induction false} FlushKeepsTurn(c: Ctl, outputs: seq<OutputConfig>, queue: seq<DelayedMsg>, pool: Pool,
          errors: int -> set<nat>, n: string, k: nat)
    requires InTurn(c, n, k) && HasAccounts(outputs, n, k)
    ensures InTurn(FlushAll(c, outputs, queue, pool, errors).c, n, k)
    decreases |queue|
  {
    if queue != [] {
      SendKeepsTurn(c, outputs, queue[0], pool, errors, n, k);
      FlushKeepsTurn(FlushOne(c, outputs, queue[0], pool, errors).c, outputs, queue[1..], pool, errors, n, k);
    }
  }

  /** Fairness over whole runs of the loop, with the flush at its end: whatever is sent, skipped, paused and
      updated in between, each of the k accounts of an output has been tried floor(a/k) or ceil(a/k)
      times after `a` attempts, the first a mod k of them once more, with missing bots, failed sends
      and changing bots.  Updates may change everything but the number of its accounts. */
  lemma LoopIsFair(e: Engine, events: seq<Event>, ending: Ending, n: string, i: nat, k: nat, account: nat)
    requires Ready(e) && e.c.log == [] && e.c.rr == map[] && First(e.outputs, i, n)
    requires AccountCount(e.outputs[i], k) && account < k
    requires forall j :: 0 <= j < |events| && events[j].Update? && events[j].cfg.name == n ==>
               AccountCount(events[j].cfg, k)
    ensures var made := AttemptsOf(Ended(Turns(e, events), ending).c.log, n);
            Tries(made, account) == |made| / k + if account < |made| % k then 1 else 0
  {
    FoundFirst(e.outputs, n);
    TurnsKeepTurn(e, events, n, k);
    var last := Turns(e, events);
    if ending.Closed? {
      FlushKeepsTurn(last.c, last.outputs, last.queue, ending.pool, ending.errors, n, k);
    }
    CyclicTries(AttemptsOf(Ended(last, ending).c.log, n), k, account);
  }

  /** The list has k accounts, or there is only the single one. */
  ghost predicate AccountCount(o: OutputConfig, k: nat) {
    if o.accounts != [] then |o.accounts| == k else o.account != "" && k == 1
  }
}
