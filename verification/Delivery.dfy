/** The controller's `run` goroutine and everyone who shares its mutex, as a step machine.
    One step is one critical section (with the goroutine's own work up to the next one), so
    skips and pause changes interleave with the middle of a release, a tick and a flush.

    `rel`, `done` and `req` only record what happened; no step depends on them. */
module Delivery {
  import opened Types
  import opened Sections
  import opened Routing
  import opened Reorder

  /** Where the goroutine is. */
  datatype Pc =
    | Select
    | Route(t: Translation, i: nat)                    // about to look at output i
    | Drain(t: Translation, i: nat)                    // in the release loop of output i
    | Admitted(t: Translation, i: nat, text: string)   // found not paused, not yet queued
    | Ticking(now: int, kept: seq<DelayedMsg>, unread: seq<DelayedMsg>)
    | Sending(now: int, kept: seq<DelayedMsg>, unread: seq<DelayedMsg>, m: DelayedMsg)
    | Flushing(unread: seq<DelayedMsg>)
    | FlushSending(unread: seq<DelayedMsg>, m: DelayedMsg)
    | Stopped(drained: bool)

  /** What became of a released sequence number, and of a queued message. */
  datatype Fate = NoText | DroppedAtRelease | Issued(id: nat)
  datatype Outcome = Skipped | DroppedAtSend | Handed(at: int) | Flushed
  datatype Done = Done(msg: DelayedMsg, outcome: Outcome)

  /** History of the releases. */
  datatype Releases = Releases(
    accepted: map<string, map<int, string>>,  // per output: the text buffered last for a seq
    fates: map<string, seq<Fate>>,            // per output: by sequence number
    enq: seq<DelayedMsg>,                     // all messages ever queued, by id
    origin: seq<int>)                         // their sequence numbers, by id

  /** History of the skip requests: the ids named so far, and those among them that were
      only named before the id was issued. */
  datatype Requests = Requests(ids: set<int>, early: set<int>)

  /** `routing` is the list that the routing loop goes through, as the loop sees it. */
  datatype State = State(
    outputs: seq<OutputConfig>, routing: seq<OutputConfig>, sh: Shared, senders: map<string, Sender>,
    queue: seq<DelayedMsg>, clock: int, pc: Pc,
    rel: Releases, done: seq<Done>, req: Requests)

  datatype Action =
    | Receive(t: Translation) | Store | Release | Enqueue(now: int) | NextOutput | EndRoute
    | TickBegin(now: int) | Keep | Take | SendDone | TickEnd
    | FlushBegin | FlushTake | FlushSent | FlushEnd | Cancel
    | Skip(id: int) | SetPaused(name: string, paused: bool) | Reconfigure(i: nat, cfg: OutputConfig, live: bool)

  // ---- Steps -----------------------------------------------------------------------------

  /** The same outputs, possibly in other configurations. */
  predicate SameNames(a: seq<OutputConfig>, b: seq<OutputConfig>) {
    |a| == |b| && forall i :: 0 <= i < |a| ==> a[i].name == b[i].name
  }

  predicate Initial(s: State) {
    && s.routing == s.outputs
    && (forall i, j :: 0 <= i < j < |s.outputs| ==> s.outputs[i].name != s.outputs[j].name)
    && (forall i :: 0 <= i < |s.outputs| ==> s.outputs[i].name in s.senders)
    && s.senders.Keys == s.sh.ui.Keys == s.rel.accepted.Keys == s.rel.fates.Keys <= s.sh.paused.Keys
    && (forall n :: n in s.senders ==>
          && s.senders[n] == Sender(0, 0, map[])
          && s.sh.ui[n] == OutputState(s.sh.paused[n], "", [], [])
          && s.rel.accepted[n] == map[]
          && s.rel.fates[n] == [])
    && s.sh.skip == {} && s.sh.nextId == 0 && s.queue == [] && s.pc == Select
    && s.rel.enq == [] && s.rel.origin == [] && s.done == [] && s.req == Requests({}, {})
  }

  predicate InRoute(s: State) {
    (s.pc.Route? || s.pc.Drain? || s.pc.Admitted?) && s.pc.i < |s.routing|
  }

  function At(s: State): OutputConfig
    requires InRoute(s)
  {
    s.routing[s.pc.i]
  }

  /** At an output whose maps are there. */
  predicate Placed(s: State) {
    && InRoute(s) && At(s).name in s.senders && At(s).name in s.rel.accepted && At(s).name in s.rel.fates
  }

  predicate HasNext(s: State)
    requires Placed(s)
  {
    s.senders[At(s).name].nextSeq in s.senders[At(s).name].pending
  }

  predicate Due(pc: Pc)
    requires pc.Ticking? && pc.unread != []
  {
    pc.unread[0].sendAt <= pc.now
  }

  predicate Enabled(s: State, a: Action) {
    match a
    case Receive(_) => s.pc.Select?
    case Store => s.pc.Route? && Placed(s)
    case Release => s.pc.Drain? && Placed(s) && HasNext(s)
    case Enqueue(now) => s.pc.Admitted? && Placed(s) && s.clock <= now
    case NextOutput => s.pc.Drain? && Placed(s) && !HasNext(s)
    case EndRoute => s.pc.Route? && s.pc.i == |s.routing|
    case TickBegin(now) => s.pc.Select? && s.clock <= now
    case Keep => s.pc.Ticking? && s.pc.unread != [] && !Due(s.pc)
    case Take => s.pc.Ticking? && s.pc.unread != [] && Due(s.pc)
    case SendDone => s.pc.Sending?
    case TickEnd => s.pc.Ticking? && s.pc.unread == []
    case FlushBegin => s.pc.Select?
    case FlushTake => s.pc.Flushing? && s.pc.unread != []
    case FlushSent => s.pc.FlushSending?
    case FlushEnd => s.pc.Flushing? && s.pc.unread == []
    case Cancel => s.pc.Select?
    case Skip(_) => true
    case SetPaused(_, _) => true
    case Reconfigure(i, cfg, live) =>
      i < |s.outputs| && cfg.name == s.outputs[i].name && (live ==> i < |s.routing|)
  }

  function Next(s: State, a: Action): State
    requires Enabled(s, a)
  {
    match a
    case Receive(t) => Begun(s, t)
    case Store => Stored(s)
    case Release => Released(s)
    case Enqueue(now) => Enqueued(s, now)
    case NextOutput => OutputDone(s)
    case EndRoute => To(s, Select)
    case TickBegin(now) => s.(clock := now, pc := Ticking(now, [], s.queue))
    case Keep => Kept(s)
    case Take => Taken(s)
    case SendDone => Sent(s)
    case TickEnd => s.(queue := s.pc.kept, pc := Select)
    case FlushBegin => To(s, Flushing(s.queue))
    case FlushTake => FlushTaken(s)
    case FlushSent => FlushedOne(s)
    case FlushEnd => s.(queue := [], pc := Stopped(true))
    case Cancel => To(s, Stopped(false))
    case Skip(id) => SkipAsked(s, id)
    case SetPaused(name, paused) => s.(sh := SetPausedIn(s.sh, name, paused))
    case Reconfigure(i, cfg, live) => Reconfigured(s, i, cfg, live)
  }

  function To(s: State, pc: Pc): State {
    s.(pc := pc)
  }

  /** A translation is routed over the outputs as they are configured now. */
  function Begun(s: State, t: Translation): State {
    s.(pc := Route(t, 0), routing := s.outputs)
  }

  /** The release loop of the output is through. */
  function OutputDone(s: State): State
    requires s.pc.Drain?
  {
    s.(pc := Route(s.pc.t, s.pc.i + 1))
  }

  /** An edit in place is `live`: the routing loop sees it when it gets there.  When the list is replaced, a loop
      under way goes on with the old one. */
  function Reconfigured(s: State, i: nat, cfg: OutputConfig, live: bool): State
    requires i < |s.outputs| && (live ==> i < |s.routing|)
  {
    s.(outputs := s.outputs[i := cfg], routing := if live then s.routing[i := cfg] else s.routing)
  }

  /** Buffers the selected text under its sequence number. */
  function Stored(s: State): State
    requires s.pc.Route? && Placed(s)
  {
    var n := At(s).name;
    var snd := s.senders[n];
    var text := SelectText(At(s).targetLang, s.pc.t);
    s.(senders := s.senders[n := snd.(pending := snd.pending[s.pc.t.seqNo := text])],
       pc := Drain(s.pc.t, s.pc.i),
       rel := Accept(s.rel, n, snd.nextSeq, s.pc.t.seqNo, text))
  }

  /** A sequence number below the next one is never looked at again. */
  function Accept(rel: Releases, n: string, nextSeq: nat, k: int, text: string): Releases
    requires n in rel.accepted
  {
    if k < nextSeq then rel else rel.(accepted := rel.accepted[n := rel.accepted[n][k := text]])
  }

  /** Takes the next text out of the buffer; an empty one is done with, a paused output drops it. */
  function Released(s: State): State
    requires s.pc.Drain? && Placed(s) && HasNext(s)
  {
    var n := At(s).name;
    var snd := s.senders[n];
    var text := snd.pending[snd.nextSeq];
    var senders := s.senders[n := Popped(snd)];
    if text == "" then s.(senders := senders, rel := Record(s.rel, n, NoText))
    else if IsPaused(s.sh, n) then s.(senders := senders, rel := Record(s.rel, n, DroppedAtRelease))
    else s.(senders := senders, pc := Admitted(s.pc.t, s.pc.i, text))
  }

  function Record(rel: Releases, n: string, fate: Fate): Releases
    requires n in rel.fates
  {
    rel.(fates := rel.fates[n := rel.fates[n] + [fate]])
  }

  function Enqueued(s: State, now: int): State
    requires s.pc.Admitted? && Placed(s)
  {
    var n := At(s).name;
    var snd := s.senders[n];
    var m := NewMessage(s.sh, n, s.pc.text, now, snd.seqCounter);
    s.(sh := AdmitIn(s.sh, m), senders := s.senders[n := snd.(seqCounter := snd.seqCounter + 1)],
       queue := s.queue + [m], clock := now, pc := Drain(s.pc.t, s.pc.i),
       rel := RecordIssue(s.rel, n, m, snd.nextSeq - 1))
  }

  function RecordIssue(rel: Releases, n: string, m: DelayedMsg, k: int): Releases
    requires n in rel.fates
  {
    Record(rel, n, Issued(|rel.enq|)).(enq := rel.enq + [m], origin := rel.origin + [k])
  }

  function Kept(s: State): State
    requires s.pc.Ticking? && s.pc.unread != []
  {
    s.(pc := Ticking(s.pc.now, s.pc.kept + [s.pc.unread[0]], s.pc.unread[1..]))
  }

  function Taken(s: State): State
    requires s.pc.Ticking? && s.pc.unread != []
  {
    var m := s.pc.unread[0];
    var rest := s.pc.unread[1..];
    match VerdictOn(s.sh, m)
    case SkipIt =>
      s.(sh := TakeIn(s.sh, m), pc := Ticking(s.pc.now, s.pc.kept, rest),
         done := s.done + [Done(m, Skipped)], req := Forget(s.req, m.id))
    case DropIt =>
      s.(sh := TakeIn(s.sh, m), pc := Ticking(s.pc.now, s.pc.kept, rest), done := s.done + [Done(m, DroppedAtSend)])
    case SendIt =>
      s.(sh := TakeIn(s.sh, m), pc := Sending(s.pc.now, s.pc.kept, rest, m))
  }

  function Sent(s: State): State
    requires s.pc.Sending?
  {
    s.(sh := SendIn(s.sh, s.outputs, s.pc.m), pc := Ticking(s.pc.now, s.pc.kept, s.pc.unread),
       done := s.done + [Done(s.pc.m, Handed(s.pc.now))])
  }

  function FlushTaken(s: State): State
    requires s.pc.Flushing? && s.pc.unread != []
  {
    var m := s.pc.unread[0];
    if m.id in s.sh.skip
    then s.(sh := FlushIn(s.sh, m), pc := Flushing(s.pc.unread[1..]), done := s.done + [Done(m, Skipped)],
        req := Forget(s.req, m.id))
    else s.(pc := FlushSending(s.pc.unread[1..], m))
  }

  function FlushedOne(s: State): State
    requires s.pc.FlushSending?
  {
    s.(sh := SendIn(s.sh, s.outputs, s.pc.m), pc := Flushing(s.pc.unread), done := s.done + [Done(s.pc.m, Flushed)])
  }

  function SkipAsked(s: State, id: int): State {
    s.(sh := SkipIn(s.sh, id), req := Ask(s.req, id, s.sh.nextId))
  }

  function Ask(req: Requests, id: int, nextId: nat): Requests {
    Requests(req.ids + {id}, if id >= nextId then req.early + {id} else req.early - {id})
  }

  function Forget(req: Requests, id: int): Requests {
    req.(early := req.early - {id})
  }

  /** A run: `acts` leads from `s` to `s'`. */
  ghost predicate Run(s: State, acts: seq<Action>, s': State)
    decreases acts
  {
    if acts == [] then s == s'
    else Enabled(s, acts[0]) && Run(Next(s, acts[0]), acts[1..], s')
  }

  lemma RunCons(s: State, a: Action, acts: seq<Action>, s': State)
    requires Enabled(s, a) && Run(Next(s, a), acts, s')
    ensures Run(s, [a] + acts, s')
  {
    assert ([a] + acts)[1..] == acts;
  }

  lemma {:induction false} RunAppend(s: State, acts: seq<Action>, s1: State, more: seq<Action>, s': State)
    requires Run(s, acts, s1) && Run(s1, more, s')
    ensures Run(s, acts + more, s')
    decreases acts
  {
    if acts == [] {
      assert [] + more == more;
    } else {
      assert (acts + more)[1..] == acts[1..] + more;
      RunAppend(Next(s, acts[0]), acts[1..], s1, more, s');
    }
  }

  // ---- The invariant ---------------------------------------------------------------------

  /** The messages still to be taken: in the middle of a tick, `kept ++ unread`. */
  function Waiting(s: State): seq<DelayedMsg> {
    match s.pc
    case Ticking(_, kept, unread) => kept + unread
    case Sending(_, kept, unread, _) => kept + unread
    case Flushing(unread) => unread
    case FlushSending(unread, _) => unread
    case _ => s.queue
  }

  /** The message taken but not yet sent. */
  function InHand(s: State): seq<DelayedMsg> {
    if s.pc.Sending? || s.pc.FlushSending? then [s.pc.m] else []
  }

  /** Handed to `sendMessage`. */
  predicate WasSent(d: Done) { d.outcome.Handed? || d.outcome.Flushed? }

  function Msgs(done: seq<Done>): seq<DelayedMsg> {
    seq(|done|, i requires 0 <= i < |done| => done[i].msg)
  }

  /** The output in its release loop, and the text it holds between release and queue. */
  datatype Focus = Free | Draining(name: string) | Holding(name: string, text: string)

  function FocusOf(s: State): Focus {
    if s.pc.Drain? && s.pc.i < |s.routing| then Draining(At(s).name)
    else if s.pc.Admitted? && s.pc.i < |s.routing| then Holding(At(s).name, s.pc.text)
    else Free
  }

  ghost predicate Shape(s: State) {
    && SameNames(s.routing, s.outputs)
    && (forall i, j :: 0 <= i < j < |s.outputs| ==> s.outputs[i].name != s.outputs[j].name)
    && (forall i :: 0 <= i < |s.outputs| ==> s.outputs[i].name in s.senders)
    && s.senders.Keys == s.sh.ui.Keys == s.rel.accepted.Keys == s.rel.fates.Keys <= s.sh.paused.Keys
    && (s.pc.Route? ==> s.pc.i <= |s.outputs|)
    && (s.pc.Drain? || s.pc.Admitted? ==> s.pc.i < |s.outputs|)
  }

  /** The flags of the user interface are those that gate the output. */
  ghost predicate FlagsAgree(sh: Shared) {
    forall n :: n in sh.ui ==> n in sh.paused && sh.ui[n].paused == sh.paused[n]
  }

  /** The ledger: everything ever queued is, in order, done with, in hand or waiting. */
  ghost predicate Ledger(done: seq<Done>, hand: seq<DelayedMsg>, waiting: seq<DelayedMsg>, enq: seq<DelayedMsg>,
          nextId: nat) {
    && Msgs(done) + hand + waiting == enq
    && |enq| == nextId
    && (forall i :: 0 <= i < |enq| ==> enq[i].id == i)
  }

  /** Due times follow the order of the queue. */
  ghost predicate Timely(enq: seq<DelayedMsg>, clock: int) {
    && (forall i, j :: 0 <= i < j < |enq| ==> enq[i].sendAt <= enq[j].sendAt)
    && (forall i :: 0 <= i < |enq| ==> enq[i].sendAt <= clock + SEND_DELAY)
  }

  /** A tick keeps what is not due and hands over what is. */
  ghost predicate DueOnTick(pc: Pc, done: seq<Done>) {
    && (pc.Ticking? || pc.Sending? ==> forall m :: m in pc.kept ==> pc.now < m.sendAt)
    && (pc.Sending? ==> pc.m.sendAt <= pc.now)
    && (forall d :: d in done && d.outcome.Handed? ==> d.msg.sendAt <= d.outcome.at)
  }

  /** One reorder buffer, with the texts it accepted and the fates of what it released. */
  ghost predicate BufferOk(n: string, snd: Sender, acc: map<int, string>, fates: seq<Fate>, focus: Focus) {
    && |fates| + (if focus.Holding? && focus.name == n then 1 else 0) == snd.nextSeq
    && (forall k :: 0 <= k < snd.nextSeq ==> k in acc)
    && (forall k :: k in acc ==> 0 <= k)
    && (forall k :: snd.nextSeq <= k ==> (k in snd.pending <==> k in acc))
    && (forall k :: snd.nextSeq <= k && k in acc ==> snd.pending[k] == acc[k])
    && (focus.Free? || focus.name != n ==> snd.nextSeq !in snd.pending)
    && (focus.Holding? && focus.name == n ==> focus.text != "" && acc[snd.nextSeq - 1] == focus.text)
  }

  /** A fate matches the text, and an issued id leads back to output and seq. */
  ghost predicate FateOk(enq: seq<DelayedMsg>, origin: seq<int>, n: string, k: int, text: string, f: Fate) {
    match f
    case NoText => text == ""
    case DroppedAtRelease => text != ""
    case Issued(id) =>
      && text != "" && id < |enq| && id < |origin|
      && enq[id].output == n && enq[id].text == text && origin[id] == k
  }

  ghost predicate FatesOk(enq: seq<DelayedMsg>, origin: seq<int>, n: string, acc: map<int, string>, fates: seq<Fate>) {
    forall k :: 0 <= k < |fates| ==> k in acc && FateOk(enq, origin, n, k, acc[k], fates[k])
  }

  /** Every message leads back to the fate of its seq; ids of one output follow its seqs. */
  ghost predicate OriginsOk(fates: map<string, seq<Fate>>, enq: seq<DelayedMsg>, origin: seq<int>) {
    && |origin| == |enq|
    && (forall id :: 0 <= id < |enq| ==>
          && enq[id].output in fates
          && 0 <= origin[id] < |fates[enq[id].output]|
          && fates[enq[id].output][origin[id]] == Issued(id))
    && (forall i, j :: 0 <= i < j < |enq| && enq[i].output == enq[j].output ==> origin[i] < origin[j])
  }

  ghost predicate Buffers(senders: map<string, Sender>, rel: Releases, focus: Focus) {
    && senders.Keys == rel.accepted.Keys == rel.fates.Keys
    && (forall n :: n in senders ==> BufferOk(n, senders[n], rel.accepted[n], rel.fates[n], focus))
    && (forall n :: n in senders ==> FatesOk(rel.enq, rel.origin, n, rel.accepted[n], rel.fates[n]))
    && OriginsOk(rel.fates, rel.enq, rel.origin)
  }

  /** For a waiting message, being in the skip set means that its skip was requested. */
  ghost predicate SkipsOk(waiting: seq<DelayedMsg>, skip: set<int>, nextId: nat, req: Requests) {
    && (forall m :: m in waiting ==> (m.id in skip <==> m.id in req.ids))
    && req.early <= skip <= req.ids
    && (forall id :: id in skip && nextId <= id ==> id in req.early)
    && (forall id :: id in req.ids && nextId <= id ==> id in skip)
  }

  ghost predicate SkippedOnRequest(done: seq<Done>, ids: set<int>) {
    forall d :: d in done && d.outcome == Skipped ==> d.msg.id in ids
  }

  /** Each pending list is the view of the queue without the hidden messages. */
  ghost predicate Indexed(ui: map<string, OutputState>, waiting: seq<DelayedMsg>, hidden: set<int>) {
    forall n :: n in ui ==> ui[n].pending == View(waiting, n, hidden)
  }

  predicate BeforeFlush(pc: Pc) {
    !pc.Flushing? && !pc.FlushSending? && pc != Stopped(true)
  }

  /** The messages skipped after they were issued. */
  function Hidden(s: State): set<int> { s.sh.skip - s.req.early }

  ghost predicate Inv(s: State) {
    && Shape(s)
    && FlagsAgree(s.sh)
    && Ledger(s.done, InHand(s), Waiting(s), s.rel.enq, s.sh.nextId)
    && (s.pc == Stopped(true) ==> s.queue == [])
    && Timely(s.rel.enq, s.clock)
    && DueOnTick(s.pc, s.done)
    && Buffers(s.senders, s.rel, FocusOf(s))
    && SkipsOk(Waiting(s), s.sh.skip, s.sh.nextId, s.req)
    && SkippedOnRequest(s.done, s.req.ids)
    && (BeforeFlush(s.pc) ==> Indexed(s.sh.ui, Waiting(s), Hidden(s)))
  }

  lemma InitialInv(s: State)
    requires Initial(s)
    ensures Inv(s)
  {
    assert Msgs([]) == [];
    InitialBuffers(s);
  }

  lemma InitialBuffers(s: State)
    requires Initial(s)
    ensures Buffers(s.senders, s.rel, FocusOf(s))
  {
  }

  // ---- Preservation, one step at a time --------------------------------------------------

  /** Steps that leave the messages and the mutex alone. */
  ghost predicate SameMessages(s: State, s': State) {
    && Shape(s') && s'.sh == s.sh && s'.done == s.done && s'.req == s.req && s.clock <= s'.clock
    && s'.rel.enq == s.rel.enq && InHand(s') == InHand(s) && Waiting(s') == Waiting(s)
    && (s'.pc == Stopped(true) ==> s'.queue == []) && (BeforeFlush(s'.pc) ==> BeforeFlush(s.pc))
  }

  lemma KeepsInvSame(s: State, s': State)
    requires Inv(s) && SameMessages(s, s') && DueOnTick(s'.pc, s.done) && Buffers(s'.senders, s'.rel, FocusOf(s'))
    ensures Inv(s')
  {
    LaterClock(s.rel.enq, s.clock, s'.clock);
  }

  lemma LaterClock(enq: seq<DelayedMsg>, clock: int, now: int)
    requires Timely(enq, clock) && clock <= now
    ensures Timely(enq, now)
  {
  }

  /** Outside of a tick nothing is kept back. */
  lemma NotTicking(pc: Pc, pc': Pc, done: seq<Done>)
    requires DueOnTick(pc, done) && !pc'.Ticking? && !pc'.Sending?
    ensures DueOnTick(pc', done)
  {
  }

  /** Steps of the reorder buffer, outside of ticks. */
  lemma KeepsInvBuffers(s: State, s': State)
    requires Inv(s) && SameMessages(s, s') && Buffers(s'.senders, s'.rel, FocusOf(s'))
    requires s'.pc == s.pc || (!s'.pc.Ticking? && !s'.pc.Sending?)
    ensures Inv(s')
  {
    if s'.pc != s.pc {
      NotTicking(s.pc, s'.pc, s.done);
    }
    KeepsInvSame(s, s');
  }

  /** Steps that also leave the reorder buffers alone. */
  lemma KeepsInvMove(s: State, s': State)
    requires Inv(s) && SameMessages(s, s') && s'.senders == s.senders && s'.rel == s.rel && FocusOf(s') == FocusOf(s)
    requires DueOnTick(s'.pc, s.done)
    ensures Inv(s')
  {
    KeepsInvSame(s, s');
  }

  lemma KeepsInvReceive(s: State, t: Translation)
    requires Inv(s) && s.pc.Select?
    ensures Inv(Begun(s, t))
  {
    NotTicking(s.pc, Route(t, 0), s.done);
    ReceiveFrame(s, t);
    KeepsInvMove(s, Begun(s, t));
  }

  lemma ReceiveFrame(s: State, t: Translation)
    requires Shape(s) && s.pc.Select?
    ensures SameMessages(s, Begun(s, t)) && FocusOf(Begun(s, t)) == FocusOf(s)
  {
  }

  /** To and from the select statement. */
  lemma KeepsInvTurn(s: State, pc: Pc)
    requires Inv(s) && (s.pc.Select? || s.pc.Route?)
    requires pc == Select || pc == Flushing(s.queue) || pc == Stopped(false)
    ensures Inv(To(s, pc))
  {
    NotTicking(s.pc, pc, s.done);
    TurnFrame(s, pc);
    KeepsInvMove(s, To(s, pc));
  }

  lemma TurnFrame(s: State, pc: Pc)
    requires Shape(s) && (s.pc.Select? || s.pc.Route?)
    requires pc == Select || pc == Flushing(s.queue) || pc == Stopped(false)
    ensures SameMessages(s, To(s, pc)) && FocusOf(To(s, pc)) == FocusOf(s)
  {
  }

  lemma KeepsInvNextOutput(s: State)
    requires Inv(s) && s.pc.Drain? && s.pc.i < |s.routing|
    requires s.senders[At(s).name].nextSeq !in s.senders[At(s).name].pending
    ensures Inv(OutputDone(s))
  {
    NextOutputFrame(s);
    BuffersDrained(s.senders, s.rel, At(s).name);
    KeepsInvBuffers(s, OutputDone(s));
  }

  lemma NextOutputFrame(s: State)
    requires Shape(s) && s.pc.Drain?
    ensures var s' := OutputDone(s);
            SameMessages(s, s') && FocusOf(s) == Draining(At(s).name) && FocusOf(s') == Free
  {
  }

  lemma BuffersDrained(senders: map<string, Sender>, rel: Releases, n: string)
    requires Buffers(senders, rel, Draining(n)) && n in senders && senders[n].nextSeq !in senders[n].pending
    ensures Buffers(senders, rel, Free)
  {
  }

  lemma KeepsInvTickBegin(s: State, now: int)
    requires Inv(s) && s.pc.Select? && s.clock <= now
    ensures Inv(s.(clock := now, pc := Ticking(now, [], s.queue)))
  {
    TickBeginFrame(s, now);
    NothingKept(s.pc, now, s.queue, s.done);
    KeepsInvMove(s, s.(clock := now, pc := Ticking(now, [], s.queue)));
  }

  lemma TickBeginFrame(s: State, now: int)
    requires Shape(s) && s.pc.Select? && s.clock <= now
    ensures var s' := s.(clock := now, pc := Ticking(now, [], s.queue));
            SameMessages(s, s') && FocusOf(s') == FocusOf(s)
  {
    assert [] + s.queue == s.queue;
  }

  lemma NothingKept(pc: Pc, now: int, unread: seq<DelayedMsg>, done: seq<Done>)
    requires DueOnTick(pc, done)
    ensures DueOnTick(Ticking(now, [], unread), done)
  {
  }

  lemma KeepsInvKeep(s: State)
    requires Inv(s) && s.pc.Ticking? && s.pc.unread != [] && !Due(s.pc)
    ensures Inv(Kept(s))
  {
    KeepFrame(s);
    KeepsInvMove(s, Kept(s));
  }

  lemma KeepFrame(s: State)
    requires Shape(s) && DueOnTick(s.pc, s.done) && s.pc.Ticking? && s.pc.unread != [] && !Due(s.pc)
    ensures SameMessages(s, Kept(s)) && FocusOf(Kept(s)) == FocusOf(s) && DueOnTick(Kept(s).pc, s.done)
  {
    assert Waiting(Kept(s)) == Waiting(s);
  }

  lemma KeepsInvTickEnd(s: State)
    requires Inv(s) && s.pc.Ticking? && s.pc.unread == []
    ensures Inv(s.(queue := s.pc.kept, pc := Select))
  {
    NotTicking(s.pc, Select, s.done);
    TickEndFrame(s);
    KeepsInvMove(s, s.(queue := s.pc.kept, pc := Select));
  }

  lemma TickEndFrame(s: State)
    requires Shape(s) && s.pc.Ticking? && s.pc.unread == []
    ensures var s' := s.(queue := s.pc.kept, pc := Select);
            SameMessages(s, s') && FocusOf(s') == FocusOf(s)
  {
    assert s.pc.kept + [] == s.pc.kept;
  }

  lemma KeepsInvFlushEnd(s: State)
    requires Inv(s) && s.pc.Flushing? && s.pc.unread == []
    ensures Inv(s.(queue := [], pc := Stopped(true)))
  {
    NotTicking(s.pc, Stopped(true), s.done);
    FlushEndFrame(s);
    KeepsInvMove(s, s.(queue := [], pc := Stopped(true)));
  }

  lemma FlushEndFrame(s: State)
    requires Shape(s) && s.pc.Flushing? && s.pc.unread == []
    ensures var s' := s.(queue := [], pc := Stopped(true));
            SameMessages(s, s') && FocusOf(s') == FocusOf(s)
  {
  }

  /** Steps that leave the reorder buffers, the releases and the clock alone. */
  ghost predicate SameReleases(s: State, s': State) {
    && Shape(s') && s'.senders == s.senders && s'.rel == s.rel && s'.clock == s.clock && FocusOf(s') == FocusOf(s)
    && (s'.pc == Stopped(true) ==> s'.queue == [])
  }

  /** What such a step has to keep about the messages. */
  ghost predicate MessagesOk(s: State) {
    && FlagsAgree(s.sh)
    && Ledger(s.done, InHand(s), Waiting(s), s.rel.enq, s.sh.nextId)
    && DueOnTick(s.pc, s.done)
    && SkipsOk(Waiting(s), s.sh.skip, s.sh.nextId, s.req)
    && SkippedOnRequest(s.done, s.req.ids)
    && (BeforeFlush(s.pc) ==> Indexed(s.sh.ui, Waiting(s), Hidden(s)))
  }

  lemma KeepsInvMessages(s: State, s': State)
    requires Inv(s) && SameReleases(s, s') && MessagesOk(s')
    ensures Inv(s')
  {
  }

  lemma KeepsInvSetPaused(s: State, name: string, paused: bool)
    requires Inv(s)
    ensures Inv(s.(sh := SetPausedIn(s.sh, name, paused)))
  {
    PauseFrame(s, name, paused);
    PauseMessages(s, name, paused);
    KeepsInvMessages(s, s.(sh := SetPausedIn(s.sh, name, paused)));
  }

  lemma PauseFrame(s: State, name: string, paused: bool)
    requires Shape(s) && (s.pc == Stopped(true) ==> s.queue == [])
    ensures SameReleases(s, s.(sh := SetPausedIn(s.sh, name, paused)))
  {
  }

  lemma PauseMessages(s: State, name: string, paused: bool)
    requires MessagesOk(s)
    ensures MessagesOk(s.(sh := SetPausedIn(s.sh, name, paused)))
  {
    FlagsSet(s.sh, name, paused);
    SameLists(s.sh.ui, SetPausedIn(s.sh, name, paused).ui, Waiting(s), Hidden(s));
  }

  lemma FlagsSet(sh: Shared, name: string, paused: bool)
    requires FlagsAgree(sh)
    ensures FlagsAgree(SetPausedIn(sh, name, paused))
  {
  }

  lemma FlagsKept(sh: Shared, sh': Shared)
    requires FlagsAgree(sh) && SameGates(sh, sh')
    ensures FlagsAgree(sh')
  {
  }

  lemma SameLists(ui: map<string, OutputState>, ui': map<string, OutputState>, waiting: seq<DelayedMsg>,
          hidden: set<int>)
    requires ui.Keys == ui'.Keys && forall n :: n in ui ==> ui'[n].pending == ui[n].pending
    ensures Indexed(ui, waiting, hidden) ==> Indexed(ui', waiting, hidden)
  {
  }

  lemma KeepsInvReconfigure(s: State, i: nat, cfg: OutputConfig, live: bool)
    requires Inv(s) && i < |s.outputs| && cfg.name == s.outputs[i].name
    ensures Inv(Reconfigured(s, i, cfg, live))
  {
    ReconfigureFrame(s, i, cfg, live);
    KeepsInvBuffers(s, Reconfigured(s, i, cfg, live));
  }

  lemma ReconfigureFrame(s: State, i: nat, cfg: OutputConfig, live: bool)
    requires Shape(s) && i < |s.outputs| && cfg.name == s.outputs[i].name && (s.pc == Stopped(true) ==> s.queue == [])
    ensures var s' := Reconfigured(s, i, cfg, live);
            SameMessages(s, s') && FocusOf(s') == FocusOf(s)
  {
  }

  lemma KeepsInvSent(s: State)
    requires Inv(s) && s.pc.Sending?
    ensures Inv(Sent(s))
  {
    SendInFrame(s.sh, s.outputs, s.pc.m);
    Settle(s, SendIn(s.sh, s.outputs, s.pc.m), Ticking(s.pc.now, s.pc.kept, s.pc.unread), Handed(s.pc.now));
  }

  lemma KeepsInvFlushedOne(s: State)
    requires Inv(s) && s.pc.FlushSending?
    ensures Inv(FlushedOne(s))
  {
    SendInFrame(s.sh, s.outputs, s.pc.m);
    Settle(s, SendIn(s.sh, s.outputs, s.pc.m), Flushing(s.pc.unread), Flushed);
  }

  /** All that sending changes under the mutex is which texts were sent last. */
  ghost predicate OnlyRecent(sh: Shared, sh': Shared) {
    && SameGates(sh, sh') && sh'.skip == sh.skip && sh'.nextId == sh.nextId
    && forall n :: n in sh.ui ==> sh'.ui[n] == sh.ui[n].(recent := sh'.ui[n].recent)
  }

  lemma SendInFrame(sh: Shared, outputs: seq<OutputConfig>, m: DelayedMsg)
    ensures OnlyRecent(sh, SendIn(sh, outputs, m))
    ensures forall n :: n in sh.ui && n != m.output ==> SendIn(sh, outputs, m).ui[n] == sh.ui[n]
  {
  }

  /** The message in hand is done with. */
  lemma Settle(s: State, sh: Shared, pc: Pc, outcome: Outcome)
    requires Inv(s) && OnlyRecent(s.sh, sh)
    requires (s.pc.Sending? && pc == Ticking(s.pc.now, s.pc.kept, s.pc.unread) && outcome == Handed(s.pc.now))
          || (s.pc.FlushSending? && pc == Flushing(s.pc.unread) && outcome == Flushed)
    ensures Inv(s.(sh := sh, pc := pc, done := s.done + [Done(s.pc.m, outcome)]))
  {
    var s' := s.(sh := sh, pc := pc, done := s.done + [Done(s.pc.m, outcome)]);
    SettleFrame(s, s');
    LedgerSettled(s.done, s.pc.m, outcome, Waiting(s), s.rel.enq, s.sh.nextId);
    DoneOnTime(s.pc, pc, s.done, Done(s.pc.m, outcome), s.req.ids);
    FlagsKept(s.sh, sh);
    SameLists(s.sh.ui, sh.ui, Waiting(s), Hidden(s));
    KeepsInvMessages(s, s');
  }

  lemma SettleFrame(s: State, s': State)
    requires Shape(s) && OnlyRecent(s.sh, s'.sh) && s' == s.(sh := s'.sh, pc := s'.pc, done := s'.done)
    requires (s.pc.Sending? && s'.pc == Ticking(s.pc.now, s.pc.kept, s.pc.unread))
          || (s.pc.FlushSending? && s'.pc == Flushing(s.pc.unread))
    ensures SameReleases(s, s') && InHand(s) == [s.pc.m] && InHand(s') == [] && Waiting(s') == Waiting(s)
    ensures Hidden(s') == Hidden(s) && (BeforeFlush(s'.pc) <==> BeforeFlush(s.pc))
  {
  }

  /** The message in hand was due if it was sent on a tick. */
  lemma DoneOnTime(pc: Pc, pc': Pc, done: seq<Done>, d: Done, ids: set<int>)
    requires DueOnTick(pc, done) && SkippedOnRequest(done, ids)
    requires (pc.Sending? && pc' == Ticking(pc.now, pc.kept, pc.unread) && d == Done(pc.m, Handed(pc.now)))
          || (pc.FlushSending? && pc' == Flushing(pc.unread) && d == Done(pc.m, Flushed))
    ensures DueOnTick(pc', done + [d]) && SkippedOnRequest(done + [d], ids)
  {
  }

  /** The message in hand becomes the last one done. */
  lemma LedgerSettled(done: seq<Done>, m: DelayedMsg, outcome: Outcome, waiting: seq<DelayedMsg>,
          enq: seq<DelayedMsg>, nextId: nat)
    requires Ledger(done, [m], waiting, enq, nextId)
    ensures Ledger(done + [Done(m, outcome)], [], waiting, enq, nextId)
  {
    assert Msgs(done + [Done(m, outcome)]) == Msgs(done) + [m];
    assert Msgs(done) + [m] + [] + waiting == Msgs(done) + [m] + waiting;
  }

  // Steps of the reorder buffer.

  lemma KeepsInvStored(s: State)
    requires Inv(s) && s.pc.Route? && Placed(s)
    ensures Inv(Stored(s))
  {
    StoredFrame(s);
    StoreKeepsBuffers(s.senders, s.rel, At(s).name, s.pc.t.seqNo, SelectText(At(s).targetLang, s.pc.t));
    KeepsInvBuffers(s, Stored(s));
  }

  lemma StoredFrame(s: State)
    requires Shape(s) && s.pc.Route? && Placed(s)
    ensures SameMessages(s, Stored(s)) && FocusOf(s) == Free && FocusOf(Stored(s)) == Draining(At(s).name)
  {
  }

  lemma StoreKeepsBuffers(senders: map<string, Sender>, rel: Releases, n: string, k: int, text: string)
    requires Buffers(senders, rel, Free) && n in senders
    ensures Buffers(senders[n := senders[n].(pending := senders[n].pending[k := text])],
                    Accept(rel, n, senders[n].nextSeq, k, text), Draining(n))
  {
    var snd := senders[n].(pending := senders[n].pending[k := text]);
    var rel' := Accept(rel, n, senders[n].nextSeq, k, text);
    StoreOne(n, senders[n], rel.accepted[n], rel.fates[n], k, text);
    ElsewhereAll(senders, rel, n, Free, Draining(n));
    StoreKeepsFates(senders, rel, n, k, text);
    AcceptFrame(rel, n, senders[n].nextSeq, k, text);
    OneBufferChanged(senders, rel, n, snd, rel', Draining(n), senders[n := snd]);
  }

  lemma AcceptFrame(rel: Releases, n: string, nextSeq: nat, k: int, text: string)
    requires n in rel.accepted
    ensures var rel' := Accept(rel, n, nextSeq, k, text);
            && rel'.fates == rel.fates && rel'.enq == rel.enq && rel'.origin == rel.origin
            && rel'.accepted.Keys == rel.accepted.Keys
            && rel'.accepted[n] == (if k < nextSeq then rel.accepted[n] else rel.accepted[n][k := text])
            && forall x :: x in rel.accepted && x != n ==> rel'.accepted[x] == rel.accepted[x]
  {
  }

  lemma StoreKeepsFates(senders: map<string, Sender>, rel: Releases, n: string, k: int, text: string)
    requires senders.Keys == rel.accepted.Keys == rel.fates.Keys && n in senders && |rel.fates[n]| <= senders[n].nextSeq
    requires forall x :: x in senders ==> FatesOk(rel.enq, rel.origin, x, rel.accepted[x], rel.fates[x])
    ensures var rel' := Accept(rel, n, senders[n].nextSeq, k, text);
            forall x :: x in senders ==> FatesOk(rel'.enq, rel'.origin, x, rel'.accepted[x], rel'.fates[x])
  {
    if senders[n].nextSeq <= k {
      AcceptKeepsFates(rel.enq, rel.origin, n, rel.accepted[n], rel.fates[n], k, text);
    }
  }

  /** The condition on one buffer depends on the focus only if that is on its output. */
  lemma Elsewhere(x: string, snd: Sender, acc: map<int, string>, fates: seq<Fate>, focus: Focus, focus': Focus)
    requires BufferOk(x, snd, acc, fates, focus)
    requires (focus.Free? || focus.name != x) && (focus'.Free? || focus'.name != x)
    ensures BufferOk(x, snd, acc, fates, focus')
  {
  }

  lemma StoreOne(n: string, snd: Sender, acc: map<int, string>, fates: seq<Fate>, k: int, text: string)
    requires BufferOk(n, snd, acc, fates, Free)
    ensures BufferOk(n, snd.(pending := snd.pending[k := text]),
                     if k < snd.nextSeq then acc else acc[k := text], fates, Draining(n))
  {
  }

  lemma AcceptKeepsFates(enq: seq<DelayedMsg>, origin: seq<int>, n: string, acc: map<int, string>, fates: seq<Fate>,
          k: int, text: string)
    requires FatesOk(enq, origin, n, acc, fates) && |fates| <= k
    ensures FatesOk(enq, origin, n, acc[k := text], fates)
  {
  }

  lemma KeepsInvReleased(s: State)
    requires Inv(s) && s.pc.Drain? && Placed(s) && HasNext(s)
    ensures Inv(Released(s))
  {
    var n := At(s).name;
    var text := s.senders[n].pending[s.senders[n].nextSeq];
    ReleasedFrame(s);
    ReleasedParts(s);
    if Released(s).pc.Admitted? {
      ReleaseKeepsBuffers(s.senders, s.rel, n);
    } else {
      DropKeepsBuffers(s.senders, s.rel, n, if text == "" then NoText else DroppedAtRelease);
    }
    KeepsInvBuffers(s, Released(s));
  }

  lemma ReleasedFrame(s: State)
    requires Shape(s) && s.pc.Drain? && HasNext(s)
    ensures SameMessages(s, Released(s)) && FocusOf(s) == Draining(At(s).name)
    ensures Released(s).senders == s.senders[At(s).name := Popped(s.senders[At(s).name])]
  {
    ReleasedKeys(s);
    ShapeKept(s, Released(s));
  }

  lemma ReleasedKeys(s: State)
    requires Shape(s) && s.pc.Drain? && HasNext(s)
    ensures SameKeys(s, Released(s)) && Released(s).sh == s.sh && Released(s).rel.enq == s.rel.enq
    ensures (Released(s).pc.Drain? || Released(s).pc.Admitted?) && Released(s).pc.i == s.pc.i
  {
  }

  /** The same outputs, and maps for the same names. */
  ghost predicate SameKeys(s: State, s': State) {
    && s'.outputs == s.outputs && s'.routing == s.routing && s'.senders.Keys == s.senders.Keys
    && s'.rel.accepted.Keys == s.rel.accepted.Keys && s'.rel.fates.Keys == s.rel.fates.Keys
  }

  lemma ShapeKept(s: State, s': State)
    requires Shape(s) && SameKeys(s, s') && s'.sh.ui.Keys == s.sh.ui.Keys && s'.sh.paused.Keys == s.sh.paused.Keys
    requires (s'.pc.Drain? || s'.pc.Admitted?) && s'.pc.i < |s.routing|
    ensures Shape(s')
  {
  }

  lemma ReleasedParts(s: State)
    requires Shape(s) && s.pc.Drain? && HasNext(s)
    ensures var s', n := Released(s), At(s).name;
            var text := s.senders[n].pending[s.senders[n].nextSeq];
            && (s'.pc.Admitted? ==> text != "" && FocusOf(s') == Holding(n, text) && s'.rel == s.rel)
            && (!s'.pc.Admitted? ==>
                  FocusOf(s') == Draining(n) &&
                  s'.rel == Record(s.rel, n, if text == "" then NoText else DroppedAtRelease))
  {
  }

  lemma ReleaseKeepsBuffers(senders: map<string, Sender>, rel: Releases, n: string)
    requires Buffers(senders, rel, Draining(n)) && n in senders && senders[n].nextSeq in senders[n].pending
    requires senders[n].pending[senders[n].nextSeq] != ""
    ensures Buffers(senders[n := Popped(senders[n])], rel, Holding(n, senders[n].pending[senders[n].nextSeq]))
  {
    var text := senders[n].pending[senders[n].nextSeq];
    ReleaseOne(n, senders[n], rel.accepted[n], rel.fates[n]);
    ElsewhereAll(senders, rel, n, Draining(n), Holding(n, text));
    OneBufferChanged(senders, rel, n, Popped(senders[n]), rel, Holding(n, text), senders[n := Popped(senders[n])]);
  }

  lemma ReleaseOne(n: string, snd: Sender, acc: map<int, string>, fates: seq<Fate>)
    requires BufferOk(n, snd, acc, fates, Draining(n)) && snd.nextSeq in snd.pending && snd.pending[snd.nextSeq] != ""
    ensures BufferOk(n, Popped(snd), acc, fates, Holding(n, snd.pending[snd.nextSeq]))
  {
  }

  lemma DropKeepsBuffers(senders: map<string, Sender>, rel: Releases, n: string, fate: Fate)
    requires Buffers(senders, rel, Draining(n)) && n in senders && senders[n].nextSeq in senders[n].pending
    requires fate == if senders[n].pending[senders[n].nextSeq] == "" then NoText else DroppedAtRelease
    ensures Buffers(senders[n := Popped(senders[n])], Record(rel, n, fate), Draining(n))
  {
    DropOne(n, senders[n], rel.accepted[n], rel.fates[n], fate);
    AppendFate(rel.enq, rel.origin, n, rel.accepted[n], rel.fates[n], fate);
    RecordKeepsOrigins(rel, n, fate);
    OneBufferChanged(senders, rel, n, Popped(senders[n]), Record(rel, n, fate), Draining(n),
        senders[n := Popped(senders[n])]);
  }

  lemma DropOne(n: string, snd: Sender, acc: map<int, string>, fates: seq<Fate>, fate: Fate)
    requires BufferOk(n, snd, acc, fates, Draining(n)) && snd.nextSeq in snd.pending
    ensures BufferOk(n, Popped(snd), acc, fates + [fate], Draining(n))
    ensures |fates| == snd.nextSeq && snd.nextSeq in acc && acc[snd.nextSeq] == snd.pending[snd.nextSeq]
  {
  }

  lemma AppendFate(enq: seq<DelayedMsg>, origin: seq<int>, n: string, acc: map<int, string>, fates: seq<Fate>,
          fate: Fate)
    requires FatesOk(enq, origin, n, acc, fates) && |fates| in acc
    requires FateOk(enq, origin, n, |fates|, acc[|fates|], fate)
    ensures FatesOk(enq, origin, n, acc, fates + [fate])
  {
  }

  lemma RecordKeepsOrigins(rel: Releases, n: string, fate: Fate)
    requires OriginsOk(rel.fates, rel.enq, rel.origin) && n in rel.fates
    ensures OriginsOk(Record(rel, n, fate).fates, rel.enq, rel.origin)
  {
  }

  lemma KeepsInvEnqueued(s: State, now: int)
    requires Inv(s) && s.pc.Admitted? && Placed(s) && s.clock <= now
    ensures Inv(Enqueued(s, now))
  {
    var m := NewMessage(s.sh, At(s).name, s.pc.text, now, s.senders[At(s).name].seqCounter);
    EnqueuedFrame(s, now, m);
    EnqueuedBuffers(s, now);
    EnqueuedIndex(s, now, m);
    QueueGrows(s, Enqueued(s, now), m);
  }

  lemma EnqueuedBuffers(s: State, now: int)
    requires s.pc.Admitted? && Placed(s) && Buffers(s.senders, s.rel, FocusOf(s))
    ensures Buffers(Enqueued(s, now).senders, Enqueued(s, now).rel, FocusOf(Enqueued(s, now)))
  {
    var n, m, text := EnqueuedParts(s, now);
    StateBuffers(s, Enqueued(s, now), n, m, text);
  }

  lemma StateBuffers(s: State, s': State, n: string, m: DelayedMsg, text: string)
    requires Buffers(s.senders, s.rel, FocusOf(s)) && n in s.senders
    requires FocusOf(s) == Holding(n, text) && FocusOf(s') == Draining(n) && m.output == n && m.text == text
    requires s'.senders == s.senders[n := s.senders[n].(seqCounter := s.senders[n].seqCounter + 1)]
    requires s'.rel == RecordIssue(s.rel, n, m, s.senders[n].nextSeq - 1)
    ensures Buffers(s'.senders, s'.rel, FocusOf(s'))
  {
    IssuedBuffers(s.senders, s.rel, FocusOf(s), n, m, text, s'.senders, s'.rel, FocusOf(s'));
  }

  lemma IssuedBuffers(senders: map<string, Sender>, rel: Releases, focus: Focus, n: string, m: DelayedMsg, text: string,
                      senders': map<string, Sender>, rel': Releases, focus': Focus)
    requires Buffers(senders, rel, focus) && focus == Holding(n, text)
    requires n in senders && m.output == n && m.text == text
    requires senders' == senders[n := senders[n].(seqCounter := senders[n].seqCounter + 1)]
    requires rel' == RecordIssue(rel, n, m, senders[n].nextSeq - 1) && focus' == Draining(n)
    ensures Buffers(senders', rel', focus')
  {
    IssueKeepsBuffers(senders, rel, n, m, text);
  }

  lemma EnqueuedParts(s: State, now: int) returns (n: string, m: DelayedMsg, text: string)
    requires s.pc.Admitted? && Placed(s)
    ensures n == At(s).name && text == s.pc.text && n in s.senders
    ensures var s' := Enqueued(s, now);
            && FocusOf(s) == Holding(n, text) && FocusOf(s') == Draining(n) && m.output == n && m.text == text
            && s'.senders == s.senders[n := s.senders[n].(seqCounter := s.senders[n].seqCounter + 1)]
            && s'.rel == RecordIssue(s.rel, n, m, s.senders[n].nextSeq - 1)
  {
    n, text := At(s).name, s.pc.text;
    m := NewMessage(s.sh, n, text, now, s.senders[n].seqCounter);
  }

  lemma EnqueuedIndex(s: State, now: int, m: DelayedMsg)
    requires Shape(s) && s.pc.Admitted?
    requires m == NewMessage(s.sh, At(s).name, s.pc.text, now, s.senders[At(s).name].seqCounter)
    requires Indexed(s.sh.ui, Waiting(s), Hidden(s)) && SkipsOk(Waiting(s), s.sh.skip, s.sh.nextId, s.req)
    ensures Indexed(Enqueued(s, now).sh.ui, Waiting(s) + [m], Hidden(s))
  {
    AdmitKeepsIndex(s.sh, s.queue, Hidden(s), m);
  }

  lemma EnqueuedFrame(s: State, now: int, m: DelayedMsg)
    requires Shape(s) && s.pc.Admitted?
    requires m == NewMessage(s.sh, At(s).name, s.pc.text, now, s.senders[At(s).name].seqCounter)
    ensures Grown(s, Enqueued(s, now), m) && m.sendAt == now + SEND_DELAY && Enqueued(s, now).clock == now
  {
  }

  /** One message more in the queue. */
  ghost predicate Grown(s: State, s': State, m: DelayedMsg) {
    && Shape(s') && s.pc.Admitted? && s'.pc.Drain?
    && InHand(s) == InHand(s') == [] && Waiting(s') == Waiting(s) + [m]
    && s'.done == s.done && s'.req == s.req && Hidden(s') == Hidden(s)
    && SameGates(s.sh, s'.sh) && s'.sh.nextId == s.sh.nextId + 1 && s'.sh.skip == s.sh.skip
    && m.id == s.sh.nextId && s'.rel.enq == s.rel.enq + [m]
  }

  /** The part of the invariant about the queue, when the releases are in order. */
  lemma QueueGrows(s: State, s': State, m: DelayedMsg)
    requires Inv(s) && Grown(s, s', m) && s.clock <= s'.clock && m.sendAt == s'.clock + SEND_DELAY
    requires Buffers(s'.senders, s'.rel, FocusOf(s')) && Indexed(s'.sh.ui, Waiting(s) + [m], Hidden(s))
    ensures Inv(s')
  {
    LedgerGrows(s.done, Waiting(s), s.rel.enq, s.sh.nextId, m);
    TimelyGrows(s.rel.enq, s.clock, s'.clock, m);
    SkipsGrow(Waiting(s), s.sh.skip, s.sh.nextId, s.req, m);
    FlagsKept(s.sh, s'.sh);
  }

  /** The pause flags, also those shown, are the same. */
  ghost predicate SameGates(sh: Shared, sh': Shared) {
    && sh'.paused == sh.paused && sh'.ui.Keys == sh.ui.Keys
    && forall n :: n in sh.ui ==> sh'.ui[n].paused == sh.ui[n].paused
  }

  lemma LedgerGrows(done: seq<Done>, waiting: seq<DelayedMsg>, enq: seq<DelayedMsg>, nextId: nat, m: DelayedMsg)
    requires Ledger(done, [], waiting, enq, nextId) && m.id == nextId
    ensures Ledger(done, [], waiting + [m], enq + [m], nextId + 1)
  {
    assert Msgs(done) + [] + (waiting + [m]) == Msgs(done) + [] + waiting + [m];
  }

  lemma TimelyGrows(enq: seq<DelayedMsg>, clock: int, now: int, m: DelayedMsg)
    requires Timely(enq, clock) && clock <= now && m.sendAt == now + SEND_DELAY
    ensures Timely(enq + [m], now)
  {
  }

  lemma SkipsGrow(waiting: seq<DelayedMsg>, skip: set<int>, nextId: nat, req: Requests, m: DelayedMsg)
    requires SkipsOk(waiting, skip, nextId, req) && m.id == nextId
    ensures SkipsOk(waiting + [m], skip, nextId + 1, req)
  {
  }

  lemma SkipsTaken(m: DelayedMsg, rest: seq<DelayedMsg>, skip: set<int>, nextId: nat, req: Requests)
    requires SkipsOk([m] + rest, skip, nextId, req) && (forall x :: x in rest ==> x.id != m.id) && m.id < nextId
    ensures SkipsOk(rest, skip - {m.id}, nextId, Forget(req, m.id))
    ensures m.id !in skip ==> Forget(req, m.id) == req && skip - {m.id} == skip
  {
    assert forall x :: x in rest ==> x in [m] + rest;
  }

  lemma SkipsAsked(waiting: seq<DelayedMsg>, skip: set<int>, nextId: nat, req: Requests, id: int)
    requires SkipsOk(waiting, skip, nextId, req)
    ensures SkipsOk(waiting, skip + {id}, nextId, Ask(req, id, nextId))
  {
  }

  lemma IssueKeepsBuffers(senders: map<string, Sender>, rel: Releases, n: string, m: DelayedMsg, text: string)
    requires Buffers(senders, rel, Holding(n, text)) && n in senders && m.output == n && m.text == text
    ensures Buffers(senders[n := senders[n].(seqCounter := senders[n].seqCounter + 1)],
                    RecordIssue(rel, n, m, senders[n].nextSeq - 1), Draining(n))
  {
    var k := senders[n].nextSeq - 1;
    IssueOne(n, senders[n], rel.accepted[n], rel.fates[n], text, |rel.enq|);
    IssueKeepsFates(senders, rel, n, m, k);
    IssueKeepsOrigins(rel, n, m, k);
    ElsewhereAll(senders, rel, n, Holding(n, text), Draining(n));
    var snd := senders[n].(seqCounter := senders[n].seqCounter + 1);
    RecordFrame(rel, n, m, k);
    OneBufferChanged(senders, rel, n, snd, RecordIssue(rel, n, m, k), Draining(n), senders[n := snd]);
  }

  lemma RecordFrame(rel: Releases, n: string, m: DelayedMsg, k: int)
    requires n in rel.fates
    ensures var rel' := RecordIssue(rel, n, m, k);
            && rel'.accepted == rel.accepted && rel'.fates.Keys == rel.fates.Keys
            && rel'.fates[n] == rel.fates[n] + [Issued(|rel.enq|)]
            && forall x :: x in rel.fates && x != n ==> rel'.fates[x] == rel.fates[x]
  {
  }

  /** Puts the parts together when one buffer and what was released from it have changed. */
  lemma OneBufferChanged(senders: map<string, Sender>, rel: Releases, n: string, snd: Sender, rel': Releases,
          focus: Focus, senders': map<string, Sender>)
    requires senders.Keys == rel.accepted.Keys == rel.fates.Keys && n in senders && senders' == senders[n := snd]
    requires rel'.accepted.Keys == rel.accepted.Keys && rel'.fates.Keys == rel.fates.Keys
    requires forall x :: x in senders && x != n ==> rel'.accepted[x] == rel.accepted[x] && rel'.fates[x] == rel.fates[x]
    requires BufferOk(n, snd, rel'.accepted[n], rel'.fates[n], focus)
    requires forall x :: x in senders && x != n ==> BufferOk(x, senders[x], rel.accepted[x], rel.fates[x], focus)
    requires forall x :: x in senders ==> FatesOk(rel'.enq, rel'.origin, x, rel'.accepted[x], rel'.fates[x])
    requires OriginsOk(rel'.fates, rel'.enq, rel'.origin)
    ensures Buffers(senders', rel', focus)
  {
    forall x | x in senders' ensures BufferOk(x, senders'[x], rel'.accepted[x], rel'.fates[x], focus) {
      if x != n {
        assert BufferOk(x, senders[x], rel.accepted[x], rel.fates[x], focus);
      }
    }
  }

  lemma ElsewhereAll(senders: map<string, Sender>, rel: Releases, n: string, focus: Focus, focus': Focus)
    requires senders.Keys == rel.accepted.Keys == rel.fates.Keys
    requires forall x :: x in senders ==> BufferOk(x, senders[x], rel.accepted[x], rel.fates[x], focus)
    requires (focus.Free? || focus.name == n) && (focus'.Free? || focus'.name == n)
    ensures forall x :: x in senders && x != n ==> BufferOk(x, senders[x], rel.accepted[x], rel.fates[x], focus')
  {
    forall x | x in senders && x != n ensures BufferOk(x, senders[x], rel.accepted[x], rel.fates[x], focus') {
      Elsewhere(x, senders[x], rel.accepted[x], rel.fates[x], focus, focus');
    }
  }

  lemma IssueKeepsFates(senders: map<string, Sender>, rel: Releases, n: string, m: DelayedMsg, k: int)
    requires senders.Keys == rel.accepted.Keys == rel.fates.Keys && n in senders && |rel.enq| == |rel.origin|
    requires forall x :: x in senders ==> FatesOk(rel.enq, rel.origin, x, rel.accepted[x], rel.fates[x])
    requires m.output == n && k == |rel.fates[n]| && k in rel.accepted[n] && rel.accepted[n][k] == m.text != ""
    ensures var rel' := RecordIssue(rel, n, m, k);
            forall x :: x in senders ==> FatesOk(rel'.enq, rel'.origin, x, rel'.accepted[x], rel'.fates[x])
  {
    var enq', origin' := rel.enq + [m], rel.origin + [k];
    forall x | x in senders ensures FatesOk(enq', origin', x, rel.accepted[x], rel.fates[x]) {
      LongerLists(rel.enq, rel.origin, x, rel.accepted[x], rel.fates[x], m, k);
    }
    AppendFate(enq', origin', n, rel.accepted[n], rel.fates[n], Issued(|rel.enq|));
  }

  lemma IssueOne(n: string, snd: Sender, acc: map<int, string>, fates: seq<Fate>, text: string, id: nat)
    requires BufferOk(n, snd, acc, fates, Holding(n, text))
    ensures BufferOk(n, snd.(seqCounter := snd.seqCounter + 1), acc, fates + [Issued(id)], Draining(n))
    ensures |fates| == snd.nextSeq - 1 && |fates| in acc && acc[|fates|] == text != ""
  {
  }

  lemma LongerLists(enq: seq<DelayedMsg>, origin: seq<int>, x: string, acc: map<int, string>, fates: seq<Fate>,
          m: DelayedMsg, k: int)
    requires FatesOk(enq, origin, x, acc, fates)
    ensures FatesOk(enq + [m], origin + [k], x, acc, fates)
  {
  }

  lemma IssueKeepsOrigins(rel: Releases, n: string, m: DelayedMsg, k: int)
    requires OriginsOk(rel.fates, rel.enq, rel.origin) && n in rel.fates && m.output == n && k == |rel.fates[n]|
    ensures var rel' := RecordIssue(rel, n, m, k);
            OriginsOk(rel'.fates, rel'.enq, rel'.origin)
  {
    RecordKeepsOrigins(rel, n, Issued(|rel.enq|));
  }

  lemma AdmitKeepsIndex(sh: Shared, waiting: seq<DelayedMsg>, hidden: set<int>, m: DelayedMsg)
    requires Indexed(sh.ui, waiting, hidden) && m.output in sh.ui && m.id !in hidden
    ensures Indexed(AdmitIn(sh, m).ui, waiting + [m], hidden)
  {
    forall n | n in sh.ui ensures AdmitIn(sh, m).ui[n].pending == View(waiting + [m], n, hidden) {
      ViewAppend(waiting, m, n, hidden);
    }
  }

  // Steps that take messages, and skips.

  lemma KeepsInvTaken(s: State)
    requires Inv(s) && s.pc.Ticking? && s.pc.unread != [] && Due(s.pc)
    ensures Inv(Taken(s))
  {
    var m, rest := s.pc.unread[0], s.pc.unread[1..];
    var sh := TakeIn(s.sh, m);
    NoneKept(s);
    assert [] + s.pc.unread == [m] + rest;
    TakeFrame(s.sh, m);
    IdsAhead(s.done, m, rest, s.rel.enq, s.sh.nextId);
    TakeKeepsIndex(s.sh, m, rest, Hidden(s), Hidden(s) - {m.id});
    match VerdictOn(s.sh, m)
    case SkipIt =>
      DoneWithHead(s, s.(sh := sh, pc := Ticking(s.pc.now, [], rest), done := s.done + [Done(m, Skipped)],
          req := Forget(s.req, m.id)), m, rest, Skipped);
    case DropIt =>
      DoneWithHead(s, s.(sh := sh, pc := Ticking(s.pc.now, [], rest), done := s.done + [Done(m, DroppedAtSend)]), m,
          rest, DroppedAtSend);
    case SendIt =>
      PickUpHead(s, s.(sh := sh, pc := Sending(s.pc.now, [], rest, m)), m, rest);
  }

  ghost predicate TookOut(sh: Shared, sh': Shared, id: int) {
    SameGates(sh, sh') && sh'.skip == sh.skip - {id} && sh'.nextId == sh.nextId
  }

  lemma TakeFrame(sh: Shared, m: DelayedMsg)
    ensures TookOut(sh, TakeIn(sh, m), m.id)
  {
  }

  ghost predicate SameButTaken(s: State, s': State) {
    && s'.outputs == s.outputs && s'.routing == s.routing && s'.senders == s.senders
    && s'.queue == s.queue && s'.clock == s.clock && s'.rel == s.rel
  }

  /** The head of the queue is skipped or dropped. */
  lemma DoneWithHead(s: State, s': State, m: DelayedMsg, rest: seq<DelayedMsg>, outcome: Outcome)
    requires Inv(s) && InHand(s) == [] && Waiting(s) == [m] + rest && TookOut(s.sh, s'.sh, m.id)
    requires SameButTaken(s, s') && s'.done == s.done + [Done(m, outcome)]
    requires outcome == if m.id in s.sh.skip then Skipped else DroppedAtSend
    requires s'.req == if m.id in s.sh.skip then Forget(s.req, m.id) else s.req
    requires (s.pc.Ticking? && s'.pc == Ticking(s.pc.now, [], rest) && Indexed(s'.sh.ui, rest, Hidden(s) - {m.id}))
          || (s.pc.Flushing? && s'.pc == Flushing(rest))
    ensures Inv(s')
  {
    TakenFrame(s, s', rest);
    IdsAhead(s.done, m, rest, s.rel.enq, s.sh.nextId);
    LedgerSettled(s.done, m, outcome, rest, s.rel.enq, s.sh.nextId);
    SkipsTaken(m, rest, s.sh.skip, s.sh.nextId, s.req);
    HiddenLess(s.sh.skip, s.req.early, m.id);
    assert m in Waiting(s);
    DoneLater(s.pc, s'.pc, s.done, Done(m, outcome), s.req.ids);
    FlagsKept(s.sh, s'.sh);
    KeepsInvMessages(s, s');
  }

  lemma TakenFrame(s: State, s': State, rest: seq<DelayedMsg>)
    requires Shape(s) && SameGates(s.sh, s'.sh) && SameButTaken(s, s')
    requires (s.pc.Ticking? && (s'.pc == Ticking(s.pc.now, [], rest) ||
                                (s'.pc.Sending? && s'.pc.kept == [] && s'.pc.unread == rest)))
          || (s.pc.Flushing? && (s'.pc == Flushing(rest) || (s'.pc.FlushSending? && s'.pc.unread == rest)))
    ensures SameReleases(s, s') && Waiting(s') == rest
    ensures InHand(s') == if s'.pc.Sending? || s'.pc.FlushSending? then [s'.pc.m] else []
  {
    assert [] + rest == rest;
  }

  /** One message more is done with, and it was not handed over on a tick. */
  lemma DoneLater(pc: Pc, pc': Pc, done: seq<Done>, d: Done, ids: set<int>)
    requires DueOnTick(pc, done) && SkippedOnRequest(done, ids) && (d.outcome == Skipped ==> d.msg.id in ids)
    requires !d.outcome.Handed? && ((pc'.Ticking? && pc'.kept == []) || pc'.Flushing?)
    ensures DueOnTick(pc', done + [d]) && SkippedOnRequest(done + [d], ids)
  {
  }

  /** The head of the queue is taken in hand, to be sent. */
  lemma PickUpHead(s: State, s': State, m: DelayedMsg, rest: seq<DelayedMsg>)
    requires Inv(s) && InHand(s) == [] && Waiting(s) == [m] + rest && TookOut(s.sh, s'.sh, m.id)
    requires m.id !in s.sh.skip
    requires SameButTaken(s, s') && s'.done == s.done && s'.req == s.req
    requires (s.pc.Ticking? && s'.pc == Sending(s.pc.now, [], rest, m) && m.sendAt <= s.pc.now &&
              Indexed(s'.sh.ui, rest, Hidden(s) - {m.id}))
          || (s.pc.Flushing? && s'.pc == FlushSending(rest, m))
    ensures Inv(s')
  {
    TakenFrame(s, s', rest);
    IdsAhead(s.done, m, rest, s.rel.enq, s.sh.nextId);
    SkipsTaken(m, rest, s.sh.skip, s.sh.nextId, s.req);
    assert Forget(s.req, m.id) == s.req && s.req.early - {m.id} == s.req.early;
    HiddenLess(s.sh.skip, s.req.early, m.id);
    PickedOnTime(s.pc, s'.pc, s.done, rest, m);
    FlagsKept(s.sh, s'.sh);
    KeepsInvMessages(s, s');
  }

  lemma PickedOnTime(pc: Pc, pc': Pc, done: seq<Done>, rest: seq<DelayedMsg>, m: DelayedMsg)
    requires DueOnTick(pc, done)
    requires (pc.Ticking? && pc' == Sending(pc.now, [], rest, m) && m.sendAt <= pc.now) || pc' == FlushSending(rest, m)
    ensures DueOnTick(pc', done)
  {
  }

  lemma HiddenLess(skip: set<int>, early: set<int>, id: int)
    ensures (skip - {id}) - (early - {id}) == skip - early - {id}
  {
  }

  /** What the ledger says about the message at the head of the queue. */
  lemma IdsAhead(done: seq<Done>, m: DelayedMsg, rest: seq<DelayedMsg>, enq: seq<DelayedMsg>, nextId: nat)
    requires Ledger(done, [], [m] + rest, enq, nextId)
    ensures Ledger(done, [m], rest, enq, nextId)
    ensures m.id == |done| < nextId && m == enq[|done|]
    ensures forall x :: x in rest ==> x.id > m.id
  {
    assert Msgs(done) + [] + ([m] + rest) == Msgs(done) + [m] + rest == enq;
    assert enq[|done|] == m;
    assert forall i :: 0 <= i < |rest| ==> rest[i] == enq[|done| + 1 + i];
  }

  /** When the message being read is due, none before it was kept: due times are in order. */
  lemma NoneKept(s: State)
    requires Inv(s) && s.pc.Ticking? && s.pc.unread != [] && Due(s.pc)
    ensures s.pc.kept == []
  {
    KeptBefore(s);
  }

  lemma KeptBefore(s: State)
    requires Ledger(s.done, [], Waiting(s), s.rel.enq, s.sh.nextId) && Timely(s.rel.enq, s.clock)
    requires s.pc.Ticking? && s.pc.unread != []
    ensures s.pc.kept != [] ==> s.pc.kept[0].sendAt <= s.pc.unread[0].sendAt
  {
    var waiting := s.pc.kept + s.pc.unread;
    assert forall i :: 0 <= i < |waiting| ==> waiting[i] == s.rel.enq[|s.done| + i];
    assert waiting[|s.pc.kept|] == s.pc.unread[0];
    assert s.pc.kept != [] ==> waiting[0] == s.pc.kept[0];
  }

  lemma TakeKeepsIndex(sh: Shared, m: DelayedMsg, rest: seq<DelayedMsg>, hidden: set<int>, hidden': set<int>)
    requires Indexed(sh.ui, [m] + rest, hidden) && (forall x :: x in rest ==> x.id != m.id)
    requires hidden' == hidden - {m.id}
    ensures Indexed(TakeIn(sh, m).ui, rest, hidden')
  {
    forall n | n in sh.ui ensures TakeIn(sh, m).ui[n].pending == View(rest, n, hidden') {
      TakeFromView(m, rest, n, hidden);
    }
  }

  lemma TakeFromView(m: DelayedMsg, rest: seq<DelayedMsg>, n: string, hidden: set<int>)
    requires forall x :: x in rest ==> x.id != m.id
    ensures m.output == n ==> RemoveId(View([m] + rest, n, hidden), m.id) == View(rest, n, hidden - {m.id})
    ensures m.output != n ==> View([m] + rest, n, hidden) == View(rest, n, hidden - {m.id})
  {
    assert ([m] + rest)[1..] == rest;
    ViewOnlyQueued(rest, n, hidden, hidden - {m.id});
    ViewIds(rest, n, hidden);
    RemoveAbsent(View(rest, n, hidden), m.id);
    assert [] + View(rest, n, hidden) == View(rest, n, hidden);
    assert ([PendingOf(m)] + View(rest, n, hidden))[1..] == View(rest, n, hidden);
  }

  lemma KeepsInvFlushTaken(s: State)
    requires Inv(s) && s.pc.Flushing? && s.pc.unread != []
    ensures Inv(FlushTaken(s))
  {
    var m, rest := s.pc.unread[0], s.pc.unread[1..];
    assert s.pc.unread == [m] + rest;
    if m.id in s.sh.skip {
      DoneWithHead(s, FlushTaken(s), m, rest, Skipped);
    } else {
      assert s.sh == s.sh.(skip := s.sh.skip - {m.id});
      PickUpHead(s, FlushTaken(s), m, rest);
    }
  }

  lemma KeepsInvSkip(s: State, id: int)
    requires Inv(s)
    ensures Inv(SkipAsked(s, id))
  {
    SkipFrame(s.sh, id);
    SkipsAsked(Waiting(s), s.sh.skip, s.sh.nextId, s.req, id);
    if BeforeFlush(s.pc) {
      WaitingIds(s);
      AskHides(Waiting(s), s.sh, s.req, id);
    }
    SkipSettles(s, SkipAsked(s, id));
  }

  lemma SkipFrame(sh: Shared, id: int)
    ensures SameGates(sh, SkipIn(sh, id)) && SkipIn(sh, id).skip == sh.skip + {id} && SkipIn(sh, id).nextId == sh.nextId
  {
  }

  lemma AskHides(waiting: seq<DelayedMsg>, sh: Shared, req: Requests, id: int)
    requires DistinctIds(waiting) && (forall m :: m in waiting ==> m.id < sh.nextId)
    requires Indexed(sh.ui, waiting, sh.skip - req.early)
    ensures Indexed(SkipIn(sh, id).ui, waiting, SkipIn(sh, id).skip - Ask(req, id, sh.nextId).early)
  {
    SkipKeepsIndex(sh, waiting, sh.skip - req.early, sh.skip + {id} - Ask(req, id, sh.nextId).early, id);
  }

  lemma SkipSettles(s: State, s': State)
    requires Inv(s) && s' == s.(sh := s'.sh, req := s'.req)
    requires SameGates(s.sh, s'.sh) && s'.sh.nextId == s.sh.nextId && s.req.ids <= s'.req.ids
    requires SkipsOk(Waiting(s), s'.sh.skip, s.sh.nextId, s'.req)
    requires BeforeFlush(s.pc) ==> Indexed(s'.sh.ui, Waiting(s), s'.sh.skip - s'.req.early)
    ensures Inv(s')
  {
    SkipStateFrame(s, s');
    FlagsKept(s.sh, s'.sh);
    KeepsInvMessages(s, s');
  }

  lemma SkipStateFrame(s: State, s': State)
    requires Shape(s) && SameGates(s.sh, s'.sh) && s' == s.(sh := s'.sh, req := s'.req)
    requires s.pc == Stopped(true) ==> s.queue == []
    ensures SameReleases(s, s') && Waiting(s') == Waiting(s) && InHand(s') == InHand(s)
  {
  }

  lemma SkipKeepsIndex(sh: Shared, waiting: seq<DelayedMsg>, hidden: set<int>, hidden': set<int>, id: int)
    requires Indexed(sh.ui, waiting, hidden) && DistinctIds(waiting)
    requires forall m :: m in waiting ==> (m.id in hidden' <==> m.id in hidden + {id})
    ensures Indexed(SkipIn(sh, id).ui, waiting, hidden')
  {
    forall n | n in sh.ui ensures SkipIn(sh, id).ui[n].pending == View(waiting, n, hidden') {
      ViewHide(waiting, n, hidden, id);
      ViewOnlyQueued(waiting, n, hidden + {id}, hidden');
    }
  }

  lemma WaitingIds(s: State)
    requires Inv(s)
    ensures DistinctIds(Waiting(s))
    ensures forall m :: m in Waiting(s) ==> |s.done| + |InHand(s)| <= m.id < s.sh.nextId && m == s.rel.enq[m.id]
  {
    IdsInLedger(s.done, InHand(s), Waiting(s), s.rel.enq, s.sh.nextId);
  }

  lemma IdsInLedger(done: seq<Done>, hand: seq<DelayedMsg>, waiting: seq<DelayedMsg>, enq: seq<DelayedMsg>, nextId: nat)
    requires Ledger(done, hand, waiting, enq, nextId)
    ensures DistinctIds(waiting)
    ensures forall m :: m in waiting ==> |done| + |hand| <= m.id < nextId && m == enq[m.id]
  {
    assert forall i :: 0 <= i < |waiting| ==> waiting[i] == enq[|done| + |hand| + i];
  }

  lemma KeepsInv(s: State, a: Action)
    requires Inv(s) && Enabled(s, a)
    ensures Inv(Next(s, a))
  {
    if IsBuffering(a) {
      KeepsInvBuffering(s, a);
    } else if IsTurn(a) {
      KeepsInvTurns(s, a);
    } else if IsPass(a) {
      KeepsInvPass(s, a);
    } else {
      KeepsInvTaking(s, a);
    }
  }

  predicate IsBuffering(a: Action) {
    a.Store? || a.Release? || a.Enqueue? || a.NextOutput?
  }

  predicate IsTurn(a: Action) {
    a.Receive? || a.EndRoute? || a.FlushBegin? || a.Cancel?
  }

  predicate IsPass(a: Action) {
    a.TickBegin? || a.Keep? || a.TickEnd? || a.FlushEnd?
  }

  lemma KeepsInvBuffering(s: State, a: Action)
    requires Inv(s) && Enabled(s, a) && IsBuffering(a)
    ensures Inv(Next(s, a))
  {
    match a
    case Store => KeepsInvStored(s);
    case Release => KeepsInvReleased(s);
    case Enqueue(now) => KeepsInvEnqueued(s, now);
    case NextOutput => KeepsInvNextOutput(s);
  }

  lemma KeepsInvTurns(s: State, a: Action)
    requires Inv(s) && Enabled(s, a) && IsTurn(a)
    ensures Inv(Next(s, a))
  {
    match a
    case Receive(t) => KeepsInvReceive(s, t);
    case EndRoute => KeepsInvTurn(s, Select);
    case FlushBegin => KeepsInvTurn(s, Flushing(s.queue));
    case Cancel => KeepsInvTurn(s, Stopped(false));
  }

  lemma KeepsInvPass(s: State, a: Action)
    requires Inv(s) && Enabled(s, a) && IsPass(a)
    ensures Inv(Next(s, a))
  {
    match a
    case TickBegin(now) => KeepsInvTickBegin(s, now);
    case Keep => KeepsInvKeep(s);
    case TickEnd => KeepsInvTickEnd(s);
    case FlushEnd => KeepsInvFlushEnd(s);
  }

  lemma KeepsInvTaking(s: State, a: Action)
    requires Inv(s) && Enabled(s, a) && !IsBuffering(a) && !IsTurn(a) && !IsPass(a)
    ensures Inv(Next(s, a))
  {
    match a
    case Take => KeepsInvTaken(s);
    case SendDone => KeepsInvSent(s);
    case FlushTake => KeepsInvFlushTaken(s);
    case FlushSent => KeepsInvFlushedOne(s);
    case Skip(id) => KeepsInvSkip(s, id);
    case SetPaused(name, paused) => KeepsInvSetPaused(s, name, paused);
    case Reconfigure(i, cfg, live) => KeepsInvReconfigure(s, i, cfg, live);
  }

  /** Every reachable state satisfies the invariant. */
  lemma {:induction false} RunKeepsInv(s: State, acts: seq<Action>, s': State)
    requires Inv(s) && Run(s, acts, s')
    ensures Inv(s')
    decreases acts
  {
    if acts != [] {
      KeepsInv(s, acts[0]);
      RunKeepsInv(Next(s, acts[0]), acts[1..], s');
    }
  }
}
