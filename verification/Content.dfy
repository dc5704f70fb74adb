/** What is queued, sent and shown of an output over whole runs, as texts: only a pause drops a
    text, the messages queued are the issued texts in sequence, and the recent list shows the last
    ones sent. */
module Content {
  import opened Types
  import opened Sections
  import opened Routing
  import opened Delivery
  import Guarantees

  // ---- Only a pause drops a text ---------------------------------------------------------

  /** Nothing of the output was dropped so far. */
  ghost predicate Undropped(s: State, n: string) {
    && (n in s.rel.fates ==> DroppedAtRelease !in s.rel.fates[n])
    && (forall d :: d in s.done && d.msg.output == n ==> d.outcome != DroppedAtSend)
  }

  /** An output that starts unpaused and is never paused loses no text, neither at release nor at
      sending, whatever else happens. */
  lemma {:induction false} NeverDropped(s: State, acts: seq<Action>, s': State, n: string)
    requires Run(s, acts, s') && !IsPaused(s.sh, n) && SetPaused(n, true) !in acts && Undropped(s, n)
    ensures !IsPaused(s'.sh, n) && Undropped(s', n)
    decreases acts
  {
    if acts != [] {
      StepUndropped(s, acts[0], n);
      NeverDropped(Next(s, acts[0]), acts[1..], s', n);
    }
  }

  lemma StepUndropped(s: State, a: Action, n: string)
    requires Enabled(s, a) && !IsPaused(s.sh, n) && a != SetPaused(n, true) && Undropped(s, n)
    ensures !IsPaused(Next(s, a).sh, n) && Undropped(Next(s, a), n)
  {
    if a.Release? {
      ReleaseUndropped(s, n);
    } else if a.Take? {
      TakeUndropped(s, n);
    } else {
      OtherUndropped(s, a, n);
    }
  }

  lemma ReleaseUndropped(s: State, n: string)
    requires Enabled(s, Release) && !IsPaused(s.sh, n) && Undropped(s, n)
    ensures !IsPaused(Released(s).sh, n) && Undropped(Released(s), n)
  {
  }

  lemma TakeUndropped(s: State, n: string)
    requires Enabled(s, Take) && !IsPaused(s.sh, n) && Undropped(s, n)
    ensures !IsPaused(Taken(s).sh, n) && Undropped(Taken(s), n)
  {
  }

  lemma OtherUndropped(s: State, a: Action, n: string)
    requires Enabled(s, a) && !a.Release? && !a.Take? && a != SetPaused(n, true)
    requires !IsPaused(s.sh, n) && Undropped(s, n)
    ensures !IsPaused(Next(s, a).sh, n) && Undropped(Next(s, a), n)
  {
    OtherFlags(s, a, n);
    OtherDone(s, a);
    if !a.Enqueue? {
      Guarantees.FatesKept(s, a);
    }
  }

  lemma OtherFlags(s: State, a: Action, n: string)
    requires Enabled(s, a) && a != SetPaused(n, true) && !IsPaused(s.sh, n)
    ensures !IsPaused(Next(s, a).sh, n)
  {
  }

  lemma OtherDone(s: State, a: Action)
    requires Enabled(s, a) && !a.Take?
    ensures forall d :: d in Next(s, a).done ==> d in s.done || d.outcome != DroppedAtSend
  {
  }

  // ---- A paused output sends and queues nothing ------------------------------------------

  /** The text of the output in hand, its pause flag already read as clear. */
  function TextInHand(s: State, n: string): seq<string> {
    if s.pc.Sending? && s.pc.m.output == n then [s.pc.m.text] else []
  }

  /** The text of the output on its way into the queue, its pause flag already read as clear. */
  function TextHeld(s: State, n: string): seq<string> {
    if FocusOf(s).Holding? && FocusOf(s).name == n then [FocusOf(s).text] else []
  }

  /** The same sent and queued for the output, counting what had passed its gate. */
  ghost predicate NothingAdded(s: State, s': State, n: string) {
    && SentTexts(s'.done, n) + TextInHand(s', n) == SentTexts(s.done, n) + TextInHand(s, n)
    && TextsFor(s'.rel.enq, n) + TextHeld(s', n) == TextsFor(s.rel.enq, n) + TextHeld(s, n)
  }

  /** An output whose flag is set and stays so sends and queues nothing but what had passed its gate before, until the
      flush, whatever other outputs do. */
  lemma {:induction false} PausedAddsNothing(s: State, acts: seq<Action>, s': State, n: string)
    requires Inv(s) && Run(s, acts, s') && BeforeFlush(s.pc) && n in s.sh.paused && s.sh.paused[n]
    requires SetPaused(n, false) !in acts && FlushBegin !in acts
    ensures n in s'.sh.paused && s'.sh.paused[n] && NothingAdded(s, s', n)
    decreases acts
  {
    if acts != [] {
      var t := Next(s, acts[0]);
      StaysPaused(s, acts[0], n);
      PausedStep(s, acts[0], n);
      KeepsInv(s, acts[0]);
      PausedAddsNothing(t, acts[1..], s', n);
    }
  }

  lemma StaysPaused(s: State, a: Action, n: string)
    requires Enabled(s, a) && n in s.sh.paused && s.sh.paused[n] && a != SetPaused(n, false) && a != FlushBegin
    requires BeforeFlush(s.pc)
    ensures n in Next(s, a).sh.paused && Next(s, a).sh.paused[n] && BeforeFlush(Next(s, a).pc)
  {
    FlagStays(s, a, n);
    NotFlushedYet(s, a);
  }

  lemma FlagStays(s: State, a: Action, n: string)
    requires Enabled(s, a) && n in s.sh.paused && s.sh.paused[n] && a != SetPaused(n, false)
    ensures n in Next(s, a).sh.paused && Next(s, a).sh.paused[n]
  {
  }

  lemma NotFlushedYet(s: State, a: Action)
    requires Enabled(s, a) && !a.FlushBegin? && BeforeFlush(s.pc)
    ensures BeforeFlush(Next(s, a).pc)
  {
  }

  lemma PausedStep(s: State, a: Action, n: string)
    requires Enabled(s, a) && n in s.sh.paused && s.sh.paused[n] && a != FlushBegin && BeforeFlush(s.pc) && Shape(s)
    ensures NothingAdded(s, Next(s, a), n)
  {
    PausedSends(s, a, n);
    PausedQueues(s, a, n);
  }

  lemma PausedSends(s: State, a: Action, n: string)
    requires Enabled(s, a) && n in s.sh.paused && s.sh.paused[n] && a != FlushBegin && BeforeFlush(s.pc)
    ensures SentTexts(Next(s, a).done, n) + TextInHand(Next(s, a), n) == SentTexts(s.done, n) + TextInHand(s, n)
  {
    if a.SendDone? {
      HandIsSent(s, n);
    } else if a.Take? {
      PausedTake(s, n);
    } else {
      SameHand(s, a);
    }
  }

  lemma HandIsSent(s: State, n: string)
    requires s.pc.Sending?
    ensures SentTexts(Sent(s).done, n) + TextInHand(Sent(s), n) == SentTexts(s.done, n) + TextInHand(s, n)
  {
    AddDone(s.done, Done(s.pc.m, Handed(s.pc.now)), n);
    assert SentTexts(Sent(s).done, n) + [] == SentTexts(Sent(s).done, n);
  }

  lemma PausedTake(s: State, n: string)
    requires Enabled(s, Take) && n in s.sh.paused && s.sh.paused[n]
    ensures SentTexts(Taken(s).done, n) == SentTexts(s.done, n) && TextInHand(Taken(s), n) == TextInHand(s, n)
  {
    if VerdictOn(s.sh, s.pc.unread[0]) == SendIt {
      SentElsewhere(s, n);
    } else {
      var d := NotSent(s);
      AddDone(s.done, d, n);
    }
  }

  lemma SentElsewhere(s: State, n: string)
    requires Enabled(s, Take) && n in s.sh.paused && s.sh.paused[n] && VerdictOn(s.sh, s.pc.unread[0]) == SendIt
    ensures Taken(s).done == s.done && TextInHand(Taken(s), n) == [] == TextInHand(s, n)
  {
  }

  lemma NotSent(s: State) returns (d: Done)
    requires Enabled(s, Take) && VerdictOn(s.sh, s.pc.unread[0]) != SendIt
    ensures Taken(s).done == s.done + [d] && !WasSent(d) && Taken(s).pc.Ticking? && s.pc.Ticking?
  {
    d := Taken(s).done[|s.done|];
  }

  lemma SameHand(s: State, a: Action)
    requires Enabled(s, a) && !a.SendDone? && !a.Take? && !a.FlushBegin? && BeforeFlush(s.pc)
    ensures Next(s, a).done == s.done && (Next(s, a).pc.Sending? <==> s.pc.Sending?)
    ensures s.pc.Sending? ==> Next(s, a).pc == s.pc
  {
  }

  lemma PausedQueues(s: State, a: Action, n: string)
    requires Enabled(s, a) && n in s.sh.paused && s.sh.paused[n] && Shape(s)
    ensures TextsFor(Next(s, a).rel.enq, n) + TextHeld(Next(s, a), n) == TextsFor(s.rel.enq, n) + TextHeld(s, n)
  {
    if a.Enqueue? {
      HeldIsQueued(s, a.now, n);
    } else if a.Release? {
      PausedRelease(s, n);
    } else {
      SameHeld(s, a, n);
    }
  }

  lemma HeldIsQueued(s: State, now: int, n: string)
    requires Enabled(s, Enqueue(now))
    ensures TextsFor(Enqueued(s, now).rel.enq, n) + TextHeld(Enqueued(s, now), n)
         == TextsFor(s.rel.enq, n) + TextHeld(s, n)
  {
    var name, m, text := EnqueuedParts(s, now);
    AddMessage(s.rel.enq, m, n);
    assert TextsFor(s.rel.enq + [m], n) + [] == TextsFor(s.rel.enq + [m], n);
  }

  lemma PausedRelease(s: State, n: string)
    requires Enabled(s, Release) && n in s.sh.paused && s.sh.paused[n]
    ensures Released(s).rel.enq == s.rel.enq && TextHeld(Released(s), n) == TextHeld(s, n) == []
  {
  }

  lemma SameHeld(s: State, a: Action, n: string)
    requires Enabled(s, a) && !a.Enqueue? && !a.Release? && Shape(s)
    ensures Next(s, a).rel.enq == s.rel.enq && TextHeld(Next(s, a), n) == TextHeld(s, n)
  {
    if a.Reconfigure? {
      NameStays(s, a.i, a.cfg, a.live);
    } else {
      HolderStays(s, a);
    }
  }

  lemma NameStays(s: State, i: nat, cfg: OutputConfig, live: bool)
    requires Shape(s) && i < |s.outputs| && cfg.name == s.outputs[i].name
    ensures FocusOf(Reconfigured(s, i, cfg, live)) == FocusOf(s)
  {
  }

  lemma HolderStays(s: State, a: Action)
    requires Enabled(s, a) && !a.Enqueue? && !a.Release? && !a.Reconfigure?
    ensures Next(s, a).rel.enq == s.rel.enq && (Next(s, a).pc.Admitted? <==> s.pc.Admitted?)
    ensures s.pc.Admitted? ==> Next(s, a).pc == s.pc && Next(s, a).routing == s.routing
  {
  }

  // ---- The queue in sequence -------------------------------------------------------------

  /** The texts queued for an output, in order. */
  function TextsFor(queue: seq<DelayedMsg>, n: string): seq<string> {
    if queue == [] then []
    else
      var last := queue[|queue| - 1];
      TextsFor(queue[..|queue| - 1], n) + if last.output == n then [last.text] else []
  }

  /** The texts whose sequence number ended in an id, in sequence. */
  function IssuedTexts(acc: map<int, string>, fates: seq<Fate>): seq<string> {
    if fates == [] then []
    else
      var k := |fates| - 1;
      IssuedTexts(acc, fates[..k]) + if fates[k].Issued? && k in acc then [acc[k]] else []
  }

  /** What was ever queued for an output is exactly its issued texts, in sequence. */
  ghost predicate InSequence(rel: Releases) {
    && rel.accepted.Keys == rel.fates.Keys
    && forall n :: n in rel.fates ==> TextsFor(rel.enq, n) == IssuedTexts(rel.accepted[n], rel.fates[n])
  }

  lemma {:induction false} SameIssued(acc: map<int, string>, acc': map<int, string>, fates: seq<Fate>)
    requires forall k :: 0 <= k < |fates| ==> (k in acc <==> k in acc') && (k in acc ==> acc'[k] == acc[k])
    ensures IssuedTexts(acc', fates) == IssuedTexts(acc, fates)
    decreases |fates|
  {
    if fates != [] {
      SameIssued(acc, acc', fates[..|fates| - 1]);
    }
  }

  lemma AcceptInSequence(rel: Releases, n: string, nextSeq: nat, k: int, text: string)
    requires InSequence(rel) && n in rel.accepted && |rel.fates[n]| <= nextSeq
    ensures InSequence(Accept(rel, n, nextSeq, k, text))
  {
    if nextSeq <= k {
      SameIssued(rel.accepted[n], rel.accepted[n][k := text], rel.fates[n]);
    }
  }

  lemma RecordInSequence(rel: Releases, n: string, fate: Fate)
    requires InSequence(rel) && n in rel.fates && !fate.Issued?
    ensures InSequence(Record(rel, n, fate))
  {
    AddFate(rel.accepted[n], rel.fates[n], fate);
  }

  lemma AddFate(acc: map<int, string>, fates: seq<Fate>, fate: Fate)
    ensures IssuedTexts(acc, fates + [fate]) ==
            IssuedTexts(acc, fates) + if fate.Issued? && |fates| in acc then [acc[|fates|]] else []
  {
    assert (fates + [fate])[..|fates|] == fates;
  }

  lemma AddMessage(queue: seq<DelayedMsg>, m: DelayedMsg, n: string)
    ensures TextsFor(queue + [m], n) == TextsFor(queue, n) + if m.output == n then [m.text] else []
  {
    assert (queue + [m])[..|queue|] == queue;
  }

  lemma IssueInSequence(rel: Releases, n: string, m: DelayedMsg, k: int)
    requires InSequence(rel) && n in rel.fates && m.output == n
    requires |rel.fates[n]| in rel.accepted[n] && rel.accepted[n][|rel.fates[n]|] == m.text
    ensures InSequence(RecordIssue(rel, n, m, k))
  {
    var rel' := RecordIssue(rel, n, m, k);
    AddFate(rel.accepted[n], rel.fates[n], Issued(|rel.enq|));
    forall x | x in rel.fates ensures TextsFor(rel'.enq, x) == IssuedTexts(rel'.accepted[x], rel'.fates[x]) {
      AddMessage(rel.enq, m, x);
      assert TextsFor(rel.enq, x) + [] == TextsFor(rel.enq, x);
    }
  }

  lemma StepInSequence(s: State, a: Action)
    requires Inv(s) && Enabled(s, a) && InSequence(s.rel)
    ensures InSequence(Next(s, a).rel)
  {
    if a.Store? || a.Release? || a.Enqueue? {
      ReleasingStep(s, a);
    } else {
      SameReleases(s, a);
    }
  }

  lemma SameReleases(s: State, a: Action)
    requires Enabled(s, a) && !a.Store? && !a.Release? && !a.Enqueue?
    ensures Next(s, a).rel == s.rel
  {
  }

  lemma ReleasingStep(s: State, a: Action)
    requires Inv(s) && Enabled(s, a) && InSequence(s.rel) && (a.Store? || a.Release? || a.Enqueue?)
    ensures InSequence(Next(s, a).rel)
  {
    BufferAt(s);
    match a
    case Store => StoreInSequence(s);
    case Release => ReleaseInSequence(s);
    case Enqueue(now) => EnqueueInSequence(s, now);
  }

  ghost predicate BufferHere(s: State)
    requires Placed(s)
  {
    var n := At(s).name;
    && |s.rel.fates[n]| <= s.senders[n].nextSeq
    && (s.pc.Admitted? ==>
          && |s.rel.fates[n]| == s.senders[n].nextSeq - 1 && |s.rel.fates[n]| in s.rel.accepted[n]
          && s.rel.accepted[n][|s.rel.fates[n]|] == s.pc.text)
  }

  lemma BufferAt(s: State)
    requires Placed(s) && Buffers(s.senders, s.rel, FocusOf(s))
    ensures BufferHere(s)
  {
    var n := At(s).name;
    assert BufferOk(n, s.senders[n], s.rel.accepted[n], s.rel.fates[n], FocusOf(s));
  }

  lemma StoreInSequence(s: State)
    requires Enabled(s, Store) && InSequence(s.rel) && BufferHere(s)
    ensures InSequence(Stored(s).rel)
  {
    AcceptInSequence(s.rel, At(s).name, s.senders[At(s).name].nextSeq, s.pc.t.seqNo,
        SelectText(At(s).targetLang, s.pc.t));
  }

  lemma ReleaseInSequence(s: State)
    requires Enabled(s, Release) && InSequence(s.rel)
    ensures InSequence(Released(s).rel)
  {
    RecordInSequence(s.rel, At(s).name, NoText);
    RecordInSequence(s.rel, At(s).name, DroppedAtRelease);
  }

  lemma EnqueueInSequence(s: State, now: int)
    requires Enabled(s, Enqueue(now)) && InSequence(s.rel) && BufferHere(s)
    ensures InSequence(Enqueued(s, now).rel)
  {
    var _, m, _ := EnqueuedParts(s, now);
    IssueInSequence(s.rel, At(s).name, m, s.senders[At(s).name].nextSeq - 1);
  }

  /** In every reachable state the messages queued so far for an output carry its issued texts, in
      sequence: none twice, none left out, none with another's text. */
  lemma {:induction false} QueuedInSequence(s: State, acts: seq<Action>, s': State)
    requires Inv(s) && InSequence(s.rel) && Run(s, acts, s')
    ensures InSequence(s'.rel)
    decreases acts
  {
    if acts != [] {
      StepInSequence(s, acts[0]);
      KeepsInv(s, acts[0]);
      QueuedInSequence(Next(s, acts[0]), acts[1..], s');
    }
  }

  /** Both together, from the start. */
  lemma NeverPaused(s0: State, acts: seq<Action>, s: State, n: string)
    requires Initial(s0) && Run(s0, acts, s) && !IsPaused(s0.sh, n) && SetPaused(n, true) !in acts
    ensures Undropped(s, n) && InSequence(s.rel) && Inv(s)
  {
    InitialInv(s0);
    RunKeepsInv(s0, acts, s);
    StartsInSequence(s0, n);
    QueuedInSequence(s0, acts, s);
    NeverDropped(s0, acts, s, n);
  }

  lemma StartsInSequence(s0: State, n: string)
    requires Initial(s0)
    ensures InSequence(s0.rel) && Undropped(s0, n)
  {
  }

  // ---- What is sent, and what is shown as sent last --------------------------------------

  /** The texts handed to `sendMessage` for an output, in order. */
  function SentTexts(done: seq<Done>, n: string): seq<string> {
    if done == [] then []
    else
      var last := done[|done| - 1];
      SentTexts(done[..|done| - 1], n) + if last.msg.output == n && WasSent(last) then [last.msg.text] else []
  }

  /** When no message of the output was skipped or dropped, what was sent is what was queued. */
  lemma {:induction false} AllSent(done: seq<Done>, n: string)
    requires forall d :: d in done && d.msg.output == n ==> WasSent(d)
    ensures SentTexts(done, n) == TextsFor(Msgs(done), n)
    decreases |done|
  {
    if done != [] {
      var front, last := done[..|done| - 1], done[|done| - 1];
      AllSent(front, n);
      assert Msgs(done)[..|done| - 1] == Msgs(front);
      assert last in done;
    }
  }

  /** The first output of the name is configured with an account. */
  ghost predicate HasAccount(outputs: seq<OutputConfig>, n: string) {
    exists i: nat :: First(outputs, i, n) && (outputs[i].accounts != [] || outputs[i].account != "")
  }

  /** `sendMessage` finds it, and an account to send with. */
  predicate CanSend(outputs: seq<OutputConfig>, n: string) {
    FindOutput(outputs, n) != [] && FindOutput(outputs, n)[0].AccountPool() != []
  }

  lemma AccountFound(outputs: seq<OutputConfig>, n: string)
    ensures HasAccount(outputs, n) <==> CanSend(outputs, n)
  {
    FoundFirst(outputs, n);
    if CanSend(outputs, n) {
      var i: nat :| First(outputs, i, n);
      assert FindOutput(outputs, n) == [outputs[i]];
    }
  }

  /** Reconfigurations leave the output an account. */
  ghost predicate KeepsAccount(acts: seq<Action>, n: string) {
    forall i, cfg, live :: Reconfigure(i, cfg, live) in acts && cfg.name == n ==>
      cfg.accounts != [] || cfg.account != ""
  }

  ghost predicate ShowsLast(ui: map<string, OutputState>, done: seq<Done>, n: string) {
    n in ui ==> LastFive(ui[n].recent, SentTexts(done, n))
  }

  lemma AddDone(done: seq<Done>, d: Done, n: string)
    ensures SentTexts(done + [d], n) ==
            SentTexts(done, n) + if d.msg.output == n && WasSent(d) then [d.msg.text] else []
  {
    assert (done + [d])[..|done|] == done;
  }

  /** While an output has an account, its recent list holds the last five texts sent for it, in every
      reachable state. */
  lemma RecentAreLastSent(s: State, acts: seq<Action>, s': State, n: string)
    requires Run(s, acts, s') && HasAccount(s.outputs, n) && KeepsAccount(acts, n) && ShowsLast(s.sh.ui, s.done, n)
    ensures HasAccount(s'.outputs, n) && ShowsLast(s'.sh.ui, s'.done, n)
  {
    AccountFound(s.outputs, n);
    AccountFound(s'.outputs, n);
    RunShowsLast(s, acts, s', n);
  }

  lemma {:induction false} RunShowsLast(s: State, acts: seq<Action>, s': State, n: string)
    requires Run(s, acts, s') && CanSend(s.outputs, n) && KeepsAccount(acts, n) && ShowsLast(s.sh.ui, s.done, n)
    ensures CanSend(s'.outputs, n) && ShowsLast(s'.sh.ui, s'.done, n)
    decreases acts
  {
    if acts != [] {
      assert acts[0] in acts && forall a :: a in acts[1..] ==> a in acts;
      StepKeepsAccount(s, acts[0], n);
      if acts[0].SendDone? || acts[0].FlushSent? {
        SendShows(s, acts[0], n);
      } else {
        OtherShows(s, acts[0], n);
      }
      RunShowsLast(Next(s, acts[0]), acts[1..], s', n);
    }
  }

  lemma StepKeepsAccount(s: State, a: Action, n: string)
    requires Enabled(s, a) && CanSend(s.outputs, n)
    requires a.Reconfigure? && a.cfg.name == n ==> a.cfg.AccountPool() != []
    ensures CanSend(Next(s, a).outputs, n)
  {
    if a.Reconfigure? {
      FindReplaced(s.outputs, a.i, a.cfg, n);
    }
  }

  lemma SendShows(s: State, a: Action, n: string)
    requires Enabled(s, a) && (a.SendDone? || a.FlushSent?) && CanSend(s.outputs, n) && ShowsLast(s.sh.ui, s.done, n)
    ensures ShowsLast(Next(s, a).sh.ui, Next(s, a).done, n)
  {
    if a.SendDone? {
      ShowsOneMore(s.sh, s.outputs, s.done, Done(s.pc.m, Handed(s.pc.now)), n);
    } else {
      ShowsOneMore(s.sh, s.outputs, s.done, Done(s.pc.m, Flushed), n);
    }
  }

  lemma ShowsOneMore(sh: Shared, outputs: seq<OutputConfig>, done: seq<Done>, d: Done, n: string)
    requires CanSend(outputs, n) && ShowsLast(sh.ui, done, n) && WasSent(d)
    ensures ShowsLast(SendIn(sh, outputs, d.msg).ui, done + [d], n)
  {
    AddDone(done, d, n);
    SendRecent(sh, outputs, d.msg, n);
    if n in sh.ui {
      FiveAtATime(sh.ui[n].recent, SentTexts(done, n), d.msg.text);
    }
  }

  lemma SendRecent(sh: Shared, outputs: seq<OutputConfig>, m: DelayedMsg, n: string)
    requires CanSend(outputs, n)
    ensures n in SendIn(sh, outputs, m).ui <==> n in sh.ui
    ensures n in sh.ui ==>
      SendIn(sh, outputs, m).ui[n].recent ==
      if m.output == n then LastFew(sh.ui[n].recent + [m.text]) else sh.ui[n].recent
  {
  }

  /** Other steps send nothing and leave the recent lists alone. */
  lemma OtherShows(s: State, a: Action, n: string)
    requires Enabled(s, a) && !a.SendDone? && !a.FlushSent? && ShowsLast(s.sh.ui, s.done, n)
    ensures ShowsLast(Next(s, a).sh.ui, Next(s, a).done, n)
  {
    SameRecent(s, a, n);
    var more := NothingSent(s, a);
    ShowsSame(s.sh.ui, Next(s, a).sh.ui, s.done, more, Next(s, a).done, n);
  }

  lemma ShowsSame(ui: map<string, OutputState>, ui': map<string, OutputState>, done: seq<Done>, more: seq<Done>,
          done': seq<Done>, n: string)
    requires ShowsLast(ui, done, n) && SameRecentIn(ui, ui', n)
    requires done' == done + more && |more| <= 1 && forall d :: d in more ==> !WasSent(d)
    ensures ShowsLast(ui', done', n)
  {
    if more == [] {
      assert done + [] == done;
    } else {
      AddDone(done, more[0], n);
      assert more == [more[0]];
    }
  }

  lemma SameRecent(s: State, a: Action, n: string)
    requires Enabled(s, a) && !a.SendDone? && !a.FlushSent?
    ensures SameRecentIn(s.sh.ui, Next(s, a).sh.ui, n)
  {
    if a.Enqueue? || a.Take? || a.FlushTake? || a.Skip? || a.SetPaused? {
      RecentUntouched(s, a, n);
    } else {
      MutexUntouched(s, a);
    }
  }

  ghost predicate SameRecentIn(ui: map<string, OutputState>, ui': map<string, OutputState>, n: string) {
    (n in ui' <==> n in ui) && (n in ui ==> ui'[n].recent == ui[n].recent)
  }

  lemma RecentUntouched(s: State, a: Action, n: string)
    requires Enabled(s, a) && (a.Enqueue? || a.Take? || a.FlushTake? || a.Skip? || a.SetPaused?)
    ensures SameRecentIn(s.sh.ui, Next(s, a).sh.ui, n)
  {
  }

  lemma MutexUntouched(s: State, a: Action)
    requires Enabled(s, a) && !a.SendDone? && !a.FlushSent?
    requires !a.Enqueue? && !a.Take? && !a.FlushTake? && !a.Skip? && !a.SetPaused?
    ensures Next(s, a).sh == s.sh
  {
  }

  lemma NothingSent(s: State, a: Action) returns (more: seq<Done>)
    requires Enabled(s, a) && !a.SendDone? && !a.FlushSent?
    ensures Next(s, a).done == s.done + more && |more| <= 1 && forall d :: d in more ==> !WasSent(d)
  {
    var done' := Next(s, a).done;
    more := done'[|s.done|..];
  }

  // ---- What is shown as queued last ------------------------------------------------------

  ghost predicate ShowsLatest(ui: map<string, OutputState>, queued: seq<string>, n: string) {
    n in ui ==> ui[n].lastText == if queued == [] then "" else queued[|queued| - 1]
  }

  /** The text shown as the last one of an output is the last one queued for it, in every reachable state:
      no send, skip, drop or pause changes it. */
  lemma {:induction false} LatestIsLastQueued(s: State, acts: seq<Action>, s': State, n: string)
    requires Run(s, acts, s') && ShowsLatest(s.sh.ui, TextsFor(s.rel.enq, n), n)
    ensures ShowsLatest(s'.sh.ui, TextsFor(s'.rel.enq, n), n)
    decreases acts
  {
    if acts != [] {
      StepShowsLatest(s, acts[0], n);
      LatestIsLastQueued(Next(s, acts[0]), acts[1..], s', n);
    }
  }

  lemma StepShowsLatest(s: State, a: Action, n: string)
    requires Enabled(s, a) && ShowsLatest(s.sh.ui, TextsFor(s.rel.enq, n), n)
    ensures ShowsLatest(Next(s, a).sh.ui, TextsFor(Next(s, a).rel.enq, n), n)
  {
    if a.Enqueue? {
      var m := NewMessage(s.sh, At(s).name, s.pc.text, a.now, s.senders[At(s).name].seqCounter);
      AddMessage(s.rel.enq, m, n);
      AdmitShowsLatest(s.sh, m, TextsFor(s.rel.enq, n), n);
    } else {
      SameLatest(s, a, n);
    }
  }

  lemma AdmitShowsLatest(sh: Shared, m: DelayedMsg, queued: seq<string>, n: string)
    requires ShowsLatest(sh.ui, queued, n)
    ensures ShowsLatest(AdmitIn(sh, m).ui, queued + if m.output == n then [m.text] else [], n)
  {
    if m.output != n {
      assert queued + [] == queued;
    }
  }

  lemma SameLatest(s: State, a: Action, n: string)
    requires Enabled(s, a) && !a.Enqueue?
    ensures Next(s, a).rel.enq == s.rel.enq && (n in Next(s, a).sh.ui <==> n in s.sh.ui)
    ensures n in s.sh.ui ==> Next(s, a).sh.ui[n].lastText == s.sh.ui[n].lastText
  {
    if a.SendDone? || a.FlushSent? {
      SendKeepsLatest(s, a, n);
    } else {
      OtherKeepsLatest(s, a, n);
    }
  }

  lemma SendKeepsLatest(s: State, a: Action, n: string)
    requires Enabled(s, a) && (a.SendDone? || a.FlushSent?)
    ensures Next(s, a).rel == s.rel && (n in Next(s, a).sh.ui <==> n in s.sh.ui)
    ensures n in s.sh.ui ==> Next(s, a).sh.ui[n].lastText == s.sh.ui[n].lastText
  {
  }

  lemma OtherKeepsLatest(s: State, a: Action, n: string)
    requires Enabled(s, a) && !a.Enqueue? && !a.SendDone? && !a.FlushSent?
    ensures Next(s, a).rel.enq == s.rel.enq && (n in Next(s, a).sh.ui <==> n in s.sh.ui)
    ensures n in s.sh.ui ==> Next(s, a).sh.ui[n].lastText == s.sh.ui[n].lastText
  {
  }
}
