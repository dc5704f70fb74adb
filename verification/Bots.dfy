/** What the bots of one output receive over a whole life of the loop: with all bots there and no errors,
    exactly the chunks of the texts sent, in order, which unwrapped join to these texts; and, when the
    limits leave room, no chunk over the limit of the bot it is handed to. */
module Bots {
  import opened Types
  import opened Splitter
  import opened Rotation
  import opened Sections
  import opened Passes
  import opened Content
  import opened Loop
  import Delivery

  /** A message handed to bots, with the configuration and the pool it was handed over with. */
  datatype Mail = Mail(msg: DelayedMsg, cfg: OutputConfig, pool: Pool)

  function MailChunks(mail: Mail): seq<string> {
    Chunks(mail.msg.text, FullPrefix(mail.cfg, mail.msg.seqNum), mail.cfg.suffix,
           MinLimit(mail.cfg.AccountPool(), mail.pool))
  }

  function Concat(parts: seq<seq<string>>): seq<string> {
    if parts == [] then [] else Concat(parts[..|parts| - 1]) + parts[|parts| - 1]
  }

  function Parts(mails: seq<Mail>): seq<seq<string>> {
    seq(|mails|, i requires 0 <= i < |mails| => MailChunks(mails[i]))
  }

  /** The chunks of all mails, in order. */
  function AllChunks(mails: seq<Mail>): seq<string> {
    Concat(Parts(mails))
  }

  /** The mails among these outcomes: the messages sent for the output, when it has an account. */
  function MailIn(done: seq<Delivery.Done>, outputs: seq<OutputConfig>, pool: Pool, n: string): seq<Mail> {
    if done == [] then []
    else
      var last := done[|done| - 1];
      MailIn(done[..|done| - 1], outputs, pool, n) +
      if last.msg.output == n && Delivery.WasSent(last) then MailFor(last.msg, outputs, pool) else []
  }

  function MailFor(m: DelayedMsg, outputs: seq<OutputConfig>, pool: Pool): seq<Mail> {
    if CanSend(outputs, m.output) then [Mail(m, FindOutput(outputs, m.output)[0], pool)] else []
  }

  /** The mails of all ticks. */
  function MailOf(e: Engine, events: seq<Event>, n: string): seq<Mail>
    requires Ready(e)
    decreases |events|
  {
    if events == [] then []
    else MailOf(e, events[..|events| - 1], n) + MailAt(Turns(e, events[..|events| - 1]), events[|events| - 1], n)
  }

  function MailAt(e: Engine, ev: Event, n: string): seq<Mail> {
    match ev
    case Tick(now, pool, errors) =>
      MailIn(TickAll(e.c, e.outputs, e.queue, now, pool, errors).taken, e.outputs, pool, n)
    case _ => []
  }

  /** The mails of the flush. */
  function MailAtEnd(e: Engine, ending: Ending, n: string): seq<Mail> {
    match ending
    case Cancelled => []
    case Closed(pool, errors) => MailIn(FlushAll(e.c, e.outputs, e.queue, pool, errors).taken, e.outputs, pool, n)
  }

  function AllMail(e: Engine, events: seq<Event>, ending: Ending, n: string): seq<Mail>
    requires Ready(e)
  {
    MailOf(e, events, n) + MailAtEnd(Turns(e, events), ending, n)
  }

  // ---- Appending -------------------------------------------------------------------------

  lemma {:induction false} ConcatAppend(a: seq<seq<string>>, b: seq<seq<string>>)
    ensures Concat(a + b) == Concat(a) + Concat(b)
    decreases |b|
  {
    if b == [] {
      assert a + b == a;
    } else {
      assert (a + b)[..|a + b| - 1] == a + b[..|b| - 1];
      ConcatAppend(a, b[..|b| - 1]);
    }
  }

  lemma AllChunksAppend(a: seq<Mail>, b: seq<Mail>)
    ensures AllChunks(a + b) == AllChunks(a) + AllChunks(b)
  {
    assert Parts(a + b) == Parts(a) + Parts(b);
    ConcatAppend(Parts(a), Parts(b));
  }

  lemma OneMail(mail: Mail)
    ensures AllChunks([mail]) == MailChunks(mail)
  {
    ConcatOne(MailChunks(mail));
    assert Parts([mail]) == [MailChunks(mail)];
  }

  lemma ConcatOne(part: seq<string>)
    ensures Concat([part]) == part
  {
    assert [part][..0] == [] && [] + part == part;
  }

  lemma {:induction false} MailInAppend(a: seq<Delivery.Done>, b: seq<Delivery.Done>, outputs: seq<OutputConfig>,
      pool: Pool, n: string)
    ensures MailIn(a + b, outputs, pool, n) == MailIn(a, outputs, pool, n) + MailIn(b, outputs, pool, n)
    decreases |b|
  {
    if b == [] {
      assert a + b == a;
    } else {
      assert (a + b)[..|a + b| - 1] == a + b[..|b| - 1];
      MailInAppend(a, b[..|b| - 1], outputs, pool, n);
    }
  }

  lemma {:induction false} SentAppend(a: seq<Delivery.Done>, b: seq<Delivery.Done>, n: string)
    ensures SentTexts(a + b, n) == SentTexts(a, n) + SentTexts(b, n)
    decreases |b|
  {
    if b == [] {
      assert a + b == a;
    } else {
      assert (a + b)[..|a + b| - 1] == a + b[..|b| - 1];
      SentAppend(a, b[..|b| - 1], n);
    }
  }

  // ---- The chunks received ---------------------------------------------------------------

  /** The chunks handed to bots of the output, in order. */
  function ChunksSent(log: seq<Delivered>, n: string): seq<string> {
    ChunksIn(AttemptsOf(log, n))
  }

  function ChunksIn(attempts: seq<Attempt>): seq<string> {
    seq(|attempts|, i requires 0 <= i < |attempts| => attempts[i].chunk)
  }

  /** All bots of the output are there and no send fails. */
  ghost predicate Working(outputs: seq<OutputConfig>, n: string, pool: Pool, errors: int -> set<nat>) {
    && (forall id :: errors(id) == {})
    && (forall i: nat, a :: First(outputs, i, n) && outputs[i].Uses(a) ==> a in pool)
  }

  lemma WorkingFound(outputs: seq<OutputConfig>, n: string, pool: Pool, errors: int -> set<nat>)
    requires Working(outputs, n, pool, errors) && CanSend(outputs, n)
    ensures forall a :: a in FindOutput(outputs, n)[0].AccountPool() ==> a in pool
  {
    FoundFirst(outputs, n);
    var i: nat :| First(outputs, i, n);
    assert FindOutput(outputs, n)[0] == outputs[i];
    forall a | a in outputs[i].AccountPool() ensures a in pool {
      assert outputs[i].Uses(a);
    }
  }

  ghost predicate WorkingAt(e: Engine, ev: Event, n: string) {
    ev.Tick? ==> Working(e.outputs, n, ev.pool, ev.errors)
  }

  /** So at every tick and at the flush. */
  ghost predicate AlwaysWorking(e: Engine, events: seq<Event>, ending: Ending, n: string)
    requires Ready(e)
  {
    && (forall i :: 0 <= i < |events| ==> WorkingAt(Turns(e, events[..i]), events[i], n))
    && (ending.Closed? ==> Working(Turns(e, events).outputs, n, ending.pool, ending.errors))
  }

  /** From one log to the other the bots of the output have received exactly the chunks of these mails. */
  ghost predicate Adds(before: seq<Delivered>, after: seq<Delivered>, n: string, mails: seq<Mail>) {
    ChunksSent(after, n) == ChunksSent(before, n) + AllChunks(mails)
  }

  lemma AddsNothing(log: seq<Delivered>, n: string)
    ensures Adds(log, log, n, [])
  {
    assert ChunksSent(log, n) + [] == ChunksSent(log, n);
  }

  lemma AddsBoth(a: seq<Delivered>, b: seq<Delivered>, c: seq<Delivered>, n: string, first: seq<Mail>,
      second: seq<Mail>, mails: seq<Mail>)
    requires Adds(a, b, n, first) && Adds(b, c, n, second) && mails == first + second
    ensures Adds(a, c, n, mails)
  {
    AllChunksAppend(first, second);
    Assoc(ChunksSent(a, n), AllChunks(first), AllChunks(second));
  }

  lemma AddsAttempts(before: seq<Delivered>, after: seq<Delivered>, n: string, attempts: seq<Attempt>, mail: Mail)
    requires AttemptsOf(after, n) == AttemptsOf(before, n) + attempts && |attempts| == |MailChunks(mail)|
    requires forall j :: 0 <= j < |attempts| ==> attempts[j].chunk == MailChunks(mail)[j]
    ensures Adds(before, after, n, [mail])
  {
    OneMail(mail);
    SameChunks(AttemptsOf(before, n), attempts, MailChunks(mail));
  }

  lemma SameChunks(before: seq<Attempt>, attempts: seq<Attempt>, chunks: seq<string>)
    requires |attempts| == |chunks| && forall j :: 0 <= j < |attempts| ==> attempts[j].chunk == chunks[j]
    ensures ChunksIn(before + attempts) == ChunksIn(before) + chunks
  {
  }

  lemma AddsElsewhere(before: seq<Delivered>, after: seq<Delivered>, n: string)
    requires AttemptsOf(after, n) == AttemptsOf(before, n)
    ensures Adds(before, after, n, [])
  {
    assert ChunksSent(before, n) + [] == ChunksSent(before, n);
  }

  /** One send adds exactly the chunks of its message. */
  lemma SendAdds(c: Ctl, outputs: seq<OutputConfig>, m: DelayedMsg, pool: Pool, errors: int -> set<nat>, n: string)
    requires Working(outputs, n, pool, errors)
    ensures Adds(c.log, SendOn(c, outputs, m, pool, errors).log, n,
                 if m.output == n then MailFor(m, outputs, pool) else [])
  {
    if !CanSend(outputs, m.output) {
      AddsNothing(c.log, n);
    } else {
      var o := FindOutput(outputs, m.output)[0];
      if m.output == n {
        WorkingFound(outputs, n, pool, errors);
      }
      AttemptsAdd(c, o, m, pool, errors(m.id), n);
    }
  }

  lemma AttemptsAdd(c: Ctl, o: OutputConfig, m: DelayedMsg, pool: Pool, fails: set<nat>, n: string)
    requires o.AccountPool() != [] && (m.output == n ==> fails == {} && forall a :: a in o.AccountPool() ==> a in pool)
    ensures var more := Tagged(m.output, MessageAttempts(c.rr, o, m, pool, fails), o.AccountPool(), pool);
            Adds(c.log, c.log + more, n, if m.output == n then [Mail(m, o, pool)] else [])
  {
    var attempts := MessageAttempts(c.rr, o, m, pool, fails);
    var more := Tagged(m.output, attempts, o.AccountPool(), pool);
    AttemptsAppend(c.log, more, n);
    AttemptsTagged(attempts, m.output, n, o.AccountPool(), pool);
    if m.output == n {
      AllAttempted(c.rr, o, m, pool);
      AddsAttempts(c.log, c.log + more, n, attempts, Mail(m, o, pool));
    } else {
      assert AttemptsOf(c.log, n) + [] == AttemptsOf(c.log, n);
      AddsElsewhere(c.log, c.log + more, n);
    }
  }

  /** With all bots there and no error every chunk is attempted, once, in order. */
  lemma AllAttempted(rr: map<string, nat>, o: OutputConfig, m: DelayedMsg, pool: Pool)
    requires o.AccountPool() != [] && forall a :: a in o.AccountPool() ==> a in pool
    ensures var attempts := MessageAttempts(rr, o, m, pool, {});
            && |attempts| == |MailChunks(Mail(m, o, pool))|
            && forall j :: 0 <= j < |attempts| ==> attempts[j].chunk == MailChunks(Mail(m, o, pool))[j]
  {
    var accounts := o.AccountPool();
    AttemptsRotate(MailChunks(Mail(m, o, pool)), 0, accounts, Index(rr, m.output) % |accounts|, pool, {});
  }

  /** The mail of a single outcome. */
  lemma MailOfOne(d: Delivery.Done, outputs: seq<OutputConfig>, pool: Pool, n: string)
    ensures MailIn([d], outputs, pool, n) ==
            if d.msg.output == n && Delivery.WasSent(d) then MailFor(d.msg, outputs, pool) else []
  {
    assert [d][..0] == [];
    assert [] + MailFor(d.msg, outputs, pool) == MailFor(d.msg, outputs, pool);
  }

  lemma OneAdds(c: Ctl, outputs: seq<OutputConfig>, m: DelayedMsg, now: int, pool: Pool, errors: int -> set<nat>,
      n: string)
    requires Working(outputs, n, pool, errors)
    ensures var one := TickOne(c, outputs, m, now, pool, errors);
            Adds(c.log, one.c.log, n, MailIn(one.taken, outputs, pool, n))
  {
    AddsNothing(c.log, n);
    if now >= m.sendAt {
      var v := VerdictOn(c.sh, m);
      MailOfOne(Delivery.Done(m, if v == SkipIt then Delivery.Skipped else if v == DropIt then Delivery.DroppedAtSend
                                 else Delivery.Handed(now)), outputs, pool, n);
      if v == SendIt {
        SendAdds(c.(sh := TakeIn(c.sh, m)), outputs, m, pool, errors, n);
      }
    }
  }

  lemma {:induction false} TickAdds(c: Ctl, outputs: seq<OutputConfig>, queue: seq<DelayedMsg>, now: int,
      pool: Pool, errors: int -> set<nat>, n: string)
    requires Working(outputs, n, pool, errors)
    ensures var p := TickAll(c, outputs, queue, now, pool, errors);
            Adds(c.log, p.c.log, n, MailIn(p.taken, outputs, pool, n))
    decreases |queue|
  {
    if queue == [] {
      AddsNothing(c.log, n);
    } else {
      var p := TickAll(c, outputs, queue, now, pool, errors);
      OneAdds(c, outputs, queue[0], now, pool, errors, n);
      var one, rest := TickSplit(c, outputs, queue, now, pool, errors);
      TickAdds(one.c, outputs, queue[1..], now, pool, errors, n);
      MailInAppend(one.taken, rest.taken, outputs, pool, n);
      AddsBoth(c.log, one.c.log, p.c.log, n, MailIn(one.taken, outputs, pool, n), MailIn(rest.taken, outputs, pool, n),
               MailIn(p.taken, outputs, pool, n));
    }
  }

  lemma {:induction false} FlushAdds(c: Ctl, outputs: seq<OutputConfig>, queue: seq<DelayedMsg>, pool: Pool,
      errors: int -> set<nat>, n: string)
    requires Working(outputs, n, pool, errors)
    ensures var p := FlushAll(c, outputs, queue, pool, errors);
            Adds(c.log, p.c.log, n, MailIn(p.taken, outputs, pool, n))
    decreases |queue|
  {
    AddsNothing(c.log, n);
    if queue != [] {
      var p := FlushAll(c, outputs, queue, pool, errors);
      OneFlushAdds(c, outputs, queue[0], pool, errors, n);
      var one, rest := FlushSplit(c, outputs, queue, pool, errors);
      FlushAdds(one.c, outputs, queue[1..], pool, errors, n);
      MailInAppend(one.taken, rest.taken, outputs, pool, n);
      AddsBoth(c.log, one.c.log, p.c.log, n, MailIn(one.taken, outputs, pool, n), MailIn(rest.taken, outputs, pool, n),
               MailIn(p.taken, outputs, pool, n));
    }
  }

  lemma OneFlushAdds(c: Ctl, outputs: seq<OutputConfig>, m: DelayedMsg, pool: Pool, errors: int -> set<nat>, n: string)
    requires Working(outputs, n, pool, errors)
    ensures var one := FlushOne(c, outputs, m, pool, errors);
            Adds(c.log, one.c.log, n, MailIn(one.taken, outputs, pool, n))
  {
    AddsNothing(c.log, n);
    MailOfOne(Delivery.Done(m, if m.id in c.sh.skip then Delivery.Skipped else Delivery.Flushed), outputs, pool, n);
    SendAdds(c, outputs, m, pool, errors, n);
  }

  lemma FlushSplit(c: Ctl, outputs: seq<OutputConfig>, queue: seq<DelayedMsg>, pool: Pool, errors: int -> set<nat>)
    returns (one: Pass, rest: Pass)
    requires queue != []
    ensures one == FlushOne(c, outputs, queue[0], pool, errors)
    ensures rest == FlushAll(one.c, outputs, queue[1..], pool, errors)
    ensures var p := FlushAll(c, outputs, queue, pool, errors);
            p.c == rest.c && p.taken == one.taken + rest.taken
  {
    one := FlushOne(c, outputs, queue[0], pool, errors);
    rest := FlushAll(one.c, outputs, queue[1..], pool, errors);
  }

  lemma {:induction false} TurnsAdd(e: Engine, events: seq<Event>, n: string)
    requires Ready(e) && forall i :: 0 <= i < |events| ==> WorkingAt(Turns(e, events[..i]), events[i], n)
    ensures Adds(e.c.log, Turns(e, events).c.log, n, MailOf(e, events, n))
    decreases |events|
  {
    if events == [] {
      AddsNothing(e.c.log, n);
    } else {
      var last := |events| - 1;
      var front := events[..last];
      assert forall i :: 0 <= i < last ==> front[..i] == events[..i];
      TurnsAdd(e, front, n);
      OneTurnAdds(Turns(e, front), events[last], n);
      AddsBoth(e.c.log, Turns(e, front).c.log, Turns(e, events).c.log, n, MailOf(e, front, n),
               MailAt(Turns(e, front), events[last], n), MailOf(e, events, n));
    }
  }

  lemma OneTurnAdds(e: Engine, ev: Event, n: string)
    requires Ready(e) && WorkingAt(e, ev, n)
    ensures Adds(e.c.log, Turn(e, ev).c.log, n, MailAt(e, ev, n))
  {
    match ev
    case Tick(now, pool, errors) => TickAdds(e.c, e.outputs, e.queue, now, pool, errors, n);
    case _ => AddsNothing(e.c.log, n);
  }

  // ---- The texts sent --------------------------------------------------------------------

  function MailTexts(mails: seq<Mail>): seq<string> {
    seq(|mails|, i requires 0 <= i < |mails| => mails[i].msg.text)
  }

  /** While the output has an account, the mails carry the texts sent. */
  lemma {:induction false} MailsAreSent(done: seq<Delivery.Done>, outputs: seq<OutputConfig>, pool: Pool, n: string)
    requires CanSend(outputs, n)
    ensures MailTexts(MailIn(done, outputs, pool, n)) == SentTexts(done, n)
    decreases |done|
  {
    if done != [] {
      MailsAreSent(done[..|done| - 1], outputs, pool, n);
    }
  }

  ghost predicate UpdatesKeepAccount(events: seq<Event>, n: string) {
    forall i :: 0 <= i < |events| && events[i].Update? && events[i].cfg.name == n ==>
      events[i].cfg.accounts != [] || events[i].cfg.account != ""
  }

  /** The texts sent in between are those of these mails. */
  ghost predicate Sends(before: seq<Delivery.Done>, after: seq<Delivery.Done>, n: string, mails: seq<Mail>) {
    SentTexts(after, n) == SentTexts(before, n) + MailTexts(mails)
  }

  lemma SendsNothing(done: seq<Delivery.Done>, n: string)
    ensures Sends(done, done, n, [])
  {
    assert SentTexts(done, n) + [] == SentTexts(done, n);
  }

  lemma SendsBoth(a: seq<Delivery.Done>, b: seq<Delivery.Done>, c: seq<Delivery.Done>, n: string, first: seq<Mail>,
      second: seq<Mail>, mails: seq<Mail>)
    requires Sends(a, b, n, first) && Sends(b, c, n, second) && mails == first + second
    ensures Sends(a, c, n, mails)
  {
    assert MailTexts(mails) == MailTexts(first) + MailTexts(second);
    Assoc(SentTexts(a, n), MailTexts(first), MailTexts(second));
  }

  lemma {:induction false} TurnsSend(e: Engine, events: seq<Event>, n: string)
    requires Ready(e) && CanSend(e.outputs, n) && UpdatesKeepAccount(events, n)
    ensures CanSend(Turns(e, events).outputs, n)
    ensures Sends(e.done, Turns(e, events).done, n, MailOf(e, events, n))
    decreases |events|
  {
    if events == [] {
      SendsNothing(e.done, n);
    } else {
      var last := |events| - 1;
      var front := events[..last];
      TurnsSend(e, front, n);
      OneTurnSends(Turns(e, front), events[last], n);
      SendsBoth(e.done, Turns(e, front).done, Turns(e, events).done, n, MailOf(e, front, n),
                MailAt(Turns(e, front), events[last], n), MailOf(e, events, n));
    }
  }

  lemma OneTurnSends(e: Engine, ev: Event, n: string)
    requires Ready(e) && CanSend(e.outputs, n) && (ev.Update? && ev.cfg.name == n ==> ev.cfg.AccountPool() != [])
    ensures CanSend(Turn(e, ev).outputs, n)
    ensures Sends(e.done, Turn(e, ev).done, n, MailAt(e, ev, n))
  {
    SendsNothing(e.done, n);
    match ev
    case Tick(now, pool, errors) =>
      var p := TickAll(e.c, e.outputs, e.queue, now, pool, errors);
      SentAppend(e.done, p.taken, n);
      MailsAreSent(p.taken, e.outputs, pool, n);
    case Update(cfg) =>
      var i := UpdatedAt(e.outputs, cfg);
      if i < |e.outputs| {
        FindReplaced(e.outputs, i, cfg, n);
      }
    case _ =>
  }

  // ---- The results -----------------------------------------------------------------------

  /** Each mail's chunks are its contents between prefix and suffix, and the contents join to its text. */
  ghost predicate Delivers(mail: Mail, contents: seq<string>) {
    && Wraps(MailChunks(mail), contents, FullPrefix(mail.cfg, mail.msg.seqNum), mail.cfg.suffix)
    && Flatten(contents) == mail.msg.text
  }

  lemma {:induction false} UnwrapMails(mails: seq<Mail>) returns (contents: seq<seq<string>>)
    ensures |contents| == |mails| && forall i :: 0 <= i < |mails| ==> Delivers(mails[i], contents[i])
    decreases |mails|
  {
    if mails == [] {
      contents := [];
    } else {
      var front := UnwrapMails(mails[..|mails| - 1]);
      var mail := mails[|mails| - 1];
      var last := RoundTrip(mail.msg.text, FullPrefix(mail.cfg, mail.msg.seqNum), mail.cfg.suffix,
                            MinLimit(mail.cfg.AccountPool(), mail.pool));
      contents := front + [last];
      assert forall i :: 0 <= i < |mails| - 1 ==> mails[..|mails| - 1][i] == mails[i];
    }
  }

  /** Over any events and either ending, with all bots of the output there and no send failing: what its bots
      have received is the chunks of the messages sent for it, message by message, and the chunks
      of each message unwrapped join to the text sent. */
  lemma TextsReachTheBots(e: Engine, events: seq<Event>, ending: Ending, n: string)
    returns (mails: seq<Mail>, contents: seq<seq<string>>)
    requires Ready(e) && e.c.log == [] && e.done == [] && AlwaysWorking(e, events, ending, n)
    requires HasAccount(e.outputs, n) && UpdatesKeepAccount(events, n)
    ensures mails == AllMail(e, events, ending, n)
    ensures var last := Ended(Turns(e, events), ending);
            && ChunksSent(last.c.log, n) == AllChunks(mails)
            && |mails| == |contents| == |SentTexts(last.done, n)|
            && forall i :: 0 <= i < |mails| ==>
                  mails[i].msg.text == SentTexts(last.done, n)[i] && Delivers(mails[i], contents[i])
  {
    var at := Turns(e, events);
    AccountFound(e.outputs, n);
    TurnsAdd(e, events, n);
    TurnsSend(e, events, n);
    EndAdds(at, ending, n);
    mails := AllMail(e, events, ending, n);
    AddsBoth(e.c.log, at.c.log, Ended(at, ending).c.log, n, MailOf(e, events, n), MailAtEnd(at, ending, n), mails);
    SendsBoth(e.done, at.done, Ended(at, ending).done, n, MailOf(e, events, n), MailAtEnd(at, ending, n), mails);
    contents := UnwrapMails(mails);
    FromNothing(Ended(at, ending).c.log, Ended(at, ending).done, n, mails);
  }

  lemma FromNothing(log: seq<Delivered>, done: seq<Delivery.Done>, n: string, mails: seq<Mail>)
    requires Adds([], log, n, mails) && Sends([], done, n, mails)
    ensures ChunksSent(log, n) == AllChunks(mails) && |mails| == |SentTexts(done, n)|
    ensures forall i :: 0 <= i < |mails| ==> mails[i].msg.text == SentTexts(done, n)[i]
  {
    assert [] + AllChunks(mails) == AllChunks(mails) && [] + MailTexts(mails) == MailTexts(mails);
    assert SentTexts(done, n) == MailTexts(mails);
  }

  lemma EndAdds(e: Engine, ending: Ending, n: string)
    requires CanSend(e.outputs, n) && (ending.Closed? ==> Working(e.outputs, n, ending.pool, ending.errors))
    ensures Adds(e.c.log, Ended(e, ending).c.log, n, MailAtEnd(e, ending, n))
    ensures Sends(e.done, Ended(e, ending).done, n, MailAtEnd(e, ending, n))
  {
    AddsNothing(e.c.log, n);
    SendsNothing(e.done, n);
    match ending
    case Cancelled =>
    case Closed(pool, errors) =>
      var p := FlushAll(e.c, e.outputs, e.queue, pool, errors);
      FlushAdds(e.c, e.outputs, e.queue, pool, errors, n);
      SentAppend(e.done, p.taken, n);
      MailsAreSent(p.taken, e.outputs, pool, n);
  }

  // ---- Every chunk fits ------------------------------------------------------------------

  /** The limit of each bot of the output leaves room beside prefix, number emoji and suffix. */
  ghost predicate Roomy(outputs: seq<OutputConfig>, n: string, pool: Pool) {
    forall i: nat, a, k: nat :: First(outputs, i, n) && outputs[i].Uses(a) && a in pool && pool[a] > 0 ==>
      pool[a] > |FullPrefix(outputs[i], k)| + |outputs[i].suffix|
  }

  /** So does the least limit. */
  lemma LeastIsRoomy(outputs: seq<OutputConfig>, n: string, pool: Pool, k: nat)
    requires Roomy(outputs, n, pool) && CanSend(outputs, n)
    ensures var o := FindOutput(outputs, n)[0];
            var limit := MinLimit(o.AccountPool(), pool);
            limit == 0 || limit > |FullPrefix(o, k)| + |o.suffix|
  {
    FoundFirst(outputs, n);
    var i: nat :| First(outputs, i, n);
    var o := outputs[i];
    assert FindOutput(outputs, n)[0] == o;
    LimitIsLeast(o.AccountPool(), pool);
    if MinLimit(o.AccountPool(), pool) > 0 {
      var a :| a in o.AccountPool() && a in pool && pool[a] == MinLimit(o.AccountPool(), pool);
      assert o.Uses(a);
    }
  }

  ghost predicate RoomyAt(e: Engine, events: seq<Event>, i: nat, n: string)
    requires Ready(e) && i < |events|
  {
    events[i].Tick? ==> Roomy(Turns(e, events[..i]).outputs, n, events[i].pool)
  }

  ghost predicate AlwaysRoomy(e: Engine, events: seq<Event>, ending: Ending, n: string)
    requires Ready(e)
  {
    && (forall i: nat :: i < |events| ==> RoomyAt(e, events, i, n))
    && (ending.Closed? ==> Roomy(Turns(e, events).outputs, n, ending.pool))
  }

  /** No bot of the output was handed a chunk over its limit at that time. */
  ghost predicate LogFits(log: seq<Delivered>, n: string) {
    forall d :: d in log && d.output == n && d.limit > 0 ==> |d.attempt.chunk| <= d.limit
  }

  lemma SendFits(c: Ctl, outputs: seq<OutputConfig>, m: DelayedMsg, pool: Pool, errors: int -> set<nat>, n: string)
    requires LogFits(c.log, n) && Roomy(outputs, n, pool)
    ensures LogFits(SendOn(c, outputs, m, pool, errors).log, n)
  {
    if CanSend(outputs, m.output) && m.output == n {
      LeastIsRoomy(outputs, n, pool, m.seqNum);
      var o := FindOutput(outputs, n)[0];
      var accounts := o.AccountPool();
      AttemptsFit(m.text, FullPrefix(o, m.seqNum), o.suffix, accounts, Index(c.rr, n) % |accounts|, pool, errors(m.id));
      TagsFit(n, MessageAttempts(c.rr, o, m, pool, errors(m.id)), accounts, pool);
    }
  }

  lemma TagsFit(n: string, attempts: seq<Attempt>, accounts: seq<string>, pool: Pool)
    requires forall a :: a in attempts ==> Fits(accounts, pool, a.account, a.chunk)
    ensures LogFits(Tagged(n, attempts, accounts, pool), n)
  {
    forall d | d in Tagged(n, attempts, accounts, pool) ensures d.limit > 0 ==> |d.attempt.chunk| <= d.limit {
      assert d.attempt in attempts && d == Tag(n, d.attempt, accounts, pool);
    }
  }

  lemma {:induction false} TickFits(c: Ctl, outputs: seq<OutputConfig>, queue: seq<DelayedMsg>, now: int, pool: Pool,
      errors: int -> set<nat>, n: string)
    requires LogFits(c.log, n) && Roomy(outputs, n, pool)
    ensures LogFits(TickAll(c, outputs, queue, now, pool, errors).c.log, n)
    decreases |queue|
  {
    if queue != [] {
      SendFits(c.(sh := TakeIn(c.sh, queue[0])), outputs, queue[0], pool, errors, n);
      TickFits(TickOne(c, outputs, queue[0], now, pool, errors).c, outputs, queue[1..], now, pool, errors, n);
    }
  }

  lemma {:induction false} FlushFits(c: Ctl, outputs: seq<OutputConfig>, queue: seq<DelayedMsg>, pool: Pool,
      errors: int -> set<nat>, n: string)
    requires LogFits(c.log, n) && Roomy(outputs, n, pool)
    ensures LogFits(FlushAll(c, outputs, queue, pool, errors).c.log, n)
    decreases |queue|
  {
    if queue != [] {
      SendFits(c, outputs, queue[0], pool, errors, n);
      FlushFits(FlushOne(c, outputs, queue[0], pool, errors).c, outputs, queue[1..], pool, errors, n);
    }
  }

  /** Over any events and either ending, with bots missing and sends failing too: when at every tick and at
      the flush the limits leave room, no bot is handed a chunk over its limit. */
  lemma {:induction false} EveryChunkFits(e: Engine, events: seq<Event>, ending: Ending, n: string)
    requires Ready(e) && LogFits(e.c.log, n) && AlwaysRoomy(e, events, ending, n)
    ensures LogFits(Ended(Turns(e, events), ending).c.log, n)
  {
    TurnsFit(e, events, n);
    if ending.Closed? {
      var last := Turns(e, events);
      FlushFits(last.c, last.outputs, last.queue, ending.pool, ending.errors, n);
    }
  }

  lemma {:induction false} TurnsFit(e: Engine, events: seq<Event>, n: string)
    requires Ready(e) && LogFits(e.c.log, n) && forall i: nat :: i < |events| ==> RoomyAt(e, events, i, n)
    ensures LogFits(Turns(e, events).c.log, n)
    decreases |events|
  {
    if events != [] {
      var last := |events| - 1;
      var front := events[..last];
      forall i: nat | i < last ensures RoomyAt(e, front, i, n) {
        assert RoomyAt(e, events, i, n) && front[..i] == events[..i];
      }
      TurnsFit(e, front, n);
      assert RoomyAt(e, events, last, n);
      TurnFits(Turns(e, front), events[last], n);
    }
  }

  lemma TurnFits(e: Engine, ev: Event, n: string)
    requires Ready(e) && LogFits(e.c.log, n) && (ev.Tick? ==> Roomy(e.outputs, n, ev.pool))
    ensures LogFits(Turn(e, ev).c.log, n)
  {
    match ev
    case Tick(now, pool, errors) => TickFits(e.c, e.outputs, e.queue, now, pool, errors, n);
    case _ =>
  }
}
