/** The fields of the controller that its mutex protects, and what each critical section does
    to them.  The class and the step machine are both built on these functions. */
module Sections {
  import opened Types

  datatype Shared = Shared(
    paused: map<string, bool>, ui: map<string, OutputState>, skip: set<int>, nextId: nat)

  predicate IsPaused(sh: Shared, name: string) {
    name in sh.paused && sh.paused[name]
  }

  /** `IsAnyPaused`: true when all outputs are paused and there is one. */
  predicate AllPaused(sh: Shared) {
    sh.paused != map[] && forall name :: name in sh.paused ==> sh.paused[name]
  }

  /** Removes the first message with this id, if any. */
  function RemoveId(p: seq<PendingMsg>, id: int): seq<PendingMsg> {
    if p == [] then [] else if p[0].id == id then p[1..] else [p[0]] + RemoveId(p[1..], id)
  }

  function SetPausedIn(sh: Shared, name: string, paused: bool): Shared {
    sh.(paused := sh.paused[name := paused],
        ui := if name in sh.ui then sh.ui[name := sh.ui[name].(paused := paused)] else sh.ui)
  }

  function SkipIn(sh: Shared, id: int): Shared {
    sh.(skip := sh.skip + {id},
        ui := map name | name in sh.ui :: sh.ui[name].(pending := RemoveId(sh.ui[name].pending, id)))
  }

  /** The message that admitting `text` at time `now` puts into the delay queue. */
  function NewMessage(sh: Shared, name: string, text: string, now: int, seqNum: nat): DelayedMsg {
    DelayedMsg(sh.nextId, text, now + SEND_DELAY, name, seqNum)
  }

  function PendingOf(m: DelayedMsg): PendingMsg {
    PendingMsg(m.id, m.text, UnixMilli(m.sendAt))
  }

  function AdmitIn(sh: Shared, m: DelayedMsg): Shared {
    sh.(nextId := sh.nextId + 1,
        ui := if m.output in sh.ui
              then sh.ui[m.output := sh.ui[m.output].(pending := sh.ui[m.output].pending + [PendingOf(m)],
                  lastText := m.text)]
              else sh.ui)
  }

  datatype Verdict = SkipIt | DropIt | SendIt

  function VerdictOn(sh: Shared, m: DelayedMsg): Verdict {
    if m.id in sh.skip then SkipIt else if IsPaused(sh, m.output) then DropIt else SendIt
  }

  /** Taking a due message on a tick. */
  function TakeIn(sh: Shared, m: DelayedMsg): Shared {
    sh.(skip := sh.skip - {m.id},
        ui := if m.output in sh.ui
              then sh.ui[m.output := sh.ui[m.output].(pending := RemoveId(sh.ui[m.output].pending, m.id))]
              else sh.ui)
  }

  /** Taking a message while flushing: only the skip set is consulted. */
  function FlushIn(sh: Shared, m: DelayedMsg): Shared {
    sh.(skip := sh.skip - {m.id})
  }

  /** The last section of `sendMessage`, for an output with at least one account. */
  function NoteSent(sh: Shared, m: DelayedMsg): Shared {
    if m.output in sh.ui
    then sh.(ui := sh.ui[m.output := sh.ui[m.output].(recent := LastFew(sh.ui[m.output].recent + [m.text]))])
    else sh
  }

  function LastFew(texts: seq<string>): seq<string> {
    if |texts| > MAX_RECENT then texts[|texts| - MAX_RECENT..] else texts
  }

  /** The last five of the texts, in order; all of them when they are fewer. */
  ghost predicate LastFive(recent: seq<string>, texts: seq<string>) {
    |recent| == (if |texts| < 5 then |texts| else 5) && recent == texts[|texts| - |recent|..]
  }

  lemma FewIsFive(texts: seq<string>, recent: seq<string>)
    ensures recent == LastFew(texts) <==> LastFive(recent, texts)
  {
    assert LastFew(texts) == texts[|texts| - |LastFew(texts)|..];
  }

  lemma FiveAtATime(recent: seq<string>, history: seq<string>, text: string)
    requires LastFive(recent, history)
    ensures LastFive(LastFew(recent + [text]), history + [text])
  {
    FewIsFive(history, recent);
    LastFewAtATime(history, text);
    FewIsFive(history + [text], LastFew(recent + [text]));
  }

  /** Trimming after every message is the same as trimming the whole history: the list holds the
      last few texts sent. */
  lemma LastFewAtATime(history: seq<string>, text: string)
    ensures LastFew(LastFew(history) + [text]) == LastFew(history + [text])
    ensures LastFew(history) <= history || history == history[..|history| - MAX_RECENT] + LastFew(history)
  {
  }

  /** The first configured output with this name, as `sendMessage` finds it. */
  function FindOutput(outputs: seq<OutputConfig>, name: string): seq<OutputConfig> {
    if outputs == [] then [] else if outputs[0].name == name then [outputs[0]] else FindOutput(outputs[1..], name)
  }

  /** The i-th output is the first of this name. */
  ghost predicate First(outputs: seq<OutputConfig>, i: nat, name: string) {
    i < |outputs| && outputs[i].name == name && forall j :: 0 <= j < i ==> outputs[j].name != name
  }

  /** What is found is the first output of the name, wherever it stands; nothing exactly when none has it. */
  lemma {:induction false} FoundFirst(outputs: seq<OutputConfig>, name: string)
    ensures forall i: nat :: First(outputs, i, name) ==> FindOutput(outputs, name) == [outputs[i]]
    ensures FindOutput(outputs, name) == [] <==> forall o :: o in outputs ==> o.name != name
    ensures FindOutput(outputs, name) != [] ==> exists i: nat :: First(outputs, i, name)
  {
    if outputs != [] && outputs[0].name == name {
      assert First(outputs, 0, name) && outputs[0] in outputs;
    } else if outputs != [] {
      var rest := outputs[1..];
      FoundFirst(rest, name);
      assert outputs == [outputs[0]] + rest;
      forall i: nat | First(outputs, i, name) ensures FindOutput(outputs, name) == [outputs[i]] {
        assert First(rest, i - 1, name);
      }
      if FindOutput(rest, name) != [] {
        var i: nat :| First(rest, i, name);
        assert First(outputs, i + 1, name);
      }
    }
  }

  /** Replacing a configuration by one of the same name changes what is found under that name only. */
  lemma {:induction false} FindReplaced(outputs: seq<OutputConfig>, i: nat, cfg: OutputConfig, n: string)
    requires i < |outputs| && cfg.name == outputs[i].name
    ensures var found, found' := FindOutput(outputs, n), FindOutput(outputs[i := cfg], n);
            found' == found || (found' == [cfg] && cfg.name == n && found != [])
  {
    if i > 0 {
      FindReplaced(outputs[1..], i - 1, cfg, n);
      assert outputs[i := cfg][1..] == outputs[1..][i - 1 := cfg];
    }
  }

  /** The state after `sendMessage`: it records the text unless the output has no account. */
  function SendIn(sh: Shared, outputs: seq<OutputConfig>, m: DelayedMsg): Shared {
    var found := FindOutput(outputs, m.output);
    if found == [] || found[0].AccountPool() == [] then sh else NoteSent(sh, m)
  }

  lemma {:induction false} RemoveAt(p: seq<PendingMsg>, id: int, i: nat)
    requires i < |p| && p[i].id == id && forall k :: 0 <= k < i ==> p[k].id != id
    ensures RemoveId(p, id) == p[..i] + p[i + 1..]
  {
    if i == 0 {
      assert p[..0] + p[1..] == p[1..];
    } else {
      RemoveAt(p[1..], id, i - 1);
      assert p[..i] + p[i + 1..] == [p[0]] + (p[1..][..i - 1] + p[1..][i..]);
    }
  }

  // ---- The pending list as an index of the queue -----------------------------------------

  /** What the user interface should list for an output: its queued messages, in order,
      without the hidden ones. */
  function View(queue: seq<DelayedMsg>, name: string, hidden: set<int>): seq<PendingMsg> {
    if queue == [] then []
    else (if queue[0].output == name && queue[0].id !in hidden then [PendingOf(queue[0])] else [])
         + View(queue[1..], name, hidden)
  }

  ghost predicate DistinctIds(queue: seq<DelayedMsg>) {
    forall i, j :: 0 <= i < j < |queue| ==> queue[i].id != queue[j].id
  }

  lemma {:induction false} ViewAppend(queue: seq<DelayedMsg>, m: DelayedMsg, name: string, hidden: set<int>)
    ensures View(queue + [m], name, hidden) == View(queue, name, hidden) + View([m], name, hidden)
  {
    if queue != [] {
      assert (queue + [m])[1..] == queue[1..] + [m];
      ViewAppend(queue[1..], m, name, hidden);
    } else {
      assert [] + [m] == [m];
    }
  }

  /** Hiding an id takes it out of the list, wherever it is. */
  lemma {:induction false} ViewHide(queue: seq<DelayedMsg>, name: string, hidden: set<int>, id: int)
    requires DistinctIds(queue)
    ensures View(queue, name, hidden + {id}) == RemoveId(View(queue, name, hidden), id)
  {
    if queue != [] {
      var rest := View(queue[1..], name, hidden);
      ViewHide(queue[1..], name, hidden, id);
      assert [] + rest == rest && ([PendingOf(queue[0])] + rest)[1..] == rest;
      assert [] + RemoveId(rest, id) == RemoveId(rest, id);
      if queue[0].id == id {
        assert forall m :: m in queue[1..] ==> m.id != id;
        ViewOnlyQueued(queue[1..], name, hidden, hidden + {id});
        ViewIds(queue[1..], name, hidden);
        RemoveAbsent(rest, id);
      }
    }
  }

  /** The list depends on the hidden set only through the ids in the queue. */
  lemma {:induction false} ViewOnlyQueued(queue: seq<DelayedMsg>, name: string, h1: set<int>, h2: set<int>)
    requires forall m :: m in queue ==> (m.id in h1 <==> m.id in h2)
    ensures View(queue, name, h1) == View(queue, name, h2)
  {
    if queue != [] { ViewOnlyQueued(queue[1..], name, h1, h2); }
  }

  lemma {:induction false} ViewIds(queue: seq<DelayedMsg>, name: string, hidden: set<int>)
    ensures forall p :: p in View(queue, name, hidden) ==>
              p.id !in hidden && exists m :: m in queue && m.output == name && PendingOf(m) == p
  {
    if queue != [] { ViewIds(queue[1..], name, hidden); }
  }

  lemma {:induction false} RemoveAbsent(p: seq<PendingMsg>, id: int)
    requires forall x :: x in p ==> x.id != id
    ensures RemoveId(p, id) == p
  {
    if p != [] { RemoveAbsent(p[1..], id); }
  }

  /** The list is an index: it names exactly the queued ids of the output that are not hidden. */
  lemma {:induction false} ViewComplete(queue: seq<DelayedMsg>, name: string, hidden: set<int>, m: DelayedMsg)
    requires m in queue && m.output == name && m.id !in hidden
    ensures PendingOf(m) in View(queue, name, hidden)
  {
    if queue[0] != m { ViewComplete(queue[1..], name, hidden, m); }
  }

  /** An entry shows the id and the text of its message, and its due time in whole milliseconds. */
  ghost predicate Announces(p: PendingMsg, m: DelayedMsg) {
    p.id == m.id && p.text == m.text && 1_000_000 * p.sendAt <= m.sendAt < 1_000_000 * (p.sendAt + 1)
  }

  /** The entries announce, in the order of the queue, exactly the messages of the output that are not hidden;
      `at` are their places in the queue. */
  ghost predicate Lists(pending: seq<PendingMsg>, queue: seq<DelayedMsg>, name: string, hidden: set<int>,
          at: seq<nat>)
  {
    && |at| == |pending|
    && (forall i, j :: 0 <= i < j < |at| ==> at[i] < at[j])
    && (forall i :: 0 <= i < |at| ==> at[i] < |queue| && Announces(pending[i], queue[at[i]]))
    && (forall k: nat :: k in at <==> k < |queue| && queue[k].output == name && queue[k].id !in hidden)
  }

  lemma {:induction false} ViewLists(queue: seq<DelayedMsg>, name: string, hidden: set<int>) returns (at: seq<nat>)
    ensures Lists(View(queue, name, hidden), queue, name, hidden, at)
    decreases |queue|
  {
    at := [];
    if queue != [] {
      var last := |queue| - 1;
      var front, m := queue[..last], queue[last];
      assert queue == front + [m];
      at := ViewLists(front, name, hidden);
      ViewAppend(front, m, name, hidden);
      at := ListsMore(View(front, name, hidden), front, m, name, hidden, at);
    }
  }

  lemma ListsMore(pending: seq<PendingMsg>, front: seq<DelayedMsg>, m: DelayedMsg, name: string, hidden: set<int>,
      at: seq<nat>) returns (at': seq<nat>)
    requires Lists(pending, front, name, hidden, at)
    ensures Lists(pending + View([m], name, hidden), front + [m], name, hidden, at')
  {
    if m.output == name && m.id !in hidden {
      at' := at + [|front|];
      assert View([m], name, hidden) == [PendingOf(m)];
    } else {
      at' := at;
      assert View([m], name, hidden) == [] && pending + [] == pending;
    }
  }
}
