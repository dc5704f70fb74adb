/** The coalescing of status updates: `notifyChange` starts goroutines, each puts a token into a
    one-slot channel unless one is there, and a single goroutine turns tokens into snapshots
    for the connected clients.  A broadcast reads the rooms' controllers one after another,
    for the clients that were connected when it began. */
module Broadcast {

  datatype Pc = Waiting | Begun | Reading(conns: set<nat>, room: nat)

  /** `version[r]` counts the changes of room r.  `owed[c][r]` is the latest change of r notified since
      client c connected, `got[c][r]` the latest one in a snapshot for c. */
  datatype State = State(
    version: seq<nat>, callbacks: nat, token: bool, pc: Pc,
    owed: map<nat, seq<nat>>, got: map<nat, seq<nat>>)

  datatype Action =
    | Change(room: nat) | Notify(room: nat) | Callback | TakeToken | CopyClients | ReadRoom | Finish
    | Connect(client: nat) | Disconnect(client: nat)

  predicate Initial(s: State) {
    !s.token && s.callbacks == 0 && s.pc == Waiting && s.owed == map[] && s.got == map[]
  }

  predicate Enabled(s: State, a: Action) {
    match a
    case Change(r) => r < |s.version|
    case Notify(r) => r < |s.version| && forall c :: c in s.owed ==> r < |s.owed[c]|
    case Callback => s.callbacks > 0
    case TakeToken => s.token && s.pc.Waiting?
    case CopyClients => s.pc.Begun?
    case ReadRoom => s.pc.Reading? && s.pc.room < |s.version| && forall c :: c in s.got ==> s.pc.room < |s.got[c]|
    case Finish => s.pc.Reading? && s.pc.room == |s.version|
    case Connect(c) => c !in s.owed
    case Disconnect(c) => c in s.owed
  }

  function Next(s: State, a: Action): State
    requires Enabled(s, a)
  {
    match a
    case Change(r) => s.(version := s.version[r := s.version[r] + 1])
    case Notify(r) =>
      s.(callbacks := s.callbacks + 1, owed := map c | c in s.owed :: s.owed[c][r := s.version[r]])
    case Callback => BroadcastStatus(s.(callbacks := s.callbacks - 1))
    case TakeToken => s.(token := false, pc := Begun)
    // Without clients nothing is read.
    case CopyClients => s.(pc := if s.owed.Keys == {} then Waiting else Reading(s.owed.Keys, 0))
    case ReadRoom =>
      s.(got := map c | c in s.got :: if c in s.pc.conns then s.got[c][s.pc.room := s.version[s.pc.room]] else s.got[c],
         pc := Reading(s.pc.conns, s.pc.room + 1))
    case Finish => s.(pc := Waiting)
    case Connect(c) =>
      s.(owed := s.owed[c := seq(|s.version|, _ => 0)], got := s.got[c := seq(|s.version|, _ => 0)],
         pc := Leave(s.pc, c))
    case Disconnect(c) => s.(owed := s.owed - {c}, got := s.got - {c}, pc := Leave(s.pc, c))
  }

  /** The non-blocking send into the one-slot channel: a token already there stands for this one too. */
  function BroadcastStatus(s: State): State {
    s.(token := true)
  }

  /** A connection is not the one of the same number before it. */
  function Leave(pc: Pc, c: nat): Pc {
    if pc.Reading? then Reading(pc.conns - {c}, pc.room) else pc
  }

  ghost predicate Run(s: State, acts: seq<Action>, s': State)
    decreases acts
  {
    if acts == [] then s == s'
    else Enabled(s, acts[0]) && Run(Next(s, acts[0]), acts[1..], s')
  }

  /** Something still to come will read room r for client c: a callback, a token, a broadcast that
      has not copied its clients, or one for c that has not reached r. */
  predicate Coming(s: State, c: nat, r: nat) {
    s.callbacks > 0 || s.token || s.pc.Begun? || (s.pc.Reading? && c in s.pc.conns && s.pc.room <= r)
  }

  ghost predicate Tables(s: State) {
    && s.owed.Keys == s.got.Keys
    && (s.pc.Reading? ==> s.pc.conns <= s.owed.Keys && s.pc.room <= |s.version|)
    && (forall c :: c in s.owed ==> |s.owed[c]| == |s.got[c]| == |s.version|)
  }

  /** What the client is owed of the room is known, and if it was not yet shown, its reading is coming. */
  ghost predicate UpToDate(s: State, c: nat, r: nat)
    requires Tables(s) && c in s.owed && r < |s.version|
  {
    s.owed[c][r] <= s.version[r] && (s.got[c][r] < s.owed[c][r] ==> Coming(s, c, r))
  }

  ghost predicate Inv(s: State) {
    Tables(s) && forall c, r :: c in s.owed && 0 <= r < |s.version| ==> UpToDate(s, c, r)
  }

  lemma KeepsInv(s: State, a: Action)
    requires Inv(s) && Enabled(s, a)
    ensures Inv(Next(s, a))
  {
    KeepsTables(s, a);
    forall c, r | c in Next(s, a).owed && 0 <= r < |s.version| ensures UpToDate(Next(s, a), c, r) {
      KeepsUpToDate(s, a, c, r);
    }
  }

  lemma KeepsTables(s: State, a: Action)
    requires Tables(s) && Enabled(s, a)
    ensures Tables(Next(s, a)) && |Next(s, a).version| == |s.version|
  {
  }

  lemma KeepsUpToDate(s: State, a: Action, c: nat, r: nat)
    requires Tables(s) && Enabled(s, a) && Tables(Next(s, a)) && r < |s.version| == |Next(s, a).version|
    requires c in s.owed ==> UpToDate(s, c, r)
    requires c in Next(s, a).owed
    ensures UpToDate(Next(s, a), c, r)
  {
  }

  /** No update is lost: in every reachable state, a change notified since a client connected that
      is newer than what the client was last shown is still going to be read for it. */
  lemma {:induction false} NoLostUpdate(s: State, acts: seq<Action>, s': State, c: nat, r: nat)
    requires Inv(s) && Run(s, acts, s') && c in s'.owed && r < |s'.version|
    ensures c in s'.got && |s'.got[c]| == |s'.owed[c]| == |s'.version|
    ensures s'.got[c][r] < s'.owed[c][r] ==> Coming(s', c, r)
    decreases acts
  {
    if acts != [] {
      KeepsInv(s, acts[0]);
      NoLostUpdate(Next(s, acts[0]), acts[1..], s', c, r);
    } else {
      assert UpToDate(s, c, r);
    }
  }

  lemma InitialInv(s: State)
    requires Initial(s)
    ensures Inv(s)
  {
  }

  /** Hence, when all is quiet, every client has been shown every notified change. */
  lemma QuietMeansUpToDate(s0: State, acts: seq<Action>, s: State, c: nat, r: nat)
    requires Initial(s0) && Run(s0, acts, s) && c in s.owed && r < |s.version|
    requires s.callbacks == 0 && !s.token && s.pc.Waiting?
    ensures c in s.got && |s.got[c]| == |s.owed[c]| == |s.version| && s.owed[c][r] <= s.got[c][r]
  {
    InitialInv(s0);
    NoLostUpdate(s0, acts, s, c, r);
  }

  // ---- The code of the channel -----------------------------------------------------------

  /** The one-slot channel and its two users, which take the steps of the machine: a token is there exactly
      when an offer came after the last take, so one token stands for all of them. */
  class Slot {
    var full: bool
    ghost var offers: nat   // all offers so far
    ghost var covered: nat  // those that came before the last take
    ghost var machine: State

    ghost predicate Valid()
      reads this
    {
      covered <= offers && (full <==> covered < offers) && full == machine.token
    }

    constructor (ghost start: State)
      requires Initial(start)
      ensures Valid() && offers == 0 && machine == start
    {
      full, offers, covered, machine := false, 0, 0, start;
    }

    /** `BroadcastStatus`: never blocks. */
    method Offer()
      requires Valid() && Enabled(machine, Callback)
      modifies this
      ensures Valid() && full && offers == old(offers) + 1 && covered == old(covered)
      ensures machine == Next(old(machine), Callback)
    {
      if !full {
        full := true;
      }
      offers := offers + 1;
      machine := Next(machine, Callback);
    }

    /** The receive of `runWSBroadcast`. */
    method Take()
      requires Valid() && full && machine.pc.Waiting?
      modifies this
      ensures Valid() && !full && covered == offers == old(offers)
      ensures machine == Next(old(machine), TakeToken)
    {
      full := false;
      covered := offers;
      machine := Next(machine, TakeToken);
    }
  }
}
