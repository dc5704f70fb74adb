/** The choice of the translation model: after a rate-limit error the fallback model is used
    for 30 seconds.  Times are milliseconds. */
module Degrade {

  const WINDOW: int := 30_000

  class Translator {
    var degraded: bool
    var recoverAt: int
    ghost var limited: seq<int>   // the times of the rate-limit errors so far

    /** `now` is the present time: the fields say what the error times say. */
    ghost predicate Valid(now: int)
      reads this
    {
      && (forall i, j :: 0 <= i < j < |limited| ==> limited[i] <= limited[j])
      && (forall i :: 0 <= i < |limited| ==> limited[i] <= now)
      && (limited == [] ==> !degraded)
      && (limited != [] ==> recoverAt == limited[|limited| - 1] + WINDOW)
      && (!degraded ==> !InWindow(limited, now))
    }

    constructor ()
      ensures limited == [] && forall now :: Valid(now)
    {
      degraded, recoverAt, limited := false, 0, [];
    }

    /** Uses the primary model exactly when no rate-limit error lies within the last 30 seconds; later
        errors extend the window. */
    method ActiveModel(ghost last: int, now: int) returns (primary: bool)
      requires Valid(last) && last <= now
      modifies this`degraded
      ensures Valid(now) && limited == old(limited)
      ensures primary <==> !InWindow(limited, now)
      ensures primary <==> forall i :: 0 <= i < |limited| ==> limited[i] + 30_000 <= now
    {
      LastDecides(limited, now);
      LastDecides(limited, last);
      if degraded {
        if now >= recoverAt {
          degraded := false;
          return true;
        }
        return false;
      }
      return true;
    }

    /** A first attempt that was rate-limited, taken as one step. */
    method RateLimited(ghost last: int, now: int)
      requires Valid(last) && last <= now
      modifies this
      ensures Valid(now) && limited == old(limited) + [now] && InWindow(limited, now)
    {
      degraded := true;
      recoverAt := now + WINDOW;
      limited := limited + [now];
      assert limited[|limited| - 1] == now;
    }
  }

  /** Some error time lies less than 30 seconds back. */
  ghost predicate InWindow(limited: seq<int>, now: int) {
    exists i :: 0 <= i < |limited| && now < limited[i] + WINDOW
  }

  /** Of nondecreasing times the last decides. */
  lemma LastDecides(limited: seq<int>, now: int)
    requires forall i, j :: 0 <= i < j < |limited| ==> limited[i] <= limited[j]
    ensures InWindow(limited, now) <==> limited != [] && now < limited[|limited| - 1] + WINDOW
  {
    if limited != [] && now < limited[|limited| - 1] + WINDOW {
      var i := |limited| - 1;
      assert 0 <= i < |limited| && now < limited[i] + WINDOW;
    }
  }

  /** In milliseconds: the window of an error at `t`, the last one, holds up to t + 29999 and is over at t + 30000. */
  lemma ThirtySeconds(limited: seq<int>, t: int, now: int)
    requires forall i, j :: 0 <= i < j < |limited| ==> limited[i] <= limited[j]
    requires limited != [] && limited[|limited| - 1] == t
    ensures InWindow(limited, now) <==> now <= t + 29_999
    ensures InWindow(limited, t + 29_999) && !InWindow(limited, t + 30_000)
  {
    LastDecides(limited, now);
    LastDecides(limited, t + 29_999);
    LastDecides(limited, t + 30_000);
  }

  /** A translator after one error at `t`: the fallback up to t + 29999 and the primary model from t + 30000 on. */
  method AfterOneError(t: int) returns (during: bool, after: bool)
    ensures !during && after
  {
    var tr := new Translator();
    tr.RateLimited(t, t);
    during := tr.ActiveModel(t, t + 29_999);
    ThirtySeconds(tr.limited, t, t + 29_999);
    after := tr.ActiveModel(t + 29_999, t + 30_000);
  }

  // ---- The two atomics, with several callers ---------------------------------------------

  /** One caller of `Translate`, every load, store and look at the clock being a step.  Choosing a model loads the
      flag, then, if it is set, looks at the clock and loads the time, then clears the flag if that time has
      come.  A rate-limited first attempt sets the flag, then looks at the clock, then stores the time.
      `Chose` records a choice: its time, and how many errors there had been when it was settled. */
  datatype Caller =
    | Idle
    | SawFlag
    | SawClock(at: int)
    | WillClear(at: int, errors: nat)
    | Chose(primary: bool, at: int, errors: nat)
    | SetFlag
    | Stamped(end: int)

  datatype Shared = Shared(degraded: bool, recoverAt: int, clock: int, callers: map<nat, Caller>, limited: seq<int>)

  datatype Step =
    | ReadFlag(c: nat) | LookUp(c: nat, now: int) | ReadTime(c: nat) | Clear(c: nat)
    | Degrade(c: nat) | Stamp(c: nat, now: int) | StoreTime(c: nat)

  ghost predicate Initial(s: Shared) {
    !s.degraded && s.recoverAt == 0 <= s.clock && s.limited == [] && forall c :: c in s.callers ==> s.callers[c].Idle?
  }

  /** Between calls, or about to make the first attempt with the model chosen. */
  predicate MayCall(caller: Caller) { caller.Idle? || caller.Chose? }

  predicate Enabled(s: Shared, x: Step) {
    x.c in s.callers &&
    match x
    case ReadFlag(c) => MayCall(s.callers[c])
    case LookUp(c, now) => s.callers[c].SawFlag? && s.clock <= now
    case ReadTime(c) => s.callers[c].SawClock?
    case Clear(c) => s.callers[c].WillClear?
    case Degrade(c) => s.callers[c].Chose?
    case Stamp(c, now) => s.callers[c].SetFlag? && s.clock <= now
    case StoreTime(c) => s.callers[c].Stamped?
  }

  function Next(s: Shared, x: Step): Shared
    requires Enabled(s, x)
  {
    match x
    case ReadFlag(c) =>
      s.(callers := s.callers[c := if s.degraded then SawFlag else Chose(true, s.clock, |s.limited|)])
    case LookUp(c, now) => s.(clock := now, callers := s.callers[c := SawClock(now)])
    case ReadTime(c) =>
      var at := s.callers[c].at;
      s.(callers := s.callers[c := if at >= s.recoverAt then WillClear(at, |s.limited|)
                                   else Chose(false, at, |s.limited|)])
    case Clear(c) =>
      s.(degraded := false, callers := s.callers[c := Chose(true, s.callers[c].at, s.callers[c].errors)])
    case Degrade(c) => s.(degraded := true, callers := s.callers[c := SetFlag])
    case Stamp(c, now) =>
      s.(clock := now, callers := s.callers[c := Stamped(now + WINDOW)], limited := s.limited + [now])
    case StoreTime(c) => s.(recoverAt := s.callers[c].end, callers := s.callers[c := Idle])
  }

  ghost predicate Run(s: Shared, steps: seq<Step>, s': Shared)
    decreases steps
  {
    if steps == [] then s == s'
    else Enabled(s, steps[0]) && Run(Next(s, steps[0]), steps[1..], s')
  }

  // ---- What the atomics hold, in terms of the steps taken --------------------------------

  /** Some caller degraded and nobody cleared the flag since. */
  ghost predicate FlagUp(steps: seq<Step>) {
    exists i :: 0 <= i < |steps| && steps[i].Degrade? && NoClearAfter(steps, i)
  }

  ghost predicate NoClearAfter(steps: seq<Step>, i: int) {
    forall j :: i < j < |steps| ==> 0 <= j && !steps[j].Clear?
  }

  /** The time that a caller looked up last for a degrade. */
  function DegradedAt(steps: seq<Step>, c: nat): int {
    if steps == [] then 0
    else
      var last := steps[|steps| - 1];
      if last.Stamp? && last.c == c then last.now else DegradedAt(steps[..|steps| - 1], c)
  }

  /** The end of the window that was stored last, 0 if none was: a caller stores the end of the window it
      opened. */
  function StoredEnd(steps: seq<Step>): int {
    if steps == [] then 0
    else
      var front, last := steps[..|steps| - 1], steps[|steps| - 1];
      if last.StoreTime? then DegradedAt(front, last.c) + WINDOW else StoredEnd(front)
  }

  /** The state after these steps: the atomics, and the windows about to be stored. */
  ghost predicate Tracks(steps: seq<Step>, s: Shared) {
    && (s.degraded <==> FlagUp(steps))
    && s.recoverAt == StoredEnd(steps)
    && forall c :: c in s.callers && s.callers[c].Stamped? ==> s.callers[c].end == DegradedAt(steps, c) + WINDOW
  }

  lemma FlagAfter(steps: seq<Step>, x: Step)
    ensures FlagUp(steps + [x]) <==> x.Degrade? || (!x.Clear? && FlagUp(steps))
  {
    var all := steps + [x];
    if x.Degrade? {
      assert all[|steps|].Degrade? && NoClearAfter(all, |steps|);
    } else if !x.Clear? && FlagUp(steps) {
      var i :| 0 <= i < |steps| && steps[i].Degrade? && NoClearAfter(steps, i);
      assert all[i].Degrade? && NoClearAfter(all, i);
    }
    if FlagUp(all) && !x.Degrade? {
      var i :| 0 <= i < |all| && all[i].Degrade? && NoClearAfter(all, i);
      assert all[|steps|] == x && i < |steps|;
      assert forall j :: i < j < |steps| ==> all[j] == steps[j];
      assert steps[i].Degrade? && NoClearAfter(steps, i);
    }
  }

  lemma StepTracks(steps: seq<Step>, s: Shared, x: Step)
    requires Tracks(steps, s) && Enabled(s, x)
    ensures Tracks(steps + [x], Next(s, x))
  {
    FlagAfter(steps, x);
    assert (steps + [x])[..|steps|] == steps;
  }

  lemma {:induction false} RunTracks(past: seq<Step>, s: Shared, steps: seq<Step>, s': Shared)
    requires Tracks(past, s) && Run(s, steps, s')
    ensures Tracks(past + steps, s')
    decreases steps
  {
    if steps == [] {
      assert past + [] == past;
    } else {
      StepTracks(past, s, steps[0]);
      RunTracks(past + [steps[0]], Next(s, steps[0]), steps[1..], s');
      assert past + [steps[0]] + steps[1..] == past + steps;
    }
  }

  // ---- One half of the rule: the fallback ------------------------------------------------

  ghost predicate WindowEnd(limited: seq<int>, end: int) {
    exists i :: 0 <= i < |limited| && end == limited[i] + WINDOW
  }

  /** Stored times and recorded choices stem from errors that had happened. */
  ghost predicate Sound(s: Shared) {
    && 0 <= s.clock
    && (s.recoverAt == 0 || WindowEnd(s.limited, s.recoverAt))
    && (forall c :: c in s.callers ==> SoundCaller(s.callers[c], s.limited))
  }

  ghost predicate SoundCaller(caller: Caller, limited: seq<int>) {
    && (caller.Stamped? ==> WindowEnd(limited, caller.end))
    && (caller.SawClock? ==> 0 <= caller.at)
    && (caller.WillClear? || caller.Chose? ==> caller.errors <= |limited|)
    && (caller.Chose? && !caller.primary ==> InWindow(limited[..caller.errors], caller.at))
  }

  lemma SoundLater(caller: Caller, limited: seq<int>, now: int)
    requires SoundCaller(caller, limited)
    ensures SoundCaller(caller, limited + [now])
  {
    if caller.Stamped? {
      var i :| 0 <= i < |limited| && caller.end == limited[i] + WINDOW;
      assert caller.end == (limited + [now])[i] + WINDOW;
    }
    if caller.Chose? {
      assert (limited + [now])[..caller.errors] == limited[..caller.errors];
    }
  }

  lemma StepSound(s: Shared, x: Step)
    requires Sound(s) && Enabled(s, x)
    ensures Sound(Next(s, x))
  {
    match x
    case Stamp(c, now) => StampSound(s, c, now);
    case ReadTime(c) =>
      assert s.limited[..|s.limited|] == s.limited;
      if s.callers[c].at < s.recoverAt {
        var i :| 0 <= i < |s.limited| && s.recoverAt == s.limited[i] + WINDOW;
        assert s.callers[c].at < s.limited[i] + WINDOW;
      }
    case _ =>
  }

  lemma StampSound(s: Shared, c: nat, now: int)
    requires Sound(s) && Enabled(s, Stamp(c, now))
    ensures Sound(Next(s, Stamp(c, now)))
  {
    var more := s.limited + [now];
    assert more[|s.limited|] == now;
    forall d | d in s.callers ensures SoundCaller(s.callers[d], more) {
      SoundLater(s.callers[d], s.limited, now);
    }
    if s.recoverAt != 0 {
      var i :| 0 <= i < |s.limited| && s.recoverAt == s.limited[i] + WINDOW;
      assert s.recoverAt == more[i] + WINDOW;
    }
  }

  lemma {:induction false} RunSound(s: Shared, steps: seq<Step>, s': Shared)
    requires Sound(s) && Run(s, steps, s')
    ensures Sound(s')
    decreases steps
  {
    if steps != [] {
      StepSound(s, steps[0]);
      RunSound(Next(s, steps[0]), steps[1..], s');
    }
  }

  /** One half of the rule holds however the callers interleave: when a caller settled for the fallback, there had
      been an error less than 30 seconds before the time it looked up, or after it. */
  lemma FallbackOnlyInWindow(s0: Shared, steps: seq<Step>, s: Shared, c: nat)
    requires Initial(s0) && Run(s0, steps, s) && c in s.callers && s.callers[c].Chose? && !s.callers[c].primary
    ensures s.callers[c].errors <= |s.limited| && InWindow(s.limited[..s.callers[c].errors], s.callers[c].at)
  {
    RunSound(s0, steps, s);
  }

  // ---- The other half: exactly when the primary model is back too early ------------------

  /** The steps that settle a choice: the flag found clear, or the stored time read. */
  predicate Settles(s: Shared, x: Step)
    requires Enabled(s, x)
  {
    (x.ReadFlag? && !s.degraded) || x.ReadTime?
  }

  /** The time of the choice: the present one, or that looked up before. */
  function ChoiceTime(s: Shared, x: Step): int
    requires Enabled(s, x) && Settles(s, x)
  {
    if x.ReadTime? then s.callers[x.c].at else s.clock
  }

  /** The caller has settled for the primary model, at this time. */
  predicate TakesPrimary(caller: Caller, at: int) {
    (caller.WillClear? && caller.at == at) || (caller.Chose? && caller.primary && caller.at == at)
  }

  /** What brings the primary model back: for a caller that reads the flag, that somebody cleared it after
      the last degrade; for one that found it set, that the end stored last has passed. */
  ghost predicate Back(steps: seq<Step>, x: Step, at: int) {
    if x.ReadTime? then StoredEnd(steps) <= at else !FlagUp(steps)
  }

  /** The rule exactly, for every choice of every run.  Outside the window a caller settles for the primary
      model.  Inside the window it does so, against the rule, if and only if the flag was cleared since the last
      degrade or, having seen it set, the end stored last has passed; else it has chosen the
      fallback. */
  lemma ChoiceExact(s0: Shared, steps: seq<Step>, s: Shared, x: Step)
    requires Initial(s0) && Run(s0, steps, s) && Enabled(s, x) && Settles(s, x)
    ensures var caller, limited, at := Next(s, x).callers[x.c], s.limited, ChoiceTime(s, x);
            && (TakesPrimary(caller, at) || caller == Chose(false, at, |limited|))
            && (!InWindow(limited, at) ==> TakesPrimary(caller, at))
            && (InWindow(limited, at) ==> (TakesPrimary(caller, at) <==> Back(steps, x, at)))
  {
    assert !FlagUp([]);
    RunTracks([], s0, steps, s);
    assert [] + steps == steps;
    RunSound(s0, steps, s);
    StepSound(s, x);
    assert SoundCaller(Next(s, x).callers[x.c], s.limited);
    assert s.limited[..|s.limited|] == s.limited;
  }

  /** The state form: inside the window a caller that read flag and time now would get the primary model if
      and only if the flag was cleared since the last degrade or the end stored last has passed. */
  lemma PrimaryBackExact(s0: Shared, steps: seq<Step>, s: Shared, now: int)
    requires Initial(s0) && Run(s0, steps, s) && s.clock <= now
    ensures !s.degraded || s.recoverAt <= now <==> !FlagUp(steps) || StoredEnd(steps) <= now
    ensures s.degraded && now < s.recoverAt ==> InWindow(s.limited, now)
  {
    assert !FlagUp([]);
    RunTracks([], s0, steps, s);
    assert [] + steps == steps;
    RunSound(s0, steps, s);
    if s.degraded && now < s.recoverAt {
      var i :| 0 <= i < |s.limited| && s.recoverAt == s.limited[i] + WINDOW;
      assert now < s.limited[i] + WINDOW;
    }
  }

  // ---- Calls that do not overlap ---------------------------------------------------------

  /** Nobody else is between the steps of a choice or of a degrade. */
  ghost predicate Alone(s: Shared, c: nat) {
    forall d :: d in s.callers && d != c ==> MayCall(s.callers[d])
  }

  ghost predicate Orderly(s: Shared, steps: seq<Step>)
    decreases steps
  {
    steps == [] ||
    (Enabled(s, steps[0]) && Alone(s, steps[0].c) && Orderly(Next(s, steps[0]), steps[1..]))
  }

  /** The atomics say what the error times say, but for the caller at work. */
  ghost predicate Settled(s: Shared) {
    && (forall i, j :: 0 <= i < j < |s.limited| ==> s.limited[i] <= s.limited[j])
    && (forall i :: 0 <= i < |s.limited| ==> s.limited[i] <= s.clock)
    && (s.degraded && s.limited == [] ==> exists c :: c in s.callers && s.callers[c] == SetFlag)
    && (!s.degraded ==> !InWindow(s.limited, s.clock))
    && (s.limited != [] ==>
          || s.recoverAt == s.limited[|s.limited| - 1] + WINDOW
          || exists c :: c in s.callers && s.callers[c] == Stamped(s.limited[|s.limited| - 1] + WINDOW))
    && (forall c :: c in s.callers ==> SettledCaller(s, s.callers[c]))
  }

  ghost predicate SettledCaller(s: Shared, caller: Caller) {
    match caller
    case SawFlag => s.degraded && s.limited != []
    case SawClock(at) => s.degraded && s.limited != [] && at <= s.clock
    case WillClear(_, _) => !InWindow(s.limited, s.clock)
    case SetFlag => s.degraded
    case Stamped(end) => s.degraded && s.limited != [] && end == s.limited[|s.limited| - 1] + WINDOW
    case _ => true
  }

  lemma StepSettled(s: Shared, x: Step)
    requires Settled(s) && Enabled(s, x) && Alone(s, x.c)
    ensures Settled(Next(s, x))
  {
    match x
    case ReadFlag(c) => FlagSettled(s, c);
    case LookUp(c, now) => LookUpSettled(s, c, now);
    case ReadTime(c) => TimeSettled(s, c);
    case Clear(c) => ClearSettled(s, c);
    case Degrade(c) => DegradeSettled(s, c);
    case Stamp(c, now) => StampSettled(s, c, now);
    case StoreTime(c) => StoreSettled(s, c);
  }

  lemma FlagSettled(s: Shared, c: nat)
    requires Settled(s) && Enabled(s, ReadFlag(c)) && Alone(s, c)
    ensures Settled(Next(s, ReadFlag(c)))
  {
  }

  lemma LookUpSettled(s: Shared, c: nat, now: int)
    requires Settled(s) && Enabled(s, LookUp(c, now)) && Alone(s, c)
    ensures Settled(Next(s, LookUp(c, now)))
  {
    LastDecides(s.limited, now);
    LastDecides(s.limited, s.clock);
  }

  lemma TimeSettled(s: Shared, c: nat)
    requires Settled(s) && Enabled(s, ReadTime(c)) && Alone(s, c)
    ensures Settled(Next(s, ReadTime(c)))
  {
    LastDecides(s.limited, s.clock);
  }

  lemma ClearSettled(s: Shared, c: nat)
    requires Settled(s) && Enabled(s, Clear(c)) && Alone(s, c)
    ensures Settled(Next(s, Clear(c)))
  {
  }

  lemma DegradeSettled(s: Shared, c: nat)
    requires Settled(s) && Enabled(s, Degrade(c)) && Alone(s, c)
    ensures Settled(Next(s, Degrade(c)))
  {
    assert Next(s, Degrade(c)).callers[c] == SetFlag;
  }

  lemma StampSettled(s: Shared, c: nat, now: int)
    requires Settled(s) && Enabled(s, Stamp(c, now)) && Alone(s, c)
    ensures Settled(Next(s, Stamp(c, now)))
  {
    var s' := Next(s, Stamp(c, now));
    assert s'.limited[|s'.limited| - 1] == now && s'.callers[c] == Stamped(now + WINDOW);
  }

  lemma StoreSettled(s: Shared, c: nat)
    requires Settled(s) && Enabled(s, StoreTime(c)) && Alone(s, c)
    ensures Settled(Next(s, StoreTime(c)))
  {
  }

  lemma {:induction false} RunSettled(s: Shared, steps: seq<Step>, s': Shared)
    requires Settled(s) && Orderly(s, steps) && Run(s, steps, s')
    ensures Settled(s')
    decreases steps
  {
    if steps != [] {
      StepSettled(s, steps[0]);
      RunSettled(Next(s, steps[0]), steps[1..], s');
    }
  }

  /** When calls do not overlap, the rule holds of every choice: a caller settles for the primary model if and
      only if no error lies within the last 30 seconds. */
  lemma OrderlyKeepsRule(s0: Shared, steps: seq<Step>, s: Shared, x: Step)
    requires Initial(s0) && Run(s0, steps, s) && Orderly(s0, steps)
    requires Enabled(s, x) && Settles(s, x) && Alone(s, x.c)
    ensures TakesPrimary(Next(s, x).callers[x.c], ChoiceTime(s, x)) <==> !InWindow(s.limited, ChoiceTime(s, x))
  {
    RunSettled(s0, steps, s);
    LastDecides(s.limited, ChoiceTime(s, x));
  }

  // ---- The rule does break ---------------------------------------------------------------

  /** It does happen: a caller that saw the old window expire clears the flag right after another has
      degraded, and a choice inside the window takes the primary model.  The steps of each
      degrade are adjacent here. */
  lemma InterleavedDegradeIsLost() returns (s: Shared, steps: seq<Step>, s': Shared)
    ensures Initial(s) && Run(s, steps, s')
    ensures steps == [ReadFlag(1), Degrade(1), Stamp(1, 0), StoreTime(1)]
                   + [ReadFlag(0), ReadFlag(1), LookUp(1, WINDOW - 1), ReadTime(1), LookUp(0, WINDOW), ReadTime(0)]
                   + [Degrade(1), Stamp(1, WINDOW), StoreTime(1), Clear(0), ReadFlag(1)]
    ensures 1 in s'.callers && s'.callers[1] == Chose(true, WINDOW, 2) && s'.limited == [0, WINDOW]
    ensures InWindow(s'.limited, WINDOW)
  {
    s := Shared(false, 0, 0, map[0 := Idle, 1 := Idle], []);
    var first, s1 := FirstDegrade(s);
    var second, s2 := BothSeeTheFlag(s1);
    var third;
    third, s' := LateClear(s2);
    Chain(s, first, s1, second, s2);
    Chain(s, first + second, s2, third, s');
    steps := first + second + third;
    assert s'.limited[1] == WINDOW;
  }

  lemma FirstDegrade(s: Shared) returns (steps: seq<Step>, s': Shared)
    requires s == Shared(false, 0, 0, map[0 := Idle, 1 := Idle], [])
    ensures Run(s, steps, s') && steps == [ReadFlag(1), Degrade(1), Stamp(1, 0), StoreTime(1)]
    ensures s' == Shared(true, WINDOW, 0, map[0 := Idle, 1 := Idle], [0])
  {
    var s1 := Next(s, ReadFlag(1));
    var s2 := Next(s1, Degrade(1));
    var s3 := Next(s2, Stamp(1, 0));
    s' := Next(s3, StoreTime(1));
    RunCons(s3, StoreTime(1), [], s');
    RunCons(s2, Stamp(1, 0), [StoreTime(1)], s');
    RunCons(s1, Degrade(1), [Stamp(1, 0), StoreTime(1)], s');
    RunCons(s, ReadFlag(1), [Degrade(1), Stamp(1, 0), StoreTime(1)], s');
    steps := [ReadFlag(1), Degrade(1), Stamp(1, 0), StoreTime(1)];
  }

  lemma BothSeeTheFlag(s: Shared) returns (steps: seq<Step>, s': Shared)
    requires s == Shared(true, WINDOW, 0, map[0 := Idle, 1 := Idle], [0])
    ensures Run(s, steps, s')
    ensures steps == [ReadFlag(0), ReadFlag(1), LookUp(1, WINDOW - 1), ReadTime(1), LookUp(0, WINDOW), ReadTime(0)]
    ensures s' == Shared(true, WINDOW, WINDOW, map[0 := WillClear(WINDOW, 1), 1 := Chose(false, WINDOW - 1, 1)], [0])
  {
    var s1 := Next(s, ReadFlag(0));
    var s2 := Next(s1, ReadFlag(1));
    var s3 := Next(s2, LookUp(1, WINDOW - 1));
    var s4 := Next(s3, ReadTime(1));
    var s5 := Next(s4, LookUp(0, WINDOW));
    s' := Next(s5, ReadTime(0));
    RunCons(s5, ReadTime(0), [], s');
    RunCons(s4, LookUp(0, WINDOW), [ReadTime(0)], s');
    RunCons(s3, ReadTime(1), [LookUp(0, WINDOW), ReadTime(0)], s');
    RunCons(s2, LookUp(1, WINDOW - 1), [ReadTime(1), LookUp(0, WINDOW), ReadTime(0)], s');
    RunCons(s1, ReadFlag(1), [LookUp(1, WINDOW - 1), ReadTime(1), LookUp(0, WINDOW), ReadTime(0)], s');
    steps := [ReadFlag(0), ReadFlag(1), LookUp(1, WINDOW - 1), ReadTime(1), LookUp(0, WINDOW), ReadTime(0)];
    RunCons(s, ReadFlag(0), steps[1..], s');
    assert [ReadFlag(0)] + steps[1..] == steps;
  }

  lemma LateClear(s: Shared) returns (steps: seq<Step>, s': Shared)
    requires s == Shared(true, WINDOW, WINDOW, map[0 := WillClear(WINDOW, 1), 1 := Chose(false, WINDOW - 1, 1)], [0])
    ensures Run(s, steps, s') && steps == [Degrade(1), Stamp(1, WINDOW), StoreTime(1), Clear(0), ReadFlag(1)]
    ensures 1 in s'.callers && s'.callers[1] == Chose(true, WINDOW, 2) && s'.limited == [0, WINDOW]
  {
    var s1 := Next(s, Degrade(1));
    var s2 := Next(s1, Stamp(1, WINDOW));
    var s3 := Next(s2, StoreTime(1));
    var s4 := Next(s3, Clear(0));
    s' := Next(s4, ReadFlag(1));
    RunCons(s4, ReadFlag(1), [], s');
    RunCons(s3, Clear(0), [ReadFlag(1)], s');
    RunCons(s2, StoreTime(1), [Clear(0), ReadFlag(1)], s');
    RunCons(s1, Stamp(1, WINDOW), [StoreTime(1), Clear(0), ReadFlag(1)], s');
    RunCons(s, Degrade(1), [Stamp(1, WINDOW), StoreTime(1), Clear(0), ReadFlag(1)], s');
    steps := [Degrade(1), Stamp(1, WINDOW), StoreTime(1), Clear(0), ReadFlag(1)];
  }

  lemma RunCons(s: Shared, x: Step, steps: seq<Step>, s': Shared)
    requires Enabled(s, x) && Run(Next(s, x), steps, s')
    ensures Run(s, [x] + steps, s')
  {
    assert ([x] + steps)[1..] == steps;
  }

  lemma {:induction false} Chain(s: Shared, steps: seq<Step>, s1: Shared, more: seq<Step>, s': Shared)
    requires Run(s, steps, s1) && Run(s1, more, s')
    ensures Run(s, steps + more, s')
    decreases steps
  {
    if steps == [] {
      assert [] + more == more;
    } else {
      assert (steps + more)[1..] == steps[1..] + more;
      Chain(Next(s, steps[0]), steps[1..], s1, more, s');
    }
  }
}
