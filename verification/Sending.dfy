/** What `sendMessage` does with one message, said in terms of the configuration, the bots and the text alone:
    which output it finds, where it cuts, which bot is asked for what, and what is shown afterwards. */
module Sending {
  import opened Types
  import opened Splitter
  import opened Rotation
  import opened Sections
  import opened Passes

  /** The accounts an output sends with, in the order of the rotation. */
  ghost predicate SendsWith(o: OutputConfig, accounts: seq<string>) {
    if o.accounts != [] then accounts == o.accounts
    else if o.account != "" then accounts == [o.account]
    else accounts == []
  }

  /** No output of the name, or one without an account: nothing is sent, counted or shown. */
  lemma NothingWithoutAccount(c: Ctl, outputs: seq<OutputConfig>, m: DelayedMsg, pool: Pool, errors: int -> set<nat>)
    requires forall i: nat :: First(outputs, i, m.output) ==> SendsWith(outputs[i], [])
    ensures SendOn(c, outputs, m, pool, errors) == c
  {
    FoundFirst(outputs, m.output);
    if FindOutput(outputs, m.output) != [] {
      var i: nat :| First(outputs, i, m.output);
      assert FindOutput(outputs, m.output) == [outputs[i]];
    }
  }

  /** The chunks: the wrapped stretches of the text between right cuts, or the whole when it fits, nothing limits it
      or the limit leaves no room; the limit is the least of the bots present, the prefix ends with the emoji of the
      message's number when that is shown. */
  ghost predicate ChunksOf(chunks: seq<string>, o: OutputConfig, m: DelayedMsg, accounts: seq<string>, pool: Pool,
          prefix: string, limit: int, cuts: seq<nat>)
  {
    && o.prefix <= prefix
    && (if o.showSeq then Keycap(prefix[|o.prefix|..], m.seqNum) else prefix == o.prefix)
    && LeastLimit(accounts, pool, limit)
    && Between(chunks, m.text, prefix, o.suffix, cuts, 0)
    && (limit == 0 || |prefix| + |m.text| + |o.suffix| <= limit || limit <= |prefix| + |o.suffix| ==> |chunks| == 1)
    && (0 < limit < |prefix| + |m.text| + |o.suffix| && |prefix| + |o.suffix| < limit ==>
          RightCuts(m.text, limit - |prefix| - |o.suffix|, cuts))
  }

  /** What was handed to bots: chunk by chunk to the accounts in rotation from `start` on, up to the first bot that is
      there and fails. */
  ghost predicate HandedOver(more: seq<Delivered>, chunks: seq<string>, name: string, accounts: seq<string>, start: nat,
          pool: Pool, fails: set<nat>)
    requires accounts != []
  {
    && UpToFailure(|more|, chunks, accounts, start, pool, fails)
    && forall j: nat :: j < |more| ==>
         && more[j].output == name
         && Attempted(more[j].attempt, chunks[j], accounts, start, pool, fails, j)
         && LimitOf(more[j], accounts[more[j].attempt.account], pool)
  }

  ghost predicate LimitOf(d: Delivered, account: string, pool: Pool) {
    d.limit == if account in pool && pool[account] > 0 then pool[account] else 0
  }

  /** Under the mutex only the recent list of the output has changed: it shows the text last, and five texts at most. */
  ghost predicate OnlyRecent(sh: Shared, sh': Shared, m: DelayedMsg) {
    && sh'.paused == sh.paused && sh'.skip == sh.skip && sh'.nextId == sh.nextId && sh'.ui.Keys == sh.ui.Keys
    && forall n :: n in sh.ui ==>
         && sh'.ui[n] == sh.ui[n].(recent := sh'.ui[n].recent)
         && if n == m.output then LastFive(sh'.ui[n].recent, sh.ui[n].recent + [m.text])
            else sh'.ui[n].recent == sh.ui[n].recent
  }

  /** The stored index of the output is at the account after the one tried last; those of others stay. */
  ghost predicate Advanced(rr: map<string, nat>, rr': map<string, nat>, name: string, n: nat, k: nat)
    requires k > 0
  {
    && rr'.Keys == rr.Keys + {name}
    && rr'[name] % k == ((if name in rr then rr[name] else 0) + n) % k
    && forall x :: x in rr && x != name ==> rr'[x] == rr[x]
  }

  /** A message of an output with accounts: all of that. */
  lemma SendExact(c: Ctl, outputs: seq<OutputConfig>, i: nat, accounts: seq<string>, m: DelayedMsg, pool: Pool,
      errors: int -> set<nat>)
    returns (chunks: seq<string>, more: seq<Delivered>, prefix: string, limit: int, cuts: seq<nat>)
    requires First(outputs, i, m.output) && SendsWith(outputs[i], accounts) && accounts != []
    ensures ChunksOf(chunks, outputs[i], m, accounts, pool, prefix, limit, cuts)
    ensures HandedOver(more, chunks, m.output, accounts, if m.output in c.rr then c.rr[m.output] else 0, pool,
                       errors(m.id))
    ensures var c' := SendOn(c, outputs, m, pool, errors);
            && c'.log == c.log + more && OnlyRecent(c.sh, c'.sh, m)
            && Advanced(c.rr, c'.rr, m.output, |more|, |accounts|)
  {
    FoundFirst(outputs, m.output);
    var o := outputs[i];
    assert FindOutput(outputs, m.output) == [o] && o.AccountPool() == accounts;
    chunks, prefix, limit, cuts := ChunksAre(o, m, accounts, pool);
    more := AttemptsAre(c.rr, o, m, accounts, pool, errors(m.id), chunks);
    RecentChanges(c.sh, m);
    IndexAdvances(c.rr, m.output, |more|, |accounts|);
  }

  lemma ChunksAre(o: OutputConfig, m: DelayedMsg, accounts: seq<string>, pool: Pool)
    returns (chunks: seq<string>, prefix: string, limit: int, cuts: seq<nat>)
    ensures chunks == Chunks(m.text, FullPrefix(o, m.seqNum), o.suffix, MinLimit(accounts, pool))
    ensures ChunksOf(chunks, o, m, accounts, pool, prefix, limit, cuts)
  {
    prefix, limit := FullPrefix(o, m.seqNum), MinLimit(accounts, pool);
    var emoji := PrefixExact(o, m.seqNum);
    assert prefix[|o.prefix|..] == emoji;
    LimitIsLeast(accounts, pool);
    cuts := ChunksExact(m.text, prefix, o.suffix, limit);
    chunks := Chunks(m.text, prefix, o.suffix, limit);
  }

  lemma AttemptsAre(rr: map<string, nat>, o: OutputConfig, m: DelayedMsg, accounts: seq<string>, pool: Pool,
      fails: set<nat>, chunks: seq<string>) returns (more: seq<Delivered>)
    requires accounts == o.AccountPool() != []
    requires chunks == Chunks(m.text, FullPrefix(o, m.seqNum), o.suffix, MinLimit(accounts, pool))
    ensures more == Tagged(m.output, MessageAttempts(rr, o, m, pool, fails), accounts, pool)
    ensures HandedOver(more, chunks, m.output, accounts, Index(rr, m.output), pool, fails)
  {
    var attempts := MessageAttempts(rr, o, m, pool, fails);
    AttemptsExact(chunks, accounts, Index(rr, m.output), pool, fails);
    more := Tagged(m.output, attempts, accounts, pool);
    assert forall j: nat :: j < |more| ==> more[j] == Tag(m.output, attempts[j], accounts, pool);
  }

  lemma RecentChanges(sh: Shared, m: DelayedMsg)
    ensures OnlyRecent(sh, NoteSent(sh, m), m)
  {
    if m.output in sh.ui {
      var all := sh.ui[m.output].recent + [m.text];
      FewIsFive(all, LastFew(all));
    }
  }

  lemma IndexAdvances(rr: map<string, nat>, name: string, n: nat, k: nat)
    requires k > 0
    ensures Advanced(rr, rr[name := NextIndex(Index(rr, name), n, k)], name, n, k)
  {
    ModAdd(Index(rr, name) + n, 0, k);
  }
}
