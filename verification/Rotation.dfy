/** Sending one message: the length limit of an account pool, the chunk attempts on it, and the
    round-robin rotation over the accounts.  A bot pool maps an account name to its
    message limit (0 or less: no limit); the bots' answers are parameters. */
module Rotation {
  import opened Types
  import opened Splitter

  type Pool = map<string, int>

  datatype Reply = Missing | Sent | Failed
  datatype Attempt = Attempt(account: nat, chunk: string, reply: Reply)

  const SEQ_EMOJIS: seq<string> := [
    "0\U{FE0F}\U{20E3}", "1\U{FE0F}\U{20E3}", "2\U{FE0F}\U{20E3}", "3\U{FE0F}\U{20E3}",
    "4\U{FE0F}\U{20E3}", "5\U{FE0F}\U{20E3}", "6\U{FE0F}\U{20E3}", "7\U{FE0F}\U{20E3}",
    "8\U{FE0F}\U{20E3}", "9\U{FE0F}\U{20E3}", "\U{1F51F}"]

  /** The configured prefix, followed by the number emoji when those are shown. */
  function FullPrefix(o: OutputConfig, seqNum: nat): string {
    o.prefix + if o.showSeq then SEQ_EMOJIS[seqNum % |SEQ_EMOJIS|] else ""
  }

  /** The emoji for a message: its number modulo eleven as a keycap, the last one being the keycap ten. */
  ghost predicate Keycap(emoji: string, seqNum: nat) {
    var d := seqNum % 11;
    emoji == if d == 10 then "\U{1F51F}" else ["0123456789"[d], '\U{FE0F}', '\U{20E3}']
  }

  lemma PrefixExact(o: OutputConfig, seqNum: nat) returns (emoji: string)
    ensures FullPrefix(o, seqNum) == o.prefix + emoji
    ensures if o.showSeq then Keycap(emoji, seqNum) else emoji == ""
  {
    emoji := if o.showSeq then SEQ_EMOJIS[seqNum % |SEQ_EMOJIS|] else "";
  }

  // ---- The limit of a pool ---------------------------------------------------------------

  predicate Limited(accounts: seq<string>, pool: Pool, k: nat) {
    k < |accounts| && accounts[k] in pool && pool[accounts[k]] > 0
  }

  /** `limit` is the least positive limit of the bots present, or 0 when none has one. */
  ghost predicate IsMinLimit(accounts: seq<string>, pool: Pool, limit: int) {
    && 0 <= limit
    && (limit == 0 <==> forall k: nat :: !Limited(accounts, pool, k))
    && (limit > 0 ==> exists k: nat :: Limited(accounts, pool, k) && pool[accounts[k]] == limit)
    && (forall k: nat :: Limited(accounts, pool, k) ==> limit <= pool[accounts[k]])
  }

  function MinLimit(accounts: seq<string>, pool: Pool): (limit: int)
    ensures IsMinLimit(accounts, pool, limit)
  {
    if accounts == [] then 0
    else
      var last := |accounts| - 1;
      var front := MinLimit(accounts[..last], pool);
      assert forall k: nat :: k < last ==> Limited(accounts, pool, k) == Limited(accounts[..last], pool, k);
      if Limited(accounts, pool, last) && (front <= 0 || pool[accounts[last]] < front)
      then pool[accounts[last]] else front
  }

  /** The least positive limit of the bots present, 0 when none has one, said account by account. */
  ghost predicate LeastLimit(accounts: seq<string>, pool: Pool, limit: int) {
    && 0 <= limit
    && (forall a :: a in accounts && a in pool && pool[a] > 0 ==> 0 < limit <= pool[a])
    && (limit > 0 ==> exists a :: a in accounts && a in pool && pool[a] == limit)
  }

  lemma LimitIsLeast(accounts: seq<string>, pool: Pool)
    ensures LeastLimit(accounts, pool, MinLimit(accounts, pool))
  {
    var limit := MinLimit(accounts, pool);
    forall a | a in accounts && a in pool && pool[a] > 0 ensures 0 < limit <= pool[a] {
      var k: nat :| k < |accounts| && accounts[k] == a;
      assert Limited(accounts, pool, k);
    }
    if limit > 0 {
      var k: nat :| Limited(accounts, pool, k) && pool[accounts[k]] == limit;
      assert accounts[k] in accounts && accounts[k] in pool && pool[accounts[k]] == limit;
    }
  }

  /** The limit of the k-th bot, 0 if it has none or is missing. */
  function BotLimit(accounts: seq<string>, pool: Pool, k: nat): int {
    if Limited(accounts, pool, k) then pool[accounts[k]] else 0
  }

  // ---- The attempts of one message -------------------------------------------------------

  function ReplyOf(pool: Pool, account: string, fails: bool): Reply {
    if account !in pool then Missing else if fails then Failed else Sent
  }

  /** The account after this one in the rotation over `k`. */
  function Following(idx: nat, k: nat): (next: nat)
    requires k > 0
    ensures next < k
  {
    (idx + 1) % k
  }

  /** The attempts for `chunks` from account `idx` on: a missing bot loses its chunk, a failed
      send gives up the rest of the message.  `fails` are the chunks whose send returns an error. */
  function Attempts(chunks: seq<string>, n: nat, accounts: seq<string>, idx: nat, pool: Pool, fails: set<nat>)
    : (attempts: seq<Attempt>)
    requires n <= |chunks| && idx < |accounts|
    ensures |attempts| <= |chunks| - n
    decreases |chunks| - n
  {
    if n == |chunks| then []
    else
      var reply := ReplyOf(pool, accounts[idx], n in fails);
      [Attempt(idx, chunks[n], reply)] +
      if reply == Failed then []
      else Attempts(chunks, n + 1, accounts, Following(idx, |accounts|), pool, fails)
  }

  /** Attempts that follow the chunks and the rotation, none after a failure. */
  ghost predicate Chain(made: seq<Attempt>, chunks: seq<string>, accounts: seq<string>, first: nat, pool: Pool,
          fails: set<nat>)
    requires accounts != []
  {
    && |made| <= |chunks|
    && (forall j :: 0 <= j < |made| ==>
          && made[j].account < |accounts|
          && made[j].chunk == chunks[j]
          && made[j].reply == ReplyOf(pool, accounts[made[j].account], j in fails)
          && (j < |made| - 1 ==> made[j].reply != Failed))
    && (made != [] ==> made[0].account == first)
    && (forall j :: 0 < j < |made| ==> Linked(made, j, |accounts|))
  }

  ghost predicate Linked(made: seq<Attempt>, j: nat, k: nat)
    requires 0 < j < |made| && 0 < k
  {
    made[j].account == Following(made[j - 1].account, k)
  }

  /** A chain that ends with the last chunk or with a failure is what `Attempts` computes. */
  lemma ChainIsAttempts(made: seq<Attempt>, chunks: seq<string>, accounts: seq<string>, first: nat, pool: Pool,
          fails: set<nat>)
    requires first < |accounts| && Chain(made, chunks, accounts, first, pool, fails)
    requires |made| == |chunks| || (made != [] && made[|made| - 1].reply == Failed)
    ensures made == Attempts(chunks, 0, accounts, first, pool, fails)
  {
    if made != [] {
      ChainFrom(made, chunks, accounts, first, pool, fails, 0);
      assert made[0..] == made;
    }
  }

  lemma ChainGrows(made: seq<Attempt>, chunks: seq<string>, accounts: seq<string>, first: nat, pool: Pool,
          fails: set<nat>, slot: nat)
    requires slot < |accounts| && |made| < |chunks| && Chain(made, chunks, accounts, first, pool, fails)
    requires made == [] ==> slot == first
    requires made != [] ==> made[|made| - 1].reply != Failed && slot == Following(made[|made| - 1].account, |accounts|)
    ensures Chain(made + [Attempt(slot, chunks[|made|], ReplyOf(pool, accounts[slot], |made| in fails))],
                  chunks, accounts, first, pool, fails)
  {
    var more := made + [Attempt(slot, chunks[|made|], ReplyOf(pool, accounts[slot], |made| in fails))];
    forall j | 0 < j < |more| ensures Linked(more, j, |accounts|) {
      if j < |made| { assert Linked(made, j, |accounts|); }
    }
  }

  lemma {:induction false} ChainFrom(made: seq<Attempt>, chunks: seq<string>, accounts: seq<string>, first: nat,
          pool: Pool, fails: set<nat>, n: nat)
    requires accounts != [] && Chain(made, chunks, accounts, first, pool, fails) && n < |made|
    requires |made| == |chunks| || made[|made| - 1].reply == Failed
    ensures made[n..] == Attempts(chunks, n, accounts, made[n].account, pool, fails)
    decreases |made| - n
  {
    if n < |made| - 1 {
      ChainFrom(made, chunks, accounts, first, pool, fails, n + 1);
      assert Linked(made, n + 1, |accounts|);
      assert made[n..] == [made[n]] + made[n + 1..];
    } else {
      assert made[n..] == [made[n]];
    }
  }

  /** The attempts go through the chunks in order and through the accounts in rotation; only
      the last one may have failed, and without a failure every chunk was attempted. */
  lemma {:induction false} AttemptsRotate(chunks: seq<string>, n: nat, accounts: seq<string>, idx: nat, pool: Pool,
          fails: set<nat>)
    requires n <= |chunks| && idx < |accounts|
    ensures var attempts := Attempts(chunks, n, accounts, idx, pool, fails);
            && (forall j :: 0 <= j < |attempts| ==>
                  && attempts[j].account == (idx + j) % |accounts|
                  && attempts[j].chunk == chunks[n + j]
                  && attempts[j].reply == ReplyOf(pool, accounts[attempts[j].account], n + j in fails))
            && (forall j :: 0 <= j < |attempts| - 1 ==> attempts[j].reply != Failed)
            && (|attempts| == |chunks| - n || (attempts != [] && attempts[|attempts| - 1].reply == Failed))
    decreases |chunks| - n
  {
    var attempts := Attempts(chunks, n, accounts, idx, pool, fails);
    forall j | 0 <= j < |attempts|
      ensures attempts[j].account == (idx + j) % |accounts| && attempts[j].chunk == chunks[n + j]
      ensures attempts[j].reply == ReplyOf(pool, accounts[attempts[j].account], n + j in fails)
      ensures j < |attempts| - 1 ==> attempts[j].reply != Failed
    {
      AttemptAccount(chunks, n, accounts, idx, pool, fails, j);
      AttemptReply(chunks, n, accounts, idx, pool, fails, j);
    }
    LastAttempt(chunks, n, accounts, idx, pool, fails);
  }

  lemma {:induction false} AttemptAccount(chunks: seq<string>, n: nat, accounts: seq<string>, idx: nat, pool: Pool,
          fails: set<nat>, j: nat)
    requires n <= |chunks| && idx < |accounts| && j < |Attempts(chunks, n, accounts, idx, pool, fails)|
    ensures Attempts(chunks, n, accounts, idx, pool, fails)[j].account == (idx + j) % |accounts|
    decreases j
  {
    if j == 0 {
      SmallMod(idx, |accounts|);
    } else {
      AttemptAccount(chunks, n + 1, accounts, Following(idx, |accounts|), pool, fails, j - 1);
      FollowingTurn(idx, j, |accounts|);
    }
  }

  lemma SmallMod(idx: nat, k: nat)
    requires idx < k
    ensures (idx + 0) % k == idx
  {
    DivModUnique(idx, k, 0, idx);
  }

  lemma FollowingTurn(idx: nat, j: nat, k: nat)
    requires k > 0 && j > 0
    ensures (Following(idx, k) + (j - 1)) % k == (idx + j) % k
  {
    ModAdd(idx + 1, j - 1, k);
  }

  lemma {:induction false} AttemptReply(chunks: seq<string>, n: nat, accounts: seq<string>, idx: nat, pool: Pool,
          fails: set<nat>, j: nat)
    requires n <= |chunks| && idx < |accounts| && j < |Attempts(chunks, n, accounts, idx, pool, fails)|
    ensures var attempts := Attempts(chunks, n, accounts, idx, pool, fails);
            && attempts[j].account < |accounts|
            && attempts[j].chunk == chunks[n + j]
            && attempts[j].reply == ReplyOf(pool, accounts[attempts[j].account], n + j in fails)
            && (j < |attempts| - 1 ==> attempts[j].reply != Failed)
    decreases j
  {
    if j > 0 {
      AttemptReply(chunks, n + 1, accounts, Following(idx, |accounts|), pool, fails, j - 1);
    }
  }

  lemma {:induction false} LastAttempt(chunks: seq<string>, n: nat, accounts: seq<string>, idx: nat, pool: Pool,
          fails: set<nat>)
    requires n <= |chunks| && idx < |accounts|
    ensures var attempts := Attempts(chunks, n, accounts, idx, pool, fails);
            |attempts| == |chunks| - n || (attempts != [] && attempts[|attempts| - 1].reply == Failed)
    decreases |chunks| - n
  {
    if n < |chunks| && ReplyOf(pool, accounts[idx], n in fails) == Failed {
      assert Attempts(chunks, n, accounts, idx, pool, fails) == [Attempt(idx, chunks[n], Failed)];
    } else if n < |chunks| {
      var rest := Attempts(chunks, n + 1, accounts, Following(idx, |accounts|), pool, fails);
      LastAttempt(chunks, n + 1, accounts, Following(idx, |accounts|), pool, fails);
      LastStays(Attempts(chunks, n, accounts, idx, pool, fails), rest);
    }
  }

  lemma LastStays(attempts: seq<Attempt>, rest: seq<Attempt>)
    requires attempts != [] && attempts[1..] == rest
    ensures |attempts| == |rest| + 1 && (rest != [] ==> attempts[|attempts| - 1] == rest[|rest| - 1])
  {
  }

  /** Chunk `j` meets a bot that is there and returns an error, when the rotation begins at `start`. */
  ghost predicate Stops(accounts: seq<string>, start: nat, pool: Pool, fails: set<nat>, j: nat)
    requires accounts != []
  {
    accounts[(start + j) % |accounts|] in pool && j in fails
  }

  /** The j-th attempt: the account j places after the start, the j-th chunk, and the reply that the bot being there
      and its error decide. */
  ghost predicate Attempted(a: Attempt, chunk: string, accounts: seq<string>, start: nat, pool: Pool, fails: set<nat>,
          j: nat)
    requires accounts != []
  {
    && a.account == (start + j) % |accounts| && a.chunk == chunk
    && (a.reply == Missing <==> accounts[a.account] !in pool)
    && (a.reply == Failed <==> accounts[a.account] in pool && j in fails)
  }

  /** Up to the first chunk whose bot is there and fails all chunks are attempted, or all when there is none; a missing
      bot does not end the message. */
  ghost predicate UpToFailure(n: nat, chunks: seq<string>, accounts: seq<string>, start: nat, pool: Pool,
          fails: set<nat>)
    requires accounts != []
  {
    && n <= |chunks|
    && (forall j: nat :: j < n - 1 ==> !Stops(accounts, start, pool, fails, j))
    && (n < |chunks| ==> n > 0 && Stops(accounts, start, pool, fails, n - 1))
  }

  lemma AttemptsExact(chunks: seq<string>, accounts: seq<string>, start: nat, pool: Pool, fails: set<nat>)
    requires accounts != []
    ensures var attempts := Attempts(chunks, 0, accounts, start % |accounts|, pool, fails);
            && (forall j: nat :: j < |attempts| ==>
                  Attempted(attempts[j], chunks[j], accounts, start, pool, fails, j))
            && UpToFailure(|attempts|, chunks, accounts, start, pool, fails)
  {
    var attempts := Attempts(chunks, 0, accounts, start % |accounts|, pool, fails);
    forall j: nat | j < |attempts|
      ensures Attempted(attempts[j], chunks[j], accounts, start, pool, fails, j)
      ensures attempts[j].reply == Failed <==> Stops(accounts, start, pool, fails, j)
      ensures j < |attempts| - 1 ==> attempts[j].reply != Failed
    {
      AttemptExact(chunks, accounts, start, pool, fails, attempts, j);
    }
    LastAttempt(chunks, 0, accounts, start % |accounts|, pool, fails);
  }

  lemma AttemptExact(chunks: seq<string>, accounts: seq<string>, start: nat, pool: Pool, fails: set<nat>,
          attempts: seq<Attempt>, j: nat)
    requires accounts != [] && attempts == Attempts(chunks, 0, accounts, start % |accounts|, pool, fails)
    requires j < |attempts|
    ensures Attempted(attempts[j], chunks[j], accounts, start, pool, fails, j)
    ensures attempts[j].reply == Failed <==> Stops(accounts, start, pool, fails, j)
    ensures j < |attempts| - 1 ==> attempts[j].reply != Failed
  {
    AttemptAccount(chunks, 0, accounts, start % |accounts|, pool, fails, j);
    AttemptReply(chunks, 0, accounts, start % |accounts|, pool, fails, j);
    ModAdd(start, j, |accounts|);
  }

  /** The number of attempts is determined by that. */
  lemma OneFailure(n: nat, k: nat, chunks: seq<string>, accounts: seq<string>, start: nat, pool: Pool, fails: set<nat>)
    requires accounts != [] && UpToFailure(n, chunks, accounts, start, pool, fails)
    requires k == |chunks| || (k < |chunks| && Stops(accounts, start, pool, fails, k))
    requires forall j: nat :: j < k ==> !Stops(accounts, start, pool, fails, j)
    ensures n == if k < |chunks| then k + 1 else |chunks|
  {
  }

  lemma ModAdd(a: nat, b: nat, k: nat)
    requires k > 0
    ensures (a % k + b) % k == (a + b) % k
  {
    var q := a / k;
    ModShift(a % k + b, q, k);
    assert a + b == q * k + (a % k + b);
  }

  lemma {:induction false} ModShift(x: nat, q: nat, k: nat)
    requires k > 0
    ensures (q * k + x) % k == x % k
    decreases q
  {
    if q > 0 {
      ModShift(x, q - 1, k);
      var y := (q - 1) * k + x;
      assert q * k + x == y + k;
      ModStep(y, k);
    }
  }

  lemma ModStep(y: nat, k: nat)
    requires k > 0
    ensures (y + k) % k == y % k
  {
    var q, r := y / k, y % k;
    assert y + k == (q + 1) * k + r;
    DivModUnique(y + k, k, q + 1, r);
  }

  lemma DivModUnique(x: nat, k: nat, q: nat, r: nat)
    requires k > 0 && x == q * k + r && r < k
    ensures x / k == q && x % k == r
  {
    var q', r' := x / k, x % k;
    assert q' * k + r' == q * k + r;
    if q' > q { MulMono(q + 1, q', k); OneMore(q, k); }
    if q' < q { MulMono(q' + 1, q, k); OneMore(q', k); }
  }

  // ---- Every chunk fits whichever account gets it ----------------------------------------

  predicate Fits(accounts: seq<string>, pool: Pool, k: nat, chunk: string) {
    Limited(accounts, pool, k) ==> |chunk| <= pool[accounts[k]]
  }

  /** With the pool unchanged during the send, all chunks fit all bots of the pool (wherever
      the rotation stands) exactly when the whole text fits or the least limit leaves room
      beside prefix and suffix. */
  lemma ChunksFitEveryAccount(text: string, prefix: string, suffix: string, accounts: seq<string>, pool: Pool)
    ensures var limit := MinLimit(accounts, pool);
            var chunks := Chunks(text, prefix, suffix, limit);
            (forall k: nat, n :: 0 <= n < |chunks| ==> Fits(accounts, pool, k, chunks[n]))
            <==> limit == 0 || |prefix + text + suffix| <= limit || limit > |prefix| + |suffix|
  {
    var limit := MinLimit(accounts, pool);
    var chunks := Chunks(text, prefix, suffix, limit);
    if limit > 0 {
      ChunksFit(text, prefix, suffix, limit);
      var k: nat :| Limited(accounts, pool, k) && pool[accounts[k]] == limit;
      assert forall n :: 0 <= n < |chunks| ==> (Fits(accounts, pool, k, chunks[n]) <==> |chunks[n]| <= limit);
    }
  }

  /** Hence, under that condition, no attempt of a send hands a bot a message over its limit. */
  lemma AttemptsFit(text: string, prefix: string, suffix: string, accounts: seq<string>, idx: nat, pool: Pool,
          fails: set<nat>)
    requires idx < |accounts|
    requires var limit := MinLimit(accounts, pool);
             limit == 0 || |prefix + text + suffix| <= limit || limit > |prefix| + |suffix|
    ensures var chunks := Chunks(text, prefix, suffix, MinLimit(accounts, pool));
            forall a :: a in Attempts(chunks, 0, accounts, idx, pool, fails) ==>
              a.account < |accounts| && Fits(accounts, pool, a.account, a.chunk)
  {
    var chunks := Chunks(text, prefix, suffix, MinLimit(accounts, pool));
    ChunksFitEveryAccount(text, prefix, suffix, accounts, pool);
    AttemptsRotate(chunks, 0, accounts, idx, pool, fails);
  }

  // ---- The stored index, and counting turns ----------------------------------------------

  /** The stored index after `n` attempts with `k` accounts. */
  function NextIndex(rr: nat, n: nat, k: nat): nat
    requires k > 0
  {
    if n == 0 then rr else (rr + n) % k
  }

  /** The index stored after a message is the one that follows the account tried last. */
  lemma FinalIndex(chunks: seq<string>, accounts: seq<string>, rr: nat, pool: Pool, fails: set<nat>)
    requires accounts != []
    ensures var k := |accounts|;
            var attempts := Attempts(chunks, 0, accounts, rr % k, pool, fails);
            attempts != [] ==> Following(attempts[|attempts| - 1].account, k) == NextIndex(rr, |attempts|, k)
  {
    var k := |accounts|;
    var attempts := Attempts(chunks, 0, accounts, rr % k, pool, fails);
    if attempts != [] {
      var last := |attempts| - 1;
      AttemptAccount(chunks, 0, accounts, rr % k, pool, fails, last);
      NextAfter(rr, last, k);
    }
  }

  /** The indices stored when the attempts made so far began with `before`. */
  function IndexAfter(before: map<string, nat>, name: string, made: seq<Attempt>, k: nat): map<string, nat>
    requires k > 0
  {
    if made == [] then before else before[name := Following(made[|made| - 1].account, k)]
  }

  lemma ChainStores(made: seq<Attempt>, chunks: seq<string>, accounts: seq<string>, rr: nat, pool: Pool,
          fails: set<nat>, before: map<string, nat>, name: string)
    requires accounts != [] && Chain(made, chunks, accounts, rr % |accounts|, pool, fails)
    requires |made| == |chunks| || (made != [] && made[|made| - 1].reply == Failed)
    ensures made == Attempts(chunks, 0, accounts, rr % |accounts|, pool, fails)
    ensures IndexAfter(before, name, made, |accounts|)
         == if made == [] then before else before[name := NextIndex(rr, |made|, |accounts|)]
  {
    ChainIsAttempts(made, chunks, accounts, rr % |accounts|, pool, fails);
    FinalIndex(chunks, accounts, rr, pool, fails);
  }

  lemma NextAfter(rr: nat, last: nat, k: nat)
    requires k > 0
    ensures Following((rr % k + last) % k, k) == (rr + (last + 1)) % k
  {
    ModAdd(rr, last, k);
    ModAdd(rr + last, 1, k);
  }

  function Tries(attempts: seq<Attempt>, account: nat): nat {
    if attempts == [] then 0
    else Tries(attempts[..|attempts| - 1], account) + if attempts[|attempts| - 1].account == account then 1 else 0
  }

  lemma {:induction false} CyclicTries(attempts: seq<Attempt>, k: nat, account: nat)
    requires account < k && forall j :: 0 <= j < |attempts| ==> attempts[j].account == j % k
    ensures Tries(attempts, account) == |attempts| / k + if account < |attempts| % k then 1 else 0
    decreases |attempts|
  {
    if attempts == [] {
      DivModUnique(0, k, 0, 0);
    } else {
      CyclicTries(attempts[..|attempts| - 1], k, account);
      NextTurn(|attempts| - 1, k, account);
    }
  }

  lemma NextTurn(n: nat, k: nat, account: nat)
    requires account < k
    ensures (n + 1) / k + (if account < (n + 1) % k then 1 else 0)
         == n / k + (if account < n % k then 1 else 0) + (if n % k == account then 1 else 0)
  {
    var q, r := n / k, n % k;
    assert n + 1 == q * k + (r + 1);
    if r + 1 < k {
      DivModUnique(n + 1, k, q, r + 1);
    } else {
      OneMore(q, k);
      DivModUnique(n + 1, k, q + 1, 0);
    }
  }
}
