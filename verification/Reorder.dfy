/** The per-output reorder buffer: texts arrive under their sequence numbers in any order and
    leave in sequence. */
module Reorder {
  import opened Types

  /** Releases the next number. */
  function Popped(snd: Sender): (popped: Sender)
    ensures snd.nextSeq in snd.pending ==> |popped.pending| < |snd.pending|
  {
    assert (snd.pending - {snd.nextSeq}).Keys == snd.pending.Keys - {snd.nextSeq};
    snd.(nextSeq := snd.nextSeq + 1, pending := snd.pending - {snd.nextSeq})
  }

  /** The texts a drain releases, and the buffer it leaves. */
  function Ready(snd: Sender): seq<string>
    decreases |snd.pending|
  {
    if snd.nextSeq in snd.pending then [snd.pending[snd.nextSeq]] + Ready(Popped(snd)) else []
  }

  function Drained(snd: Sender): Sender
    decreases |snd.pending|
  {
    if snd.nextSeq in snd.pending then Drained(Popped(snd)) else snd
  }

  function Arrived(snd: Sender, k: int, text: string): Sender {
    snd.(pending := snd.pending[k := text])
  }

  predicate Numbers(arrivals: seq<int>, n: nat) {
    forall i :: 0 <= i < |arrivals| ==> 0 <= arrivals[i] < n
  }

  /** All texts released while numbers arrive in the given order; number k carries `texts[k]`. */
  function ReleasedTexts(snd: Sender, arrivals: seq<int>, texts: seq<string>): seq<string>
    requires Numbers(arrivals, |texts|)
  {
    if arrivals == [] then []
    else
      var front := arrivals[..|arrivals| - 1];
      var last := arrivals[|arrivals| - 1];
      ReleasedTexts(snd, front, texts) + Ready(Arrived(After(snd, front, texts), last, texts[last]))
  }

  function After(snd: Sender, arrivals: seq<int>, texts: seq<string>): Sender
    requires Numbers(arrivals, |texts|)
  {
    if arrivals == [] then snd
    else
      var front := arrivals[..|arrivals| - 1];
      var last := arrivals[|arrivals| - 1];
      Drained(Arrived(After(snd, front, texts), last, texts[last]))
  }

  /** The buffer that started at `base` has released `base .. nextSeq-1` and holds exactly the numbers
      received above. */
  ghost predicate InStep(snd: Sender, base: nat, received: set<int>, texts: seq<string>, released: seq<string>) {
    && base <= snd.nextSeq && |released| == snd.nextSeq - base
    && (forall k :: k in received ==> 0 <= k < |texts|)
    && (forall k :: base <= k < snd.nextSeq ==> k in received && released[k - base] == texts[k])
    && (forall k :: snd.nextSeq <= k ==> (k in snd.pending <==> k in received))
    && (forall k :: snd.nextSeq <= k && k in received ==> snd.pending[k] == texts[k])
  }

  lemma {:induction false} DrainInStep(snd: Sender, base: nat, received: set<int>, texts: seq<string>,
          released: seq<string>)
    requires InStep(snd, base, received, texts, released)
    ensures InStep(Drained(snd), base, received, texts, released + Ready(snd))
    ensures Drained(snd).nextSeq !in received
    decreases |snd.pending|
  {
    if snd.nextSeq in snd.pending {
      var text := snd.pending[snd.nextSeq];
      DrainInStep(Popped(snd), base, received, texts, released + [text]);
      assert released + [text] + Ready(Popped(snd)) == released + ([text] + Ready(Popped(snd)));
    } else {
      assert released + [] == released;
    }
  }

  lemma ArriveInStep(snd: Sender, base: nat, received: set<int>, texts: seq<string>, released: seq<string>, k: int)
    requires InStep(snd, base, received, texts, released) && 0 <= k < |texts|
    ensures InStep(Arrived(snd, k, texts[k]), base, received + {k}, texts, released)
  {
  }

  function Received(arrivals: seq<int>): set<int> { set k | k in arrivals }

  lemma ReceivedMore(front: seq<int>, last: int)
    ensures Received(front + [last]) == Received(front) + {last}
  {
  }

  /** After any arrivals, repeated ones too: the next number is the least from the base on that has not
      been received, the buffer holds exactly those received above it, and the texts
      released are those below it, in sequence. */
  lemma {:induction false} AlwaysInStep(snd: Sender, arrivals: seq<int>, texts: seq<string>)
    requires Numbers(arrivals, |texts|) && (forall k :: k in snd.pending ==> k < snd.nextSeq)
    ensures InStep(After(snd, arrivals, texts), snd.nextSeq, Received(arrivals), texts,
                   ReleasedTexts(snd, arrivals, texts))
    ensures After(snd, arrivals, texts).nextSeq !in Received(arrivals)
  {
    if arrivals != [] {
      var front := arrivals[..|arrivals| - 1];
      var last := arrivals[|arrivals| - 1];
      AlwaysInStep(snd, front, texts);
      var before := After(snd, front, texts);
      ArriveInStep(before, snd.nextSeq, Received(front), texts, ReleasedTexts(snd, front, texts), last);
      ReceivedMore(front, last);
      assert arrivals == front + [last];
      DrainInStep(Arrived(before, last, texts[last]), snd.nextSeq, Received(arrivals), texts,
          ReleasedTexts(snd, front, texts));
    }
  }

  /** In-order delivery: when all numbers of a cycle have arrived, in whichever order, the texts
      released are those from the next number on, in sequence, and none is left behind.  All texts of the
      cycle come out exactly when the buffer started at 0 (or the cycle is empty): a later cycle, numbered
      from 0 again, loses its first `nextSeq` texts. */
  lemma WholeCycle(snd: Sender, arrivals: seq<int>, texts: seq<string>)
    requires Numbers(arrivals, |texts|) && forall k :: 0 <= k < |texts| ==> k in arrivals
    requires forall k :: k in snd.pending ==> k < snd.nextSeq
    ensures var from := if snd.nextSeq <= |texts| then snd.nextSeq else |texts|;
            && ReleasedTexts(snd, arrivals, texts) == texts[from..]
            && After(snd, arrivals, texts).nextSeq == (if snd.nextSeq <= |texts| then |texts| else snd.nextSeq)
            && (forall k :: k in After(snd, arrivals, texts).pending ==> k < After(snd, arrivals, texts).nextSeq)
    ensures ReleasedTexts(snd, arrivals, texts) == texts <==> snd.nextSeq == 0 || texts == []
  {
    AlwaysInStep(snd, arrivals, texts);
    var end := After(snd, arrivals, texts);
    var released := ReleasedTexts(snd, arrivals, texts);
    assert end.nextSeq !in Received(arrivals) && (end.nextSeq > snd.nextSeq ==> end.nextSeq - 1 in Received(arrivals));
    assert end.nextSeq == if snd.nextSeq <= |texts| then |texts| else snd.nextSeq;
    var from := if snd.nextSeq <= |texts| then snd.nextSeq else |texts|;
    assert released == texts[from..];
  }

  /** A number that arrives again before it is released carries its later text. */
  lemma LaterTextWins(snd: Sender, first: string, later: string, missing: string)
    requires snd.nextSeq !in snd.pending && snd.nextSeq + 2 !in snd.pending
    ensures var twice := Arrived(Arrived(snd, snd.nextSeq + 1, first), snd.nextSeq + 1, later);
            Ready(twice) == [] && Ready(Arrived(twice, snd.nextSeq, missing)) == [missing, later]
  {
    var twice := Arrived(Arrived(snd, snd.nextSeq + 1, first), snd.nextSeq + 1, later);
    TwoReady(Arrived(twice, snd.nextSeq, missing), missing, later);
  }

  lemma TwoReady(snd: Sender, a: string, b: string)
    requires snd.nextSeq in snd.pending && snd.pending[snd.nextSeq] == a
    requires snd.nextSeq + 1 in snd.pending && snd.pending[snd.nextSeq + 1] == b
    requires snd.nextSeq + 2 !in snd.pending
    ensures Ready(snd) == [a, b]
  {
    var one := Popped(snd);
    OneReady(one, b);
    assert Ready(snd) == [a] + Ready(one);
  }

  lemma OneReady(snd: Sender, b: string)
    requires snd.nextSeq in snd.pending && snd.pending[snd.nextSeq] == b && snd.nextSeq + 1 !in snd.pending
    ensures Ready(snd) == [b]
  {
    var none := Popped(snd);
    assert Ready(none) == [];
    assert Ready(snd) == [b] + Ready(none);
  }

  /** A cycle of one text after a cycle of one text: it is lost. */
  lemma SecondCycleLosesText()
    ensures ReleasedTexts(Sender(0, 0, map[]), [0], ["x"]) == ["x"]
    ensures var snd := After(Sender(0, 0, map[]), [0], ["x"]);
            snd.nextSeq == 1 && ReleasedTexts(snd, [0], ["y"]) == []
  {
    WholeCycle(Sender(0, 0, map[]), [0], ["x"]);
    WholeCycle(After(Sender(0, 0, map[]), [0], ["x"]), [0], ["y"]);
  }
}
