/** From the recognised sentences to the texts sent, through numbering, translation in any order,
    reorder buffer and delay queue: what an output sends in a whole run of the pipeline. */
module EndToEnd {
  import opened Types
  import opened Sections
  import opened Routing
  import opened System
  import opened Content
  import Passes
  import Pool = WorkerPool
  import Delivery

  // ---- The controller's part of a run ----------------------------------------------------

  /** A run of the pipeline is a run of the controller, so everything proved of the controller's runs
      holds in the pipeline. */
  lemma {:induction false} Project(s: Sys, acts: seq<Action>, s': Sys) returns (own: seq<Delivery.Action>)
    requires Run(s, acts, s')
    ensures Delivery.Run(s.ctrl, own, s'.ctrl)
    ensures forall b :: b in own ==> b.Receive? || OfController(b) in acts
    decreases acts
  {
    if acts == [] {
      own := [];
    } else {
      var rest := Project(Next(s, acts[0]), acts[1..], s');
      match acts[0]
      case OfAgent(x) => own := rest;
      case OfController(b) =>
        Delivery.RunCons(s.ctrl, b, rest, s'.ctrl);
        own := [b] + rest;
      case Receive =>
        Delivery.RunCons(s.ctrl, Delivery.Receive(s.agent.ch[0]), rest, s'.ctrl);
        own := [Delivery.Receive(s.agent.ch[0])] + rest;
    }
  }

  // ---- What the buffers have accepted ----------------------------------------------------

  /** The text that number k stands for, for an output with this target language. */
  function TextOf(lang: string, results: int -> Translation, k: int): string {
    SelectText(lang, results(k))
  }

  /** In these steps `results(k)` is what the workers submit as number k, and the output keeps its target
      language. */
  ghost predicate Faithful(acts: seq<Action>, results: int -> Translation, n: string, lang: string) {
    && (forall t :: OfAgent(Pool.Submit(t)) in acts ==> t == results(t.seqNo))
    && (forall i, cfg, live :: OfController(Delivery.Reconfigure(i, cfg, live)) in acts && cfg.name == n ==>
          cfg.targetLang == lang)
  }

  ghost predicate FaithfulStep(a: Action, results: int -> Translation, n: string, lang: string) {
    && (a.OfAgent? && a.x.Submit? ==> a.x.t == results(a.x.t.seqNo))
    && (a.OfController? && a.a.Reconfigure? && a.a.cfg.name == n ==> a.a.cfg.targetLang == lang)
  }

  ghost predicate Labelled(s: Sys, results: int -> Translation, n: string, lang: string) {
    && (forall t :: t in s.agent.ch ==> t == results(t.seqNo))
    && |s.ctrl.routing| == |s.ctrl.outputs|
    && (RoutesOne(s.ctrl.pc) ==> s.ctrl.pc.t == results(s.ctrl.pc.t.seqNo))
    && (forall o :: o in s.ctrl.outputs + s.ctrl.routing && o.name == n ==> o.targetLang == lang)
    && (n in s.ctrl.rel.accepted ==> HoldsResults(s.ctrl.rel.accepted[n], results, lang))
  }

  ghost predicate HoldsResults(acc: map<int, string>, results: int -> Translation, lang: string) {
    forall k :: k in acc ==> acc[k] == TextOf(lang, results, k)
  }

  lemma StepLabelled(s: Sys, a: Action, results: int -> Translation, n: string, lang: string)
    requires Enabled(s, a) && FaithfulStep(a, results, n, lang) && Labelled(s, results, n, lang)
    ensures Labelled(Next(s, a), results, n, lang)
  {
    match a
    case OfAgent(x) =>
    case Receive =>
    case OfController(b) =>
      if b.Store? {
        StoreLabelled(s.ctrl, results, n, lang);
      } else {
        OtherSteps(s.ctrl, b);
        OutputsLabelled(s.ctrl, b, n, lang);
      }
  }

  lemma StoreLabelled(c: Delivery.State, results: int -> Translation, n: string, lang: string)
    requires Delivery.Enabled(c, Delivery.Store) && c.pc.t == results(c.pc.t.seqNo)
    requires forall o :: o in c.outputs + c.routing && o.name == n ==> o.targetLang == lang
    requires n in c.rel.accepted ==> HoldsResults(c.rel.accepted[n], results, lang)
    ensures var c' := Delivery.Stored(c);
            && RoutesOne(c'.pc) && c'.pc.t == c.pc.t && c'.outputs == c.outputs && c'.routing == c.routing
            && (n in c'.rel.accepted ==> HoldsResults(c'.rel.accepted[n], results, lang))
  {
  }

  lemma OutputsLabelled(c: Delivery.State, b: Delivery.Action, n: string, lang: string)
    requires Delivery.Enabled(c, b) && (b.Reconfigure? && b.cfg.name == n ==> b.cfg.targetLang == lang)
    requires forall o :: o in c.outputs + c.routing && o.name == n ==> o.targetLang == lang
    ensures var c' := Delivery.Next(c, b);
            && (forall o :: o in c'.outputs + c'.routing && o.name == n ==> o.targetLang == lang)
            && (|c.routing| == |c.outputs| ==> |c'.routing| == |c'.outputs|)
  {
  }

  lemma {:induction false} RunLabelled(s: Sys, acts: seq<Action>, s': Sys, results: int -> Translation, n: string,
      lang: string)
    requires Run(s, acts, s') && Faithful(acts, results, n, lang) && Labelled(s, results, n, lang)
    ensures Labelled(s', results, n, lang)
    decreases acts
  {
    if acts != [] {
      assert acts[0] in acts && forall a :: a in acts[1..] ==> a in acts;
      StepLabelled(s, acts[0], results, n, lang);
      RunLabelled(Next(s, acts[0]), acts[1..], s', results, n, lang);
    }
  }

  // ---- The result ------------------------------------------------------------------------

  /** The non-empty texts of the numbers below `most`, in sequence. */
  function InOrder(most: nat, lang: string, results: int -> Translation): seq<string> {
    Passes.NonEmpty(seq(most, k => TextOf(lang, results, k)))
  }

  lemma {:induction false} NonEmptyAppend(texts: seq<string>, text: string)
    ensures Passes.NonEmpty(texts + [text]) == Passes.NonEmpty(texts) + if text == "" then [] else [text]
  {
    if texts == [] {
      assert texts + [text] == [text];
    } else {
      assert (texts + [text])[1..] == texts[1..] + [text];
      NonEmptyAppend(texts[1..], text);
    }
  }

  /** Without drops the issued texts are the non-empty ones. */
  lemma {:induction false} AllIssued(rel: Delivery.Releases, n: string, acc: map<int, string>,
      fates: seq<Delivery.Fate>, lang: string, results: int -> Translation)
    requires Delivery.FatesOk(rel.enq, rel.origin, n, acc, fates) && HoldsResults(acc, results, lang)
    requires Delivery.DroppedAtRelease !in fates
    ensures IssuedTexts(acc, fates) == InOrder(|fates|, lang, results)
    decreases |fates|
  {
    if fates != [] {
      var k := |fates| - 1;
      AllIssued(rel, n, acc, fates[..k], lang, results);
      assert Delivery.FateOk(rel.enq, rel.origin, n, k, acc[k], fates[k]);
      var texts := seq(k, j => TextOf(lang, results, j));
      assert seq(|fates|, j => TextOf(lang, results, j)) == texts + [TextOf(lang, results, k)];
      NonEmptyAppend(texts, TextOf(lang, results, k));
    }
  }

  lemma {:induction false} NamesKept(s: Sys, acts: seq<Action>, s': Sys, i: nat)
    requires Run(s, acts, s') && i < |s.ctrl.outputs|
    ensures |s'.ctrl.outputs| == |s.ctrl.outputs| && s'.ctrl.outputs[i].name == s.ctrl.outputs[i].name
    decreases acts
  {
    if acts != [] {
      if acts[0].OfController? && !acts[0].a.Store? {
        KeepsNames(s.ctrl, acts[0].a);
      }
      NamesKept(Next(s, acts[0]), acts[1..], s', i);
    }
  }

  /** End to end: at a graceful close, if at most one cycle gave numbers, what an output that was never paused
      has handed to `sendMessage`, without a message of its own skipped, is exactly the non-empty texts
      selected for it from results 0 .. most-1, in that order, in whichever order the workers
      finished, the ticks fell and other outputs were paused, skipped and reconfigured. */
  lemma EverythingSentInOrder(s0: Sys, acts: seq<Action>, s: Sys, i: nat, results: int -> Translation)
    requires Initial(s0) && Run(s0, acts, s) && s.ctrl.pc == Delivery.Stopped(true) && i < |s0.ctrl.outputs|
    requires var o := s0.ctrl.outputs[i];
             && Faithful(acts, results, o.name, o.targetLang)
             && !IsPaused(s0.ctrl.sh, o.name) && OfController(Delivery.SetPaused(o.name, true)) !in acts
             && (forall m :: m in s.ctrl.rel.enq && m.output == o.name ==> m.id !in s.ctrl.req.ids)
    requires s.agent.busy <= 1
    ensures 0 <= s.agent.most == |s.agent.numbered|
    ensures var o := s0.ctrl.outputs[i];
            SentTexts(s.ctrl.done, o.name) == InOrder(s.agent.most, o.targetLang, results)
  {
    var o := s0.ctrl.outputs[i];
    var n := o.name;
    NamesKept(s0, acts, s, i);
    CompleteAtClose(s0, acts, s, i);
    LostOnRestart(s0, acts, s, i);
    FatesGiveTexts(s0, acts, s, n, results, o.targetLang);
    SentAreQueued(s0, acts, s, n);
  }

  /** The texts of a result are those of a fan-out over some outputs with the target language among them;
      `translate` is what the translator answered for this sentence. */
  ghost predicate Asked(t: Translation, outputs: seq<OutputConfig>, translate: string -> Routing.Result, lang: string) {
    && IsFanOut(t.texts, outputs, t.sourceLang, translate)
    && exists o :: o in outputs && o.targetLang == lang
  }

  /** The non-empty texts that the numbers below `most` should give: the sentence itself when no translation is
      needed, else the translator's answer. */
  function Expected(most: nat, lang: string, results: int -> Translation, answers: int -> string -> Routing.Result)
    : seq<string>
  {
    Passes.NonEmpty(seq(most, k =>
      ExpectedText(lang, results(k).sourceText, results(k).sourceLang, answers(k))))
  }

  /** From the sentences to the texts sent: when the result of every number is the fan-out of its sentence over
      outputs with the target language among them, the output has sent, in the order in which the
      sentences were recognised, each sentence or its translation, and nothing else. */
  lemma TranslatedAndSentInOrder(s0: Sys, acts: seq<Action>, s: Sys, i: nat, results: int -> Translation,
      asked: int -> seq<OutputConfig>, answers: int -> string -> Routing.Result)
    requires Initial(s0) && Run(s0, acts, s) && s.ctrl.pc == Delivery.Stopped(true) && i < |s0.ctrl.outputs|
    requires var o := s0.ctrl.outputs[i];
             && Faithful(acts, results, o.name, o.targetLang)
             && !IsPaused(s0.ctrl.sh, o.name) && OfController(Delivery.SetPaused(o.name, true)) !in acts
             && (forall m :: m in s.ctrl.rel.enq && m.output == o.name ==> m.id !in s.ctrl.req.ids)
             && (forall k :: 0 <= k < s.agent.most ==> Asked(results(k), asked(k), answers(k), o.targetLang))
    requires s.agent.busy <= 1
    ensures 0 <= s.agent.most == |s.agent.numbered|
    ensures var o := s0.ctrl.outputs[i];
            SentTexts(s.ctrl.done, o.name) == Expected(s.agent.most, o.targetLang, results, answers)
  {
    EverythingSentInOrder(s0, acts, s, i, results);
    SelectedIsExpected(s.agent.most, s0.ctrl.outputs[i].targetLang, results, asked, answers);
  }

  lemma SelectedIsExpected(most: nat, lang: string, results: int -> Translation,
      asked: int -> seq<OutputConfig>, answers: int -> string -> Routing.Result)
    requires forall k :: 0 <= k < most ==> Asked(results(k), asked(k), answers(k), lang)
    ensures InOrder(most, lang, results) == Expected(most, lang, results, answers)
  {
    forall k | 0 <= k < most
      ensures TextOf(lang, results, k) == ExpectedText(lang, results(k).sourceText, results(k).sourceLang, answers(k))
    {
      assert Asked(results(k), asked(k), answers(k), lang);
      var o :| o in asked(k) && o.targetLang == lang;
      SelectionAgreesWithFanOut(asked(k), results(k), answers(k), o);
    }
    assert seq(most, k => TextOf(lang, results, k)) == seq(most, k =>
      ExpectedText(lang, results(k).sourceText, results(k).sourceLang, answers(k)));
  }

  /** The texts queued for an output that was never paused. */
  lemma FatesGiveTexts(s0: Sys, acts: seq<Action>, s: Sys, n: string, results: int -> Translation, lang: string)
    requires Initial(s0) && Run(s0, acts, s) && n in s.ctrl.rel.fates
    requires Faithful(acts, results, n, lang)
    requires forall o :: o in s0.ctrl.outputs && o.name == n ==> o.targetLang == lang
    requires !IsPaused(s0.ctrl.sh, n) && OfController(Delivery.SetPaused(n, true)) !in acts
    ensures TextsFor(s.ctrl.rel.enq, n) == InOrder(|s.ctrl.rel.fates[n]|, lang, results)
  {
    var own := Project(s0, acts, s);
    NeverPaused(s0.ctrl, own, s.ctrl, n);
    StartsLabelled(s0, results, n, lang);
    RunLabelled(s0, acts, s, results, n, lang);
    FatesHere(s.ctrl.senders, s.ctrl.rel, Delivery.FocusOf(s.ctrl), n);
    AllIssued(s.ctrl.rel, n, s.ctrl.rel.accepted[n], s.ctrl.rel.fates[n], lang, results);
  }

  lemma StartsLabelled(s0: Sys, results: int -> Translation, n: string, lang: string)
    requires Initial(s0) && forall o :: o in s0.ctrl.outputs && o.name == n ==> o.targetLang == lang
    ensures Labelled(s0, results, n, lang)
  {
  }

  lemma FatesHere(senders: map<string, Sender>, rel: Delivery.Releases, focus: Delivery.Focus, n: string)
    requires Delivery.Buffers(senders, rel, focus) && n in rel.fates
    ensures n in rel.accepted && Delivery.FatesOk(rel.enq, rel.origin, n, rel.accepted[n], rel.fates[n])
  {
  }

  /** At the close, without drops and skips, what was sent is what was queued. */
  lemma SentAreQueued(s0: Sys, acts: seq<Action>, s: Sys, n: string)
    requires Initial(s0) && Run(s0, acts, s) && Delivery.Msgs(s.ctrl.done) == s.ctrl.rel.enq
    requires !IsPaused(s0.ctrl.sh, n) && OfController(Delivery.SetPaused(n, true)) !in acts
    requires forall m :: m in s.ctrl.rel.enq && m.output == n ==> m.id !in s.ctrl.req.ids
    ensures SentTexts(s.ctrl.done, n) == TextsFor(s.ctrl.rel.enq, n)
  {
    var own := Project(s0, acts, s);
    NeverPaused(s0.ctrl, own, s.ctrl, n);
    NoOtherOutcome(s.ctrl, n);
    AllSent(s.ctrl.done, n);
  }

  /** A message that was not dropped and not named by a skip was sent. */
  lemma NoOtherOutcome(c: Delivery.State, n: string)
    requires Undropped(c, n) && Delivery.SkippedOnRequest(c.done, c.req.ids) && Delivery.Msgs(c.done) == c.rel.enq
    requires forall m :: m in c.rel.enq && m.output == n ==> m.id !in c.req.ids
    ensures forall d :: d in c.done && d.msg.output == n ==> Delivery.WasSent(d)
  {
    forall d | d in c.done && d.msg.output == n ensures Delivery.WasSent(d) {
      var j :| 0 <= j < |c.done| && c.done[j] == d;
      assert Delivery.Msgs(c.done)[j] == d.msg && d.msg in c.rel.enq;
    }
  }
}
