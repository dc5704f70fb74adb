/** Which text an output gets: the fan-out requests translations (`TranslateAndSubmit`), the
    controller selects among the results (`run`).  Two functions that must agree. */
module Routing {
  import opened Types

  predicate IsLangMatch(detected: string, target: string) {
    && detected != "" && target != ""
    && (|| (|detected| >= 2 && |target| >= 2 && detected[..2] == target[..2])
        || (|detected| >= 3 && detected[..3] == "cmn" && |target| >= 2 && target[..2] == "zh"))
  }

  /** The text `run` selects for an output. */
  function SelectText(targetLang: string, t: Translation): string {
    if targetLang == "" then t.sourceText
    else
      var translated := if targetLang in t.texts then t.texts[targetLang] else "";
      if translated == "" && IsLangMatch(t.sourceLang, targetLang) then t.sourceText else translated
  }

  /** The first two runes agree, or one is the recogniser's name for the other: said without the match. */
  ghost predicate SameLanguage(detected: string, target: string) {
    || (exists p: string, x: string, y: string :: |p| == 2 && detected == p + x && target == p + y)
    || (exists x: string, y: string :: detected == "cmn" + x && target == "zh" + y)
  }

  /** The selection exactly, for any texts: a translation that is there and not empty wins; without one the sentence
      itself is sent if its language is the target, else nothing. */
  lemma SelectExact(lang: string, t: Translation)
    ensures lang == "" ==> SelectText(lang, t) == t.sourceText
    ensures lang != "" && lang in t.texts && t.texts[lang] != "" ==> SelectText(lang, t) == t.texts[lang]
    ensures lang != "" && (lang !in t.texts || t.texts[lang] == "") ==>
      SelectText(lang, t) == if SameLanguage(t.sourceLang, lang) then t.sourceText else ""
  {
    MatchIsSameLanguage(t.sourceLang, lang);
  }

  lemma MatchIsSameLanguage(detected: string, target: string)
    ensures IsLangMatch(detected, target) <==> SameLanguage(detected, target)
  {
    forall p: string, x: string, y: string | |p| == 2 && detected == p + x && target == p + y
      ensures IsLangMatch(detected, target)
    {
      assert detected[..2] == p == target[..2];
    }
    forall x: string, y: string | detected == "cmn" + x && target == "zh" + y ensures IsLangMatch(detected, target) {
      assert detected[..3] == "cmn" && target[..2] == "zh";
    }
    if IsLangMatch(detected, target) {
      if detected[..2] == target[..2] {
        assert detected == detected[..2] + detected[2..] && target == detected[..2] + target[2..];
      } else {
        assert detected == "cmn" + detected[3..] && target == "zh" + target[2..];
      }
    }
  }

  /** What a translation call yields: a text (possibly empty) or an error. */
  datatype Result = Text(text: string) | Error

  /** The translations a fan-out submits; `translate(lang)` is the answer for a language. */
  ghost predicate IsFanOut(texts: map<string, string>, outputs: seq<OutputConfig>, sourceLang: string,
          translate: string -> Result) {
    && (forall lang :: lang in texts <==> Needed(outputs, sourceLang, lang) && translate(lang).Text?)
    && (forall lang :: lang in texts ==> translate(lang) == Text(texts[lang]))
  }

  /** Some output has this target language and it differs from the detected one. */
  ghost predicate Needed(outputs: seq<OutputConfig>, sourceLang: string, lang: string) {
    lang != "" && !IsLangMatch(sourceLang, lang) && exists o :: o in outputs && o.targetLang == lang
  }

  /** Collects the languages that need a translation, then asks for each of them.  A failed
      call leaves its language out; the order of the calls does not matter. */
  method FanOut(outputs: seq<OutputConfig>, sourceLang: string, translate: string -> Result)
    returns (texts: map<string, string>, requested: set<string>)
    ensures IsFanOut(texts, outputs, sourceLang, translate)
    ensures forall lang :: lang in requested <==> Needed(outputs, sourceLang, lang)
  {
    var needed: set<string> := {};
    for i := 0 to |outputs|
      invariant forall lang :: lang in needed <==> Needed(outputs[..i], sourceLang, lang)
    {
      assert outputs[..i + 1] == outputs[..i] + [outputs[i]];
      if outputs[i].targetLang != "" && !IsLangMatch(sourceLang, outputs[i].targetLang) {
        needed := needed + {outputs[i].targetLang};
      }
    }
    assert outputs[..|outputs|] == outputs;
    requested := needed;
    texts := map[];
    var todo := needed;
    while todo != {}
      invariant todo <= needed
      invariant forall lang :: lang in texts <==> lang in needed - todo && translate(lang).Text?
      invariant forall lang :: lang in texts ==> translate(lang) == Text(texts[lang])
      decreases todo
    {
      var lang :| lang in todo;
      todo := todo - {lang};
      match translate(lang) {
        case Text(s) => texts := texts[lang := s];
        case Error =>
      }
    }
  }

  /** The text an output should get, said without the two steps. */
  function ExpectedText(targetLang: string, sourceText: string, sourceLang: string,
          translate: string -> Result): string {
    if targetLang == "" || IsLangMatch(sourceLang, targetLang) then sourceText
    else match translate(targetLang)
      case Text(s) => s
      case Error => ""
  }

  /** Selection after fan-out over the same outputs gives every output the text it should
      get: no output reads a language that was not requested, none sees another's result. */
  lemma SelectionAgreesWithFanOut(outputs: seq<OutputConfig>, t: Translation, translate: string -> Result,
          o: OutputConfig)
    requires IsFanOut(t.texts, outputs, t.sourceLang, translate) && o in outputs
    ensures SelectText(o.targetLang, t) == ExpectedText(o.targetLang, t.sourceText, t.sourceLang, translate)
  {
    var lang := o.targetLang;
    if lang != "" && !IsLangMatch(t.sourceLang, lang) {
      assert Needed(outputs, t.sourceLang, lang);
    }
  }

  /** The agreement needs the two output lists to name the same languages: an output whose target was
      changed while the translation ran gets its text exactly when the new language needs
      no translation, was requested for another output too, or fails or is empty anyway. */
  lemma SelectionAfterRetarget(outputs: seq<OutputConfig>, t: Translation, translate: string -> Result, lang: string)
    requires IsFanOut(t.texts, outputs, t.sourceLang, translate)
    ensures SelectText(lang, t) == ExpectedText(lang, t.sourceText, t.sourceLang, translate)
       <==> || lang == "" || IsLangMatch(t.sourceLang, lang)
            || (exists o :: o in outputs && o.targetLang == lang)
            || translate(lang) in {Text(""), Error}
  {
    if exists o :: o in outputs && o.targetLang == lang {
      var o :| o in outputs && o.targetLang == lang;
      SelectionAgreesWithFanOut(outputs, t, translate, o);
    } else {
      assert !Needed(outputs, t.sourceLang, lang);
    }
  }

  // ---- Which languages need a translation, said by their codes ---------------------------

  /** A target that begins with the same two runes as the detected language is not asked for, and gets the
      sentence itself. */
  lemma SameCodeNeedsNone(outputs: seq<OutputConfig>, t: Translation, translate: string -> Result,
          p: string, x: string, y: string)
    requires IsFanOut(t.texts, outputs, t.sourceLang, translate) && |p| == 2 && t.sourceLang == p + x
    ensures !Needed(outputs, t.sourceLang, p + y) && SelectText(p + y, t) == t.sourceText
  {
    assert SameLanguage(t.sourceLang, p + y);
    MatchIsSameLanguage(t.sourceLang, p + y);
  }

  /** The same for Mandarin, which is detected as `cmn` and configured as `zh`. */
  lemma MandarinNeedsNone(outputs: seq<OutputConfig>, t: Translation, translate: string -> Result, x: string, y: string)
    requires IsFanOut(t.texts, outputs, t.sourceLang, translate) && t.sourceLang == "cmn" + x
    ensures !Needed(outputs, t.sourceLang, "zh" + y) && SelectText("zh" + y, t) == t.sourceText
  {
    assert SameLanguage(t.sourceLang, "zh" + y);
    MatchIsSameLanguage(t.sourceLang, "zh" + y);
  }

  /** Every other target of an output is asked for, one whose code has less than two runes too, and gets the answer:
      nothing when the call fails. */
  lemma OthersNeedOne(outputs: seq<OutputConfig>, t: Translation, translate: string -> Result, lang: string)
    requires IsFanOut(t.texts, outputs, t.sourceLang, translate) && lang != ""
    requires exists o :: o in outputs && o.targetLang == lang
    requires || |t.sourceLang| < 2 || |lang| < 2
             || (t.sourceLang[..2] != lang[..2] && (!("cmn" <= t.sourceLang) || !("zh" <= lang)))
    ensures Needed(outputs, t.sourceLang, lang)
    ensures translate(lang).Text? ==> SelectText(lang, t) == translate(lang).text
    ensures translate(lang).Error? ==> SelectText(lang, t) == ""
  {
    assert |t.sourceLang| >= 3 && t.sourceLang[..3] == "cmn" ==> "cmn" <= t.sourceLang;
    assert |lang| >= 2 && lang[..2] == "zh" ==> "zh" <= lang;
    assert Needed(outputs, t.sourceLang, lang);
  }
}
