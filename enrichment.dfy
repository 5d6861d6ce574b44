/** The three external enrichments of a question: the batch translation (whose
    response is reshaped into one record per target language), the category and
    the context from the completion service. The services themselves are given
    as functions from their request to their response, None standing for a
    transport or HTTP failure. */
module Enrichment {
  import opened Wrappers
  import opened QuestionModel

  /** One entry of a translator response: the target language and its text. */
  datatype TranslationItem = TranslationItem(to: string, text: string)

  /** The translator's response: one list of translations per request input,
      in the order of the inputs. */
  type TranslatorResponse = seq<seq<TranslationItem>>

  datatype Services = Services(
    translator: seq<string> -> Option<TranslatorResponse>,
    categorizer: seq<string> -> Option<string>,
    contextualizer: seq<string> -> Option<string>)

  /** An external call, with the request it carries. */
  datatype ServiceCall =
    | TranslateCall(inputs: seq<string>)
    | CategoryCall(fields: seq<string>)
    | ContextCall(fields: seq<string>)

  /** The failure sentinel both completion calls fall back to. */
  const Fallback: string := "General"

  /** The six texts sent to the translator, in this order. */
  function TranslationInputs(q: Question): seq<string> {
    [q.question, q.a, q.b, q.c, q.d, q.context]
  }

  /** The question texts both completion prompts embed. */
  function PromptFields(q: Question): seq<string> {
    [q.question, q.a, q.b, q.c, q.d]
  }

  /** The text of the first translation item for `lang`, or '' when there is none. */
  function FindText(items: seq<TranslationItem>, lang: string): string {
    match FirstIndex(items, (t: TranslationItem) => t.to == lang)
    case None => ""
    case Some(i) => items[i].text
  }

  /** The translation into `lang`, field k read from the k-th positional result. */
  function RecordFor(rs: TranslatorResponse, lang: string): QuestionTranslation
    requires |rs| >= 6
  {
    QuestionTranslation(
      FindText(rs[0], lang), FindText(rs[1], lang), FindText(rs[2], lang),
      FindText(rs[3], lang), FindText(rs[4], lang), FindText(rs[5], lang))
  }

  /** What `translate` yields for a translator response: undefined when the call
      failed or when a positional result it reads is missing (the TypeError is
      caught), and otherwise one record per target language. */
  function TranslationOf(response: Option<TranslatorResponse>, langs: seq<string>): Option<Translations> {
    match response
    case None => None
    case Some(rs) =>
      if |langs| > 0 && |rs| < 6 then None
      else Some(map l | l in langs :: RecordFor(rs, l))
  }

  /** `translate`: one translator call for the six inputs, then the per-language
      records built one language at a time. */
  method Translate(q: Question, translator: seq<string> -> Option<TranslatorResponse>, langs: seq<string>)
    returns (r: Option<Translations>)
    ensures r == TranslationOf(translator(TranslationInputs(q)), langs)
  {
    var response := translator(TranslationInputs(q));
    if response.None? {
      return None;
    }
    var rs := response.value;
    var translations: Translations := map[];
    var i := 0;
    while i < |langs|
      invariant 0 <= i <= |langs|
      invariant i > 0 ==> |rs| >= 6
      invariant translations == map l | l in langs[..i] :: RecordFor(rs, l)
    {
      if |rs| < 6 {
        return None;
      }
      assert langs[..i + 1] == langs[..i] + [langs[i]];
      translations := translations[langs[i] := RecordFor(rs, langs[i])];
      i := i + 1;
    }
    assert langs[..i] == langs;
    return Some(translations);
  }

  /** The text found for a language is that of the first item for it, or ''
      when the result has no item for it. */
  lemma FindTextIsFirstMatch(items: seq<TranslationItem>, lang: string)
    ensures (forall j :: 0 <= j < |items| ==> items[j].to != lang) ==> FindText(items, lang) == ""
    ensures forall j ::
      (0 <= j < |items| && items[j].to == lang && (forall i :: 0 <= i < j ==> items[i].to != lang))
      ==> FindText(items, lang) == items[j].text
  {
    var p := (t: TranslationItem) => t.to == lang;
    var f := FirstIndex(items, p);
    forall j | 0 <= j < |items| && items[j].to == lang && (forall i :: 0 <= i < j ==> items[i].to != lang)
      ensures FindText(items, lang) == items[j].text
    {
      assert p(items[j]);
      assert f.Some? && f.value == j;
    }
  }

  /** A successful translation has an entry for every target language and for
      no other, whose six fields come from the six positional results in the
      order question, a, b, c, d, context. */
  lemma TranslationEntries(rs: TranslatorResponse, langs: seq<string>)
    requires |rs| >= 6
    ensures TranslationOf(Some(rs), langs).Some?
    ensures var m := TranslationOf(Some(rs), langs).value;
      && m.Keys == (set l | l in langs)
      && forall l :: l in langs ==>
           m[l] == QuestionTranslation(FindText(rs[0], l), FindText(rs[1], l), FindText(rs[2], l),
                                       FindText(rs[3], l), FindText(rs[4], l), FindText(rs[5], l))
  {
  }

  /** A translation fails exactly when the call fails or, with some target
      language to fill, the response has fewer than six positional results. */
  lemma TranslationFailure(response: Option<TranslatorResponse>, langs: seq<string>)
    ensures TranslationOf(response, langs).None?
        <==> response.None? || (|langs| > 0 && |response.value| < 6)
  {
  }

  /** `findCategory` and `getContext`: the service text verbatim, or the
      fallback label when the call failed. */
  function OrFallback(response: Option<string>): string {
    match response
    case None => Fallback
    case Some(text) => text
  }

  /** A failed completion call yields "General", a label of the closed category
      set; a successful one yields the service text unchanged. */
  lemma FallbackIsCategoryLabel(response: Option<string>)
    ensures response.None? ==> OrFallback(response) == "General" && OrFallback(response) in CategoryLabels
    ensures response.Some? ==> OrFallback(response) == response.value
  {
  }
}
