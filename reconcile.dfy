/** The reconciliation of a freshly scraped question list against the previously
    saved corpus: each question with text gets its content id, a known id brings
    its translation, category and context over from the saved copy, and only an
    unknown id calls the three enrichment services. */
module Reconcile {
  import opened Wrappers
  import opened QuestionModel
  import opened Enrichment

  /** The saved corpus as read back: entries may be null. */
  type Corpus = seq<Option<Question>>

  /** `generateId`: the digest of question text and the four choices; `hash`
      stands for hex-encoded SHA-256. */
  function GenerateId(hash: string -> string, q: Question): string {
    hash(ContentText(q))
  }

  /** The position of the first non-null saved entry carrying `id`, if any. */
  function FirstMatch(prior: Corpus, id: string): Option<nat> {
    FirstIndex(prior, (e: Option<Question>) => e.Some? && e.value.id == id)
  }

  /** The three enrichments of an unknown question, in the order the loop runs
      them: translation, category, context. */
  function Enrich(q: Question, svc: Services, langs: seq<string>): Question {
    var translated := q.(translation := TranslationOf(svc.translator(TranslationInputs(q)), langs));
    var categorized := translated.(category := Some(OrFallback(svc.categorizer(PromptFields(translated)))));
    categorized.(context := OrFallback(svc.contextualizer(PromptFields(categorized))))
  }

  /** One step of the loop, on one question. Only `id`, `translation`,
      `category` and `context` can change; a question without text is left as
      it is; every other question gets its content id. */
  function ReconcileOne(q: Question, prior: Corpus, hash: string -> string, svc: Services, langs: seq<string>)
    : (r: Question)
    ensures r.(id := q.id, translation := q.translation, category := q.category, context := q.context) == q
    ensures q.question == "" ==> r == q
    ensures q.question != "" ==> r.id == GenerateId(hash, q)
  {
    if q.question == "" then q
    else
      var keyed := q.(id := GenerateId(hash, q));
      match FirstMatch(prior, keyed.id)
      case Some(j) =>
        var known := prior[j].value;
        keyed.(translation := known.translation, category := known.category, context := known.context)
      case None => Enrich(keyed, svc, langs)
  }

  /** The external calls one step of the loop makes, in order. */
  function CallsOne(q: Question, prior: Corpus, hash: string -> string): seq<ServiceCall> {
    if q.question == "" || FirstMatch(prior, GenerateId(hash, q)).Some? then []
    else [TranslateCall(TranslationInputs(q)), CategoryCall(PromptFields(q)), ContextCall(PromptFields(q))]
  }

  function ReconcileAll(qs: seq<Question>, prior: Corpus, hash: string -> string, svc: Services, langs: seq<string>)
    : (rs: seq<Question>)
    ensures |rs| == |qs|
  {
    seq(|qs|, i requires 0 <= i < |qs| => ReconcileOne(qs[i], prior, hash, svc, langs))
  }

  /** The calls of the whole loop: those of each question, question by question. */
  function CallLog(qs: seq<Question>, prior: Corpus, hash: string -> string): seq<ServiceCall> {
    if qs == [] then []
    else CallLog(qs[..|qs| - 1], prior, hash) + CallsOne(qs[|qs| - 1], prior, hash)
  }

  lemma CallLogExtend(qs: seq<Question>, prior: Corpus, hash: string -> string, i: nat)
    requires i < |qs|
    ensures CallLog(qs[..i + 1], prior, hash) == CallLog(qs[..i], prior, hash) + CallsOne(qs[i], prior, hash)
  {
    assert qs[..i + 1][..i] == qs[..i];
  }

  lemma ReconcileAllExtend(qs: seq<Question>, prior: Corpus, hash: string -> string, svc: Services,
                            langs: seq<string>, i: nat)
    requires i < |qs|
    ensures ReconcileAll(qs[..i + 1], prior, hash, svc, langs)
         == ReconcileAll(qs[..i], prior, hash, svc, langs) + [ReconcileOne(qs[i], prior, hash, svc, langs)]
  {
    var lhs := ReconcileAll(qs[..i + 1], prior, hash, svc, langs);
    var rhs := ReconcileAll(qs[..i], prior, hash, svc, langs) + [ReconcileOne(qs[i], prior, hash, svc, langs)];
    forall k | 0 <= k <= i ensures lhs[k] == rhs[k] {
      assert qs[..i + 1][k] == qs[k];
    }
  }

  /** The corpus as it is saved: every entry present. */
  function Saved(qs: seq<Question>): (c: Corpus)
    ensures |c| == |qs|
  {
    seq(|qs|, i requires 0 <= i < |qs| => Some(qs[i]))
  }

  /** The else-branch of the loop: translate, categorise, contextualise, each
      call made on the question as the previous steps left it. */
  method EnrichQuestion(q: Question, svc: Services, langs: seq<string>)
    returns (r: Question, calls: seq<ServiceCall>)
    ensures r == Enrich(q, svc, langs)
    ensures calls == [TranslateCall(TranslationInputs(q)), CategoryCall(PromptFields(q)), ContextCall(PromptFields(q))]
  {
    r := q;
    calls := [TranslateCall(TranslationInputs(r))];
    var translation := Translate(r, svc.translator, langs);
    r := r.(translation := translation);
    calls := calls + [CategoryCall(PromptFields(r))];
    r := r.(category := Some(OrFallback(svc.categorizer(PromptFields(r)))));
    calls := calls + [ContextCall(PromptFields(r))];
    r := r.(context := OrFallback(svc.contextualizer(PromptFields(r))));
  }

  /** The body of the loop for one question, with the calls it makes. */
  method ReconcileQuestion(q: Question, prior: Corpus, hash: string -> string, svc: Services,
                           langs: seq<string>)
    returns (r: Question, calls: seq<ServiceCall>)
    ensures r == ReconcileOne(q, prior, hash, svc, langs)
    ensures calls == CallsOne(q, prior, hash)
  {
    r, calls := q, [];
    if r.question == "" {
      return;
    }
    r := r.(id := GenerateId(hash, r));
    var existing := FirstMatch(prior, r.id);
    if existing.Some? {
      var known := prior[existing.value].value;
      r := r.(translation := known.translation, category := known.category, context := known.context);
    } else {
      r, calls := EnrichQuestion(r, svc, langs);
    }
  }

  /** The loop of `scrapeData`, updating the scraped questions in place. */
  method ReconcileInPlace(all: array<Question>, prior: Corpus, hash: string -> string, svc: Services,
                          langs: seq<string>)
    returns (calls: seq<ServiceCall>)
    modifies all
    ensures all[..] == ReconcileAll(old(all[..]), prior, hash, svc, langs)
    ensures calls == CallLog(old(all[..]), prior, hash)
  {
    ghost var scraped := all[..];
    calls := [];
    var i := 0;
    while i < all.Length
      invariant 0 <= i <= all.Length
      invariant all[..i] == ReconcileAll(scraped[..i], prior, hash, svc, langs)
      invariant all[i..] == scraped[i..]
      invariant calls == CallLog(scraped[..i], prior, hash)
    {
      CallLogExtend(scraped, prior, hash, i);
      ReconcileAllExtend(scraped, prior, hash, svc, langs, i);
      assert all[i] == scraped[i] by { assert all[i..][0] == scraped[i..][0]; }
      var q, made := ReconcileQuestion(all[i], prior, hash, svc, langs);
      all[i] := q;
      calls := calls + made;
      i := i + 1;
    }
    assert scraped[..i] == scraped;
    assert all[..i] == all[..];
  }

  /** The content id reads only the question text and the choices, so two
      questions whose concatenated texts agree get the same id, whatever else
      differs between them. */
  lemma IdIsContentOnly(hash: string -> string, q1: Question, q2: Question)
    requires ContentText(q1) == ContentText(q2)
    ensures GenerateId(hash, q1) == GenerateId(hash, q2)
  {
  }

  /** A question whose id some non-null saved entry carries takes the enrichment
      of the first such entry and calls no service. */
  lemma KnownQuestionCopies(q: Question, prior: Corpus, hash: string -> string, svc: Services,
                            langs: seq<string>, j: nat)
    requires q.question != ""
    requires j < |prior| && prior[j].Some? && prior[j].value.id == GenerateId(hash, q)
    requires forall i :: 0 <= i < j ==> prior[i].None? || prior[i].value.id != GenerateId(hash, q)
    ensures var r := ReconcileOne(q, prior, hash, svc, langs);
      && r.translation == prior[j].value.translation
      && r.category == prior[j].value.category
      && r.context == prior[j].value.context
    ensures CallsOne(q, prior, hash) == []
  {
    var m := FirstMatch(prior, GenerateId(hash, q));
    var p := (e: Option<Question>) => e.Some? && e.value.id == GenerateId(hash, q);
    assert p(prior[j]);
    assert m.Some? && m.value == j;
  }

  /** A question with text whose id no saved entry carries (null entries never
      match) is translated, then categorised, then given a context, each call
      failing soft. */
  lemma UnknownQuestionEnriched(q: Question, prior: Corpus, hash: string -> string, svc: Services,
                                langs: seq<string>)
    requires q.question != ""
    requires forall i :: 0 <= i < |prior| ==> prior[i].None? || prior[i].value.id != GenerateId(hash, q)
    ensures CallsOne(q, prior, hash)
         == [TranslateCall(TranslationInputs(q)), CategoryCall(PromptFields(q)), ContextCall(PromptFields(q))]
    ensures var r := ReconcileOne(q, prior, hash, svc, langs);
      && r.translation == TranslationOf(svc.translator(TranslationInputs(q)), langs)
      && r.category == Some(OrFallback(svc.categorizer(PromptFields(q))))
      && r.context == OrFallback(svc.contextualizer(PromptFields(q)))
  {
  }

  /** The cosmetic fields play no part in the reconciliation: a question that
      differs only in its number, image or solution is recognised, enriched and
      called for exactly alike. */
  lemma ReconcileIgnoresLabels(q: Question, prior: Corpus, hash: string -> string, svc: Services,
                               langs: seq<string>, num: string, image: string, solution: string)
    ensures ReconcileOne(q.(num := num, image := image, solution := solution), prior, hash, svc, langs)
         == ReconcileOne(q, prior, hash, svc, langs).(num := num, image := image, solution := solution)
    ensures CallsOne(q.(num := num, image := image, solution := solution), prior, hash)
         == CallsOne(q, prior, hash)
  {
    var q' := q.(num := num, image := image, solution := solution);
    assert ContentText(q') == ContentText(q);
    assert TranslationInputs(q') == TranslationInputs(q);
    assert PromptFields(q') == PromptFields(q);
  }

  /** When every question with text is known, the loop makes no call at all. */
  lemma {:induction false} NoCallsWhenAllKnown(qs: seq<Question>, prior: Corpus, hash: string -> string)
    requires forall i :: 0 <= i < |qs| && qs[i].question != "" ==> FirstMatch(prior, GenerateId(hash, qs[i])).Some?
    ensures CallLog(qs, prior, hash) == []
  {
    if qs != [] {
      NoCallsWhenAllKnown(qs[..|qs| - 1], prior, hash);
    }
  }

  /** Running the loop again over the same scrape, against the corpus the first
      run saved, calls no service. */
  lemma RerunMakesNoCalls(qs: seq<Question>, prior: Corpus, hash: string -> string, svc: Services,
                          langs: seq<string>)
    ensures CallLog(qs, Saved(ReconcileAll(qs, prior, hash, svc, langs)), hash) == []
  {
    var saved := Saved(ReconcileAll(qs, prior, hash, svc, langs));
    forall i | 0 <= i < |qs| && qs[i].question != ""
      ensures FirstMatch(saved, GenerateId(hash, qs[i])).Some?
    {
      var p := (e: Option<Question>) => e.Some? && e.value.id == GenerateId(hash, qs[i]);
      assert p(saved[i]);
    }
    NoCallsWhenAllKnown(qs, saved, hash);
  }

  /** Running the loop again over the same scrape, against the corpus the first
      run saved, reproduces every question whose id no earlier question shares. */
  lemma RerunReproduces(qs: seq<Question>, prior: Corpus, hash: string -> string, svc: Services,
                        langs: seq<string>, i: nat)
    requires i < |qs|
    requires var rs := ReconcileAll(qs, prior, hash, svc, langs);
      forall j :: 0 <= j < i ==> rs[j].id != rs[i].id
    ensures ReconcileAll(qs, Saved(ReconcileAll(qs, prior, hash, svc, langs)), hash, svc, langs)[i]
         == ReconcileAll(qs, prior, hash, svc, langs)[i]
  {
    var rs := ReconcileAll(qs, prior, hash, svc, langs);
    var saved := Saved(rs);
    var q := qs[i];
    if q.question != "" {
      var r := rs[i];
      assert r == ReconcileOne(q, prior, hash, svc, langs);
      forall j | 0 <= j < i ensures saved[j].None? || saved[j].value.id != GenerateId(hash, q) {
        assert saved[j].value == rs[j];
      }
      KnownQuestionCopies(q, saved, hash, svc, langs, i);
    }
  }

  /** Running the loop again over the same scrape, against the corpus the first
      run saved, also reproduces every question the first run found in the
      prior corpus, even when an earlier question shares its id: all questions
      with that id copied the same prior entry, so the saved copy the rerun
      finds carries that entry's enrichment. (A question without text keeps the
      id it was scraped with, so none may carry the id in question.) */
  lemma RerunReproducesKnown(qs: seq<Question>, prior: Corpus, hash: string -> string, svc: Services,
                             langs: seq<string>, i: nat)
    requires i < |qs| && qs[i].question != ""
    requires FirstMatch(prior, GenerateId(hash, qs[i])).Some?
    requires forall k :: 0 <= k < |qs| && qs[k].question == "" ==> qs[k].id != GenerateId(hash, qs[i])
    ensures ReconcileAll(qs, Saved(ReconcileAll(qs, prior, hash, svc, langs)), hash, svc, langs)[i]
         == ReconcileAll(qs, prior, hash, svc, langs)[i]
  {
    var rs := ReconcileAll(qs, prior, hash, svc, langs);
    var saved := Saved(rs);
    var id := GenerateId(hash, qs[i]);
    var p := (e: Option<Question>) => e.Some? && e.value.id == id;
    assert rs[i] == ReconcileOne(qs[i], prior, hash, svc, langs);
    assert p(saved[i]);
    var k := FirstMatch(saved, id).value;
    assert k <= i;
    assert saved[k].value == rs[k] == ReconcileOne(qs[k], prior, hash, svc, langs);
    assert qs[k].question != "";
    assert GenerateId(hash, qs[k]) == id;
    var m := FirstMatch(prior, id).value;
    assert rs[k].translation == prior[m].value.translation;
    assert rs[k].category == prior[m].value.category;
    assert rs[k].context == prior[m].value.context;
    assert ReconcileAll(qs, saved, hash, svc, langs)[i] == ReconcileOne(qs[i], saved, hash, svc, langs);
  }
}
