/** The question scraper's module state and its entry points: the running
    question counter shared by all pages, the saved question corpus, the
    per-page scrape, the two aggregations over pages (the paginated full corpus
    and the per-state pages) and the whole run that reconciles and saves. Pages
    are given already fetched; None stands for a fetch that failed. */
module Scraping {
  import opened Wrappers
  import opened Text
  import opened QuestionModel
  import opened Extraction
  import opened Enrichment
  import opened Reconcile
  import opened States

  predicate AllFetched(pages: seq<Option<Page>>) {
    forall k :: 0 <= k < |pages| ==> pages[k].Some?
  }

  function Values(pages: seq<Option<Page>>): (ps: seq<Page>)
    requires AllFetched(pages)
    ensures |ps| == |pages|
  {
    seq(|pages|, k requires 0 <= k < |pages| => pages[k].value)
  }

  /** How many pages were fetched before the first failure. */
  function FetchedCount(pages: seq<Option<Page>>): (n: nat)
    ensures n <= |pages| && AllFetched(pages[..n])
    ensures n < |pages| ==> pages[n].None?
  {
    match FirstIndex(pages, (p: Option<Page>) => p.None?)
    case None => |pages|
    case Some(i) => i
  }

  /** The elements of several pages, page after page. */
  function Concat(ps: seq<Page>): Page {
    if ps == [] then [] else Concat(ps[..|ps| - 1]) + ps[|ps| - 1]
  }

  /** The records of the state pages, each state counted from 1 again. */
  function StateBlocks(states: seq<string>, ps: seq<Page>, baseUrl: string): seq<Question>
    requires |states| == |ps|
  {
    if ps == [] then []
    else StateBlocks(states[..|ps| - 1], ps[..|ps| - 1], baseUrl)
         + PageQuestions(ps[|ps| - 1], states[|ps| - 1], 0, baseUrl)
  }

  lemma ConcatValuesExtend(pages: seq<Option<Page>>, i: nat)
    requires i < |pages| && AllFetched(pages[..i + 1])
    ensures AllFetched(pages[..i])
    ensures Values(pages[..i + 1]) == Values(pages[..i]) + [pages[i].value]
    ensures Concat(Values(pages[..i + 1])) == Concat(Values(pages[..i])) + pages[i].value
  {
    assert pages[..i + 1][..i] == pages[..i];
    assert Values(pages[..i + 1]) == Values(pages[..i]) + [pages[i].value];
    assert Values(pages[..i + 1])[..i] == Values(pages[..i]);
  }

  lemma StateBlocksExtend(states: seq<string>, pages: seq<Option<Page>>, i: nat, baseUrl: string)
    requires |states| == |pages| && i < |pages| && AllFetched(pages[..i + 1])
    ensures AllFetched(pages[..i])
    ensures StateBlocks(states[..i + 1], Values(pages[..i + 1]), baseUrl)
         == StateBlocks(states[..i], Values(pages[..i]), baseUrl) + PageQuestions(pages[i].value, states[i], 0, baseUrl)
  {
    ConcatValuesExtend(pages, i);
    assert states[..i + 1][..i] == states[..i];
    assert Values(pages[..i + 1])[..i] == Values(pages[..i]);
  }

  /** Every label of a state page carries the dash after the state code. */
  lemma {:induction false} StateBlockNumsHaveDash(states: seq<string>, ps: seq<Page>, baseUrl: string)
    requires |states| == |ps|
    requires forall k :: 0 <= k < |states| ==> states[k] != ""
    ensures forall j :: 0 <= j < |StateBlocks(states, ps, baseUrl)| ==> '-' in StateBlocks(states, ps, baseUrl)[j].num
  {
    if ps != [] {
      var n := |ps| - 1;
      StateBlockNumsHaveDash(states[..n], ps[..n], baseUrl);
      var front: seq<Question> := StateBlocks(states[..n], ps[..n], baseUrl);
      var last: seq<Question> := PageQuestions(ps[n], states[n], 0, baseUrl);
      forall j | 0 <= j < |last| ensures '-' in last[j].num {
        var lbl := NumLabel(states[n], j + 1);
        assert last[j].num == lbl;
        assert lbl[|Upper(states[n])|] == '-';
      }
      forall j | 0 <= j < |front + last| ensures '-' in (front + last)[j].num {
        if j < |front| { assert (front + last)[j] == front[j]; }
        else { assert (front + last)[j] == last[j - |front|]; }
      }
    }
  }

  /** The full-corpus pass and the state pass never hand out the same label:
      the first uses bare counters, the second state-prefixed ones. */
  lemma FullAndStateNumsDisjoint(page: Page, start: nat, states: seq<string>, ps: seq<Page>,
                                 baseUrl: string, i: nat, j: nat)
    requires |states| == |ps|
    requires forall k :: 0 <= k < |states| ==> states[k] != ""
    requires i < |page| && j < |StateBlocks(states, ps, baseUrl)|
    ensures PageQuestions(page, "", start, baseUrl)[i].num != StateBlocks(states, ps, baseUrl)[j].num
  {
    StateBlockNumsHaveDash(states, ps, baseUrl);
    var n := start + i + 1;
    assert PageQuestions(page, "", start, baseUrl)[i].num == Decimal(n);
    DecimalDigits(n);
  }

  /** No two records of a run share a `num`. */
  predicate DistinctNums(qs: seq<Question>) {
    forall i, j :: 0 <= i < j < |qs| ==> qs[i].num != qs[j].num
  }

  /** A state-prefixed label begins with the state code upper-cased. */
  lemma NumLabelLeadsWithState(state: string, n: nat, k: nat)
    requires k < |state|
    ensures NumLabel(state, n)[k] == UpperChar(state[k])
  {
    var u := Upper(state);
    assert NumLabel(state, n) == u + ("-" + Decimal(n));
    assert u[k] == UpperChar(state[k]);
  }

  /** Two different state codes never give the same label: their capitals lead
      the labels, and upper-casing keeps two different codes apart. */
  lemma NumLabelStatesDistinct(s1: string, s2: string, m: nat, n: nat)
    requires IsStateCode(s1) && IsStateCode(s2) && s1 != s2
    ensures NumLabel(s1, m) != NumLabel(s2, n)
  {
    var k := if s1[0] != s2[0] then 0 else 1;
    assert s1[k] != s2[k];
    NumLabelLeadsWithState(s1, m, k);
    NumLabelLeadsWithState(s2, n, k);
    UpperCharInjective(s1[k], s2[k]);
  }

  /** `lbl` is the label of some counter value for one of the states. */
  ghost predicate IsLabelOfOneOf(states: seq<string>, lbl: string) {
    exists k, c: nat :: 0 <= k < |states| && lbl == NumLabel(states[k], c)
  }

  /** Every label of the state pass is a label of one of the states. */
  lemma {:induction false} StateBlockNumsOfStates(states: seq<string>, ps: seq<Page>, baseUrl: string)
    requires |states| == |ps|
    ensures forall j :: 0 <= j < |StateBlocks(states, ps, baseUrl)| ==>
      IsLabelOfOneOf(states, StateBlocks(states, ps, baseUrl)[j].num)
  {
    if ps != [] {
      var n := |ps| - 1;
      StateBlockNumsOfStates(states[..n], ps[..n], baseUrl);
      var front: seq<Question> := StateBlocks(states[..n], ps[..n], baseUrl);
      var last: seq<Question> := PageQuestions(ps[n], states[n], 0, baseUrl);
      assert StateBlocks(states, ps, baseUrl) == front + last;
      forall j | 0 <= j < |front + last|
        ensures IsLabelOfOneOf(states, (front + last)[j].num)
      {
        if j < |front| {
          assert IsLabelOfOneOf(states[..n], front[j].num);
          var k, c: nat :| 0 <= k < n && front[j].num == NumLabel(states[..n][k], c);
          assert (front + last)[j] == front[j] && states[..n][k] == states[k];
          assert (front + last)[j].num == NumLabel(states[k], c);
        } else {
          PageQuestionNum(ps[n], states[n], 0, baseUrl, j - |front|);
          assert (front + last)[j] == last[j - |front|];
          assert (front + last)[j].num == NumLabel(states[n], j - |front| + 1);
        }
      }
    }
  }

  /** A label of one of `states` is no label of a code outside them. */
  lemma OtherStateLabelDiffers(states: seq<string>, lbl: string, code: string, n: nat)
    requires forall k :: 0 <= k < |states| ==> IsStateCode(states[k]) && states[k] != code
    requires IsStateCode(code) && IsLabelOfOneOf(states, lbl)
    ensures lbl != NumLabel(code, n)
  {
    var k, c: nat :| 0 <= k < |states| && lbl == NumLabel(states[k], c);
    NumLabelStatesDistinct(states[k], code, c, n);
  }

  /** With distinct state codes the state pass hands out distinct labels. */
  lemma {:induction false} StateBlockNumsDistinct(states: seq<string>, ps: seq<Page>, baseUrl: string)
    requires |states| == |ps|
    requires forall k :: 0 <= k < |states| ==> IsStateCode(states[k])
    requires forall k, l :: 0 <= k < l < |states| ==> states[k] != states[l]
    ensures DistinctNums(StateBlocks(states, ps, baseUrl))
  {
    if ps != [] {
      var n := |ps| - 1;
      StateBlockNumsDistinct(states[..n], ps[..n], baseUrl);
      StateBlockNumsOfStates(states[..n], ps[..n], baseUrl);
      var front: seq<Question> := StateBlocks(states[..n], ps[..n], baseUrl);
      var last: seq<Question> := PageQuestions(ps[n], states[n], 0, baseUrl);
      forall i, j | 0 <= i < j < |last| ensures last[i].num != last[j].num {
        PageNumsDistinct(ps[n], states[n], 0, baseUrl, i, j);
      }
      forall k | 0 <= k < n ensures IsStateCode(states[..n][k]) && states[..n][k] != states[n] {
        assert states[..n][k] == states[k];
      }
      forall i, j | 0 <= i < |front| && 0 <= j < |last| ensures front[i].num != last[j].num {
        PageQuestionNum(ps[n], states[n], 0, baseUrl, j);
        OtherStateLabelDiffers(states[..n], front[i].num, states[n], j + 1);
      }
      AppendDistinctNums(front, last);
    }
  }

  /** Two runs of uniquely labelled records that share no label join into one. */
  lemma AppendDistinctNums(a: seq<Question>, b: seq<Question>)
    requires DistinctNums(a) && DistinctNums(b)
    requires forall i, j :: 0 <= i < |a| && 0 <= j < |b| ==> a[i].num != b[j].num
    ensures DistinctNums(a + b)
  {
    forall i, j | 0 <= i < j < |a + b| ensures (a + b)[i].num != (a + b)[j].num {
      if j < |a| {
        assert (a + b)[i] == a[i] && (a + b)[j] == a[j];
      } else if |a| <= i {
        assert (a + b)[i] == b[i - |a|] && (a + b)[j] == b[j - |a|];
      } else {
        assert (a + b)[i] == a[i] && (a + b)[j] == b[j - |a|];
      }
    }
  }

  /** A whole run labels its records uniquely: the full-corpus records among
      themselves, the state records among themselves when the state codes are
      distinct keys of the state table, and the two passes against each other. */
  lemma RunNumsDistinct(page: Page, start: nat, states: seq<string>, ps: seq<Page>, baseUrl: string)
    requires |states| == |ps|
    requires forall k :: 0 <= k < |states| ==> states[k] in StateMapping
    requires forall k, l :: 0 <= k < l < |states| ==> states[k] != states[l]
    ensures DistinctNums(PageQuestions(page, "", start, baseUrl) + StateBlocks(states, ps, baseUrl))
  {
    var full: seq<Question> := PageQuestions(page, "", start, baseUrl);
    var blocks: seq<Question> := StateBlocks(states, ps, baseUrl);
    forall k | 0 <= k < |states| ensures IsStateCode(states[k]) {
      CodesAreTwoLowercaseLetters(states[k]);
    }
    StateBlockNumsDistinct(states, ps, baseUrl);
    forall i, j | 0 <= i < j < |full| ensures full[i].num != full[j].num {
      PageNumsDistinct(page, "", start, baseUrl, i, j);
    }
    forall i, j | 0 <= i < |full| && 0 <= j < |blocks| ensures full[i].num != blocks[j].num {
      FullAndStateNumsDisjoint(page, start, states, ps, baseUrl, i, j);
    }
    AppendDistinctNums(full, blocks);
  }

  /** A scraped question is sent to the translator with the empty context it was
      built with: the context is generated after the translation. */
  lemma FreshQuestionTranslatesEmptyContext(el: QuestionElement, num: string, baseUrl: string)
    ensures TranslationInputs(QuestionOf(el, num, baseUrl))[5] == ""
  {
  }

  class Scraper {
    /** `questionsIndex`, the module-level running question counter. */
    var counter: nat
    /** The saved question corpus, read at start and replaced by a successful run. */
    var saved: Corpus

    constructor (saved: Corpus)
      ensures counter == 0 && this.saved == saved
    {
      counter := 0;
      this.saved := saved;
    }

    /** `scrap`: one record per question element, each counted by advancing the
        counter by one and labelled with the counter's new value. */
    method Scrap(page: Page, state: string, baseUrl: string) returns (qs: seq<Question>)
      modifies this`counter
      ensures counter == old(counter) + |page|
      ensures qs == PageQuestions(page, state, old(counter), baseUrl)
    {
      qs := [];
      var i := 0;
      while i < |page|
        invariant 0 <= i <= |page|
        invariant counter == old(counter) + i
        invariant qs == PageQuestions(page[..i], state, old(counter), baseUrl)
      {
        counter := counter + 1;
        var q := BuildQuestion(page[i], NumLabel(state, counter), baseUrl);
        PageQuestionsAppend(page[..i], [page[i]], state, old(counter), baseUrl);
        assert page[..i + 1] == page[..i] + [page[i]];
        assert PageQuestions([page[i]], state, old(counter) + i, baseUrl) == [q];
        qs := qs + [q];
        i := i + 1;
      }
      assert page[..i] == page;
    }

    /** `scrapAll`: the pages of the paginated corpus in order, the counter
        carried over from page to page; a failed fetch ends the pass. */
    method ScrapAll(pages: seq<Option<Page>>, baseUrl: string) returns (r: Option<seq<Question>>)
      modifies this`counter
      ensures r.Some? <==> AllFetched(pages)
      ensures counter == old(counter) + |Concat(Values(pages[..FetchedCount(pages)]))|
      ensures r.Some? ==> r.value == PageQuestions(Concat(Values(pages)), "", old(counter), baseUrl)
    {
      var acc := [];
      var i := 0;
      while i < |pages|
        invariant 0 <= i <= |pages|
        invariant AllFetched(pages[..i])
        invariant counter == old(counter) + |Concat(Values(pages[..i]))|
        invariant acc == PageQuestions(Concat(Values(pages[..i])), "", old(counter), baseUrl)
      {
        if pages[i].None? {
          assert FetchedCount(pages) == i;
          return None;
        }
        assert AllFetched(pages[..i + 1]);
        ConcatValuesExtend(pages, i);
        PageQuestionsAppend(Concat(Values(pages[..i])), pages[i].value, "", old(counter), baseUrl);
        var qs := Scrap(pages[i].value, "", baseUrl);
        acc := acc + qs;
        i := i + 1;
      }
      assert pages[..i] == pages;
      assert FetchedCount(pages) == |pages|;
      r := Some(acc);
    }

    /** `scrapStates`: the page of each state in order, the counter reset to 0
        before each; a failed fetch ends the pass. */
    method ScrapStates(states: seq<string>, pages: seq<Option<Page>>, baseUrl: string)
      returns (r: Option<seq<Question>>)
      requires |pages| == |states|
      modifies this`counter
      ensures r.Some? <==> AllFetched(pages)
      ensures r.Some? ==> r.value == StateBlocks(states, Values(pages), baseUrl)
      ensures !AllFetched(pages) ==> counter == 0
      ensures AllFetched(pages) && pages != [] ==> counter == |pages[|pages| - 1].value|
      ensures pages == [] ==> counter == old(counter)
    {
      var acc := [];
      var i := 0;
      while i < |pages|
        invariant 0 <= i <= |pages|
        invariant AllFetched(pages[..i])
        invariant counter == if i == 0 then old(counter) else |pages[i - 1].value|
        invariant acc == StateBlocks(states[..i], Values(pages[..i]), baseUrl)
      {
        counter := 0;
        if pages[i].None? {
          return None;
        }
        assert AllFetched(pages[..i + 1]);
        StateBlocksExtend(states, pages, i, baseUrl);
        var qs := Scrap(pages[i].value, states[i], baseUrl);
        acc := acc + qs;
        i := i + 1;
      }
      assert pages[..i] == pages && states[..i] == states;
      r := Some(acc);
    }

    /** The scraping half of `scrapeData`: the full corpus, then the state
        pages, their records joined; None when a fetch failed. */
    method ScrapeAllAndStates(fullPages: seq<Option<Page>>, states: seq<string>, statePages: seq<Option<Page>>,
                              baseUrl: string)
      returns (r: Option<seq<Question>>)
      requires |statePages| == |states|
      modifies this`counter
      ensures r.Some? <==> AllFetched(fullPages) && AllFetched(statePages)
      ensures r.Some? ==> r.value == PageQuestions(Concat(Values(fullPages)), "", old(counter), baseUrl)
                                     + StateBlocks(states, Values(statePages), baseUrl)
      ensures !AllFetched(fullPages) ==>
        counter == old(counter) + |Concat(Values(fullPages[..FetchedCount(fullPages)]))|
      ensures AllFetched(fullPages) && !AllFetched(statePages) ==> counter == 0
      ensures AllFetched(fullPages) && AllFetched(statePages) && statePages != [] ==>
        counter == |statePages[|statePages| - 1].value|
      ensures AllFetched(fullPages) && statePages == [] ==>
        counter == old(counter) + |Concat(Values(fullPages))|
    {
      var questions := ScrapAll(fullPages, baseUrl);
      if questions.None? {
        return None;
      }
      assert FetchedCount(fullPages) == |fullPages| && fullPages[..|fullPages|] == fullPages;
      var stateQuestions := ScrapStates(states, statePages, baseUrl);
      if stateQuestions.None? {
        return None;
      }
      r := Some(questions.value + stateQuestions.value);
    }

    /** `scrapeData`: the full corpus, then the state pages, then the
        reconciliation loop over both, and the result saved. Any failed fetch
        is caught: nothing is reconciled and nothing is saved. */
    method ScrapeData(fullPages: seq<Option<Page>>, states: seq<string>, statePages: seq<Option<Page>>,
                      baseUrl: string, hash: string -> string, svc: Services, langs: seq<string>)
      returns (calls: seq<ServiceCall>)
      requires |statePages| == |states|
      modifies this
      ensures !(AllFetched(fullPages) && AllFetched(statePages)) ==> saved == old(saved) && calls == []
      ensures AllFetched(fullPages) && AllFetched(statePages) ==>
        var scraped := PageQuestions(Concat(Values(fullPages)), "", old(counter), baseUrl)
                       + StateBlocks(states, Values(statePages), baseUrl);
        && saved == Saved(ReconcileAll(scraped, old(saved), hash, svc, langs))
        && calls == CallLog(scraped, old(saved), hash)
      ensures !AllFetched(fullPages) ==>
        counter == old(counter) + |Concat(Values(fullPages[..FetchedCount(fullPages)]))|
      ensures AllFetched(fullPages) && !AllFetched(statePages) ==> counter == 0
      ensures AllFetched(fullPages) && AllFetched(statePages) && statePages != [] ==>
        counter == |statePages[|statePages| - 1].value|
      ensures AllFetched(fullPages) && statePages == [] ==>
        counter == old(counter) + |Concat(Values(fullPages))|
    {
      calls := [];
      var scraped := ScrapeAllAndStates(fullPages, states, statePages, baseUrl);
      if scraped.None? {
        return;
      }
      var all := new Question[|scraped.value|](k requires 0 <= k < |scraped.value| => scraped.value[k]);
      assert all[..] == scraped.value;
      calls := ReconcileInPlace(all, saved, hash, svc, langs);
      saved := Saved(all[..]);
    }
  }
}
