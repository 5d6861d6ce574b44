/** The exam-evaluation date watcher: the trimmed date text taken from the
    authority's naturalisation page, compared with the stored date and written
    back only when it is present and new. The page fetch is a parameter (None:
    the fetch failed); the stored JSON document is the store's one field. */
module CurrentEvaluation {
  import opened Wrappers
  import opened Text

  /** How a refresh ended. */
  datatype Outcome = FetchFailed | NoDateFound | AlreadyCurrent | Written

  /** `scrapCurrentEvaluation`: the selected element's text, trimmed. */
  function ScrapedDate(pageText: string): (d: string)
    ensures d == [] <==> AllSpace(pageText)
    ensures d != [] ==> !IsSpace(d[0]) && !IsSpace(d[|d| - 1])
    ensures exists i, j :: 0 <= i <= j <= |pageText| && d == pageText[i..j]
                           && AllSpace(pageText[..i]) && AllSpace(pageText[j..])
  {
    TrimEmptyIff(pageText);
    TrimIsInfix(pageText);
    TrimEnds(pageText);
    Trim(pageText)
  }

  /** The outcome of `scrapCurrentEvaluationData` for a stored date and a fetched page. */
  function RefreshOutcome(stored: string, page: Option<string>): Outcome {
    if page.None? then FetchFailed
    else if ScrapedDate(page.value) == "" then NoDateFound
    else if ScrapedDate(page.value) == stored then AlreadyCurrent
    else Written
  }

  /** The stored date after `scrapCurrentEvaluationData`. */
  function RefreshedDate(stored: string, page: Option<string>): string {
    if RefreshOutcome(stored, page) == Written then ScrapedDate(page.value) else stored
  }

  /** A refresh writes exactly when the page was fetched and carries a
      non-blank date different from the stored one; a write stores that date. */
  lemma RefreshWritesIffNew(stored: string, page: Option<string>)
    ensures RefreshOutcome(stored, page) == Written
        <==> page.Some? && !AllSpace(page.value) && ScrapedDate(page.value) != stored
    ensures RefreshOutcome(stored, page) == Written ==> RefreshedDate(stored, page) == ScrapedDate(page.value)
    ensures RefreshOutcome(stored, page) != Written ==> RefreshedDate(stored, page) == stored
  {
  }

  /** A refresh never replaces a date by a blank one, and whatever it writes is
      already trimmed. */
  lemma RefreshNeverBlanks(stored: string, page: Option<string>)
    ensures RefreshedDate(stored, page) == stored || RefreshedDate(stored, page) != ""
    ensures RefreshedDate(stored, page) != stored ==> Trim(RefreshedDate(stored, page)) == RefreshedDate(stored, page)
  {
    if RefreshedDate(stored, page) != stored {
      TrimIdempotent(page.value);
    }
  }

  /** Refreshing again from the same page finds the date already current. */
  lemma RefreshIdempotent(stored: string, page: Option<string>)
    ensures RefreshedDate(RefreshedDate(stored, page), page) == RefreshedDate(stored, page)
    ensures page.Some? && !AllSpace(page.value) ==> RefreshOutcome(RefreshedDate(stored, page), page) == AlreadyCurrent
  {
  }

  class EvaluationStore {
    /** The `examDate` of the stored evaluation document. */
    var examDate: string

    constructor (examDate: string)
      ensures this.examDate == examDate
    {
      this.examDate := examDate;
    }

    /** `scrapCurrentEvaluationData`: a failed fetch or a blank date is caught
        and logged, an unchanged date ends the run, a new date is written. */
    method Refresh(page: Option<string>) returns (outcome: Outcome)
      modifies this
      ensures outcome == RefreshOutcome(old(examDate), page)
      ensures examDate == RefreshedDate(old(examDate), page)
    {
      if page.None? {
        return FetchFailed;
      }
      var date := ScrapedDate(page.value);
      if date == "" {
        return NoDateFound;
      }
      if date == examDate {
        return AlreadyCurrent;
      }
      examDate := date;
      outcome := Written;
    }
  }
}
