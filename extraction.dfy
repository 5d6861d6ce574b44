/** Turning one question element of a question page into a Question record, and
    the numbering of the records by the running question counter. The page is
    given as its already-selected elements: the markup selectors are not modelled. */
module Extraction {
  import opened Wrappers
  import opened Text
  import opened QuestionModel

  /** One `li` of a question: its text (with the correct-answer marker already
      removed) and whether the marker was present. */
  datatype ListItem = ListItem(text: string, marked: bool)

  /** One question block: the question's text, the `src` of its image if it has
      one, and its answer list items in page order. */
  datatype QuestionElement = QuestionElement(text: string, image: Option<string>, items: seq<ListItem>)

  type Page = seq<QuestionElement>

  /** The choice letter of a list position: 'a'..'d' for 0..3, '' otherwise. */
  function MapIndexToChoice(index: int): (r: string)
    ensures 0 <= index < 4 ==> r == ["abcd"[index]]
    ensures !(0 <= index < 4) ==> r == ""
  {
    match index
    case 0 => "a"
    case 1 => "b"
    case 2 => "c"
    case 3 => "d"
    case _ => ""
  }

  /** `question[letter] = text`: a letter other than 'a'..'d' writes a key that
      is not one of the record's fields, so the record is unchanged. */
  function SetChoice(q: Question, letter: string, text: string): Question {
    if |letter| != 1 then q
    else match letter[0]
      case 'a' => q.(a := text)
      case 'b' => q.(b := text)
      case 'c' => q.(c := text)
      case 'd' => q.(d := text)
      case _ => q
  }

  /** Writing the choice of list position `i` changes exactly that slot (none
      for a fifth or later item) and nothing else. */
  lemma SetChoiceAt(q: Question, i: nat, text: string)
    ensures var r := SetChoice(q, MapIndexToChoice(i), text);
      && r.a == (if i == 0 then text else q.a)
      && r.b == (if i == 1 then text else q.b)
      && r.c == (if i == 2 then text else q.c)
      && r.d == (if i == 3 then text else q.d)
      && r.(a := q.a, b := q.b, c := q.c, d := q.d) == q
  {
  }

  /** The position of the last marked list item, if any. */
  function LastMarked(items: seq<ListItem>): (r: Option<nat>)
    ensures r.Some? ==> r.value < |items| && items[r.value].marked
    ensures r.Some? ==> forall j :: r.value < j < |items| ==> !items[j].marked
    ensures r.None? ==> forall j :: 0 <= j < |items| ==> !items[j].marked
  {
    if items == [] then None
    else if items[|items| - 1].marked then Some(|items| - 1)
    else LastMarked(items[..|items| - 1])
  }

  /** The text of the list item that fills choice slot `k`, or '' when the
      question has fewer items. */
  function ChoiceText(items: seq<ListItem>, k: nat): string {
    if k < |items| then Trim(items[k].text) else ""
  }

  /** The letter of the last marked item, or '' when none is marked. */
  function SolutionOf(items: seq<ListItem>): string {
    match LastMarked(items)
    case None => ""
    case Some(i) => MapIndexToChoice(i)
  }

  /** The site's base URL and the image's `src`, or the "no image" sentinel '-'. */
  function ImageOf(image: Option<string>, baseUrl: string): string {
    match image
    case None => "-"
    case Some(src) => baseUrl + src
  }

  /** Reading one more list item makes it the solution if it is marked. */
  lemma SolutionOfExtend(items: seq<ListItem>, i: nat)
    requires i < |items|
    ensures SolutionOf(items[..i + 1])
         == if items[i].marked then MapIndexToChoice(i) else SolutionOf(items[..i])
  {
    assert items[..i + 1][..i] == items[..i];
  }

  /** The record built for one question element: the choices from the first four
      items, the letter of the last marked item as the solution, and the fixed
      defaults for everything the page does not supply. */
  function QuestionOf(el: QuestionElement, num: string, baseUrl: string): Question {
    Question(
      num := num,
      id := "",
      question := Trim(el.text),
      a := ChoiceText(el.items, 0),
      b := ChoiceText(el.items, 1),
      c := ChoiceText(el.items, 2),
      d := ChoiceText(el.items, 3),
      solution := SolutionOf(el.items),
      image := ImageOf(el.image, baseUrl),
      translation := Some(map[]),
      context := "",
      category := None)
  }

  /** Builds the record for one element the way the scraper does: start from the
      defaults, then fill the question, the image and one choice per list item. */
  method BuildQuestion(el: QuestionElement, num: string, baseUrl: string) returns (q: Question)
    ensures q == QuestionOf(el, num, baseUrl)
  {
    q := Question(num, "", "", "", "", "", "", "", "-", Some(map[]), "", None);
    q := q.(question := Trim(el.text));
    if el.image.Some? {
      q := q.(image := baseUrl + el.image.value);
    }
    var i := 0;
    while i < |el.items|
      invariant 0 <= i <= |el.items|
      invariant q.num == num && q.id == "" && q.question == Trim(el.text)
      invariant q.image == ImageOf(el.image, baseUrl)
      invariant q.translation == Some(map[]) && q.context == "" && q.category == None
      invariant q.a == (if 0 < i then ChoiceText(el.items, 0) else "")
      invariant q.b == (if 1 < i then ChoiceText(el.items, 1) else "")
      invariant q.c == (if 2 < i then ChoiceText(el.items, 2) else "")
      invariant q.d == (if 3 < i then ChoiceText(el.items, 3) else "")
      invariant q.solution == SolutionOf(el.items[..i])
    {
      var item := el.items[i];
      var letter := MapIndexToChoice(i);
      SetChoiceAt(q, i, Trim(item.text));
      SolutionOfExtend(el.items, i);
      q := SetChoice(q, letter, Trim(item.text));
      if item.marked {
        q := q.(solution := letter);
      }
      i := i + 1;
    }
    assert el.items[..i] == el.items;
  }

  /** The `num` label of the question counted as `n`: the decimal counter, or the
      upper-cased state code, a dash and the counter when a state is given. */
  function NumLabel(state: string, n: nat): string {
    if state == "" then Decimal(n) else Upper(state) + "-" + Decimal(n)
  }

  /** The records of one page when the counter stood at `start` before it, with
      `labelOf` turning a counter value into a number label: the k-th element is
      counted as `start + k + 1`. */
  function Numbered(page: Page, labelOf: nat -> string, start: nat, baseUrl: string): (qs: seq<Question>)
    ensures |qs| == |page|
  {
    seq(|page|, k requires 0 <= k < |page| => QuestionOf(page[k], labelOf(start + k + 1), baseUrl))
  }

  /** The records of one page scraped for `state` (or for none). */
  function PageQuestions(page: Page, state: string, start: nat, baseUrl: string): (qs: seq<Question>)
    ensures |qs| == |page|
  {
    Numbered(page, (n: nat) => NumLabel(state, n), start, baseUrl)
  }

  /** A fresh record carries the fixed defaults: empty id, empty context, no
      category, an empty translation map, and '-' when there is no image. */
  lemma FreshDefaults(el: QuestionElement, num: string, baseUrl: string)
    ensures var q := QuestionOf(el, num, baseUrl);
      && q.num == num && q.id == "" && q.context == "" && q.category == None
      && q.translation == Some(map[])
      && (el.image.None? ==> q.image == "-")
      && (el.image.Some? ==> q.image == baseUrl + el.image.value)
  {
  }

  /** The solution is the letter of the last marked item when that item is one of
      the first four, and '' when no item is marked or the last marked one is a
      fifth or later item. */
  lemma SolutionIsLastMarked(el: QuestionElement, num: string, baseUrl: string)
    ensures var s := QuestionOf(el, num, baseUrl).solution;
      && ((forall j :: 0 <= j < |el.items| ==> !el.items[j].marked) ==> s == "")
      && (forall i :: 0 <= i < |el.items| && el.items[i].marked
            && (forall j :: i < j < |el.items| ==> !el.items[j].marked)
            ==> s == MapIndexToChoice(i))
  {
    var s := QuestionOf(el, num, baseUrl).solution;
    forall i | 0 <= i < |el.items| && el.items[i].marked
            && (forall j :: i < j < |el.items| ==> !el.items[j].marked)
      ensures s == MapIndexToChoice(i)
    {
      var r := LastMarked(el.items);
      assert r.Some?;
      assert r.value == i;
    }
  }

  /** The solution is always one of the choice letters or ''. */
  lemma SolutionIsLetterOrEmpty(el: QuestionElement, num: string, baseUrl: string)
    ensures QuestionOf(el, num, baseUrl).solution in {"", "a", "b", "c", "d"}
  {
  }

  /** The counter a label was made from: the partner of NumLabel. */
  function LabelCounter(state: string, lbl: string): int {
    if state == "" then ParseDecimal(lbl)
    else if |lbl| <= |state| then 0
    else ParseDecimal(lbl[|state| + 1..])
  }

  /** A label reads back as the counter it was made from. */
  lemma LabelCounterOfNumLabel(state: string, n: nat)
    ensures LabelCounter(state, NumLabel(state, n)) == n
  {
    ParseDecimalOfDecimal(n);
    if state != "" {
      DecimalDigits(n);
      assert NumLabel(state, n)[|state| + 1..] == Decimal(n);
    }
  }

  /** For one state (or none), distinct counter values give distinct labels. */
  lemma NumLabelDistinct(state: string, m: nat, n: nat)
    requires m != n
    ensures NumLabel(state, m) != NumLabel(state, n)
  {
    LabelCounterOfNumLabel(state, m);
    LabelCounterOfNumLabel(state, n);
  }

  /** A label without a state never equals a state-prefixed label: the unprefixed
      label is digits only, the prefixed one contains a dash. */
  lemma NumLabelsDisjoint(state: string, m: nat, n: nat)
    requires state != ""
    ensures NumLabel("", m) != NumLabel(state, n)
  {
    var l := NumLabel(state, n);
    DecimalDigits(m);
    assert l[|Upper(state)|] == '-';
    assert !IsDigit('-');
    if |Decimal(m)| == |l| {
      assert Decimal(m)[|Upper(state)|] != l[|Upper(state)|];
    }
  }

  /** The k-th record of a page is labelled with the counter's start + k + 1. */
  lemma PageQuestionNum(page: Page, state: string, start: nat, baseUrl: string, k: nat)
    requires k < |page|
    ensures PageQuestions(page, state, start, baseUrl)[k].num == NumLabel(state, start + k + 1)
  {
  }

  /** Records whose counters got distinct labels have distinct numbers. */
  lemma PageNumsFromLabels(page: Page, state: string, start: nat, baseUrl: string, i: nat, j: nat)
    requires i < j < |page|
    requires NumLabel(state, start + i + 1) != NumLabel(state, start + j + 1)
    ensures PageQuestions(page, state, start, baseUrl)[i].num != PageQuestions(page, state, start, baseUrl)[j].num
  {
    PageQuestionNum(page, state, start, baseUrl, i);
    PageQuestionNum(page, state, start, baseUrl, j);
  }

  /** Within one page the records get pairwise distinct labels. */
  lemma PageNumsDistinct(page: Page, state: string, start: nat, baseUrl: string, i: nat, j: nat)
    requires i < j < |page|
    ensures PageQuestions(page, state, start, baseUrl)[i].num != PageQuestions(page, state, start, baseUrl)[j].num
  {
    NumLabelDistinct(state, start + i + 1, start + j + 1);
    PageNumsFromLabels(page, state, start, baseUrl, i, j);
  }

  /** One position of NumberedAppend. */
  lemma NumberedAppendAt(p1: Page, p2: Page, labelOf: nat -> string, start: nat, baseUrl: string, k: nat)
    requires k < |p1| + |p2|
    ensures Numbered(p1 + p2, labelOf, start, baseUrl)[k]
         == (Numbered(p1, labelOf, start, baseUrl) + Numbered(p2, labelOf, start + |p1|, baseUrl))[k]
  {
    if k < |p1| {
      assert (p1 + p2)[k] == p1[k];
    } else {
      assert (p1 + p2)[k] == p2[k - |p1|];
      assert start + k + 1 == (start + |p1|) + (k - |p1|) + 1;
    }
  }

  /** Scraping two pages with the counter carried over is scraping their
      concatenation in one go. */
  lemma PageQuestionsAppend(p1: Page, p2: Page, state: string, start: nat, baseUrl: string)
    ensures PageQuestions(p1 + p2, state, start, baseUrl)
         == PageQuestions(p1, state, start, baseUrl) + PageQuestions(p2, state, start + |p1|, baseUrl)
  {
    var labelOf := (n: nat) => NumLabel(state, n);
    forall k | 0 <= k < |p1| + |p2|
      ensures Numbered(p1 + p2, labelOf, start, baseUrl)[k]
           == (Numbered(p1, labelOf, start, baseUrl) + Numbered(p2, labelOf, start + |p1|, baseUrl))[k]
    {
      NumberedAppendAt(p1, p2, labelOf, start, baseUrl, k);
    }
  }

  /** With the counter reset to 0 the first record of a state page is labelled
      "<STATE>-1". */
  lemma StatePageStartsAtOne(page: Page, state: string, baseUrl: string)
    requires |page| > 0 && state != ""
    ensures PageQuestions(page, state, 0, baseUrl)[0].num == Upper(state) + "-1"
  {
    assert Decimal(1) == "1";
  }
}
