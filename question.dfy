/** The record shapes of the question bank: a question with its four choices,
    its enrichment fields, and one language's translation of it. */
module QuestionModel {
  import opened Wrappers

  /** One target language's copy of a question: always all six fields together. */
  datatype QuestionTranslation = QuestionTranslation(
    question: string, a: string, b: string, c: string, d: string, context: string)

  /** Language code to translated copy. */
  type Translations = map<string, QuestionTranslation>

  /** `translation` is None when it is null or undefined (a failed translation);
      `category` is None when it is null or undefined (not yet classified) and
      otherwise holds the completion service's text, which is not validated. */
  datatype Question = Question(
    num: string,
    id: string,
    question: string,
    a: string, b: string, c: string, d: string,
    solution: string,
    image: string,
    translation: Option<Translations>,
    context: string,
    category: Option<string>)

  /** The closed set of topic labels the categorisation prompt offers, plus the
      fallback label. */
  const CategoryLabels: set<string> := {
    "Rights & Freedoms", "Education & Religion", "Law & Governance",
    "Democracy & Politics", "Economy & Employment", "History & Geography",
    "Elections", "Press Freedom", "Assembly & Protests", "Federal System",
    "Constitution", "General" }

  /** The text the content id is computed over: question, then the four choices. */
  function ContentText(q: Question): string {
    q.question + q.a + q.b + q.c + q.d
  }
}
