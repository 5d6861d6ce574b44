/** The two constant tables between federal-state codes and the state names used
    in the question site's URLs. */
module States {

  /** Two-letter code to URL name (STATE_MAPPING). */
  const StateMapping: map<string, string> := map[
    "bw" := "baden-wurttemberg",
    "by" := "bayern",
    "be" := "berlin",
    "bb" := "brandenburg",
    "hb" := "bremen",
    "hh" := "hamburg",
    "he" := "hessen",
    "mv" := "mecklenburg-vorpommern",
    "ni" := "niedersachsen",
    "nw" := "nordrhein-westfalen",
    "rp" := "rheinland-pfalz",
    "sl" := "saarland",
    "st" := "sachsen-anhalt",
    "sn" := "sachsen",
    "sh" := "schleswig-holstein",
    "th" := "thuringen"]

  /** URL name to two-letter code (STATE_REVERSE_MAPPING). */
  const StateReverseMapping: map<string, string> := map[
    "baden-wurttemberg" := "bw",
    "bayern" := "by",
    "berlin" := "be",
    "brandenburg" := "bb",
    "bremen" := "hb",
    "hamburg" := "hh",
    "hessen" := "he",
    "mecklenburg-vorpommern" := "mv",
    "niedersachsen" := "ni",
    "nordrhein-westfalen" := "nw",
    "rheinland-pfalz" := "rp",
    "saarland" := "sl",
    "sachsen-anhalt" := "st",
    "sachsen" := "sn",
    "schleswig-holstein" := "sh",
    "thuringen" := "th"]

  /** A sequence without repetitions has as many distinct elements as it is long. */
  lemma {:induction false} DistinctCount<T>(ks: seq<T>)
    requires forall i, j :: 0 <= i < j < |ks| ==> ks[i] != ks[j]
    ensures |set k | k in ks| == |ks|
  {
    if ks != [] {
      var init := ks[..|ks| - 1];
      var last := ks[|ks| - 1];
      forall i, j | 0 <= i < j < |init| ensures init[i] != init[j] {
        assert init[i] == ks[i] && init[j] == ks[j];
      }
      DistinctCount(init);
      assert (set k | k in ks) == (set k | k in init) + {last};
    }
  }

  lemma StateMappingSize()
    ensures |StateMapping| == 16
  {
    var codes := ["bw", "by", "be", "bb", "hb", "hh", "he", "mv",
                  "ni", "nw", "rp", "sl", "st", "sn", "sh", "th"];
    DistinctCount(codes);
    assert StateMapping.Keys == set k | k in codes;
  }

  lemma StateReverseMappingSize()
    ensures |StateReverseMapping| == 16
  {
    var names := ["baden-wurttemberg", "bayern", "berlin", "brandenburg", "bremen",
                  "hamburg", "hessen", "mecklenburg-vorpommern", "niedersachsen",
                  "nordrhein-westfalen", "rheinland-pfalz", "saarland", "sachsen-anhalt",
                  "sachsen", "schleswig-holstein", "thuringen"];
    DistinctCount(names);
    assert StateReverseMapping.Keys == set k | k in names;
  }

  /** Looking a code's name up in the reverse table gives the code back. */
  lemma CodeRoundTrip(code: string)
    requires code in StateMapping
    ensures StateMapping[code] in StateReverseMapping
    ensures StateReverseMapping[StateMapping[code]] == code
  {
  }

  /** Looking a name's code up in the forward table gives the name back. */
  lemma NameRoundTrip(name: string)
    requires name in StateReverseMapping
    ensures StateReverseMapping[name] in StateMapping
    ensures StateMapping[StateReverseMapping[name]] == name
  {
  }

  /** Distinct codes name distinct states. */
  lemma StateMappingInjective(c1: string, c2: string)
    requires c1 in StateMapping && c2 in StateMapping
    requires StateMapping[c1] == StateMapping[c2]
    ensures c1 == c2
  {
    CodeRoundTrip(c1);
    CodeRoundTrip(c2);
  }

  /** The shape of a state code: two lower-case ASCII letters. */
  predicate IsStateCode(s: string) {
    |s| == 2 && 'a' <= s[0] <= 'z' && 'a' <= s[1] <= 'z'
  }

  /** Every code of the table has the shape of a state code. */
  lemma CodesAreTwoLowercaseLetters(code: string)
    requires code in StateMapping
    ensures IsStateCode(code)
  {
  }
}
