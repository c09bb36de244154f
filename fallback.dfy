/**
 * The canned fallback responder of the health assistant's `HealthProcessor`:
 * a first-match keyword classifier over six conditions, answering in Hindi.
 */
module Fallback {
  import opened Wrappers
  import opened Text

  /** The closing sentence of every fallback answer ("consult a doctor for serious problems"). */
  const Disclaimer: string := "गंभीर समस्याओं के लिए डॉक्टर से सलाह लें।"

  /** The canned answers, one per condition. */
  const DiabetesAnswer: string :=
    "मधुमेह एक गंभीर बीमारी है जिसमें रक्त में शुगर का स्तर बढ़ जाता है। नियमित व्यायाम, संतुलित आहार, और डॉक्टर की दवाइयों का सेवन करें। मिठाई और चीनी से बचें।"
  const FeverAnswer: string :=
    "बुखार आने पर पर्याप्त आराम करें, तरल पदार्थ पिएं। पैरासिटामोल ले सकते हैं। यदि 3 दिन से अधिक बुखार रहे तो तुरंत डॉक्टर से मिलें।"
  const HeadacheAnswer: string :=
    "सिरदर्द के लिए पर्याप्त नींद लें, तनाव कम करें, पानी पिएं। सिर पर ठंडी पट्टी रख सकते हैं। बार-बार होने पर डॉक्टर से जांच कराएं।"
  const ColdAnswer: string :=
    "सर्दी-जुकाम में गर्म पानी पिएं, भाप लें, अदरक-शहद का सेवन करें। पर्याप्त आराम करें और ठंडी चीजों से बचें।"
  const PressureAnswer: string :=
    "उच्च रक्तचाप को नियंत्रित करने के लिए नमक कम खाएं, व्यायाम करें, तनाव कम करें। नियमित दवा लें और डॉक्टर की सलाह मानें।"
  const HeartAnswer: string :=
    "हृदय की समस्याओं के लिए धूम्रपान बंद करें, संतुलित आहार लें, नियमित व्यायाम करें। छाती में दर्द हो तो तुरंत डॉक्टर के पास जाएं।"

  /**
   * The answer table: a dictionary from condition key to canned answer,
   * held as its keys and its values, both in insertion order. The responder
   * scans the keys front to back.
   */
  const Conditions: seq<string> := ["diabetes", "fever", "headache", "cold", "pressure", "heart"]
  const Answers: seq<string> :=
    [DiabetesAnswer, FeverAnswer, HeadacheAnswer, ColdAnswer, PressureAnswer, HeartAnswer]

  /** The opening of the default message, up to the space before its closing disclaimer. */
  const DefaultIntro: string :=
    "मैं एक भारतीय स्वास्थ्य सहायक हूँ। कृपया अपनी स्वास्थ्य समस्या के बारे में विस्तार से बताएं। मैं आपको सामान्य सलाह दे सकता हूँ।"

  /**
   * The answer given when no condition is recognised: one literal in the
   * source, spelled here as its opening, a space and the disclaimer.
   */
  const DefaultResponse: string := DefaultIntro + " " + Disclaimer

  /** The Devanagari synonyms of each condition key. */
  const DiabetesTerms: seq<string> := ["मधुमेह", "डायबिटीज", "शुगर"]
  const FeverTerms: seq<string> := ["बुखार", "ज्वर", "तापमान"]
  const HeadacheTerms: seq<string> := ["सिरदर्द", "सिर दर्द", "माइग्रेन"]
  const ColdTerms: seq<string> := ["सर्दी", "जुकाम", "नजला"]
  const PressureTerms: seq<string> := ["रक्तचाप", "ब्लड प्रेशर", "उच्च रक्तचाप"]
  const HeartTerms: seq<string> := ["हृदय", "दिल", "हार्ट"]

  /** The synonym lists, keyed by condition. */
  const HindiTermTable: map<string, seq<string>> := map[
      "diabetes" := DiabetesTerms,
      "fever" := FeverTerms,
      "headache" := HeadacheTerms,
      "cold" := ColdTerms,
      "pressure" := PressureTerms,
      "heart" := HeartTerms
    ]

  predicate IsDevanagari(c: char) {
    '\U{0900}' <= c <= '\U{097f}'
  }

  /** Devanagari words separated by single ASCII spaces, starting and ending with a letter. */
  predicate DevanagariPhrase(t: string) {
    && t != []
    && IsDevanagari(t[0])
    && IsDevanagari(t[|t| - 1])
    && forall i :: 0 <= i < |t| ==> IsDevanagari(t[i]) || t[i] == ' '
  }

  /**
   * `get_hindi_terms`: the three Devanagari synonyms of a condition key,
   * the empty list for any other string.
   */
  function HindiTerms(condition: string): (r: seq<string>)
    ensures condition in Conditions ==> |r| == 3
    ensures condition !in Conditions ==> r == []
    ensures forall t :: t in r ==> DevanagariPhrase(t)
  {
    if condition in HindiTermTable then
      TermsArePhrases(condition);
      HindiTermTable[condition]
    else
      []
  }

  /** Every synonym list has three Devanagari phrases. */
  lemma TermsArePhrases(c: string)
    requires c in HindiTermTable
    ensures c in Conditions && |HindiTermTable[c]| == 3
    ensures forall t :: t in HindiTermTable[c] ==> DevanagariPhrase(t)
  {
    if c == "diabetes" {
      DiabetesTermsArePhrases();
    } else if c == "fever" {
      FeverTermsArePhrases();
    } else if c == "headache" {
      HeadacheTermsArePhrases();
    } else if c == "cold" {
      ColdTermsArePhrases();
    } else if c == "pressure" {
      PressureTermsArePhrases();
    } else {
      HeartTermsArePhrases();
    }
  }

  lemma DiabetesTermsArePhrases()
    ensures forall t :: t in DiabetesTerms ==> DevanagariPhrase(t)
  {
  }

  lemma FeverTermsArePhrases()
    ensures forall t :: t in FeverTerms ==> DevanagariPhrase(t)
  {
  }

  lemma HeadacheTermsArePhrases()
    ensures forall t :: t in HeadacheTerms ==> DevanagariPhrase(t)
  {
  }

  lemma ColdTermsArePhrases()
    ensures forall t :: t in ColdTerms ==> DevanagariPhrase(t)
  {
  }

  lemma PressureTermsArePhrases()
    ensures forall t :: t in PressureTerms ==> DevanagariPhrase(t)
  {
  }

  lemma HeartTermsArePhrases()
    ensures forall t :: t in HeartTerms ==> DevanagariPhrase(t)
  {
  }

  /**
   * The test applied to each key: the English key occurs in the lower-cased
   * query, or one of its Devanagari synonyms occurs in the query as given.
   */
  predicate Matches(query: string, condition: string): (b: bool)
    ensures b <==> || (exists i :: OccursAt(Lower(query), condition, i))
                   || (exists t, i :: t in HindiTerms(condition) && OccursAt(query, t, i))
  {
    MatchesByOccurrence(query, condition);
    || Contains(Lower(query), condition)
    || AnyOccurs(query, HindiTerms(condition))
  }

  /** The two substring scans of a key, restated as occurrences at some index. */
  lemma MatchesByOccurrence(query: string, condition: string)
    ensures Contains(Lower(query), condition) <==> exists i :: OccursAt(Lower(query), condition, i)
    ensures AnyOccurs(query, HindiTerms(condition))
        <==> exists t, i :: t in HindiTerms(condition) && OccursAt(query, t, i)
  {
    ContainsIff(Lower(query), condition);
    AnyOccursIff(query, HindiTerms(condition));
    forall t | t in HindiTerms(condition) ensures Contains(query, t) <==> exists i :: OccursAt(query, t, i) {
      ContainsIff(query, t);
    }
  }

  /** The index of the first key of `keys` that `query` matches. */
  function FirstMatch(query: string, keys: seq<string>): (r: Option<nat>)
    ensures r.Some? ==> r.value < |keys| && Matches(query, keys[r.value])
    ensures forall k :: 0 <= k < |keys| && (r.None? || k < r.value) ==> !Matches(query, keys[k])
  {
    if keys == [] then None
    else if Matches(query, keys[0]) then Some(0)
    else
      match FirstMatch(query, keys[1..])
      case None => None
      case Some(k) => Some(k + 1)
  }

  /** A key that matches, after keys that all miss, is the first match. */
  lemma FirstMatchIs(query: string, keys: seq<string>, k: nat)
    requires k < |keys| && Matches(query, keys[k])
    requires forall j :: 0 <= j < k ==> !Matches(query, keys[j])
    ensures FirstMatch(query, keys) == Some(k)
  {
  }

  /** Queries that match the same keys have the same first match. */
  lemma {:induction false} FirstMatchAgree(q1: string, q2: string, keys: seq<string>)
    requires forall k :: 0 <= k < |keys| ==> (Matches(q1, keys[k]) <==> Matches(q2, keys[k]))
    ensures FirstMatch(q1, keys) == FirstMatch(q2, keys)
  {
    if keys != [] && !Matches(q1, keys[0]) {
      FirstMatchAgree(q1, q2, keys[1..]);
    }
  }

  /** `r` ends with a space followed by the disclaimer. */
  predicate EndsWithDisclaimer(r: string) {
    |Disclaimer| < |r| && r[|r| - |Disclaimer| - 1..] == " " + Disclaimer
  }

  /** Any text followed by a space and the disclaimer ends with the disclaimer. */
  lemma WithDisclaimer(body: string)
    ensures EndsWithDisclaimer(body + " " + Disclaimer)
  {
    assert (body + " " + Disclaimer)[|body|..] == " " + Disclaimer;
  }

  /** The answer for the key at index `k`: its canned text, a space, the disclaimer. */
  function Canned(k: nat): (r: string)
    requires k < |Answers|
    ensures |r| == |Answers[k]| + 1 + |Disclaimer|
    ensures r[..|Answers[k]|] == Answers[k] && EndsWithDisclaimer(r)
  {
    WithDisclaimer(Answers[k]);
    Answers[k] + " " + Disclaimer
  }

  /** `get_fallback_response`: the answer of the first matching key, or the default message. */
  function FallbackResponse(query: string): (r: string)
    ensures EndsWithDisclaimer(r)
  {
    match FirstMatch(query, Conditions)
    case Some(k) =>
      WithDisclaimer(Answers[k]);
      Canned(k)
    case None =>
      WithDisclaimer(DefaultIntro);
      DefaultResponse
  }

  /** The keys are tried in order and the first key the query matches supplies the answer. */
  lemma FallbackFirstMatch(query: string, k: nat)
    requires k < |Conditions| && Matches(query, Conditions[k])
    requires forall j :: 0 <= j < k ==> !Matches(query, Conditions[j])
    ensures FallbackResponse(query) == Canned(k)
  {
    FirstMatchIs(query, Conditions, k);
    FallbackOfFirstMatch(query, k);
  }

  /** The answer follows from the first match alone. */
  lemma FallbackOfFirstMatch(query: string, k: nat)
    requires FirstMatch(query, Conditions) == Some(k)
    ensures FallbackResponse(query) == Canned(k)
  {
  }

  /** The default message is given exactly when no key matches. */
  lemma FallbackDefaultIff(query: string)
    ensures FallbackResponse(query) == DefaultResponse
        <==> forall k :: 0 <= k < |Conditions| ==> !Matches(query, Conditions[k])
  {
    match FirstMatch(query, Conditions)
    case None =>
    case Some(k) =>
      CannedIsNotDefault(k);
  }

  /** No canned answer coincides with the default message. */
  lemma CannedIsNotDefault(k: nat)
    requires k < |Answers|
    ensures Canned(k) != DefaultResponse
  {
    var a := Answers[k];
    if |a| == |DefaultIntro| {
      // every answer closes with an anusvara before its danda, the default with a candrabindu
      assert a[|a| - 2] == '\U{0902}';
      assert DefaultIntro[|DefaultIntro| - 2] == '\U{0901}';
      assert Canned(k)[|a| - 2] != DefaultResponse[|a| - 2];
    }
  }

  /** Every fallback answer is a canned answer or the default message. */
  lemma FallbackIsCannedOrDefault(query: string)
    ensures var r := FallbackResponse(query);
      r == DefaultResponse || exists k :: 0 <= k < |Answers| && r == Canned(k)
  {
  }

  /** Two queries that match the same keys get the same answer. */
  lemma SameMatchesSameAnswer(q1: string, q2: string)
    requires forall k :: 0 <= k < |Conditions| ==> (Matches(q1, Conditions[k]) <==> Matches(q2, Conditions[k]))
    ensures FallbackResponse(q1) == FallbackResponse(q2)
  {
    FirstMatchAgree(q1, q2, Conditions);
  }

  /**
   * Upper and lower case are not told apart: the English keys are looked
   * up in the lower-cased query, and the Devanagari synonyms have no case.
   */
  lemma FallbackIgnoresCase(query: string)
    ensures FallbackResponse(Lower(query)) == FallbackResponse(query)
  {
    LowerIdempotent(query);
    forall k | 0 <= k < |Conditions|
      ensures Matches(Lower(query), Conditions[k]) <==> Matches(query, Conditions[k])
    {
      var terms := HindiTerms(Conditions[k]);
      forall t | t in terms ensures Contains(Lower(query), t) <==> Contains(query, t) {
        ContainsLowerIff(query, t);
      }
      AnyOccursAgree(Lower(query), query, terms);
    }
    SameMatchesSameAnswer(Lower(query), query);
  }

  /** Whitespace around the query does not change the fallback answer. */
  lemma FallbackIgnoresSurroundingSpace(query: string)
    ensures FallbackResponse(Strip(query)) == FallbackResponse(query)
  {
    var i, j :| 0 <= i <= j <= |query| && Strip(query) == query[i..j]
      && SpaceRun(query, 0, i) && SpaceRun(query, j, |query|);
    var low := Lower(query);
    LowerSlice(query, i, j);
    LowerKeepsSpaceRun(query, 0, i);
    LowerKeepsSpaceRun(query, j, |query|);
    forall k | 0 <= k < |Conditions|
      ensures Matches(Strip(query), Conditions[k]) <==> Matches(query, Conditions[k])
    {
      var c := Conditions[k];
      ContainsInner(low, i, j, c);
      var terms := HindiTerms(c);
      forall t | t in terms ensures Contains(query[i..j], t) <==> Contains(query, t) {
        ContainsInner(query, i, j, t);
      }
      AnyOccursAgree(query[i..j], query, terms);
    }
    SameMatchesSameAnswer(Strip(query), query);
  }

  /** `query` is written in ASCII without capital letters. */
  predicate LowerAscii(query: string) {
    forall i :: 0 <= i < |query| ==> query[i] as int < 128 && !IsUpper(query[i])
  }

  /** A query written only in ASCII never contains a list of Devanagari phrases. */
  lemma {:induction false} AsciiMissesPhrases(query: string, terms: seq<string>)
    requires forall i :: 0 <= i < |query| ==> query[i] as int < 128
    requires forall t :: t in terms ==> DevanagariPhrase(t)
    ensures !AnyOccurs(query, terms)
  {
    if terms != [] {
      AsciiMissesDevanagari(query, terms[0]);
      AsciiMissesPhrases(query, terms[1..]);
    }
  }

  lemma AsciiMissesDevanagari(query: string, t: string)
    requires forall i :: 0 <= i < |query| ==> query[i] as int < 128
    requires DevanagariPhrase(t)
    ensures !Contains(query, t)
  {
    NotContainsByChar(query, t, 0);
  }

  /** A lower-case ASCII query matches a key exactly when it contains the English key. */
  lemma AsciiQueryMatches(query: string, condition: string)
    requires LowerAscii(query)
    ensures Matches(query, condition) <==> Contains(query, condition)
  {
    assert Lower(query) == query;
    AsciiMissesPhrases(query, HindiTerms(condition));
  }

  /** A lower-case ASCII query is matched by exactly the keys it contains. */
  lemma AsciiQueryMatchesKeys(query: string)
    requires LowerAscii(query)
    ensures forall k :: 0 <= k < |Conditions| ==> (Matches(query, Conditions[k]) <==> Contains(query, Conditions[k]))
  {
    forall k | 0 <= k < |Conditions|
      ensures Matches(query, Conditions[k]) <==> Contains(query, Conditions[k])
    {
      AsciiQueryMatches(query, Conditions[k]);
    }
  }

  /**
   * Needles that each hold, at the index given in `at`, a character
   * missing from `q` are all absent from `q`.
   */
  lemma MissesAll(q: string, needles: seq<string>, at: seq<nat>)
    requires |at| == |needles|
    requires forall j :: 0 <= j < |needles| ==> at[j] < |needles[j]|
    requires forall j, i :: 0 <= j < |needles| && 0 <= i < |q| ==> q[i] != needles[j][at[j]]
    ensures forall j :: 0 <= j < |needles| ==> !Contains(q, needles[j])
  {
    forall j | 0 <= j < |needles| ensures !Contains(q, needles[j]) {
      NotContainsByChar(q, needles[j], at[j]);
    }
  }

  /** A lower-case ASCII query that contains key `k` and none of the keys before it selects key `k`. */
  lemma AsciiFirstKey(q: string, k: nat)
    requires LowerAscii(q) && k < |Conditions| && Contains(q, Conditions[k])
    requires forall j :: 0 <= j < k ==> !Contains(q, Conditions[j])
    ensures FirstMatch(q, Conditions) == Some(k)
  {
    AsciiQueryMatchesKeys(q);
    FirstMatchIs(q, Conditions, k);
  }

  /**
   * Matching is by substring, not by word: "heartburn" contains "heart"
   * and none of the earlier keys, so it gets the heart answer.
   */
  lemma HeartburnGetsHeartAnswer()
    ensures FallbackResponse("heartburn") == Canned(5)
  {
    HeartburnPicksHeart("heartburn");
    FallbackOfFirstMatch("heartburn", 5);
  }

  // The helpers below take the literal as a parameter `q` pinned by their
  // requires, which keeps the solver from unfolding every function on it.

  lemma HeartburnPicksHeart(q: string)
    requires q == "heartburn"
    ensures FirstMatch(q, Conditions) == Some(5)
  {
    HeartburnMissesEarlierKeys(q);
    ContainsAt(q, "heart", 0);
    AsciiFirstKey(q, 5);
  }

  /** "heartburn" is lower-case ASCII and lacks the 'd', 'f', 'd', 'c' and 'p' of the first five keys. */
  lemma HeartburnMissesEarlierKeys(q: string)
    requires q == "heartburn"
    ensures LowerAscii(q)
    ensures forall j :: 0 <= j < 5 ==> !Contains(q, Conditions[j])
  {
    MissesAll(q, Conditions[..5], [0, 0, 3, 0, 0]);
  }

  /** The first listed key wins: a query naming both fever and heart gets the fever answer. */
  lemma FeverBeatsHeart()
    ensures FallbackResponse("fever and heart") == Canned(1)
  {
    FeverAndHeartPicksFever("fever and heart");
    FallbackOfFirstMatch("fever and heart", 1);
  }

  lemma FeverAndHeartPicksFever(q: string)
    requires q == "fever and heart"
    ensures FirstMatch(q, Conditions) == Some(1)
  {
    FeverAndHeartMissesDiabetes(q);
    ContainsAt(q, "fever", 0);
    AsciiFirstKey(q, 1);
  }

  /** "fever and heart" is lower-case ASCII and lacks the 'b' of "diabetes". */
  lemma FeverAndHeartMissesDiabetes(q: string)
    requires q == "fever and heart"
    ensures LowerAscii(q) && !Contains(q, Conditions[0])
  {
    NotContainsByChar(q, Conditions[0], 3);
  }

  /** A Devanagari query ("I have a fever") gets the fever answer through its synonym. */
  lemma HindiFeverQuery()
    ensures FallbackResponse("मुझे बुखार है") == Canned(1)
  {
    HindiFeverPicksFever("मुझे बुखार है");
    FallbackOfFirstMatch("मुझे बुखार है", 1);
  }

  lemma HindiFeverPicksFever(q: string)
    requires q == "मुझे बुखार है"
    ensures FirstMatch(q, Conditions) == Some(1)
  {
    HindiFeverMissesDiabetes(q);
    HindiFeverMatchesFever(q);
    FirstMatchIs(q, Conditions, 1);
  }

  /** The query holds neither "diabetes" nor any diabetes synonym. */
  lemma HindiFeverMissesDiabetes(q: string)
    requires q == "मुझे बुखार है"
    ensures !Matches(q, "diabetes")
  {
    HindiFeverIsCaseless(q);
    HindiFeverMissesDiabetesWords(q);
    AnyOccursIff(q, HindiTerms("diabetes"));
  }

  /** The query has no capitals and no 'd'. */
  lemma HindiFeverIsCaseless(q: string)
    requires q == "मुझे बुखार है"
    ensures Lower(q) == q && !Contains(q, "diabetes")
  {
    NotContainsByChar(q, "diabetes", 0);
  }

  /** Each diabetes synonym holds a letter the query lacks: the second of मधुमेह, the first of the others. */
  lemma HindiFeverMissesDiabetesWords(q: string)
    requires q == "मुझे बुखार है"
    ensures forall t :: t in HindiTerms("diabetes") ==> !Contains(q, t)
  {
    var terms := HindiTerms("diabetes");
    assert terms == DiabetesTerms;
    MissesAll(q, terms, [1, 0, 0]);
  }

  lemma HindiFeverMatchesFever(q: string)
    requires q == "मुझे बुखार है"
    ensures Matches(q, "fever")
  {
    var terms := HindiTerms("fever");
    assert terms[0] == "बुखार";
    ContainsAt(q, terms[0], 5);
  }

  /**
   * The third pressure synonym ("high blood pressure") contains the first
   * ("blood pressure"), so it never decides a match on its own.
   */
  lemma PressureLongSynonymRedundant(q: string)
    ensures AnyOccurs(q, HindiTerms("pressure")) <==> AnyOccurs(q, HindiTerms("pressure")[..2])
  {
    var terms := HindiTerms("pressure");
    assert terms == ["रक्तचाप", "ब्लड प्रेशर", "उच्च रक्तचाप"];
    LongPressureContainsShort();
    if Contains(q, terms[2]) {
      ContainsTransitive(q, terms[2], terms[0]);
    }
    ThirdTermRedundant(q, terms);
  }

  /** In a three-term list whose third term contains its first, the third term is redundant. */
  lemma ThirdTermRedundant(q: string, terms: seq<string>)
    requires |terms| == 3
    requires Contains(q, terms[2]) ==> Contains(q, terms[0])
    ensures AnyOccurs(q, terms) <==> AnyOccurs(q, terms[..2])
  {
    var a, b, c := terms[0], terms[1], terms[2];
    assert terms[1..][1..][1..] == [];
    assert AnyOccurs(q, terms[1..][1..]) == Contains(q, c);
    assert AnyOccurs(q, terms) == (Contains(q, a) || Contains(q, b) || Contains(q, c));
    assert terms[..2][1..][1..] == [];
    assert AnyOccurs(q, terms[..2][1..]) == Contains(q, b);
    assert AnyOccurs(q, terms[..2]) == (Contains(q, a) || Contains(q, b));
  }

  lemma LongPressureContainsShort()
    ensures Contains("उच्च रक्तचाप", "रक्तचाप")
  {
    ContainsAt("उच्च रक्तचाप", "रक्तचाप", 5);
  }
}
