/**
  backend/src/services/webSearch.ts: turning a DuckDuckGo instant answer into
  at most four search results, the therapy-flavoured query built on top of it,
  and the fixed table of established references looked up by keyword.

  The HTTP request and JSON decoding are replaced by a `fetch` parameter that
  yields the decoded answer for a query, or a failure.
 */
module WebSearch {
  import opened Outcomes
  import opened Text
  import opened Sorting
  import opened Selection

  /** One entry of `RelatedTopics`. */
  datatype RelatedTopic = RelatedTopic(text: Option<string>, firstUrl: Option<string>)

  /** The fields of a DuckDuckGo instant answer the service reads; absent `RelatedTopics` is the empty list. */
  datatype InstantAnswer = InstantAnswer(
    heading: Option<string>,
    abstractText: Option<string>,
    abstractUrl: Option<string>,
    relatedTopics: seq<RelatedTopic>)

  datatype SearchResult = SearchResult(title: string, url: string, snippet: string, source: Option<string>)

  /** What the request produced: a decoded answer, or a failure anywhere in fetching or decoding. */
  datatype Fetched = Failed | Answer(answer: InstantAnswer)

  const DuckDuckGo := "DuckDuckGo"
  const TitleSeparator := " - "
  const MaxRelatedTopics: nat := 3

  /** The result made from the abstract, if the abstract text is non-empty. */
  function AbstractResults(query: string, a: InstantAnswer): (r: seq<SearchResult>)
    ensures |r| <= 1
    ensures |r| == 1 <==> Truthy(a.abstractText)
    ensures |r| == 1 ==> r[0] == SearchResult(OrElse(a.heading, query), OrElse(a.abstractUrl, ""), a.abstractText.value, Some(DuckDuckGo))
  {
    if Truthy(a.abstractText) then
      [SearchResult(OrElse(a.heading, query), OrElse(a.abstractUrl, ""), a.abstractText.value, Some(DuckDuckGo))]
    else
      []
  }

  /**
    The title of a related topic, `text.split(' - ')[0] || query`: the text up
    to the first ` - `, or the query when that part is empty.
   */
  function TopicTitle(query: string, text: string): (title: string)
    ensures text == "" || OccursAt(text, TitleSeparator, 0) ==> title == query
    ensures text != "" && !OccursAt(text, TitleSeparator, 0) ==>
      && title != "" && StartsWith(text, title)
      && (forall i :: 0 <= i < |title| ==> !OccursAt(text, TitleSeparator, i))
      && (|title| == |text| || OccursAt(text, TitleSeparator, |title|))
    ensures title == query || (StartsWith(text, title) && title != "")
    ensures !Contains(text, TitleSeparator) && text != "" ==> title == text
  {
    var head := BeforeFirst(text, TitleSeparator);
    assert !Contains(text, TitleSeparator) ==> head == text by {
      if !Contains(text, TitleSeparator) {
        BeforeFirstWithoutSeparator(text, TitleSeparator);
      }
    }
    if head == "" then query else head
  }

  /** Whether a related topic has text: entries without it are skipped. */
  predicate HasText(t: RelatedTopic)
  {
    Truthy(t.text)
  }

  /** The result made from a related topic: its text as the snippet, titled by the text's first piece or the query. */
  function TopicResult(query: string, t: RelatedTopic): (r: SearchResult)
    requires HasText(t)
    ensures r.source == Some(DuckDuckGo) && r.snippet == t.text.value && r.snippet != ""
    ensures r.title == query || StartsWith(r.snippet, r.title)
    ensures r.title == TopicTitle(query, t.text.value) && r.url == OrElse(t.firstUrl, "")
  {
    SearchResult(TopicTitle(query, t.text.value), OrElse(t.firstUrl, ""), t.text.value, Some(DuckDuckGo))
  }

  /**
    The results made from the given related topics: one per topic with text,
    in topic order, skipping those without text.
   */
  function TopicResults(query: string, topics: seq<RelatedTopic>): (r: seq<SearchResult>)
    ensures var idx := Positions(topics, HasText);
      && |r| == |idx|
      && forall j :: 0 <= j < |r| ==> r[j] == TopicResult(query, topics[idx[j]])
    ensures |r| <= |topics|
  {
    if |topics| == 0 then []
    else
      var last := |topics| - 1;
      var init := topics[..last];
      var rest := TopicResults(query, init);
      assert forall i :: 0 <= i < last ==> init[i] == topics[i];
      if HasText(topics[last]) then rest + [TopicResult(query, topics[last])] else rest
  }

  /**
    The results of one answer: the abstract result first, then one result
    for each of the first three related topics that has text, in topic order.
   */
  function ExtractResults(query: string, a: InstantAnswer): (r: seq<SearchResult>)
    ensures var head := AbstractResults(query, a);
      var topics := Take(a.relatedTopics, MaxRelatedTopics);
      var idx := Positions(topics, HasText);
      && |r| == |head| + |idx|
      && r[..|head|] == head
      && forall j :: 0 <= j < |idx| ==> r[|head| + j] == TopicResult(query, topics[idx[j]])
    ensures |r| <= 1 + MaxRelatedTopics
    ensures forall j :: 0 <= j < |r| ==> r[j].source == Some(DuckDuckGo) && r[j].snippet != ""
    ensures Truthy(a.abstractText) ==> |r| >= 1 && r[0].snippet == a.abstractText.value
    ensures var first := if Truthy(a.abstractText) then 1 else 0;
      forall j :: first <= j < |r| ==> r[j].title == query || StartsWith(r[j].snippet, r[j].title)
  {
    var topics := Take(a.relatedTopics, MaxRelatedTopics);
    var head := AbstractResults(query, a);
    var tail := TopicResults(query, topics);
    TopicResultsFromDuckDuckGo(query, topics);
    var r := head + tail;
    assert r[..|head|] == head;
    assert forall j :: 0 <= j < |tail| ==> r[|head| + j] == tail[j];
    r
  }

  /** Every topic result comes from DuckDuckGo, has a snippet, and is titled by a prefix of it or by the query. */
  lemma TopicResultsFromDuckDuckGo(query: string, topics: seq<RelatedTopic>)
    ensures var tail := TopicResults(query, topics);
      forall j :: 0 <= j < |tail| ==>
        && tail[j].source == Some(DuckDuckGo) && tail[j].snippet != ""
        && (tail[j].title == query || StartsWith(tail[j].snippet, tail[j].title))
  {
    var tail := TopicResults(query, topics);
    var idx := Positions(topics, HasText);
    forall j | 0 <= j < |tail|
      ensures tail[j].source == Some(DuckDuckGo) && tail[j].snippet != ""
      ensures tail[j].title == query || StartsWith(tail[j].snippet, tail[j].title)
    {
      assert tail[j] == TopicResult(query, topics[idx[j]]);
    }
  }

  /**
    Nothing among the first three related topics is lost: each of them that
    has text yields its result, after the abstract result.
   */
  lemma TextedTopicIsReported(query: string, a: InstantAnswer, i: nat)
    requires i < |a.relatedTopics| && i < MaxRelatedTopics
    requires HasText(a.relatedTopics[i])
    ensures exists j :: (|AbstractResults(query, a)| <= j < |ExtractResults(query, a)|
      && ExtractResults(query, a)[j] == TopicResult(query, a.relatedTopics[i]))
  {
    var topics := Take(a.relatedTopics, MaxRelatedTopics);
    var idx := Positions(topics, HasText);
    assert topics[i] == a.relatedTopics[i];
    var k :| 0 <= k < |idx| && idx[k] == i;
    var head := AbstractResults(query, a);
    assert ExtractResults(query, a)[|head| + k] == TopicResult(query, topics[idx[k]]);
  }

  /** Every related topic among the first three yields a result exactly when each of them has text. */
  lemma AllTopicsReported(query: string, a: InstantAnswer)
    ensures var topics := Take(a.relatedTopics, MaxRelatedTopics);
      |ExtractResults(query, a)| == |AbstractResults(query, a)| + |topics| <==>
        forall i :: 0 <= i < |topics| ==> HasText(topics[i])
  {
    AllKeptIffAllPositions(Take(a.relatedTopics, MaxRelatedTopics), HasText);
  }

  /**
    The extracted list opens with the abstract result: a non-empty heading
    is its title, otherwise the query.
   */
  lemma AbstractTitle(query: string, a: InstantAnswer)
    requires Truthy(a.abstractText)
    ensures ExtractResults(query, a)[0].title == OrElse(a.heading, query)
    ensures ExtractResults(query, a)[0].url == OrElse(a.abstractUrl, "")
  {
  }

  /** Only the first three related topics matter. */
  lemma LaterTopicsIgnored(query: string, a: InstantAnswer, more: seq<RelatedTopic>)
    requires |a.relatedTopics| >= MaxRelatedTopics
    ensures ExtractResults(query, a.(relatedTopics := a.relatedTopics + more)) == ExtractResults(query, a)
  {
    assert Take(a.relatedTopics + more, MaxRelatedTopics) == Take(a.relatedTopics, MaxRelatedTopics);
  }

  /** `searchResearch`: the extracted results, or no results when the request or decoding fails. */
  function SearchResearch(query: string, fetch: string -> Fetched): (r: seq<SearchResult>)
    ensures fetch(query).Failed? ==> r == []
    ensures fetch(query).Answer? ==> r == ExtractResults(query, fetch(query).answer)
    ensures |r| <= 1 + MaxRelatedTopics
  {
    match fetch(query)
    case Failed => []
    case Answer(a) => ExtractResults(query, a)
  }

  const TherapySuffix := " therapy research study evidence-based"

  /** `searchTherapeuticResearch`: the topic followed by a fixed phrase, searched as above. */
  function SearchTherapeuticResearch(topic: string, fetch: string -> Fetched): (r: seq<SearchResult>)
    ensures r == SearchResearch(topic + TherapySuffix, fetch)
    ensures |r| <= 1 + MaxRelatedTopics
    ensures fetch(topic + TherapySuffix).Failed? ==> r == []
  {
    SearchResearch(topic + TherapySuffix, fetch)
  }

  /** The keys of the reference table, in the order they are tried. */
  function ReferenceKeys(): seq<string>
  {
    ["cbt", "dbt", "act", "mindfulness", "anxiety", "depression"]
  }

  /** The three references stored under the key at position `i`. */
  function ReferenceTriple(i: nat): (string, string, string)
    requires i < |ReferenceKeys()|
  {
    match i
    case 0 => (
      "Cognitive Behavioral Therapy (CBT) - Beck, J.S. (2011). Cognitive Behavior Therapy: Basics and Beyond",
      "CBT effectiveness - Multiple meta-analyses show CBT is effective for depression, anxiety, and other conditions",
      "CBT principles - Based on the cognitive model: thoughts, feelings, and behaviors are interconnected")
    case 1 => (
      "Dialectical Behavior Therapy (DBT) - Linehan, M.M. (1993). Skills Training Manual for Treating Borderline Personality Disorder",
      "DBT effectiveness - Research shows DBT is effective for BPD, self-harm, and emotional dysregulation",
      "DBT skills - Mindfulness, distress tolerance, emotion regulation, and interpersonal effectiveness")
    case 2 => (
      "Acceptance and Commitment Therapy (ACT) - Hayes, S.C. (2004). Acceptance and Commitment Therapy",
      "ACT effectiveness - Research supports ACT for anxiety, depression, chronic pain, and other conditions",
      "ACT principles - Psychological flexibility through acceptance, mindfulness, and values-based action")
    case 3 => (
      "Mindfulness-based interventions - Kabat-Zinn, J. (1990). Full Catastrophe Living",
      "Mindfulness research - Studies show benefits for stress reduction, anxiety, depression, and emotional regulation",
      "MBSR/MBCT - Evidence-based mindfulness programs with strong research support")
    case 4 => (
      "Anxiety treatment - CBT and exposure therapy have strong empirical support",
      "Anxiety research - Multiple studies show effectiveness of cognitive restructuring and behavioral interventions",
      "Anxiety mechanisms - Research on the role of avoidance, safety behaviors, and cognitive biases")
    case _ => (
      "Depression treatment - CBT, IPT, and behavioral activation have strong research support",
      "Depression research - Studies show combination of therapy and medication can be most effective",
      "Depression mechanisms - Research on cognitive distortions, negative schemas, and behavioral patterns")
  }

  function ReferencesAt(i: nat): (refs: seq<string>)
    requires i < |ReferenceKeys()|
    ensures |refs| == 3
  {
    var t := ReferenceTriple(i);
    [t.0, t.1, t.2]
  }

  /** The position of the first key that occurs in `text`, if any. */
  function FirstKeyIn(text: string, keys: seq<string>): (r: Option<nat>)
    ensures r.Some? ==> r.value < |keys| && Contains(text, keys[r.value])
    ensures r.Some? ==> forall j :: 0 <= j < r.value ==> !Contains(text, keys[j])
    ensures r.None? <==> forall j :: 0 <= j < |keys| ==> !Contains(text, keys[j])
  {
    if |keys| == 0 then None
    else if Contains(text, keys[0]) then Some(0)
    else
      var rest := FirstKeyIn(text, keys[1..]);
      assert forall j :: 0 <= j < |keys| - 1 ==> keys[1..][j] == keys[j + 1];
      match rest
      case None => None
      case Some(i) => Some(i + 1)
  }

  /**
    `getEstablishedReferences`: the references of the first key, in table
    order, that occurs in the lower-cased topic; none when no key occurs.
   */
  function EstablishedReferences(topic: string): (refs: seq<string>)
    ensures refs == [] || |refs| == 3
    ensures refs == [] <==> forall j :: 0 <= j < |ReferenceKeys()| ==> !Contains(Lower(topic), ReferenceKeys()[j])
    ensures refs != [] ==> exists i :: 0 <= i < |ReferenceKeys()| && Contains(Lower(topic), ReferenceKeys()[i]) && refs == ReferencesAt(i)
  {
    match FirstKeyIn(Lower(topic), ReferenceKeys())
    case None => []
    case Some(i) => ReferencesAt(i)
  }

  /** The lookup ignores ASCII case. */
  lemma ReferencesIgnoreCase(topic: string)
    ensures EstablishedReferences(Lower(topic)) == EstablishedReferences(topic)
  {
    LowerIdempotent(topic);
  }

  /**
    Earlier keys win: a topic that mentions the key at position `i` and none
    before it gets that key's references, whatever later keys it mentions
    (a topic mentioning `cbt` always gets the CBT references).
   */
  lemma FirstKeyWins(topic: string, i: nat)
    requires i < |ReferenceKeys()|
    requires Contains(Lower(topic), ReferenceKeys()[i])
    requires forall j :: 0 <= j < i ==> !Contains(Lower(topic), ReferenceKeys()[j])
    ensures EstablishedReferences(topic) == ReferencesAt(i)
  {
    var r := FirstKeyIn(Lower(topic), ReferenceKeys());
    assert r.Some?;
    assert r.value == i;
  }
}
