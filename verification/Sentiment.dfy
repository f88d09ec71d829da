/**
  `analyzeSentiment` of backend/src/services/aiService.ts: keyword counting
  on the lower-cased message, giving a sentiment, an urgency, and the topics
  whose cue words occur.
 */
module Sentiment {
  import opened Text

  datatype Mood = Positive | Neutral | Negative

  datatype Urgency = Low | Medium | High

  datatype Analysis = Analysis(sentiment: Mood, urgency: Urgency, topics: seq<string>)

  function NegativeKeywords(): seq<string>
  {
    ["sad", "depressed", "anxious", "worried", "stressed", "overwhelmed", "hopeless", "suicidal", "hurt", "pain"]
  }

  function PositiveKeywords(): seq<string>
  {
    ["happy", "good", "great", "excited", "better", "improved", "grateful", "hopeful"]
  }

  function UrgentKeywords(): seq<string>
  {
    ["help", "emergency", "crisis", "suicidal", "hurt myself", "can't take it", "end it all"]
  }

  /** A topic and the words whose presence reports it. */
  datatype TopicRule = TopicRule(topic: string, cues: seq<string>)

  /** The topic rules, in the order their topics are reported. */
  function TopicRules(): seq<TopicRule>
  {
    [ TopicRule("academic stress", ["school", "college", "study"]),
      TopicRule("family issues", ["family", "parent", "mom", "dad"]),
      TopicRule("relationships", ["friend", "social", "relationship"]),
      TopicRule("work/career", ["work", "job", "career"]),
      TopicRule("financial stress", ["money", "financial", "broke"]) ]
  }

  /** The set of positions of `keywords` whose word occurs in `text`. */
  function MatchedPositions(text: string, keywords: seq<string>): set<int>
  {
    set k | 0 <= k < |keywords| && Contains(text, keywords[k])
  }

  /**
    `keywords.filter(k => text.includes(k)).length`: how many of the keywords
    occur in `text`; zero exactly when none does.
   */
  function Hits(text: string, keywords: seq<string>): (n: nat)
    ensures n <= |keywords|
    ensures n == 0 <==> forall k :: 0 <= k < |keywords| ==> !Contains(text, keywords[k])
  {
    if |keywords| == 0 then 0
    else
      var init := keywords[..|keywords| - 1];
      var n := Hits(text, init) + if Contains(text, keywords[|keywords| - 1]) then 1 else 0;
      assert forall k :: 0 <= k < |init| ==> init[k] == keywords[k];
      n
  }

  /** The count is the number of keyword positions that match. */
  lemma {:induction false} HitsCountsMatches(text: string, keywords: seq<string>)
    ensures Hits(text, keywords) == |MatchedPositions(text, keywords)|
  {
    if |keywords| > 0 {
      var last := |keywords| - 1;
      var init := keywords[..last];
      HitsCountsMatches(text, init);
      var before := MatchedPositions(text, init);
      var after := MatchedPositions(text, keywords);
      assert forall k :: 0 <= k < last ==> init[k] == keywords[k];
      assert last !in before;
      var extra := if Contains(text, keywords[last]) then {last} else {};
      forall k ensures k in after <==> k in before + extra {
        if 0 <= k < last {
          assert init[k] == keywords[k];
        }
      }
      assert after == before + extra;
    }
  }

  /** Whether any cue word occurs in `text`. */
  predicate MentionsAny(text: string, cues: seq<string>)
  {
    exists k | 0 <= k < |cues| :: Contains(text, cues[k])
  }

  /** The positions of the rules that fire on `text`, in increasing order. */
  function FiredRules(text: string, rules: seq<TopicRule>): (idx: seq<nat>)
    ensures forall j :: 0 <= j < |idx| ==> idx[j] < |rules|
    ensures forall j, j' :: 0 <= j < j' < |idx| ==> idx[j] < idx[j']
    ensures forall i :: 0 <= i < |rules| ==> (i in idx <==> MentionsAny(text, rules[i].cues))
  {
    if |rules| == 0 then []
    else
      var last := |rules| - 1;
      var init := rules[..last];
      var before := FiredRules(text, init);
      assert forall i :: 0 <= i < last ==> init[i] == rules[i];
      if MentionsAny(text, rules[last].cues) then before + [last] else before
  }

  /** The topics of the fired rules, in rule order. */
  function Topics(text: string, rules: seq<TopicRule>): (r: seq<string>)
    ensures var idx := FiredRules(text, rules);
      |r| == |idx| && forall k :: 0 <= k < |r| ==> r[k] == rules[idx[k]].topic
    ensures |r| <= |rules|
    ensures forall j :: 0 <= j < |r| ==> exists i :: 0 <= i < |rules| && rules[i].topic == r[j] && MentionsAny(text, rules[i].cues)
    ensures forall i :: 0 <= i < |rules| && MentionsAny(text, rules[i].cues) ==> rules[i].topic in r
  {
    var idx := FiredRules(text, rules);
    FiredRulesBounded(idx, |rules|);
    var r := seq(|idx|, j requires 0 <= j < |idx| => rules[idx[j]].topic);
    forall i | 0 <= i < |rules| && MentionsAny(text, rules[i].cues) ensures rules[i].topic in r {
      var j :| 0 <= j < |idx| && idx[j] == i;
      assert r[j] == rules[i].topic;
    }
    r
  }

  /** A strictly increasing sequence of indices below `n` has at most `n` entries. */
  lemma {:induction false} FiredRulesBounded(idx: seq<nat>, n: nat)
    requires forall j :: 0 <= j < |idx| ==> idx[j] < n
    requires forall j, j' :: 0 <= j < j' < |idx| ==> idx[j] < idx[j']
    ensures |idx| <= n
  {
    if |idx| > 0 {
      var init := idx[..|idx| - 1];
      assert forall j :: 0 <= j < |init| ==> init[j] < idx[|idx| - 1];
      FiredRulesBounded(init, idx[|idx| - 1]);
    }
  }

  /** `analyzeSentiment`. */
  function Analyze(message: string): (a: Analysis)
    ensures var text := Lower(message);
      && (a.urgency == High <==> Hits(text, UrgentKeywords()) > 0)
      && (a.urgency == Medium <==> Hits(text, UrgentKeywords()) == 0 && Hits(text, NegativeKeywords()) > 2)
      && (a.sentiment == Negative <==> Hits(text, NegativeKeywords()) > Hits(text, PositiveKeywords()))
      && (a.sentiment == Positive <==> Hits(text, PositiveKeywords()) > Hits(text, NegativeKeywords()))
    ensures a.topics == Topics(Lower(message), TopicRules())
  {
    var text := Lower(message);
    var negative := Hits(text, NegativeKeywords());
    var positive := Hits(text, PositiveKeywords());
    var urgent := Hits(text, UrgentKeywords());
    var urgency := if urgent > 0 then High else if negative > 2 then Medium else Low;
    var sentiment := if negative > positive then Negative else if positive > negative then Positive else Neutral;
    Analysis(sentiment, urgency, Topics(text, TopicRules()))
  }

  /** The analysis ignores ASCII case. */
  lemma AnalyzeIgnoresCase(message: string)
    ensures Analyze(Lower(message)) == Analyze(message)
  {
    LowerIdempotent(message);
  }

  /** Sentiment is neutral exactly when the negative and positive counts tie. */
  lemma NeutralMeansTie(message: string)
    ensures Analyze(message).sentiment == Neutral <==>
      Hits(Lower(message), NegativeKeywords()) == Hits(Lower(message), PositiveKeywords())
  {
  }

  /** A message without any urgent, negative or positive keyword is neutral and of low urgency. */
  lemma QuietMessage(message: string)
    requires forall k :: 0 <= k < |UrgentKeywords()| ==> !Contains(Lower(message), UrgentKeywords()[k])
    requires forall k :: 0 <= k < |NegativeKeywords()| ==> !Contains(Lower(message), NegativeKeywords()[k])
    requires forall k :: 0 <= k < |PositiveKeywords()| ==> !Contains(Lower(message), PositiveKeywords()[k])
    ensures Analyze(message).urgency == Low && Analyze(message).sentiment == Neutral
  {
  }

  /** A message mentioning `suicidal` is of high urgency and counts a negative keyword. */
  lemma SuicidalIsUrgent(message: string)
    requires Contains(Lower(message), "suicidal")
    ensures Analyze(message).urgency == High
    ensures Hits(Lower(message), NegativeKeywords()) > 0
  {
    assert UrgentKeywords()[3] == "suicidal";
    assert NegativeKeywords()[7] == "suicidal";
  }

  /** No two rules report the same topic. */
  predicate DistinctTopics(rules: seq<TopicRule>)
  {
    forall i, i' :: 0 <= i < i' < |rules| ==> rules[i].topic != rules[i'].topic
  }

  lemma RuleTopicsAreDistinct()
    ensures DistinctTopics(TopicRules())
  {
  }

  /** Rules with distinct topics report each topic at most once. */
  lemma TopicsOnceEach(text: string, rules: seq<TopicRule>)
    requires DistinctTopics(rules)
    ensures var r := Topics(text, rules);
      forall j, j' :: 0 <= j < j' < |r| ==> r[j] != r[j']
  {
    var idx := FiredRules(text, rules);
    var r := Topics(text, rules);
    assert r == seq(|idx|, j requires 0 <= j < |idx| => rules[idx[j]].topic);
    forall j, j' | 0 <= j < j' < |r| ensures r[j] != r[j'] {
      assert idx[j] < idx[j'];
    }
  }

  /** No topic is reported twice, and there are at most five. */
  lemma TopicsAreDistinct(message: string)
    ensures |Analyze(message).topics| <= 5
    ensures forall j, j' :: 0 <= j < j' < |Analyze(message).topics| ==> Analyze(message).topics[j] != Analyze(message).topics[j']
  {
    RuleTopicsAreDistinct();
    TopicsOnceEach(Lower(message), TopicRules());
  }
}
