/**
 * The canned-response resolver `generateAIResponse` (server/routes.ts).
 *
 * The response texts are stand-in constants: only which (language, topic)
 * entries exist matters to the behaviour.
 */
module Responses {
  import opened Wrappers
  import opened Text

  // ------------------------------------------------------------ the table

  const EnAssembly := "[en] first-time drone assembly steps"
  const EnComponents := "[en] essential drone components"
  const EnMaintenance := "[en] drone maintenance checklist"
  const EnSimulation := "[en] Simscape drone simulation"
  const EnRules := "[en] DGCA drone regulations"
  const EnUseCases := "[en] drone use cases"
  const EnDefault := "[en] assistant greeting"
  const HiAssembly := "[hi] first-time drone assembly steps"
  const HiDefault := "[hi] assistant greeting"
  const TeDefault := "[te] assistant greeting"
  const TaDefault := "[ta] assistant greeting"
  const KnDefault := "[kn] assistant greeting"
  const MlDefault := "[ml] assistant greeting"
  const BnDefault := "[bn] assistant greeting"
  const MrDefault := "[mr] assistant greeting"

  const EnTable: map<string, string> := map[
    "assembly" := EnAssembly, "components" := EnComponents,
    "maintenance" := EnMaintenance, "simulation" := EnSimulation,
    "rules" := EnRules, "usecases" := EnUseCases, "default" := EnDefault]

  /** Language code to topic to response text. */
  const ResponseTable: map<string, map<string, string>> := map[
    "en" := EnTable,
    "hi" := map["assembly" := HiAssembly, "default" := HiDefault],
    "te" := map["default" := TeDefault],
    "ta" := map["default" := TaDefault],
    "kn" := map["default" := KnDefault],
    "ml" := map["default" := MlDefault],
    "bn" := map["default" := BnDefault],
    "mr" := map["default" := MrDefault]]

  const KnownLanguages: set<string> := {"en", "hi", "te", "ta", "kn", "ml", "bn", "mr"}

  /** Every entry of a language table is a non-empty text, and `default` is present. */
  predicate WellFormedTable(t: map<string, string>) {
    "default" in t && forall k :: k in t ==> t[k] != ""
  }

  /** The table a language code selects: its own, or English when it has none. */
  function LanguageTable(language: string): (t: map<string, string>)
    ensures WellFormedTable(t)
    ensures language in KnownLanguages ==> t == ResponseTable[language]
    ensures language !in KnownLanguages ==> t == EnTable
  {
    TableFacts();
    if language in ResponseTable then ResponseTable[language] else ResponseTable["en"]
  }

  /** The table has exactly the eight languages, each well formed. */
  lemma TableFacts()
    ensures forall l :: l in ResponseTable <==> l in KnownLanguages
    ensures forall l :: l in ResponseTable ==> WellFormedTable(ResponseTable[l])
    ensures ResponseTable["en"] == EnTable
  {
    TableKeys();
    forall l | l in ResponseTable
      ensures WellFormedTable(ResponseTable[l])
    {
      EntryWellFormed(l);
    }
  }

  lemma TableKeys()
    ensures ResponseTable.Keys == KnownLanguages
  {
  }

  lemma EntryWellFormed(l: string)
    requires l in ResponseTable
    ensures WellFormedTable(ResponseTable[l])
  {
    if l == "en" {
      EnglishWellFormed();
    } else if l == "hi" {
      HindiWellFormed();
    } else {
      DefaultOnlyWellFormed(l);
    }
  }

  lemma EnglishWellFormed()
    ensures WellFormedTable(ResponseTable["en"])
  {
    assert ResponseTable["en"] == EnTable;
    assert forall k :: k in EnTable ==> EnTable[k] != "";
  }

  lemma HindiWellFormed()
    ensures WellFormedTable(ResponseTable["hi"])
  {
    var t := map["assembly" := HiAssembly, "default" := HiDefault];
    assert ResponseTable["hi"] == t;
    assert forall k :: k in t ==> t[k] != "";
  }

  lemma DefaultOnlyWellFormed(l: string)
    requires l in ResponseTable && l != "en" && l != "hi"
    ensures WellFormedTable(ResponseTable[l])
  {
    if l == "te" {
      assert ResponseTable[l] == map["default" := TeDefault];
    } else if l == "ta" {
      assert ResponseTable[l] == map["default" := TaDefault];
    } else if l == "kn" {
      assert ResponseTable[l] == map["default" := KnDefault];
    } else if l == "ml" {
      assert ResponseTable[l] == map["default" := MlDefault];
    } else if l == "bn" {
      assert ResponseTable[l] == map["default" := BnDefault];
    } else {
      assert ResponseTable[l] == map["default" := MrDefault];
    }
  }

  /** `table[topic] || table.default`. */
  function TopicOrDefault(t: map<string, string>, topic: string): (r: string)
    requires WellFormedTable(t)
    ensures r != "" && r in t.Values
    ensures topic in t ==> r == t[topic]
    ensures topic !in t ==> r == t["default"]
  {
    if topic in t then t[topic] else t["default"]
  }

  /** The truthiness of an optional string: present and non-empty. */
  predicate Truthy(s: Option<string>) {
    s.Some? && s.value != ""
  }

  // ------------------------------------------------------ the keyword chain

  /** A topic and the keywords that select it. */
  datatype KeywordGroup = KeywordGroup(topic: string, keywords: seq<string>)

  /** The keyword groups, in the order the chain tests them. */
  const KeywordGroups: seq<KeywordGroup> := [
    KeywordGroup("assembly", ["assembly", "assemble"]),
    KeywordGroup("components", ["component", "parts"]),
    KeywordGroup("maintenance", ["maintenance", "maintain"]),
    KeywordGroup("rules", ["dgca", "rules", "regulation"]),
    KeywordGroup("simulation", ["simulation", "simscape"]),
    KeywordGroup("usecases", ["agriculture", "delivery", "use case"])]

  predicate MentionsAny(text: string, keywords: seq<string>) {
    exists k :: 0 <= k < |keywords| && Contains(text, keywords[k])
  }

  /** Reference definition: the topic of the first group one of whose keywords occurs. */
  function FirstMatchingTopic(groups: seq<KeywordGroup>, text: string): (r: Option<string>)
    ensures r.Some? ==> exists g :: 0 <= g < |groups| && groups[g].topic == r.value
                          && MentionsAny(text, groups[g].keywords)
                          && forall h :: 0 <= h < g ==> !MentionsAny(text, groups[h].keywords)
    ensures r.None? <==> forall g :: 0 <= g < |groups| ==> !MentionsAny(text, groups[g].keywords)
  {
    if groups == [] then None
    else if MentionsAny(text, groups[0].keywords) then Some(groups[0].topic)
    else
      var r := FirstMatchingTopic(groups[1..], text);
      assert forall g :: 1 <= g < |groups| ==> groups[g] == groups[1..][g - 1];
      r
  }

  /** The server's if/else chain over the lower-cased message (server/routes.ts:133-147). */
  function KeywordResponse(t: map<string, string>, lower: string): (r: string)
    requires WellFormedTable(t)
    ensures r != "" && r in t.Values
  {
    if Contains(lower, "assembly") || Contains(lower, "assemble") then TopicOrDefault(t, "assembly")
    else if Contains(lower, "component") || Contains(lower, "parts") then TopicOrDefault(t, "components")
    else if Contains(lower, "maintenance") || Contains(lower, "maintain") then TopicOrDefault(t, "maintenance")
    else if Contains(lower, "dgca") || Contains(lower, "rules") || Contains(lower, "regulation") then TopicOrDefault(t, "rules")
    else if Contains(lower, "simulation") || Contains(lower, "simscape") then TopicOrDefault(t, "simulation")
    else if Contains(lower, "agriculture") || Contains(lower, "delivery") || Contains(lower, "use case") then TopicOrDefault(t, "usecases")
    else t["default"]
  }

  /** Spelled-out truth of `MentionsAny` for a two- and a three-keyword group. */
  lemma MentionsTwo(text: string, a: string, b: string)
    ensures MentionsAny(text, [a, b]) <==> Contains(text, a) || Contains(text, b)
  {
    if Contains(text, a) { assert [a, b][0] == a; }
    if Contains(text, b) { assert [a, b][1] == b; }
  }

  lemma MentionsThree(text: string, a: string, b: string, c: string)
    ensures MentionsAny(text, [a, b, c]) <==> Contains(text, a) || Contains(text, b) || Contains(text, c)
  {
    if Contains(text, a) { assert [a, b, c][0] == a; }
    if Contains(text, b) { assert [a, b, c][1] == b; }
    if Contains(text, c) { assert [a, b, c][2] == c; }
  }

  /** Unfolds the reference definition over the six fixed groups. */
  lemma FirstMatchingTopicUnfolded(lower: string)
    ensures FirstMatchingTopic(KeywordGroups, lower) ==
      if Contains(lower, "assembly") || Contains(lower, "assemble") then Some("assembly")
      else if Contains(lower, "component") || Contains(lower, "parts") then Some("components")
      else if Contains(lower, "maintenance") || Contains(lower, "maintain") then Some("maintenance")
      else if Contains(lower, "dgca") || Contains(lower, "rules") || Contains(lower, "regulation") then Some("rules")
      else if Contains(lower, "simulation") || Contains(lower, "simscape") then Some("simulation")
      else if Contains(lower, "agriculture") || Contains(lower, "delivery") || Contains(lower, "use case") then Some("usecases")
      else None
  {
    var gs := KeywordGroups;
    var g1, g2, g3, g4, g5 := gs[1..], gs[2..], gs[3..], gs[4..], gs[5..];
    assert g5[1..] == [];
    assert FirstMatchingTopic(g5, lower) == if Contains(lower, "agriculture") || Contains(lower, "delivery") || Contains(lower, "use case") then Some("usecases") else None by {
      MentionsThree(lower, "agriculture", "delivery", "use case");
    }
    assert g4[1..] == g5;
    assert FirstMatchingTopic(g4, lower) == if Contains(lower, "simulation") || Contains(lower, "simscape") then Some("simulation") else FirstMatchingTopic(g5, lower) by {
      MentionsTwo(lower, "simulation", "simscape");
    }
    assert g3[1..] == g4;
    assert FirstMatchingTopic(g3, lower) == if Contains(lower, "dgca") || Contains(lower, "rules") || Contains(lower, "regulation") then Some("rules") else FirstMatchingTopic(g4, lower) by {
      MentionsThree(lower, "dgca", "rules", "regulation");
    }
    assert g2[1..] == g3;
    assert FirstMatchingTopic(g2, lower) == if Contains(lower, "maintenance") || Contains(lower, "maintain") then Some("maintenance") else FirstMatchingTopic(g3, lower) by {
      MentionsTwo(lower, "maintenance", "maintain");
    }
    assert g1[1..] == g2;
    assert FirstMatchingTopic(g1, lower) == if Contains(lower, "component") || Contains(lower, "parts") then Some("components") else FirstMatchingTopic(g2, lower) by {
      MentionsTwo(lower, "component", "parts");
    }
    assert gs[1..] == g1;
    assert FirstMatchingTopic(gs, lower) == if Contains(lower, "assembly") || Contains(lower, "assemble") then Some("assembly") else FirstMatchingTopic(g1, lower) by {
      MentionsTwo(lower, "assembly", "assemble");
    }
  }

  /**
   * The if/else chain is the first-match rule over `KeywordGroups`: the
   * first group with a keyword in the message picks the topic, and the
   * language's `default` answers when no group matches.
   */
  lemma KeywordResponseIsFirstMatch(t: map<string, string>, lower: string)
    requires WellFormedTable(t)
    ensures KeywordResponse(t, lower) ==
      match FirstMatchingTopic(KeywordGroups, lower)
      case Some(topic) => TopicOrDefault(t, topic)
      case None => t["default"]
  {
    FirstMatchingTopicUnfolded(lower);
  }

  // ------------------------------------------------------------ the resolver

  /**
   * `generateAIResponse(userMessage, language, topic)`: a truthy topic is
   * looked up directly; otherwise the keyword chain over the lower-cased
   * message picks the entry. Total, and always one of the table's texts.
   */
  function GenerateAIResponse(userMessage: string, language: string, topic: Option<string>): (r: string)
    ensures r != ""
    ensures r in LanguageTable(language).Values
  {
    var t := LanguageTable(language);
    var lower := ToLower(userMessage);
    if Truthy(topic) then TopicOrDefault(t, topic.value) else KeywordResponse(t, lower)
  }

  /** A language without a table answers from the English one. */
  lemma UnknownLanguageUsesEnglish(userMessage: string, language: string, topic: Option<string>)
    requires language !in KnownLanguages
    ensures GenerateAIResponse(userMessage, language, topic) == GenerateAIResponse(userMessage, "en", topic)
  {
  }

  /** A truthy topic decides alone: the message text plays no part. */
  lemma TopicIgnoresMessage(m1: string, m2: string, language: string, topic: Option<string>)
    requires Truthy(topic)
    ensures GenerateAIResponse(m1, language, topic) == GenerateAIResponse(m2, language, topic)
    ensures GenerateAIResponse(m1, language, topic) == TopicOrDefault(LanguageTable(language), topic.value)
  {
  }

  /** Without a (truthy) topic the answer is the first-match topic's entry, or `default`. */
  lemma NoTopicIsFirstMatch(userMessage: string, language: string, topic: Option<string>)
    requires !Truthy(topic)
    ensures GenerateAIResponse(userMessage, language, topic) ==
      match FirstMatchingTopic(KeywordGroups, ToLower(userMessage))
      case Some(t) => TopicOrDefault(LanguageTable(language), t)
      case None => LanguageTable(language)["default"]
  {
    KeywordResponseIsFirstMatch(LanguageTable(language), ToLower(userMessage));
  }

  /** Matching ignores case: the message matters only through its lower-cased form. */
  lemma CaseInsensitive(userMessage: string, language: string, topic: Option<string>)
    ensures GenerateAIResponse(userMessage, language, topic)
         == GenerateAIResponse(ToLower(userMessage), language, topic)
  {
    ToLowerIdempotent(userMessage);
  }

  /** A message mentioning "assembly" answers as the explicit assembly topic does. */
  lemma AssemblyMentionMatchesTopic(userMessage: string, language: string)
    requires Contains(ToLower(userMessage), "assembly")
    ensures GenerateAIResponse(userMessage, language, None)
         == GenerateAIResponse(userMessage, language, Some("assembly"))
  {
  }

  /** "assemble parts" matches two groups; the earlier one, assembly, wins. */
  lemma AssemblePartsExample()
    ensures GenerateAIResponse("assemble parts", "en", None) == EnAssembly
  {
    assert ToLower("assemble parts") == "assemble parts";
    assert OccursAt("assemble parts", "assemble", 0);
    ContainsAt("assemble parts", "assemble", 0);
  }

  /** Hindi has no components entry: the Hindi default answers, not English. */
  lemma HindiMissingTopicFallsBackToHindi(userMessage: string)
    ensures GenerateAIResponse(userMessage, "hi", Some("components")) == HiDefault
    ensures HiDefault != EnComponents
  {
  }

  /** An unknown code such as "xx" answers in English. */
  lemma UnknownCodeExample()
    ensures GenerateAIResponse("", "xx", None) == EnDefault
  {
    var lower := ToLower("");
    assert lower == "";
    assert forall w: string :: w != [] ==> !Contains(lower, w);
  }

  /** No keyword, no topic: the language's own default. */
  lemma NoKeywordGivesDefault(userMessage: string, language: string)
    requires forall g :: 0 <= g < |KeywordGroups| ==> !MentionsAny(ToLower(userMessage), KeywordGroups[g].keywords)
    ensures GenerateAIResponse(userMessage, language, None) == LanguageTable(language)["default"]
  {
    NoTopicIsFirstMatch(userMessage, language, None);
  }
}
