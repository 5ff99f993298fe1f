/**
 * Client helpers (client/src/lib/chat-utils.ts): the quick-topic table, the
 * client's copy of the keyword chain, and the relative-time label.
 */
module ChatUtils {
  import opened Wrappers
  import opened Text
  import Responses

  // ---------------------------------------------------------- quick topics

  datatype QuickTopic = QuickTopic(id: string, caption: string, question: string)

  const QuickTopics: map<string, QuickTopic> := map[
    "assembly" := QuickTopic("assembly", "Drone Assembly", "How do I assemble a drone for the first time?"),
    "components" := QuickTopic("components", "Components", "What are the essential components of a drone?"),
    "maintenance" := QuickTopic("maintenance", "Maintenance", "How do I maintain my drone properly?"),
    "simulation" := QuickTopic("simulation", "Simulations", "How can I use Simscape for drone simulations?"),
    "rules" := QuickTopic("rules", "DGCA Rules", "What are the DGCA regulations for drones in India?"),
    "usecases" := QuickTopic("usecases", "Use Cases", "What are the main use cases for drones in agriculture?")]

  /** Every entry's `id` is its own key. */
  lemma QuickTopicIdsAreKeys()
    ensures forall k :: k in QuickTopics ==> QuickTopics[k].id == k
  {
    forall k | k in QuickTopics
      ensures QuickTopics[k].id == k
    {
      if k == "assembly" {
      } else if k == "components" {
      } else if k == "maintenance" {
      } else if k == "simulation" {
      } else if k == "rules" {
      } else {
        assert k == "usecases";
      }
    }
  }

  /** The quick topics are exactly the server's keyword topics. */
  lemma QuickTopicsAreKeywordTopics()
    ensures forall i :: 0 <= i < |Responses.KeywordGroups| ==> Responses.KeywordGroups[i].topic in QuickTopics
    ensures forall k :: k in QuickTopics ==>
      exists i :: 0 <= i < |Responses.KeywordGroups| && Responses.KeywordGroups[i].topic == k
  {
    var gs := Responses.KeywordGroups;
    assert gs[0].topic == "assembly" && gs[1].topic == "components" && gs[2].topic == "maintenance";
    assert gs[3].topic == "rules" && gs[4].topic == "simulation" && gs[5].topic == "usecases";
    forall k | k in QuickTopics
      ensures exists i :: 0 <= i < |gs| && gs[i].topic == k
    {
      if k == "assembly" {
        assert gs[0].topic == k;
      } else if k == "components" {
        assert gs[1].topic == k;
      } else if k == "maintenance" {
        assert gs[2].topic == k;
      } else if k == "rules" {
        assert gs[3].topic == k;
      } else if k == "simulation" {
        assert gs[4].topic == k;
      } else {
        assert gs[5].topic == k;
      }
    }
  }

  // -------------------------------------------------------- topic extraction

  /** `extractTopicFromMessage`: the client's own copy of the keyword chain. */
  function ExtractTopicFromMessage(message: string): (r: Option<string>)
    ensures r.Some? ==> r.value in QuickTopics
  {
    var lower := ToLower(message);
    if Contains(lower, "assembly") || Contains(lower, "assemble") then Some("assembly")
    else if Contains(lower, "component") || Contains(lower, "parts") then Some("components")
    else if Contains(lower, "maintenance") || Contains(lower, "maintain") then Some("maintenance")
    else if Contains(lower, "dgca") || Contains(lower, "rules") || Contains(lower, "regulation") then Some("rules")
    else if Contains(lower, "simulation") || Contains(lower, "simscape") then Some("simulation")
    else if Contains(lower, "agriculture") || Contains(lower, "delivery") || Contains(lower, "use case") then Some("usecases")
    else None
  }

  /**
   * The chain is the first-match rule over the server's keyword groups: the
   * first group with a keyword in the lower-cased message names the topic,
   * and there is none exactly when no keyword occurs.
   */
  lemma ExtractTopicIsFirstMatch(message: string)
    ensures ExtractTopicFromMessage(message) == Responses.FirstMatchingTopic(Responses.KeywordGroups, ToLower(message))
    ensures ExtractTopicFromMessage(message).None? <==>
      forall g :: 0 <= g < |Responses.KeywordGroups| ==>
        !Responses.MentionsAny(ToLower(message), Responses.KeywordGroups[g].keywords)
  {
    Responses.FirstMatchingTopicUnfolded(ToLower(message));
  }

  /**
   * Client and server agree: without a topic, the server's answer is the
   * language table's entry for the topic the client extracts, or the
   * language's default when the client finds none.
   */
  lemma ServerAnswersClientTopic(message: string, language: string)
    ensures Responses.GenerateAIResponse(message, language, None) ==
      match ExtractTopicFromMessage(message)
      case Some(t) => Responses.TopicOrDefault(Responses.LanguageTable(language), t)
      case None => Responses.LanguageTable(language)["default"]
  {
    ExtractTopicIsFirstMatch(message);
    Responses.NoTopicIsFirstMatch(message, language, None);
  }

  // ------------------------------------------------------------- time label

  const MsPerHour := 3600000
  const MsPerDay := 86400000

  function DigitChar(d: int): (c: char)
    requires 0 <= d < 10
    ensures '0' <= c <= '9'
  {
    ('0' as int + d) as char
  }

  predicate AllDigits(s: string) {
    forall i :: 0 <= i < |s| ==> '0' <= s[i] <= '9'
  }

  /** Decimal notation of a natural number, as a template literal prints it. */
  function NatToString(n: nat): (r: string)
    ensures |r| > 0 && AllDigits(r)
    ensures r[0] == '0' ==> n == 0
  {
    if n < 10 then [DigitChar(n)] else NatToString(n / 10) + [DigitChar(n % 10)]
  }

  /** Reads a string of decimal digits back as a number. */
  function DecimalValue(s: string): int
    requires AllDigits(s)
  {
    if s == [] then 0 else DecimalValue(s[..|s| - 1]) * 10 + (s[|s| - 1] as int - '0' as int)
  }

  lemma {:induction false} DecimalRoundTrip(n: nat)
    ensures DecimalValue(NatToString(n)) == n
  {
    if n >= 10 {
      DecimalRoundTrip(n / 10);
      var s := NatToString(n);
      assert s[..|s| - 1] == NatToString(n / 10);
    }
  }

  /** "N unit ago", with an "s" after the unit when N > 1. */
  function Ago(n: nat, unit: string): string {
    NatToString(n) + " " + unit + (if n > 1 then "s" else "") + " ago"
  }

  /** `formatMessageTime(date)` with the clock reading `nowMs` passed in. */
  function FormatMessageTime(nowMs: int, dateMs: int): string {
    var diff := nowMs - dateMs;
    // Math.floor: with a positive divisor Dafny's division rounds down
    var hours := diff / MsPerHour;
    var days := hours / 24;
    if days > 0 then Ago(days, "day")
    else if hours > 0 then Ago(hours, "hour")
    else "Just now"
  }

  /** Flooring by hours and then by 24 is flooring by days. */
  lemma FloorHoursThenDays(diff: int)
    ensures (diff / MsPerHour) / 24 == diff / MsPerDay
  {
    var h, r1 := diff / MsPerHour, diff % MsPerHour;
    var d, r2 := h / 24, h % 24;
    assert diff == MsPerHour * h + r1;
    assert h == 24 * d + r2;
    assert diff == MsPerDay * d + (MsPerHour * r2 + r1);
    assert 0 <= MsPerHour * r2 + r1 < MsPerDay;
  }

  /**
   * The label by the size of the difference: under an hour (future dates
   * included) "Just now"; under a day the whole hours; otherwise the whole days.
   */
  lemma FormatMessageTimeCases(nowMs: int, dateMs: int)
    ensures nowMs - dateMs < MsPerHour ==> FormatMessageTime(nowMs, dateMs) == "Just now"
    ensures MsPerHour <= nowMs - dateMs < MsPerDay ==>
      FormatMessageTime(nowMs, dateMs) == Ago((nowMs - dateMs) / MsPerHour, "hour")
    ensures MsPerDay <= nowMs - dateMs ==>
      FormatMessageTime(nowMs, dateMs) == Ago((nowMs - dateMs) / MsPerDay, "day")
  {
    FloorHoursThenDays(nowMs - dateMs);
  }

  /** "Just now" is shown exactly when the difference is under one hour. */
  lemma JustNowExactlyUnderAnHour(nowMs: int, dateMs: int)
    ensures FormatMessageTime(nowMs, dateMs) == "Just now" <==> nowMs - dateMs < MsPerHour
  {
    FormatMessageTimeCases(nowMs, dateMs);
    var diff := nowMs - dateMs;
    if diff >= MsPerHour {
      var n := if diff >= MsPerDay then diff / MsPerDay else diff / MsPerHour;
      var unit := if diff >= MsPerDay then "day" else "hour";
      assert Ago(n, unit)[0] == NatToString(n)[0];
    }
  }

  /** 90 minutes and two hours: whole hours, plural from two on. */
  lemma HourExamples()
    ensures FormatMessageTime(5400000, 0) == "1 hour ago"
    ensures FormatMessageTime(7200000, 0) == "2 hours ago"
  {
    FormatMessageTimeCases(5400000, 0);
    FormatMessageTimeCases(7200000, 0);
    assert Ago(1, "hour") == "1 hour ago";
    assert Ago(2, "hour") == "2 hours ago";
  }

  /** One day and 50 hours: whole days. */
  lemma DayExamples()
    ensures FormatMessageTime(MsPerDay, 0) == "1 day ago"
    ensures FormatMessageTime(50 * MsPerHour, 0) == "2 days ago"
  {
    FormatMessageTimeCases(MsPerDay, 0);
    FormatMessageTimeCases(50 * MsPerHour, 0);
    assert Ago(1, "day") == "1 day ago";
    assert Ago(2, "day") == "2 days ago";
  }

  /** A date one second in the future. */
  lemma FutureExample()
    ensures FormatMessageTime(0, 1000) == "Just now"
  {
    FormatMessageTimeCases(0, 1000);
  }
}
