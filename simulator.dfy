/** The offline simulation of the backend (src/lib/api.ts): the seeded mock
    data, the canned voice replies, the keyword classification of text
    queries, the capped query-history log and the shallow profile merge. */
module Simulator {
  import opened Js
  import opened JsText

  // The three namespaced keys of the offline store.
  const HistoryKey := "voicebridge_query_history"
  const ProfileKey := "voicebridge_user_profile"
  const LessonsKey := "voicebridge_lessons"

  const MockUserFields: map<string, JVal> := map[
    "id" := JStr("mock-user-1"),
    "username" := JStr("demo_user"),
    "email" := JStr("demo@voicebridge.app"),
    "profile" := JObj(map[
      "device_type" := JStr("smartphone"),
      "language" := JStr("en"),
      "phone_number" := JStr("+1234567890")])]

  /** The demo user served when no profile is stored. */
  const MockUser: JVal := JObj(MockUserFields)

  function LessonJson(id: string, title: string, body: string, language: string, category: string, createdAt: string): JVal {
    JObj(map["id" := JStr(id), "title" := JStr(title), "body" := JStr(body),
             "language" := JStr(language), "category" := JStr(category), "created_at" := JStr(createdAt)])
  }

  /** The four seeded lessons, in stored order. */
  const MockLessons: seq<JVal> := [
    LessonJson("1", "Basic Health and Hygiene",
      "Learn about proper handwashing, dental care, and maintaining good hygiene habits for better health.",
      "en", "healthcare", "2024-01-15T10:00:00Z"),
    LessonJson("2", "Financial Literacy Basics",
      "Understanding savings, budgeting, and making smart financial decisions for your future.",
      "en", "finance", "2024-01-14T14:30:00Z"),
    LessonJson("3", "Primary Education Math",
      "Basic arithmetic, counting, and simple mathematical concepts for young learners.",
      "en", "education", "2024-01-13T09:15:00Z"),
    LessonJson("4", "Local Stories and Culture",
      "Discover traditional stories, cultural practices, and local history.",
      "yo", "entertainment", "2024-01-12T16:45:00Z")]

  /** `category || fallback` for an optional string parameter. */
  function OrText(category: Option<string>, fallback: string): (r: string)
    ensures category.Some? && category.value != "" ==> r == category.value
    ensures category.None? || category.value == "" ==> r == fallback
  {
    if category.Some? && category.value != "" then category.value else fallback
  }

  // ---------------------------------------------------------------- voice

  datatype Canned = Canned(query: string, response: string, category: string)

  /** The four canned voice exchanges; one is picked at random. */
  const VoiceReplies: seq<Canned> := [
    Canned("How can I stay healthy?",
      "I understand you asked about health. Here are some basic health tips: wash your hands regularly, eat nutritious foods, and get adequate sleep.",
      "health"),
    Canned("Tell me about basic mathematics",
      "For educational content, I recommend starting with basic concepts and building up your knowledge gradually.",
      "education"),
    Canned("How do I save money?",
      "Regarding finance, always budget your money wisely and try to save a portion of your income regularly.",
      "finance"),
    Canned("Tell me a story",
      "Entertainment is important for mental health. Consider traditional stories, music, and cultural activities.",
      "entertainment")]

  /** `Math.floor(Math.random() * 4)`, supplied by the caller. */
  type Pick = i: int | 0 <= i < 4

  // ------------------------------------------------------------- text

  datatype Topic = Health | Education | Finance | Entertainment

  /** The order the topics are tried in; the first that matches wins. */
  const Priority: seq<Topic> := [Health, Education, Finance, Entertainment]

  function Name(t: Topic): string {
    match t
    case Health => "health"
    case Education => "education"
    case Finance => "finance"
    case Entertainment => "entertainment"
  }

  function Keywords(t: Topic): seq<string> {
    match t
    case Health => ["health", "medical", "sick"]
    case Education => ["learn", "education", "school"]
    case Finance => ["money", "finance", "bank"]
    case Entertainment => ["fun", "entertainment", "story"]
  }

  function TopicReply(t: Topic): string {
    match t
    case Health => "For health queries: Regular exercise, balanced diet, adequate sleep, and proper hygiene are essential. Consult healthcare providers for specific medical concerns."
    case Education => "Educational tip: Break down complex topics into smaller parts, practice regularly, ask questions, and use multiple learning methods like reading, listening, and hands-on activities."
    case Finance => "Financial advice: Create a budget, track expenses, save regularly, avoid unnecessary debt, and learn about basic investment principles for long-term wealth building."
    case Entertainment => "For entertainment: Engage with local cultural activities, traditional music, storytelling, games, and community events that bring people together."
  }

  /** The reply when no topic matches; it quotes the query as typed. */
  function DefaultReply(text: string): string {
    "Thank you for your question about \"" + text + "\". In a connected environment, I would provide detailed, personalized responses. For now, I recommend exploring our lessons section for comprehensive information."
  }

  /** Some word of `words` occurs in `q`. */
  predicate Mentions(q: string, words: seq<string>)
    decreases |words|
  {
    words != [] && (Contains(q, words[0]) || Mentions(q, words[1..]))
  }

  lemma {:induction false} MentionsIff(q: string, words: seq<string>)
    ensures Mentions(q, words) <==> exists w :: w in words && Contains(q, w)
    decreases |words|
  {
    if words != [] {
      MentionsIff(q, words[1..]);
      if Contains(q, words[0]) {
        assert words[0] in words;
      } else if Mentions(q, words[1..]) {
        var w :| w in words[1..] && Contains(q, w);
        assert w in words;
      } else {
        forall w | w in words ensures !Contains(q, w) {
          var i :| 0 <= i < |words| && words[i] == w;
          if i > 0 {
            assert words[1..][i - 1] == w;
          }
        }
      }
    }
  }

  /** A topic matches when the lowered query contains one of its keywords or
      the supplied category names it. */
  predicate Hit(t: Topic, lowered: string, category: Option<string>) {
    Mentions(lowered, Keywords(t)) || category == Some(Name(t))
  }

  /** The first topic of `ts` that matches. */
  function FirstHit(ts: seq<Topic>, lowered: string, category: Option<string>): (r: Option<Topic>)
    decreases |ts|
  {
    if ts == [] then None
    else if Hit(ts[0], lowered, category) then Some(ts[0])
    else FirstHit(ts[1..], lowered, category)
  }

  /** `FirstHit` yields the topic at the earliest matching position, and
      nothing exactly when no topic of the list matches. */
  lemma {:induction false} FirstHitSpec(ts: seq<Topic>, lowered: string, category: Option<string>)
    ensures forall k :: 0 <= k < |ts| && Hit(ts[k], lowered, category)
                        && (forall j :: 0 <= j < k ==> !Hit(ts[j], lowered, category)) ==>
      FirstHit(ts, lowered, category) == Some(ts[k])
    ensures FirstHit(ts, lowered, category).None? <==> forall k :: 0 <= k < |ts| ==> !Hit(ts[k], lowered, category)
    decreases |ts|
  {
    if ts != [] {
      FirstHitSpec(ts[1..], lowered, category);
      forall k | 0 <= k < |ts| && Hit(ts[k], lowered, category)
                 && (forall j :: 0 <= j < k ==> !Hit(ts[j], lowered, category))
        ensures FirstHit(ts, lowered, category) == Some(ts[k])
      {
        if k > 0 {
          assert !Hit(ts[0], lowered, category);
          assert ts[k] == ts[1..][k - 1];
          forall j | 0 <= j < k - 1 ensures !Hit(ts[1..][j], lowered, category) {
            assert ts[1..][j] == ts[j + 1];
          }
        }
      }
      if FirstHit(ts, lowered, category).None? {
        forall k | 0 <= k < |ts| ensures !Hit(ts[k], lowered, category) {
          if k > 0 { assert ts[k] == ts[1..][k - 1]; }
        }
      }
    }
  }

  datatype Classified = Classified(reply: string, category: string)

  /** The keyword classification of a text query: the reply and category
      of the first topic in priority order that matches, else the default
      reply with the supplied category or "general". */
  function Classify(text: string, category: Option<string>): Classified {
    match FirstHit(Priority, Lower(text), category)
    case Some(t) => Classified(TopicReply(t), Name(t))
    case None => Classified(DefaultReply(text), OrText(category, "general"))
  }

  /** The first topic in priority order that matches decides both the reply
      and the category. A supplied category only counts in its own place in
      the order, so a keyword of an earlier topic wins over it. */
  lemma ClassifyFirstMatch(text: string, category: Option<string>, k: nat)
    requires k < |Priority| && Hit(Priority[k], Lower(text), category)
    requires forall j :: 0 <= j < k ==> !Hit(Priority[j], Lower(text), category)
    ensures Classify(text, category) == Classified(TopicReply(Priority[k]), Name(Priority[k]))
  {
    FirstHitSpec(Priority, Lower(text), category);
  }

  /** When no topic matches, the reply quotes the query and the category is
      the supplied one, or "general" when none (or an empty one) is given. */
  lemma ClassifyNoMatch(text: string, category: Option<string>)
    requires forall t :: !Hit(t, Lower(text), category)
    ensures Classify(text, category) == Classified(DefaultReply(text), OrText(category, "general"))
    ensures category.Some? && category.value != "" ==> Classify(text, category).category == category.value
  {
    NoHitNoTopic(Lower(text), category);
    NoTopicDefault(text, category);
  }

  lemma NoTopicDefault(text: string, category: Option<string>)
    requires FirstHit(Priority, Lower(text), category).None?
    ensures Classify(text, category) == Classified(DefaultReply(text), OrText(category, "general"))
  {
  }

  lemma NoHitNoTopic(lowered: string, category: Option<string>)
    requires forall t :: !Hit(t, lowered, category)
    ensures FirstHit(Priority, lowered, category).None?
  {
    FirstHitSpec(Priority, lowered, category);
  }

  /** A query mentioning a health keyword is a health query whatever
      category is supplied with it: the category never overrides an earlier
      topic's keyword. */
  lemma HealthKeywordWins(text: string, category: Option<string>, w: string)
    requires w in Keywords(Health) && Contains(Lower(text), w)
    ensures Classify(text, category) == Classified(TopicReply(Health), "health")
  {
    MentionsIff(Lower(text), Keywords(Health));
    ClassifyFirstMatch(text, category, 0);
  }

  /** "I feel sick and need a loan", in any casing, is a health query: the
      health keyword wins over the later finance one. */
  lemma SickBeforeLoan(text: string)
    requires Lower(text) == "i feel sick and need a loan"
    ensures Classify(text, None) == Classified(TopicReply(Health), "health")
  {
    var q := Lower(text);
    assert q[7..11] == "sick";
    ContainsAt(q, "sick", 7);
    HealthKeywordWins(text, None, "sick");
  }

  /** "How do I save money?", in any casing and with no category, is a
      finance query. */
  lemma SaveMoneyIsFinance(text: string)
    requires Lower(text) == "how do i save money?"
    ensures Classify(text, None) == Classified(TopicReply(Finance), "finance")
  {
    SaveMoneyHits(Lower(text));
    ClassifyFirstMatch(text, None, 2);
  }

  lemma SaveMoneyHits(q: string)
    requires q == "how do i save money?"
    ensures !Hit(Health, q, None) && !Hit(Education, q, None) && Hit(Finance, q, None)
  {
    SaveMoneyNotHealth(q);
    SaveMoneyNotEducation(q);
    assert q[14..19] == "money";
    ContainsAt(q, "money", 14);
    MentionsIff(q, Keywords(Finance));
  }

  lemma SaveMoneyNotHealth(q: string)
    requires q == "how do i save money?"
    ensures !Hit(Health, q, None)
  {
    NoneOfThree(q, "health", "medical", "sick", 'l', 'c', 'c');
  }

  lemma SaveMoneyNotEducation(q: string)
    requires q == "how do i save money?"
    ensures !Hit(Education, q, None)
  {
    NoneOfThree(q, "learn", "education", "school", 'l', 'u', 'c');
  }

  /** A query lacking a character of each of three keywords mentions none
      of them. */
  lemma NoneOfThree(q: string, a: string, b: string, c: string, ca: char, cb: char, cc: char)
    requires ca in a && ca !in q
    requires cb in b && cb !in q
    requires cc in c && cc !in q
    ensures !Mentions(q, [a, b, c])
  {
    MissingChar(q, a, ca);
    MissingChar(q, b, cb);
    MissingChar(q, c, cc);
    assert [c][1..] == [];
    assert !Mentions(q, [c]);
    assert [b, c][1..] == [c];
    assert !Mentions(q, [b, c]);
    assert [a, b, c][1..] == [b, c];
  }

  // ---------------------------------------------------------- history

  const HistoryLimit := 100

  /** `Date.now().toString()` and `new Date().toISOString()`, supplied by
      the caller. */
  datatype Stamp = Stamp(id: string, timestamp: string)

  /** A query-history record as stored. */
  function RecordJson(stamp: Stamp, query: string, response: string, language: string, category: string): JVal {
    JObj(map["id" := JStr(stamp.id), "query" := JStr(query), "response" := JStr(response),
             "language" := JStr(language), "category" := JStr(category), "timestamp" := JStr(stamp.timestamp)])
  }

  function Take(n: nat, s: seq<JVal>): seq<JVal> {
    if |s| <= n then s else s[..n]
  }

  /** `history.unshift(entry); history.slice(0, 100)`: the new entry first,
      the older ones after it in their order, at most 100 in all. */
  function Logged(entry: JVal, history: seq<JVal>): (r: seq<JVal>)
    ensures |r| == if |history| < HistoryLimit then |history| + 1 else HistoryLimit
    ensures r[0] == entry
    ensures forall i :: 1 <= i < |r| ==> r[i] == history[i - 1]
  {
    Take(HistoryLimit, [entry] + history)
  }

  function Reverse(s: seq<JVal>): (r: seq<JVal>)
    ensures |r| == |s|
  {
    if s == [] then [] else Reverse(s[1..]) + [s[0]]
  }

  /** Logging `entries` one after another, the first one first. */
  function LogAll(history: seq<JVal>, entries: seq<JVal>): seq<JVal>
    decreases |entries|
  {
    if entries == [] then history else LogAll(Logged(entries[0], history), entries[1..])
  }

  lemma {:induction false} TakeTake(n: nat, a: seq<JVal>, b: seq<JVal>)
    ensures Take(n, a + Take(n, b)) == Take(n, a + b)
  {
    if |a| >= n {
      assert (a + Take(n, b))[..n] == a[..n] == (a + b)[..n];
    } else if |b| > n {
      assert (a + b[..n])[..n] == (a + b)[..n];
    }
  }

  /** After any run of submissions the log holds the most recent entries,
      newest first, followed by the older log, cut to 100: once 100 or more
      have been logged it is exactly the last 100 in reverse order. */
  lemma {:induction false} LogAllKeepsNewest(history: seq<JVal>, entries: seq<JVal>)
    requires |history| <= HistoryLimit
    ensures LogAll(history, entries) == Take(HistoryLimit, Reverse(entries) + history)
    ensures |entries| >= HistoryLimit ==> LogAll(history, entries) == Reverse(entries)[..HistoryLimit]
    decreases |entries|
  {
    if entries == [] {
      assert Reverse(entries) + history == history;
    } else {
      LogAllKeepsNewest(Logged(entries[0], history), entries[1..]);
      calc {
        LogAll(history, entries);
        Take(HistoryLimit, Reverse(entries[1..]) + Take(HistoryLimit, [entries[0]] + history));
        { TakeTake(HistoryLimit, Reverse(entries[1..]), [entries[0]] + history); }
        Take(HistoryLimit, Reverse(entries[1..]) + ([entries[0]] + history));
        { assert Reverse(entries[1..]) + ([entries[0]] + history) == Reverse(entries) + history; }
        Take(HistoryLimit, Reverse(entries) + history);
      }
    }
  }

  // ---------------------------------------------------------- profile

  /** `{...current, ...patch}`: a shallow merge where the patch's entries
      win and a nested object is replaced whole, never merged. */
  function Merged(current: JVal, patch: JVal): (r: JVal)
    ensures r.JObj?
    ensures forall k :: k in Spread(patch) ==> k in r.fields && r.fields[k] == Spread(patch)[k]
    ensures forall k :: k in Spread(current) && k !in Spread(patch) ==> k in r.fields && r.fields[k] == Spread(current)[k]
    ensures forall k :: k in r.fields ==> k in Spread(current) || k in Spread(patch)
  {
    JObj(Spread(current) + Spread(patch))
  }

  /** Patching the nested `profile` replaces it: the demo user's device type
      is lost when only the language is sent inside `profile`. */
  lemma NestedProfileReplaced()
    ensures var r := Merged(MockUser, JObj(map["profile" := JObj(map["language" := JStr("yo")])]));
      r.fields["profile"] == JObj(map["language" := JStr("yo")])
      && r.fields["username"] == JStr("demo_user")
  {
  }
}
