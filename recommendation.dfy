/** The keyword heuristic that picks the follow-up suggestion appended after
    each assistant reply (`generate_recommendation`). */
module Recommendation {
  import opened PyStrings
  import opened Messages

  /** The topic keywords, in the order that decides ties. */
  const Keywords: seq<string> := ["AI", "코딩", "파이썬", "연애", "노래", "운동", "일정", "계획", "공부", "디자인"]

  /** The reply when no keyword occurs in anything the user wrote. */
  const Fallback: string := "👌 궁금한 거 아무거나 물어봐도 돼!"

  /** The reply naming a topic. */
  function Suggestion(topic: string): string {
    "🤔 혹시 '" + topic + "' 관련해서 더 알고 싶어?"
  }

  /** Every keyword is a non-empty string without spaces. */
  lemma KeywordsShape()
    ensures forall i :: 0 <= i < |Keywords| ==> |Keywords[i]| > 0 && ' ' !in Keywords[i]
  {
  }

  /** The text a user message contributes: the plain string, or the text of
      the first part of a list. */
  function UserText(c: Content): string
    requires c.Parts? ==> c.parts != []
  {
    match c
    case Plain(t) => t
    case Parts(ps) => ps[0].text
  }

  /** The texts of the user messages of `h`, in order; system and assistant
      messages contribute nothing. */
  function UserTexts(h: seq<Message>): seq<string>
    requires AllReadable(h)
  {
    if h == [] then []
    else
      assert Readable(h[0]);
      (if h[0].role == User then [UserText(h[0].content)] else []) + UserTexts(h[1..])
  }

  /** The text the heuristic scans: the user texts joined by single spaces. */
  function ScannedText(h: seq<Message>): string
    requires AllReadable(h)
  {
    Join(UserTexts(h))
  }

  /** The score of each keyword in `text`, in keyword order. */
  function Scores(text: string): (r: seq<nat>)
    ensures |r| == |Keywords|
    ensures forall i :: 0 <= i < |Keywords| ==> r[i] == Count(text, Keywords[i])
  {
    seq(|Keywords|, i requires 0 <= i < |Keywords| => Count(text, Keywords[i]))
  }

  /** The index `max(..., key=count)` returns: the first index holding the
      largest value, found by a left-to-right scan that only replaces the
      current best by a strictly larger value. */
  function FirstMax(s: seq<nat>): (i: nat)
    requires |s| > 0
    ensures i < |s|
    ensures forall j :: 0 <= j < |s| ==> s[j] <= s[i]
    ensures forall j :: 0 <= j < i ==> s[j] < s[i]
  {
    if |s| == 1 then 0
    else
      var best := FirstMax(s[..|s| - 1]);
      if s[|s| - 1] > s[best] then |s| - 1 else best
  }

  /** Keyword `t` is the topic of `text`: it occurs, no keyword occurs more
      often, and every keyword before it occurs strictly less often. */
  predicate IsTopic(text: string, t: int) {
    0 <= t < |Keywords| && Count(text, Keywords[t]) > 0
    && (forall j :: 0 <= j < |Keywords| ==> Count(text, Keywords[j]) <= Count(text, Keywords[t]))
    && (forall j :: 0 <= j < t ==> Count(text, Keywords[j]) < Count(text, Keywords[t]))
  }

  /** The recommendation for a scanned text. The fallback comes back exactly
      when no keyword occurs in it; otherwise the suggestion names the topic. */
  function RecommendFor(text: string): (r: string)
    ensures r == Fallback <==> forall i :: 0 <= i < |Keywords| ==> Count(text, Keywords[i]) == 0
    ensures forall t :: IsTopic(text, t) ==> r == Suggestion(Keywords[t])
  {
    var score := Scores(text);
    var top := FirstMax(score);
    if score[top] == 0 then Fallback
    else
      assert Suggestion(Keywords[top])[0] != Fallback[0];
      assert forall t :: IsTopic(text, t) ==> t == top by {
        forall t | IsTopic(text, t) ensures t == top {
          assert !(t < top) && !(top < t);
        }
      }
      Suggestion(Keywords[top])
  }

  /** `generate_recommendation(h)`: the recommendation for the text of the
      user messages of `h`. */
  function Recommend(h: seq<Message>): (r: string)
    requires AllReadable(h)
    ensures r == Fallback <==> forall i :: 0 <= i < |Keywords| ==> Count(ScannedText(h), Keywords[i]) == 0
    ensures forall t :: IsTopic(ScannedText(h), t) ==> r == Suggestion(Keywords[t])
  {
    RecommendFor(ScannedText(h))
  }

  /** Unless the fallback is returned, some keyword is the topic. */
  lemma TopicExists(text: string)
    requires RecommendFor(text) != Fallback
    ensures exists t :: IsTopic(text, t) && RecommendFor(text) == Suggestion(Keywords[t])
  {
    var top := FirstMax(Scores(text));
    assert IsTopic(text, top);
  }

  /** The topic, when there is one, is unique. */
  lemma TopicUnique(text: string, t1: int, t2: int)
    requires IsTopic(text, t1) && IsTopic(text, t2)
    ensures t1 == t2
  {
  }

  /** Different topics give different suggestions. */
  lemma SuggestionInjective(a: string, b: string)
    requires Suggestion(a) == Suggestion(b)
    ensures a == b
  {
    var p := "🤔 혹시 '";
    var q := "' 관련해서 더 알고 싶어?";
    assert a == Suggestion(a)[|p|..|p| + |a|];
    assert b == Suggestion(b)[|p|..|p| + |b|];
    assert |a| == |b|;
  }

  // ------------------------------------------------------- what is scanned

  lemma {:induction false} UserTextsAppend(a: seq<Message>, b: seq<Message>)
    requires AllReadable(a) && AllReadable(b)
    ensures AllReadable(a + b)
    ensures UserTexts(a + b) == UserTexts(a) + UserTexts(b)
  {
    if a == [] {
      assert a + b == b;
    } else {
      assert (a + b)[1..] == a[1..] + b;
      UserTextsAppend(a[1..], b);
    }
  }

  /** System and assistant messages never change the recommendation,
      wherever they stand in the history. */
  lemma RecommendIgnoresNonUser(a: seq<Message>, m: Message, b: seq<Message>)
    requires AllReadable(a) && AllReadable(b)
    requires m.role != User
    ensures AllReadable(a + [m] + b) && AllReadable(a + b)
    ensures ScannedText(a + [m] + b) == ScannedText(a + b)
    ensures Recommend(a + [m] + b) == Recommend(a + b)
  {
    UserTextsAppend(a, [m]);
    UserTextsAppend(a + [m], b);
    UserTextsAppend(a, b);
    assert UserTexts([m]) == [] by { assert [m][1..] == []; }
    assert UserTexts(a + [m] + b) == UserTexts(a + b);
  }

  /** A history without user messages (the freshly reset conversation, the
      empty list) gets the fallback. */
  lemma NoUserFallback(h: seq<Message>)
    requires AllReadable(h)
    requires forall m :: m in h ==> m.role != User
    ensures Recommend(h) == Fallback
  {
    assert UserTexts(h) == [] by { NoUserTexts(h); }
  }

  lemma {:induction false} NoUserTexts(h: seq<Message>)
    requires AllReadable(h)
    requires forall m :: m in h ==> m.role != User
    ensures UserTexts(h) == []
  {
    if h != [] {
      assert h[0] in h;
      NoUserTexts(h[1..]);
    }
  }

  /** Each keyword's score is the sum of its counts in the separate user
      messages: no keyword contains the joining space, so none straddles two
      messages. */
  lemma ScorePerMessage(h: seq<Message>, i: int)
    requires AllReadable(h)
    requires 0 <= i < |Keywords|
    ensures Scores(ScannedText(h))[i] == CountEach(UserTexts(h), Keywords[i])
  {
    KeywordsShape();
    CountJoin(UserTexts(h), Keywords[i]);
  }

  /** The topic of `text` carries the largest score, earliest keyword first. */
  lemma TopicIsFirstMax(text: string, t: int)
    requires IsTopic(text, t)
    ensures t == FirstMax(Scores(text))
  {
    var score := Scores(text);
    var top := FirstMax(score);
    assert score[t] == Count(text, Keywords[t]);
    assert score[top] == Count(text, Keywords[top]);
  }

  /** After the system prompt, a single user message is scanned on its own. */
  lemma FirstPromptScanned(prompt: string)
    ensures AllReadable([SystemMessage, UserMessage(prompt)])
    ensures Recommend([SystemMessage, UserMessage(prompt)]) == RecommendFor(prompt)
  {
    var u := UserMessage(prompt);
    assert AllReadable([u]) by { assert forall m :: m in [u] ==> m == u; }
    RecommendIgnoresNonUser([], SystemMessage, [u]);
    assert [] + [SystemMessage] + [u] == [SystemMessage, u];
    assert UserTexts([u]) == [prompt] by {
      assert [u][1..] == [];
    }
  }

  /** Ties go to the earlier keyword, not to the earlier mention: "공부 AI"
      counts 공부 and AI once each, and AI comes first in the keyword list. */
  lemma TieExample()
    ensures Recommend([SystemMessage, UserMessage("공부 AI")]) == Suggestion("AI")
  {
    FirstPromptScanned("공부 AI");
    TieTopic("공부 AI");
  }

  // TieTopic, TieCountAt and GreetingCountAt name the example text through a
  // parameter fixed by their precondition, so that the verifier does not unfold
  // `Count` on the literal at every use of the recursive definition.
  lemma TieTopic(text: string)
    requires text == "공부 AI"
    ensures IsTopic(text, 0)
  {
    TieCounts();
  }

  lemma TieCounts()
    ensures forall j :: 0 <= j < |Keywords| ==> Count("공부 AI", Keywords[j]) <= 1
    ensures Count("공부 AI", Keywords[0]) == 1
  {
    forall j | 0 <= j < |Keywords| ensures Count("공부 AI", Keywords[j]) <= 1 {
      TieCountAt("공부 AI", j);
    }
    TieCountAI();
  }

  /** The count of keyword `j` in "공부 AI". */
  lemma TieCountAt(text: string, j: int)
    requires text == "공부 AI"
    requires 0 <= j < |Keywords|
    ensures Count(text, Keywords[j]) <= 1
  {
    if j == 0 { TieCountAI(); }
    else if j == 8 { TieCountStudy(); }
    else { NoKeywordHead(text, j); }
  }

  lemma TieCountAI()
    ensures Count("공부 AI", "AI") == 1
  {
    assert "공부 AI" == "공부" + " AI";
    CountAppend("공부", " AI", "AI");
    CountAbsentHead("공부", "AI");
    CountAfterSpace("AI", "AI");
    assert [' '] + "AI" == " AI";
    assert "AI"[..2] == "AI" && "AI"[2..] == [];
  }

  lemma TieCountStudy()
    ensures Count("공부 AI", "공부") == 1
  {
    assert "공부 AI" == "공부" + " AI";
    CountAppend("공부", " AI", "공부");
    CountAbsentHead(" AI", "공부");
    assert "공부"[..2] == "공부" && "공부"[2..] == [];
  }

  /** Keyword `j` does not occur in a text without its first character; the
      cases are spelled out so that each needs one keyword only. */
  lemma NoKeywordHead(text: string, j: int)
    requires 0 <= j < |Keywords|
    requires Keywords[j][0] !in text
    ensures Count(text, Keywords[j]) == 0
  {
    CountAbsentHead(text, Keywords[j]);
  }

  /** A greeting that mentions no keyword gets the fallback. */
  lemma GreetingExample()
    ensures Recommend([SystemMessage, UserMessage("안녕")]) == Fallback
  {
    FirstPromptScanned("안녕");
    GreetingCounts();
  }

  lemma GreetingCounts()
    ensures forall j :: 0 <= j < |Keywords| ==> Count("안녕", Keywords[j]) == 0
  {
    forall j | 0 <= j < |Keywords| ensures Count("안녕", Keywords[j]) == 0 {
      GreetingCountAt("안녕", j);
    }
  }

  lemma GreetingCountAt(text: string, j: int)
    requires text == "안녕"
    requires 0 <= j < |Keywords|
    ensures Count(text, Keywords[j]) == 0
  {
    NoKeywordHead(text, j);
  }
}
