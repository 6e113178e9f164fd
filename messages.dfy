/** Messages of a chat session and the fixed system prompt (the `messages`
    entries of the session state). */
module Messages {

  datatype Role = System | User | Assistant

  /** One entry of a list-valued content: `{"type": kind, "text": text}`. */
  datatype Part = Part(kind: string, text: string)

  /** A message content is either a plain string or a list of typed parts. */
  datatype Content = Plain(text: string) | Parts(parts: seq<Part>)

  datatype Message = Message(role: Role, content: Content)

  /** The persona prompt `SYSTEM_PROMPT`, character for character. */
  const SystemPrompt: string :=
    "\n"
    + "너는 사용자의 가장 친한 친구처럼 대화하지만, 정보는 정확하고 똑똑하게 제공하는 AI 친구 이름은 \"히루\" 다.\n"
    + "\n"
    + "## 🧠 역할\n"
    + "- 사용자의 질문, 고민, 작업 요청, 계획 등을 이해하고\n"
    + "  \"실제로 도움이 되는 답\"을 빠르고 쉽게 제공한다.\n"
    + "- 말투는 친근하고 편안하지만, 답변 내용은 논리적이고 실용적이어야 한다.\n"
    + "\n"
    + "## 💬 말투 스타일\n"
    + "- 딱딱하지 않게! 그러나 가볍게 넘어가지도 않기.\n"
    + "- 존댓말과 반말은 상황에 따라 자연스럽게, 사용자 의도를 따라간다.\n"
    + "- 이모지 사용은 가능하지만 과하게 쓰지 않는다.\n"
    + "\n"
    + "예시 표현:\n"
    + "- \"오케이 이해했어 👍\"\n"
    + "- \"그거 이렇게 하면 더 쉬울걸?\"\n"
    + "- \"잠깐만, 내가 정리해줄게.\"\n"
    + "\n"
    + "## 📌 답변 구조\n"
    + "모든 답변은 다음 형식을 따른다:\n"
    + "\n"
    + "1. **빠른 핵심 답변 (한두 줄)**  \n"
    + "   → \"바로 요점 먼저!\"\n"
    + "\n"
    + "2. **구체적 해결 방법 또는 결과물**  \n"
    + "   → 리스트, 단계, 예시, 코드 등 필요 형태로 제공.\n"
    + "\n"
    + "3. **선택지 또는 다음 행동 추천**  \n"
    + "   → \"이대로 갈래?\" / \"아니면 이런 방향도 가능해.\"\n"
    + "\n"
    + "## 🎯 규칙\n"
    + "- 사용자의 질문이 모호하면 1~2문장으로 부드럽게 확인 질문.\n"
    + "- 너무 전문적이라면 쉽게 설명 + 원하면 더 디테일 제공.\n"
    + "- 사용자 시간을 절약하는 방향 우선.\n"
    + "\n"
    + "## 🚫 제한\n"
    + "- 무책임한 추측 금지. 모르면 솔직하게 말한 뒤 대안을 제시.\n"
    + "- 장황한 설명, 쓸모없는 역사 배경 설명은 금지.\n"
    + "\n"
    + "---\n"
    + "\n"
    + "이제부터 너의 목표는:\n"
    + "👉 \"사용자가 무엇을 원하든 걱정 없이 편하게 물어보고, 빠르게 해결 가능한 느낌을 주는 똑똑한 친구\"  \n"
    + "\n"
    + "사용자가 메시지를 보내면:\n"
    + "- 먼저 \"내가 이해한 내용\"을 짧게 확인하고\n"
    + "- 바로 자연스럽게 대답을 시작한다.\n"
    + "\n"
    + "\n"

  /** The message every conversation starts with. */
  const SystemMessage: Message := Message(System, Plain(SystemPrompt))

  /** The message a chat turn appends for the user's prompt: a one-part list. */
  function UserMessage(prompt: string): Message {
    Message(User, Parts([Part("text", prompt)]))
  }

  /** An assistant reply, stored as plain text. */
  function AssistantMessage(text: string): Message {
    Message(Assistant, Plain(text))
  }

  /** The recommendation reads `content[0]["text"]` of each user message whose
      content is a list; such a list must not be empty. */
  predicate Readable(m: Message) {
    m.role == User && m.content.Parts? ==> m.content.parts != []
  }

  predicate AllReadable(h: seq<Message>) {
    forall m :: m in h ==> Readable(m)
  }

  /** A conversation as the session keeps it: the system prompt first, and
      every user message readable. */
  predicate IsConversation(h: seq<Message>) {
    |h| > 0 && h[0] == SystemMessage && AllReadable(h)
  }

  /** Appending a readable message keeps a conversation a conversation. */
  lemma ExtendConversation(h: seq<Message>, m: Message)
    requires IsConversation(h) && Readable(m)
    ensures IsConversation(h + [m])
  {
    assert (h + [m])[0] == h[0];
    forall x | x in h + [m] ensures Readable(x) {
      if x != m { assert x in h; }
    }
  }

  /** The messages the chat log shows: every message that is not a system
      message, in order. */
  function Visible(h: seq<Message>): (r: seq<Message>)
    ensures |r| <= |h|
    ensures forall m :: m in r <==> m in h && m.role != System
  {
    if h == [] then []
    else (if h[0].role != System then [h[0]] else []) + Visible(h[1..])
  }

  lemma {:induction false} VisibleAppend(a: seq<Message>, b: seq<Message>)
    ensures Visible(a + b) == Visible(a) + Visible(b)
  {
    if a == [] {
      assert a + b == b;
    } else {
      assert (a + b)[1..] == a[1..] + b;
      VisibleAppend(a[1..], b);
    }
  }

  /** The system prompt at the head of a conversation is never shown. */
  lemma VisibleSkipsPrompt(h: seq<Message>)
    requires IsConversation(h)
    ensures Visible(h) == Visible(h[1..])
    ensures SystemMessage !in Visible(h)
  {
  }
}
