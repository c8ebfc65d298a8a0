/** The message page's list: typing edits a draft, sending appends it as a
    new message from "You". */
module Message {
  import opened Common

  datatype Message = Message(id: int, sender: string, content: string, timestamp: string, status: string)

  datatype Chat = Chat(messages: seq<Message>, draft: string)

  /** The two messages the page starts with. */
  const Initial := Chat([
    Message(1, "Instructor", "Hello! How can I help you with the course?", "2024-02-20T10:00:00", "read"),
    Message(2, "You", "I have a question about the last lecture.", "2024-02-20T10:05:00", "read")
  ], "")

  /** `handleSendMessage`, with `now` the clock's ISO time: a draft that is
      blank after trimming changes nothing; any other draft is appended as
      sent by "You" with the next id, and the draft is cleared. */
  function Send(c: Chat, now: string): (r: Chat)
    ensures IsBlank(c.draft) ==> r == c
    ensures !IsBlank(c.draft) ==>
      r.draft == "" && r.messages == c.messages + [Message(|c.messages| + 1, "You", c.draft, now, "sent")]
  {
    TrimEmptyIffBlank(c.draft);
    if Trim(c.draft) != "" then
      Chat(c.messages + [Message(|c.messages| + 1, "You", c.draft, now, "sent")], "")
    else c
  }

  /** Typing into the field. */
  function Type(c: Chat, text: string): (r: Chat)
    ensures r.messages == c.messages && r.draft == text
  {
    c.(draft := text)
  }

  datatype Event = Typed(text: string) | Submitted(now: string)

  function Apply(c: Chat, e: Event): Chat {
    match e
    case Typed(text) => Type(c, text)
    case Submitted(now) => Send(c, now)
  }

  function ApplyAll(c: Chat, es: seq<Event>): Chat
    decreases |es|
  {
    if es == [] then c else ApplyAll(Apply(c, es[0]), es[1..])
  }

  /** Message ids are 1, 2, 3, ... in list order. */
  predicate IdsSequential(ms: seq<Message>) {
    forall i :: 0 <= i < |ms| ==> ms[i].id == i + 1
  }

  // ---------------------------------------------------------------- properties

  /** Sending never changes or reorders earlier messages. */
  lemma SendKeepsHistory(c: Chat, now: string)
    ensures var r := Send(c, now);
      |r.messages| >= |c.messages| && r.messages[..|c.messages|] == c.messages
  {
  }

  /** However the user types and sends, ids stay 1, 2, 3, ...: the id
      `length + 1` never repeats one already shown. */
  lemma {:induction false} IdsStaySequential(c: Chat, es: seq<Event>)
    requires IdsSequential(c.messages)
    ensures IdsSequential(ApplyAll(c, es).messages)
    decreases |es|
  {
    if es != [] {
      var next := Apply(c, es[0]);
      assert IdsSequential(next.messages);
      IdsStaySequential(next, es[1..]);
    }
  }

  lemma InitialIdsSequential()
    ensures IdsSequential(Initial.messages)
  {
  }

  /** Sending a blank draft twice in a row, or a second time after a send,
      adds nothing: the draft is cleared only when a message was added. */
  lemma SecondSendAddsNothing(c: Chat, now: string, later: string)
    ensures Send(Send(c, now), later) == Send(c, now)
  {
  }
}
