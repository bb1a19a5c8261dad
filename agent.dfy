/** The health-coach chat page: the displayed list built from the chat
    library's messages with the welcome message in front, per-message
    feedback, the guard that keeps blank input from being sent, and the hiding
    of system messages. */
module Agent {
  import opened Wrappers
  import opened JsNum
  import Text
  import Seqs

  datatype Role = User | Assistant | System

  datatype Feedback = Good | Bad

  /** A message as the page keeps it. */
  datatype Message = Message(id: string, role: Role, content: string, feedback: Option<Feedback>)

  /** A message as the chat library hands it over; `id` is empty when missing. */
  datatype SdkMessage = SdkMessage(id: string, role: Role, content: string)

  const WelcomeId := "welcome-msg"
  const WelcomeText := "Hello! I'm Vitraya, your AI Health Coach. How can I help you today?"
  const Welcome := Message(WelcomeId, System, WelcomeText, None)

  /** The id given to the library message at `index` when it has none. */
  function GeneratedId(index: nat): (id: string)
    ensures |id| > 11 && id[..11] == "vercel-msg-"
  {
    "vercel-msg-" + Decimal(index)
  }

  /** Different positions get different generated ids. */
  lemma GeneratedIdsDistinct(i: nat, j: nat)
    requires i != j
    ensures GeneratedId(i) != GeneratedId(j)
  {
    if GeneratedId(i) == GeneratedId(j) {
      assert Decimal(i) == GeneratedId(i)[11..];
      assert Decimal(j) == GeneratedId(j)[11..];
      DecimalValue(i);
      DecimalValue(j);
    }
  }

  /** A generated id is never the welcome message's id. */
  lemma GeneratedIdIsNotWelcome(i: nat)
    ensures GeneratedId(i) != WelcomeId
  {
    assert GeneratedId(i)[0] == 'v';
  }

  /** The library messages in the page's form, each keeping its own id or given
      a generated one. */
  function Mapped(sdk: seq<SdkMessage>): (ms: seq<Message>)
    ensures |ms| == |sdk|
    ensures forall i :: 0 <= i < |sdk| ==>
      ms[i].role == sdk[i].role && ms[i].content == sdk[i].content && ms[i].feedback.None?
      && ms[i].id == (if sdk[i].id != "" then sdk[i].id else GeneratedId(i))
  {
    seq(|sdk|, i requires 0 <= i < |sdk| =>
      Message(if sdk[i].id != "" then sdk[i].id else GeneratedId(i), sdk[i].role, sdk[i].content, None))
  }

  predicate HasWelcome(ms: seq<Message>) {
    exists i :: 0 <= i < |ms| && ms[i].id == WelcomeId
  }

  /** The list shown: the mapped library messages, with the welcome message
      put in front when none of them carries its id. */
  function Combine(sdk: seq<SdkMessage>): (ms: seq<Message>)
    ensures HasWelcome(ms)
    ensures HasWelcome(Mapped(sdk)) ==> ms == Mapped(sdk)
    ensures !HasWelcome(Mapped(sdk)) ==> ms == [Welcome] + Mapped(sdk)
  {
    var mapped := Mapped(sdk);
    if HasWelcome(mapped) then mapped
    else
      assert ([Welcome] + mapped)[0].id == WelcomeId;
      [Welcome] + mapped
  }

  /** The welcome message is put in front exactly when no library message has
      the welcome id; the library messages follow in their order. */
  lemma CombinePrependsWelcome(sdk: seq<SdkMessage>)
    ensures var off := |Combine(sdk)| - |sdk|;
      (off == 1 <==> forall i :: 0 <= i < |sdk| ==> sdk[i].id != WelcomeId)
      && (off == 0 || off == 1)
      && (off == 1 ==> Combine(sdk)[0] == Welcome)
      && Combine(sdk)[off..] == Mapped(sdk)
  {
    var mapped := Mapped(sdk);
    forall i | 0 <= i < |sdk|
      ensures mapped[i].id == WelcomeId <==> sdk[i].id == WelcomeId
    {
      if sdk[i].id == "" {
        GeneratedIdIsNotWelcome(i);
      }
    }
    if !HasWelcome(mapped) {
      assert Combine(sdk)[1..] == mapped;
    }
  }

  /** `handleFeedback`: the feedback is set on the messages with the given id;
      every message keeps its place and every other field. */
  function WithFeedback(ms: seq<Message>, messageId: string, fb: Feedback): (r: seq<Message>)
    ensures |r| == |ms|
    ensures forall i :: 0 <= i < |ms| ==>
      r[i].id == ms[i].id && r[i].role == ms[i].role && r[i].content == ms[i].content
      && r[i].feedback == (if ms[i].id == messageId then Some(fb) else ms[i].feedback)
  {
    seq(|ms|, i requires 0 <= i < |ms| => if ms[i].id == messageId then ms[i].(feedback := Some(fb)) else ms[i])
  }

  /** Feedback on an id no message has changes nothing; giving the same
      feedback twice is giving it once; the latest feedback wins. */
  lemma WithFeedbackProperties(ms: seq<Message>, messageId: string, fb: Feedback, fb2: Feedback)
    ensures (forall i :: 0 <= i < |ms| ==> ms[i].id != messageId) ==> WithFeedback(ms, messageId, fb) == ms
    ensures WithFeedback(WithFeedback(ms, messageId, fb), messageId, fb) == WithFeedback(ms, messageId, fb)
    ensures WithFeedback(WithFeedback(ms, messageId, fb), messageId, fb2) == WithFeedback(ms, messageId, fb2)
  {
    if forall i :: 0 <= i < |ms| ==> ms[i].id != messageId {
      assert forall i :: 0 <= i < |ms| ==> WithFeedback(ms, messageId, fb)[i] == ms[i];
    }
  }

  /** `handleUserSubmit`: input that is blank after trimming is not sent;
      other input is appended as a user message with an id from the clock
      `now`, untrimmed, and the input box is cleared. */
  function Submit(ms: seq<Message>, input: string, now: nat): (r: (seq<Message>, string))
    ensures Text.Trim(input) == "" ==> r == (ms, input)
    ensures Text.Trim(input) != "" ==>
      r.1 == "" && r.0 == ms + [Message("user-" + Decimal(now), User, input, None)]
  {
    if Text.Trim(input) == "" then (ms, input)
    else (ms + [Message("user-" + Decimal(now), User, input, None)], "")
  }

  /** White space alone is never sent; anything with a visible character is. */
  lemma BlankInputNeverSent(ms: seq<Message>, input: string, now: nat)
    ensures Submit(ms, input, now).0 == ms <==> Text.IsBlank(input)
  {
    Text.TrimEmptyIffBlank(input);
    if !Text.IsBlank(input) {
      assert |Submit(ms, input, now).0| == |ms| + 1;
    }
  }

  function NotSystem(): Message -> bool {
    (m: Message) => m.role != System
  }

  /** The conversation rendered: every message except system messages. */
  function Rendered(ms: seq<Message>): (r: seq<Message>)
    ensures forall i :: 0 <= i < |r| ==> r[i] in ms && r[i].role != System
    ensures forall i :: 0 <= i < |ms| && ms[i].role != System ==> ms[i] in r
  {
    Seqs.Filter(ms, NotSystem())
  }

  /** The welcome message put in front is never rendered, and a sent message
      appears at the end of the rendered conversation. */
  lemma RenderedConversation(sdk: seq<SdkMessage>, ms: seq<Message>, input: string, now: nat)
    ensures Rendered(Combine(sdk)) == Rendered(Mapped(sdk))
    ensures Text.Trim(input) != "" ==>
      Rendered(Submit(ms, input, now).0) == Rendered(ms) + [Message("user-" + Decimal(now), User, input, None)]
  {
    var mapped := Mapped(sdk);
    if !HasWelcome(mapped) {
      assert ([Welcome] + mapped)[1..] == mapped;
    }
    Seqs.FilterAppend(ms, Message("user-" + Decimal(now), User, input, None), NotSystem());
  }
}
