/** The Chat screen (src/pages/Chat.tsx): an append-only message log, the
    input box, and a two-state machine (idle / waiting for the simulated
    reply) that lets one request be in flight at a time. */
module ChatSession {
  import opened JsText
  import opened Options

  datatype Role = User | Assistant

  datatype ActionKind = AddTasks | SetGoal

  /** The suggestion an assistant message may carry. */
  datatype MessageAction = MessageAction(kind: ActionKind, items: seq<string>)

  datatype Message = Message(id: string, role: Role, content: string, actions: Option<MessageAction>)

  /** A goal the chat can be bound to. */
  datatype CoachGoal = CoachGoal(id: string, title: string, isActive: bool)

  function MockGoals(): seq<CoachGoal> {
    [ CoachGoal("1", "Learn TypeScript", true),
      CoachGoal("2", "Build Workout Habit", false),
      CoachGoal("3", "Read 2 Books per Month", false) ]
  }

  /** The conversation the screen starts from. */
  function MockMessages(): seq<Message> {
    [ Message("1", Assistant, GreetingText, None),
      Message("2", User, QuestionText, None),
      Message("3", Assistant, AnswerText, Some(MessageAction(AddTasks, AnswerItems))) ]
  }

  const GreetingText: string :=
    "Hi! I'm your AI coach for TypeScript learning. I see you want to master TypeScript fundamentals. Let's break this down into manageable steps! \U{00F0}\U{0178}\U{017D}\U{00AF}"
  const QuestionText: string := "I want to focus on understanding generics better. Can you help?"
  const AnswerText: string :=
    "Absolutely! Generics are powerful for creating reusable, type-safe code. Here are some focused steps to master them:"
  const AnswerItems: seq<string> :=
    [ "Read TypeScript generics documentation (30 min)",
      "Practice basic generic functions with examples",
      "Build a simple generic utility type",
      "Create a generic class with constraints" ]

  /** The guard of `handleSend`, negated: the input has a non-whitespace
      character and no reply is pending. */
  predicate CanSend(input: string, isLoading: bool): (ok: bool)
    ensures ok <==> (exists i :: 0 <= i < |input| && !IsWhitespace(input[i])) && !isLoading
  {
    !(Trim(input) == "" || isLoading)
  }

  /** `handleKeyDown`: Enter sends, Shift+Enter does not. */
  predicate IsSendKey(key: string, shiftKey: bool): (b: bool)
    ensures b ==> key == "Enter"
    ensures shiftKey ==> !b
  {
    key == "Enter" && !shiftKey
  }

  /** A message typed by the user, kept exactly as typed (untrimmed). */
  function UserMessage(id: string, content: string): (m: Message)
    ensures m.id == id && m.role == User && m.actions.None?
    ensures m.content == content
  {
    Message(id, User, content, None)
  }

  /** The canned reply the timer delivers. */
  function ReplyMessage(id: string): (m: Message)
    ensures m.role == Assistant && m.actions.Some?
    ensures m.actions.value.kind == AddTasks && |m.actions.value.items| == 3
  {
    Message(id, Assistant,
            "Great question! Let me help you with that. Here are some specific steps you can take:",
            Some(MessageAction(AddTasks,
              [ "Research the topic for 20 minutes",
                "Try a hands-on example",
                "Write a summary of key learnings" ])))
  }

  /** The answer to "Okay". */
  function FollowUpMessage(id: string): (m: Message)
    ensures m.id == id && m.role == Assistant && m.actions.None?
  {
    Message(id, Assistant,
            "Excellent! Is there anything specific about this topic you'd like me to explain further?",
            None)
  }

  /** `${selectedGoal?.title}`: a goal's title, or the text "undefined" when
      the master coach is selected. */
  function GoalTitleText(goal: Option<CoachGoal>): (t: string)
    ensures goal.Some? ==> t == goal.value.title
    ensures goal.None? ==> t == "undefined"
  {
    match goal
    case Some(g) => g.title
    case None => "undefined"
  }

  const AddedPrefix: string := "Perfect! I've added "

  /** The confirmation for "Add all to tasks": right after the opening words
      come the decimal digits of the number of items, which read back as
      that number, and a space ends them. */
  function AddedAllText(count: nat, goal: Option<CoachGoal>): (s: string)
    ensures |s| > |AddedPrefix| + |NatToString(count)|
    ensures s[..|AddedPrefix|] == AddedPrefix
    ensures s[|AddedPrefix|..|AddedPrefix| + |NatToString(count)|] == NatToString(count)
    ensures forall i :: |AddedPrefix| <= i < |AddedPrefix| + |NatToString(count)| ==> '0' <= s[i] <= '9'
    ensures DecimalValue(s[|AddedPrefix|..|AddedPrefix| + |NatToString(count)|]) == count
    ensures s[|AddedPrefix| + |NatToString(count)|] == ' '
  {
    var digits := NatToString(count);
    var s := AddedPrefix + digits + " tasks to your \"" + GoalTitleText(goal)
             + "\" goal. You can view and manage them in the Tasks tab. Keep up the great work! \U{00F0}\U{0178}\U{017D}\U{2030}";
    assert s[|AddedPrefix|..|AddedPrefix| + |digits|] == digits;
    DecimalRoundTrip(count);
    s
  }

  /** The screen's state. The two counters stand for the `setTimeout`
      callbacks that are scheduled and have not fired yet. */
  class Session {
    var messages: seq<Message>
    var inputValue: string
    var isLoading: bool
    var selectedGoal: Option<CoachGoal>
    var pendingReplies: nat
    var pendingFollowUps: nat

    /** The loading flag is up exactly while the one reply is on its way. */
    ghost predicate Valid()
      reads this
    {
      pendingReplies <= 1 && (isLoading <==> pendingReplies == 1)
    }

    /** Initial state: the mock conversation, bound to the active goal. */
    constructor ()
      ensures Valid()
      ensures messages == MockMessages() && inputValue == "" && !isLoading
      ensures selectedGoal == Some(MockGoals()[0]) && pendingReplies == 0 && pendingFollowUps == 0
    {
      messages := MockMessages();
      inputValue := "";
      isLoading := false;
      selectedGoal := Some(MockGoals()[0]);
      pendingReplies := 0;
      pendingFollowUps := 0;
    }

    /** Typing into the input box. */
    method SetInput(text: string)
      modifies this
      ensures inputValue == text
      ensures messages == old(messages) && isLoading == old(isLoading) && selectedGoal == old(selectedGoal)
      ensures pendingReplies == old(pendingReplies) && pendingFollowUps == old(pendingFollowUps)
    {
      inputValue := text;
    }

    /** `handleSend()`, with `id` standing for `Date.now().toString()`.
        Blank input, or a reply still pending, changes nothing; otherwise the
        input is appended as a user message, the box is cleared, loading
        starts and the reply timer is scheduled. */
    method HandleSend(id: string) returns (sent: bool)
      requires Valid()
      modifies this
      ensures Valid()
      ensures sent == CanSend(old(inputValue), old(isLoading))
      ensures !sent ==>
        && messages == old(messages) && inputValue == old(inputValue) && isLoading == old(isLoading)
        && pendingReplies == old(pendingReplies)
      ensures sent ==>
        && messages == old(messages) + [UserMessage(id, old(inputValue))]
        && inputValue == "" && isLoading && pendingReplies == 1
      ensures selectedGoal == old(selectedGoal) && pendingFollowUps == old(pendingFollowUps)
    {
      if Trim(inputValue) == "" || isLoading {
        return false;
      }
      var userMessage := UserMessage(id, inputValue);
      messages := messages + [userMessage];
      inputValue := "";
      isLoading := true;
      pendingReplies := pendingReplies + 1;
      sent := true;
    }

    /** The reply timer firing, with `id` standing for `(Date.now() + 1).toString()`:
        one assistant message with three suggested tasks is appended and
        loading ends. */
    method Resolve(id: string)
      requires Valid() && pendingReplies > 0
      modifies this
      ensures Valid()
      ensures messages == old(messages) + [ReplyMessage(id)]
      ensures !isLoading && pendingReplies == 0
      ensures inputValue == old(inputValue) && selectedGoal == old(selectedGoal)
      ensures pendingFollowUps == old(pendingFollowUps)
    {
      messages := messages + [ReplyMessage(id)];
      isLoading := false;
      pendingReplies := pendingReplies - 1;
    }

    /** `handleKeyDown`: Enter without Shift sends; any other key does nothing. */
    method HandleKeyDown(key: string, shiftKey: bool, id: string) returns (sent: bool)
      requires Valid()
      modifies this
      ensures Valid()
      ensures sent == (IsSendKey(key, shiftKey) && CanSend(old(inputValue), old(isLoading)))
      ensures !sent ==>
        && messages == old(messages) && inputValue == old(inputValue) && isLoading == old(isLoading)
        && pendingReplies == old(pendingReplies)
      ensures sent ==>
        && messages == old(messages) + [UserMessage(id, old(inputValue))]
        && inputValue == "" && isLoading && pendingReplies == 1
      ensures selectedGoal == old(selectedGoal) && pendingFollowUps == old(pendingFollowUps)
    {
      sent := false;
      if IsSendKey(key, shiftKey) {
        sent := HandleSend(id);
      }
    }

    /** `handleQuickAction(action, items)`: "add_all_tasks" with a list
        appends a confirmation naming how many items; "okay" appends the
        user's "Okay" and schedules a follow-up; anything else (among them
        the per-item "add_task") does nothing. The loading state is never
        read or changed. */
    method HandleQuickAction(action: string, items: Option<seq<string>>, id: string)
      modifies this
      ensures action == "add_all_tasks" && items.Some? ==>
        messages == old(messages) + [Message(id, Assistant, AddedAllText(|items.value|, selectedGoal), None)]
        && pendingFollowUps == old(pendingFollowUps)
      ensures !(action == "add_all_tasks" && items.Some?) && action == "okay" ==>
        messages == old(messages) + [UserMessage(id, "Okay")]
        && pendingFollowUps == old(pendingFollowUps) + 1
      ensures !(action == "add_all_tasks" && items.Some?) && action != "okay" ==>
        messages == old(messages) && pendingFollowUps == old(pendingFollowUps)
      ensures isLoading == old(isLoading) && pendingReplies == old(pendingReplies)
      ensures inputValue == old(inputValue) && selectedGoal == old(selectedGoal)
    {
      if action == "add_all_tasks" && items.Some? {
        var text := AddedAllText(|items.value|, selectedGoal);
        messages := messages + [Message(id, Assistant, text, None)];
      } else if action == "okay" {
        messages := messages + [UserMessage(id, "Okay")];
        pendingFollowUps := pendingFollowUps + 1;
      }
    }

    /** The follow-up timer of "okay" firing: one assistant message. */
    method ResolveFollowUp(id: string)
      requires pendingFollowUps > 0
      modifies this
      ensures messages == old(messages) + [FollowUpMessage(id)]
      ensures pendingFollowUps == old(pendingFollowUps) - 1
      ensures isLoading == old(isLoading) && pendingReplies == old(pendingReplies)
      ensures inputValue == old(inputValue) && selectedGoal == old(selectedGoal)
    {
      messages := messages + [FollowUpMessage(id)];
      pendingFollowUps := pendingFollowUps - 1;
    }

    /** Switching to a goal's coach (`Some`) or the master coach (`None`):
        the conversation is left as it is. */
    method SelectGoal(goal: Option<CoachGoal>)
      modifies this
      ensures selectedGoal == goal
      ensures messages == old(messages) && inputValue == old(inputValue) && isLoading == old(isLoading)
      ensures pendingReplies == old(pendingReplies) && pendingFollowUps == old(pendingFollowUps)
    {
      selectedGoal := goal;
    }
  }
}
