/** The chat widget (src/components/chat/chat-widget.tsx): a conversation
    in which every submitted question gets one canned reply after a delay.
    The clock and the timer are explicit: `now` is `Date.now()` and the
    delayed callback is the `Reply` method. */
module Chat {
  import opened JsText

  datatype Role = User | Assistant

  datatype Message = Message(id: string, role: Role, content: string)

  /** The number of messages with the given role. */
  function CountRole(ms: seq<Message>, role: Role): (n: nat)
    ensures n <= |ms|
  {
    if ms == [] then 0
    else (if ms[|ms| - 1].role == role then 1 else 0) + CountRole(ms[..|ms| - 1], role)
  }

  /** Roles alternate, starting with the user. */
  predicate Alternating(ms: seq<Message>) {
    forall k :: 0 <= k < |ms| ==> ms[k].role == (if k % 2 == 0 then User else Assistant)
  }

  /** In an alternating conversation there are as many user messages as
      assistant messages, plus one while a reply is outstanding. */
  lemma {:induction false} AlternatingCounts(ms: seq<Message>)
    requires Alternating(ms)
    ensures CountRole(ms, User) == CountRole(ms, Assistant) + |ms| % 2
  {
    if ms != [] {
      var init := ms[..|ms| - 1];
      assert Alternating(init);
      AlternatingCounts(init);
    }
  }

  /** Neither end is `\s`, so `trim` leaves the string as it is
      (`TrimKeepsInner`). */
  predicate Trimmed(s: string) {
    s == [] || (!IsSpace(s[0]) && !IsSpace(s[|s| - 1]))
  }

  /** Every user message is non-empty and trimmed. */
  predicate QuestionsTrimmed(ms: seq<Message>) {
    forall k :: 0 <= k < |ms| && ms[k].role == User ==> ms[k].content != "" && Trimmed(ms[k].content)
  }

  /** A trimmed, non-empty question after an answered conversation keeps
      it alternating and trimmed, and leaves it waiting for an answer. */
  lemma {:induction false} AppendQuestion(ms: seq<Message>, q: Message)
    requires Alternating(ms) && QuestionsTrimmed(ms) && |ms| % 2 == 0
    requires q.role == User && q.content != "" && Trimmed(q.content)
    ensures Alternating(ms + [q]) && QuestionsTrimmed(ms + [q]) && |ms + [q]| % 2 == 1
  {
    var r := ms + [q];
    forall k | 0 <= k < |r| ensures r[k].role == (if k % 2 == 0 then User else Assistant) {
      if k < |ms| { assert r[k] == ms[k]; }
    }
    forall k | 0 <= k < |r| && r[k].role == User ensures r[k].content != "" && Trimmed(r[k].content) {
      if k < |ms| { assert r[k] == ms[k]; }
    }
  }

  /** An answer to a waiting conversation keeps it alternating and trimmed. */
  lemma {:induction false} AppendAnswer(ms: seq<Message>, a: Message)
    requires Alternating(ms) && QuestionsTrimmed(ms) && |ms| % 2 == 1
    requires a.role == Assistant
    ensures Alternating(ms + [a]) && QuestionsTrimmed(ms + [a]) && |ms + [a]| % 2 == 0
  {
    var r := ms + [a];
    forall k | 0 <= k < |r| ensures r[k].role == (if k % 2 == 0 then User else Assistant) {
      if k < |ms| { assert r[k] == ms[k]; }
    }
    forall k | 0 <= k < |r| && r[k].role == User ensures r[k].content != "" && Trimmed(r[k].content) {
      if k < |ms| { assert r[k] == ms[k]; }
    }
  }

  class ChatWidget {
    /** The canned answer (`t('demo.response')`). */
    const demoResponse: string
    var isOpen: bool
    var messages: seq<Message>
    var input: string
    var isLoading: bool
    /** A reply has been scheduled with `setTimeout` and has not run yet. */
    var replyPending: bool

    /** Roles alternate, a reply is outstanding exactly while loading, and
        every user message is non-empty and trimmed. */
    predicate Valid()
      reads this
    {
      Alternating(messages) && QuestionsTrimmed(messages)
      && (|messages| % 2 == 1 <==> isLoading)
      && replyPending == isLoading
    }

    /** The send button's `disabled`, the same test `handleSubmit` starts with. */
    predicate SendDisabled()
      reads this
    {
      Trim(input) == "" || isLoading
    }

    constructor (demoResponse: string)
      ensures Valid()
      ensures this.demoResponse == demoResponse
      ensures !isOpen && messages == [] && input == "" && !isLoading
    {
      this.demoResponse := demoResponse;
      isOpen := false;
      messages := [];
      input := "";
      isLoading := false;
      replyPending := false;
    }

    /** The floating button opens the window. */
    method Open()
      requires Valid()
      modifies this
      ensures Valid() && isOpen
      ensures messages == old(messages) && input == old(input) && isLoading == old(isLoading)
      ensures replyPending == old(replyPending)
    {
      isOpen := true;
    }

    /** The close button in the window's header, rendered only while open. */
    method Close()
      requires Valid() && isOpen
      modifies this
      ensures Valid() && !isOpen
      ensures messages == old(messages) && input == old(input) && isLoading == old(isLoading)
      ensures replyPending == old(replyPending)
    {
      isOpen := false;
    }

    /** Typing into the input field, which is in the open window and
        disabled while a reply is awaited. */
    method Type(text: string)
      requires Valid() && isOpen && !isLoading
      modifies this
      ensures Valid() && input == text
      ensures messages == old(messages) && isOpen == old(isOpen) && isLoading == old(isLoading)
      ensures replyPending == old(replyPending)
    {
      input := text;
    }

    /** `handleSubmit`: ignored while the send button is disabled; otherwise
        it appends the trimmed question, clears the input, starts loading
        and schedules the reply. The form exists only while the window is
        open. */
    method Submit(now: nat)
      requires Valid() && isOpen
      modifies this
      ensures Valid()
      ensures old(SendDisabled()) ==> unchanged(this)
      ensures !old(SendDisabled()) ==>
                messages == old(messages) + [Message(NatToString(now), User, Trim(old(input)))]
                && input == "" && isLoading && replyPending && isOpen == old(isOpen)
    {
      if !SendDisabled() {
        var userMessage := Message(NatToString(now), User, Trim(input));
        AppendQuestion(messages, userMessage);
        messages := messages + [userMessage];
        input := "";
        isLoading := true;
        replyPending := true;
      }
    }

    /** The delayed callback: appends the canned answer and stops loading.
        It exists only while a reply is pending. */
    method Reply(now: nat)
      requires Valid() && replyPending
      modifies this
      ensures Valid()
      ensures messages == old(messages) + [Message(NatToString(now + 1), Assistant, demoResponse)]
      ensures !isLoading && !replyPending
      ensures input == old(input) && isOpen == old(isOpen)
    {
      var assistantMessage := Message(NatToString(now + 1), Assistant, demoResponse);
      AppendAnswer(messages, assistantMessage);
      messages := messages + [assistantMessage];
      isLoading := false;
      replyPending := false;
    }

    /** Counting form of the invariant: one more user message than
        assistant messages while loading, as many otherwise. */
    lemma {:induction false} Balanced()
      requires Valid()
      ensures CountRole(messages, User) == CountRole(messages, Assistant) + (if isLoading then 1 else 0)
    {
      AlternatingCounts(messages);
    }
  }
}
