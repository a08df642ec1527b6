/** The recommendations chat page: a transcript that starts with a greeting,
    grows by the customer's message and then by exactly one answer per
    send, and a loading flag that disables input while an answer is
    awaited.  The POST to the recommend endpoint is its outcome, passed in. */
module Chat {
  import opened Wrappers
  import opened Text
  import opened Records
  import MenuApi

  datatype Sender = User | Ai

  /** A transcript entry; an answer's text is the reply's `response` field,
      which may be absent. */
  datatype Message = Message(sender: Sender, text: Value)

  const Greeting := Message(Ai, Str("Hello! I can help you find the perfect food item. What are you in the mood for today?"))
  const Apology := "Sorry, something went wrong. Please try again."

  /** The answer appended for a reply whose JSON body carries `response`:
      its value when the call succeeds, the apology when the call fails, the
      status is not ok or the body is not JSON. */
  function AnswerText(reply: MenuApi.Fetch<Value>): (t: Value)
    ensures reply.Response? && reply.ok && reply.json.Some? ==> t == reply.json.value
    ensures !(reply.Response? && reply.ok && reply.json.Some?) ==> t == Str(Apology)
  {
    match reply
    case Response(true, Some(response)) => response
    case _ => Str(Apology)
  }

  /** An AI message first, then customer and AI messages in turn. */
  predicate Alternating(messages: seq<Message>) {
    |messages| >= 1 && messages[0].sender == Ai
    && forall i :: 1 <= i < |messages| ==> (messages[i].sender == User <==> i % 2 == 1)
  }

  /** One send and its answer on the transcript: nothing for a blank input,
      else the customer's text as typed and then the answer. */
  function Turn(messages: seq<Message>, input: string, reply: MenuApi.Fetch<Value>): (r: seq<Message>)
    ensures |r| == |messages| + (if IsBlank(input) then 0 else 2)
    ensures r[..|messages|] == messages
  {
    if IsBlank(input) then messages
    else messages + [Message(User, Str(input)), Message(Ai, AnswerText(reply))]
  }

  /** A turn keeps the transcript alternating from a settled state. */
  lemma TurnAlternates(messages: seq<Message>, input: string, reply: MenuApi.Fetch<Value>)
    requires Alternating(messages) && messages[|messages| - 1].sender == Ai
    ensures Alternating(Turn(messages, input, reply))
    ensures Turn(messages, input, reply)[|Turn(messages, input, reply)| - 1].sender == Ai
  {
    if !IsBlank(input) {
      assert |messages| % 2 == 1 by {
        if |messages| > 1 {
          assert messages[|messages| - 1].sender != User;
        }
      }
    }
  }

  /** A conversation from `start`: the transcript after each input and its
      reply.  The page starts from `[Greeting]`. */
  function Conversation(start: seq<Message>, inputs: seq<string>, replies: seq<MenuApi.Fetch<Value>>): seq<Message>
    requires |inputs| == |replies|
  {
    if inputs == [] then start
    else
      var n := |inputs| - 1;
      Turn(Conversation(start, inputs[..n], replies[..n]), inputs[n], replies[n])
  }

  /** The number of inputs that are not blank. */
  function Sends(inputs: seq<string>): nat {
    if inputs == [] then 0 else Sends(inputs[..|inputs| - 1]) + (if IsBlank(inputs[|inputs| - 1]) then 0 else 1)
  }

  /** Every conversation alternates, ends on an answer, and holds two
      messages per non-blank input after the greeting. */
  lemma {:induction false} ConversationShape(start: seq<Message>, inputs: seq<string>, replies: seq<MenuApi.Fetch<Value>>)
    requires |inputs| == |replies| && Alternating(start) && start[|start| - 1].sender == Ai
    ensures var c := Conversation(start, inputs, replies);
      Alternating(c) && c[|c| - 1].sender == Ai && |c| == |start| + 2 * Sends(inputs)
  {
    if inputs != [] {
      var n := |inputs| - 1;
      ConversationShape(start, inputs[..n], replies[..n]);
      TurnAlternates(Conversation(start, inputs[..n], replies[..n]), inputs[n], replies[n]);
    }
  }

  predicate IsPrefix<T(==)>(a: seq<T>, b: seq<T>) {
    |a| <= |b| && b[..|a|] == a
  }

  /** The transcript is append-only: every earlier stage is a prefix of
      every later one; in particular the greeting stays first. */
  lemma {:induction false} ConversationExtends(start: seq<Message>, inputs: seq<string>, replies: seq<MenuApi.Fetch<Value>>, k: nat)
    requires |inputs| == |replies| && k <= |inputs|
    ensures IsPrefix(Conversation(start, inputs[..k], replies[..k]), Conversation(start, inputs, replies))
  {
    if k == |inputs| {
      assert inputs[..k] == inputs && replies[..k] == replies;
    } else {
      var n := |inputs| - 1;
      ConversationExtends(start, inputs[..n], replies[..n], k);
      assert inputs[..n][..k] == inputs[..k] && replies[..n][..k] == replies[..k];
      ConversationStep(start, inputs, replies);
      PrefixTransitive(Conversation(start, inputs[..k], replies[..k]), Conversation(start, inputs[..n], replies[..n]), Conversation(start, inputs, replies));
    }
  }

  lemma ConversationStep(start: seq<Message>, inputs: seq<string>, replies: seq<MenuApi.Fetch<Value>>)
    requires |inputs| == |replies| && inputs != []
    ensures IsPrefix(Conversation(start, inputs[..|inputs| - 1], replies[..|inputs| - 1]), Conversation(start, inputs, replies))
  {
    var n := |inputs| - 1;
    var before := Conversation(start, inputs[..n], replies[..n]);
    assert Conversation(start, inputs, replies) == Turn(before, inputs[n], replies[n]);
    TurnExtends(before, inputs[n], replies[n]);
  }

  lemma TurnExtends(messages: seq<Message>, input: string, reply: MenuApi.Fetch<Value>)
    ensures IsPrefix(messages, Turn(messages, input, reply))
  {
  }

  lemma PrefixTransitive<T>(a: seq<T>, b: seq<T>, c: seq<T>)
    requires IsPrefix(a, b) && IsPrefix(b, c)
    ensures IsPrefix(a, c)
  {
    assert c[..|a|] == c[..|b|][..|a|];
  }

  class ChatSession {
    var messages: seq<Message>
    var inputText: string
    var isLoading: bool

    /** The transcript alternates, and loading means the last message is the
        customer's, still unanswered. */
    ghost predicate Valid()
      reads this
    {
      Alternating(messages) && messages[0] == Greeting && (isLoading <==> messages[|messages| - 1].sender == User)
    }

    constructor ()
      ensures Valid() && messages == [Greeting] && inputText == "" && !isLoading
    {
      messages := [Greeting];
      inputText := "";
      isLoading := false;
    }

    /** Typing; the input is disabled while loading. */
    method SetInputText(text: string)
      requires Valid() && !isLoading
      modifies this
      ensures Valid() && inputText == text && messages == old(messages) && !isLoading
    {
      inputText := text;
    }

    /** The first half of `handleSendMessage`: a blank input is ignored;
        otherwise the message goes out with its untrimmed text, the input is
        cleared and loading starts.  Returns the text posted, if any.  The
        send button is disabled while loading. */
    method SendMessage() returns (posted: Option<string>)
      requires Valid() && !isLoading
      modifies this
      ensures Valid()
      ensures IsBlank(old(inputText)) ==>
        posted == None && messages == old(messages) && inputText == old(inputText) && !isLoading
      ensures !IsBlank(old(inputText)) ==>
        posted == Some(old(inputText)) && messages == old(messages) + [Message(User, Str(old(inputText)))]
        && inputText == "" && isLoading
    {
      TrimEmptyIffBlank(inputText);
      if Trim(inputText) == "" {
        return None;
      }
      assert |messages| % 2 == 1 by {
        if |messages| > 1 {
          assert messages[|messages| - 1].sender != User;
        }
      }
      posted := Some(inputText);
      messages := messages + [Message(User, Str(inputText))];
      inputText := "";
      isLoading := true;
    }

    /** The second half: exactly one answer is appended and loading ends. */
    method ReceiveReply(reply: MenuApi.Fetch<Value>)
      requires Valid() && isLoading
      modifies this
      ensures Valid()
      ensures messages == old(messages) + [Message(Ai, AnswerText(reply))]
      ensures inputText == old(inputText) && !isLoading
    {
      messages := messages + [Message(Ai, AnswerText(reply))];
      isLoading := false;
    }

    /** `handleKeyPress`: Enter sends unless an answer is awaited. */
    method HandleKeyPress(key: string) returns (posted: Option<string>)
      requires Valid()
      modifies this
      ensures Valid()
      ensures key != "Enter" || old(isLoading) ==>
        posted == None && messages == old(messages) && inputText == old(inputText) && isLoading == old(isLoading)
      ensures key == "Enter" && !old(isLoading) && !IsBlank(old(inputText)) ==>
        posted == Some(old(inputText)) && messages == old(messages) + [Message(User, Str(old(inputText)))]
        && inputText == "" && isLoading
      ensures key == "Enter" && !old(isLoading) && IsBlank(old(inputText)) ==>
        posted == None && messages == old(messages) && inputText == old(inputText) && !isLoading
    {
      posted := None;
      if key == "Enter" && !isLoading {
        posted := SendMessage();
      }
    }

    /** A whole `handleSendMessage`, send and answer, is one `Turn`. */
    method Exchange(reply: MenuApi.Fetch<Value>)
      requires Valid() && !isLoading
      modifies this
      ensures Valid() && !isLoading
      ensures messages == Turn(old(messages), old(inputText), reply)
      ensures inputText == if IsBlank(old(inputText)) then old(inputText) else ""
    {
      var posted := SendMessage();
      if posted.Some? {
        ReceiveReply(reply);
      }
    }
  }
}
