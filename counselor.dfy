/** The AI counselor view: an append-only conversation, a send that is refused
    while a reply is awaited, and narration of one message at a time. The
    generative service's answer is a parameter of the step that receives it. */
module Counselor {
  import opened Types
  import opened JsStrings

  /** The reply used when the service answers with no text. */
  const ProblemReply := "Desculpe, tive um problema ao refletir sobre isso."
  /** The reply used when the request fails. */
  const ConnectionErrorReply := "Erro de conexão com o mentor. Tente novamente."

  /** The request threw, or the service answered with a text (the empty string
      standing also for a missing text). */
  datatype AiReply = RequestFailed | Replied(text: string)

  /** `customPrompt || input`: the prompt of a context button when it is a
      non-empty string, otherwise what the user typed. */
  function TextToSend(customPrompt: Option<string>, input: string): (r: string)
    ensures customPrompt.Some? && customPrompt.value != "" ==> r == customPrompt.value
    ensures customPrompt.None? || customPrompt.value == "" ==> r == input
  {
    if customPrompt.Some? && customPrompt.value != "" then customPrompt.value else input
  }

  /** The content of the assistant message a finished request appends. */
  function AssistantContent(reply: AiReply): (r: string)
    ensures r != ""
    ensures reply.Replied? && reply.text != "" ==> r == reply.text
    ensures reply.Replied? && reply.text == "" ==> r == ProblemReply
    ensures reply.RequestFailed? ==> r == ConnectionErrorReply
  {
    match reply
    case RequestFailed => ConnectionErrorReply
    case Replied(text) => if text != "" then text else ProblemReply
  }

  /** The fallback texts tell the reader that something went wrong: neither can
      be mistaken for the other, whatever the service answered. */
  lemma FallbacksAreDistinct(reply: AiReply)
    ensures AssistantContent(reply) == ConnectionErrorReply ==> reply.RequestFailed? || reply == Replied(ConnectionErrorReply)
    ensures AssistantContent(reply) == ProblemReply ==> reply == Replied("") || reply == Replied(ProblemReply)
  {
  }

  /** The conversation built from the questions sent and the replies received:
      each question followed by its reply, the last question possibly still
      without one. */
  function Conversation(questions: seq<string>, replies: seq<string>): (r: seq<ChatMessage>)
    requires |replies| <= |questions| <= |replies| + 1
    ensures |r| == |questions| + |replies|
    decreases |questions| + |replies|
  {
    if questions == [] then []
    else if |questions| == |replies| then
      Conversation(questions, replies[..|replies| - 1]) + [ChatMessage(Assistant, replies[|replies| - 1])]
    else
      Conversation(questions[..|questions| - 1], replies) + [ChatMessage(User, questions[|questions| - 1])]
  }

  /** In a conversation, messages alternate user, assistant, user, ...: the
      question `i` sits at position 2i and its reply right after it. */
  lemma {:induction false} ConversationAlternates(questions: seq<string>, replies: seq<string>, i: nat)
    requires |replies| <= |questions| <= |replies| + 1
    requires i < |questions| + |replies|
    ensures Conversation(questions, replies)[i] ==
              if i % 2 == 0 then ChatMessage(User, questions[i / 2]) else ChatMessage(Assistant, replies[i / 2])
    decreases |questions| + |replies|
  {
    if |questions| == |replies| {
      if i < |questions| + |replies| - 1 {
        ConversationAlternates(questions, replies[..|replies| - 1], i);
      }
    } else {
      if i < |questions| + |replies| - 1 {
        ConversationAlternates(questions[..|questions| - 1], replies, i);
      }
    }
  }

  class Session {
    var messages: seq<ChatMessage>
    var input: string
    var isLoading: bool
    var narratingIdx: Option<int>
    /** Every text sent to the generative service, in order. */
    ghost var sent: seq<string>
    /** The content of every assistant message, in order. */
    ghost var replies: seq<string>
    /** How many narrations are playing. */
    ghost var narrations: nat

    ghost predicate Valid()
      reads this
    {
      && |sent| == |replies| + (if isLoading then 1 else 0)
      && messages == Conversation(sent, replies)
      && narrations <= 1
      && (narratingIdx.None? <==> narrations == 0)
    }

    constructor ()
      ensures Valid()
      ensures messages == [] && input == "" && !isLoading && narratingIdx == None
    {
      messages, input, isLoading, narratingIdx := [], "", false, None;
      sent, replies, narrations := [], [], 0;
    }

    /** Typing in the message box. */
    method EditInput(text: string)
      requires Valid()
      modifies this`input
      ensures Valid() && input == text
    {
      input := text;
    }

    /** The part of `handleSend` before the request is awaited: a blank text,
        or a send while a reply is awaited, changes nothing; otherwise the user
        message is appended, the box cleared and the loading flag set. */
    method BeginSend(customPrompt: Option<string>) returns (accepted: bool)
      requires Valid()
      modifies this`messages, this`input, this`isLoading, this`sent
      ensures Valid() && replies == old(replies)
      ensures var text := TextToSend(customPrompt, old(input));
              accepted <==> !IsBlank(text) && !old(isLoading)
      ensures !accepted ==>
                messages == old(messages) && input == old(input) && isLoading == old(isLoading) && sent == old(sent)
      ensures accepted ==>
                var text := TextToSend(customPrompt, old(input));
                && messages == old(messages) + [ChatMessage(User, text)]
                && input == "" && isLoading && sent == old(sent) + [text]
    {
      var text := TextToSend(customPrompt, input);
      if IsBlank(text) || isLoading {
        return false;
      }
      assert |sent| == |replies|;
      assert (sent + [text])[..|sent|] == sent;
      assert Conversation(sent + [text], replies) == messages + [ChatMessage(User, text)];
      messages := messages + [ChatMessage(User, text)];
      sent := sent + [text];
      input := "";
      isLoading := true;
      return true;
    }

    /** The part of `handleSend` after the request: exactly one assistant
        message, then the loading flag is cleared. */
    method CompleteSend(reply: AiReply)
      requires Valid() && isLoading
      modifies this`messages, this`isLoading, this`replies
      ensures Valid() && sent == old(sent) && replies == old(replies) + [AssistantContent(reply)]
      ensures messages == old(messages) + [ChatMessage(Assistant, AssistantContent(reply))]
      ensures !isLoading
    {
      var content := AssistantContent(reply);
      assert (replies + [content])[..|replies|] == replies;
      assert Conversation(sent, replies + [content]) == messages + [ChatMessage(Assistant, content)];
      messages := messages + [ChatMessage(Assistant, content)];
      replies := replies + [content];
      isLoading := false;
    }

    /** `handleSend` run to completion: an accepted send adds the question and
        one answer, in that order, after the messages that were there. */
    method HandleSend(customPrompt: Option<string>, reply: AiReply) returns (accepted: bool)
      requires Valid()
      modifies this`messages, this`input, this`isLoading, this`sent, this`replies
      ensures Valid()
      ensures accepted <==> !IsBlank(TextToSend(customPrompt, old(input))) && !old(isLoading)
      ensures !accepted ==> messages == old(messages) && input == old(input) && isLoading == old(isLoading)
      ensures accepted ==>
                && messages == old(messages) + [ChatMessage(User, TextToSend(customPrompt, old(input))),
                                                ChatMessage(Assistant, AssistantContent(reply))]
                && input == "" && !isLoading
    {
      accepted := BeginSend(customPrompt);
      if accepted {
        CompleteSend(reply);
      }
    }

    /** The start of `handleSpeak`: refused while any message is narrated. */
    method StartNarration(index: int) returns (started: bool)
      requires Valid()
      modifies this`narratingIdx, this`narrations
      ensures Valid()
      ensures started <==> old(narratingIdx).None?
      ensures started ==> narratingIdx == Some(index) && narrations == 1
      ensures !started ==> narratingIdx == old(narratingIdx) && narrations == old(narrations)
    {
      if narratingIdx.Some? {
        return false;
      }
      narratingIdx := Some(index);
      narrations := narrations + 1;
      return true;
    }

    /** The end of `handleSpeak`, once the narration it started finished. */
    method FinishNarration()
      requires Valid() && narrations > 0
      modifies this`narratingIdx, this`narrations
      ensures Valid() && narratingIdx == None && narrations == 0
    {
      narratingIdx := None;
      narrations := narrations - 1;
    }

    /** `handleSpeak` run to completion: nothing while a narration plays,
        otherwise narrate and come back to no narration. */
    method HandleSpeak(index: int) returns (started: bool)
      requires Valid()
      modifies this`narratingIdx, this`narrations
      ensures Valid()
      ensures started <==> old(narratingIdx).None?
      ensures narratingIdx == old(narratingIdx) && narrations == old(narrations)
    {
      started := StartNarration(index);
      if started {
        FinishNarration();
      }
    }
  }
}
