/** The `hide-tag` admin command: mention every participant with one chosen text. */
module HideTag {
  import opened Wrappers
  import opened JsString
  import opened Target

  datatype Participant = Participant(id: string)

  /** The text-bearing fields of the replied-to message. */
  datatype ReplyMessage = ReplyMessage(
    conversation: Option<string>,
    extendedText: Option<string>,
    imageCaption: Option<string>,
    videoCaption: Option<string>)

  /** The one `sendText` call of an invocation. */
  datatype SendText = SendText(text: string, mentions: seq<string>)

  const MarkTextPrompt := "❗ Marque uma mensagem **de texto**!"
  const DefaultText := "Marcação do adimiro!"

  /** `participants.map(({ id }) => id)` */
  function Mentions(participants: seq<Participant>): (r: seq<string>)
    ensures |r| == |participants|
    ensures forall i :: 0 <= i < |r| ==> r[i] == participants[i].id
  {
    if participants == [] then [] else [participants[0].id] + Mentions(participants[1..])
  }

  /**
   * `conversation || extendedTextMessage?.text || imageMessage?.caption || videoMessage?.caption`:
   * the first non-empty field in that order of priority.
   */
  function QuotedText(m: ReplyMessage): (r: Option<string>)
    ensures r.Some? ==> r.value != ""
    ensures Truthy(m.conversation) ==> r == m.conversation
    ensures !Truthy(m.conversation) && Truthy(m.extendedText) ==> r == m.extendedText
    ensures !Truthy(m.conversation) && !Truthy(m.extendedText) && Truthy(m.imageCaption) ==> r == m.imageCaption
    ensures !Truthy(m.conversation) && !Truthy(m.extendedText) && !Truthy(m.imageCaption) && Truthy(m.videoCaption) ==>
      r == m.videoCaption
    ensures r.None? <==> !Truthy(m.conversation) && !Truthy(m.extendedText) &&
                         !Truthy(m.imageCaption) && !Truthy(m.videoCaption)
  {
    if Truthy(m.conversation) then m.conversation
    else if Truthy(m.extendedText) then m.extendedText
    else if Truthy(m.imageCaption) then m.imageCaption
    else if Truthy(m.videoCaption) then m.videoCaption
    else None
  }

  /** `handle`: the one message sent, always to the full mention list. */
  function Handle(participants: seq<Participant>, isReply: bool, replyMessage: Option<ReplyMessage>,
                  fullArgs: string): (r: SendText)
    ensures r.mentions == Mentions(participants)
    ensures isReply && replyMessage.Some? ==>
      r.text == (match QuotedText(replyMessage.value) case Some(t) => t case None => MarkTextPrompt)
    ensures !(isReply && replyMessage.Some?) ==>
      r.text == (if |Trim(fullArgs)| > 0 then Trim(fullArgs) else DefaultText)
  {
    var mentions := Mentions(participants);
    if isReply && replyMessage.Some? then
      match QuotedText(replyMessage.value)
      case Some(text) => SendText(text, mentions)
      case None => SendText(MarkTextPrompt, mentions)
    else if |Trim(fullArgs)| > 0 then SendText(Trim(fullArgs), mentions)
    else SendText(DefaultText, mentions)
  }

  /**
   * The text sent is never empty. Without a quoted message, an argument
   * holding any non-whitespace character is sent trimmed (so it neither
   * starts nor ends with whitespace); a blank argument gives the default text.
   */
  lemma HandleTextIsNeverBlank(participants: seq<Participant>, isReply: bool,
                               replyMessage: Option<ReplyMessage>, fullArgs: string)
    ensures Handle(participants, isReply, replyMessage, fullArgs).text != ""
    ensures !(isReply && replyMessage.Some?) && (exists i :: 0 <= i < |fullArgs| && !IsJsWhiteSpace(fullArgs[i])) ==>
      var text := Handle(participants, isReply, replyMessage, fullArgs).text;
      text == Trim(fullArgs) && !IsJsWhiteSpace(text[0]) && !IsJsWhiteSpace(text[|text| - 1])
    ensures !(isReply && replyMessage.Some?) && (forall i :: 0 <= i < |fullArgs| ==> IsJsWhiteSpace(fullArgs[i])) ==>
      Handle(participants, isReply, replyMessage, fullArgs).text == DefaultText
  {
    TrimEmptyIffBlank(fullArgs);
    var lo, hi := TrimBounds(fullArgs);
  }
}
