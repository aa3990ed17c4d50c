/**
 * The two handlers of main.py that decide what is sent where: the
 * `/api/analyze` endpoint, which escalates to the administrator when no AI
 * answer is obtained, and `admin_reply`, which routes the administrator's
 * answer back to the requester named by the report's tag.
 */
module Relay {
  import opened Wrappers
  import opened Report
  import opened Tag

  /** The AI call's outcome: the decoded JSON body, or the text `str(e)` of the exception it raised. */
  datatype AiCall<D> = Answered(data: D) | Raised(message: string)

  /**
   * What the endpoint answers: `{"success": True, "result": data}`,
   * `{"success": False}`, or an exception that escapes the handler.
   */
  datatype Response<D> = Succeeded(result: D) | Declined | Crashed(error: string)

  /** The endpoint's response and the bot messages sent while producing it. */
  datatype Handled<D> = Handled(response: Response<D>, sent: seq<Message>)

  const NoKeyReason: string := "NO_API_KEY"

  /** `if AI_KEY:` — an unset key and an empty key both count as absent. */
  predicate KeyConfigured(key: Option<string>)
    ensures KeyConfigured(key) ==> key.Some?
    ensures key == Some("") ==> !KeyConfigured(key)
  {
    key.Some? && key.value != ""
  }

  /** `await notify_admin(req, reason)` followed by `return {"success": False}`. */
  function Escalate<D>(admin: int, req: Request, reason: string): (h: Handled<D>)
    ensures !h.response.Succeeded? && h.sent == Notify(admin, req, reason).sent
    ensures h.sent[0] == Text(admin, Caption(req, reason))
    ensures h.response.Declined? <==> Notify(admin, req, reason).error.None?
  {
    var d := Notify(admin, req, reason);
    Handled(if d.error.None? then Declined else Crashed(d.error.value), d.sent)
  }

  /**
   * `analyze`: with a key, the AI call's body is returned unchanged or its
   * error becomes the report's reason; without a key the call is skipped and
   * the reason is `NO_API_KEY`.
   */
  function Analyze<D>(admin: int, req: Request, key: Option<string>, call: AiCall<D>): (h: Handled<D>)
    ensures h.response.Succeeded? <==> KeyConfigured(key) && call.Answered?
    ensures h.response.Succeeded? ==> h.response.result == call.data && h.sent == []
    ensures !h.response.Succeeded? ==>
      |h.sent| >= 1 && h.sent[0] == Text(admin, Caption(req, if KeyConfigured(key) then call.message else NoKeyReason))
    ensures !h.response.Succeeded? ==>
      h.sent == Notify(admin, req, if KeyConfigured(key) then call.message else NoKeyReason).sent
    ensures forall m :: m in h.sent ==> m.chat == admin
  {
    if KeyConfigured(key) then
      match call
      case Answered(data) => Handled(Succeeded(data), [])
      case Raised(message) =>
        NotifyOnlyToAdmin(admin, req, message);
        Escalate(admin, req, message)
    else
      NotifyOnlyToAdmin(admin, req, NoKeyReason);
      Escalate(admin, req, NoKeyReason)
  }

  /**
   * Whenever no AI answer is returned, the front end sees `{"success": False}`
   * unless a malformed `data:` photo makes the handler raise.
   */
  lemma AnalyzeFallback<D>(admin: int, req: Request, key: Option<string>, call: AiCall<D>)
    requires !(KeyConfigured(key) && call.Answered?)
    ensures Analyze(admin, req, key, call).response.Declined? <==>
      forall i :: 0 <= i < |req.photos| ==> ClassifyPhoto(req.photos[i]).Ok?
    ensures Analyze(admin, req, key, call).response.Crashed? ==>
      Analyze(admin, req, key, call).response.error == UnpackError
  {
    DeliveryFailsIffMalformed(admin, req.photos);
  }

  /** Without a key the AI call is never consulted: any two call outcomes give the same result. */
  lemma AnalyzeWithoutKeySkipsCall<D>(admin: int, req: Request, key: Option<string>, c1: AiCall<D>, c2: AiCall<D>)
    requires !KeyConfigured(key)
    ensures Analyze(admin, req, key, c1) == Analyze(admin, req, key, c2)
  {
  }

  /** The replied-to message, of which only the text matters (`None` for a photo or sticker). */
  datatype Replied = Replied(text: Option<string>)

  /** An incoming bot message: its sender, the chat it came from, its text and what it replies to. */
  datatype Incoming = Incoming(sender: int, chat: int, text: Option<string>, replyTo: Option<Replied>)

  const NotFoundNotice: string := "آی\U{200C}دی کاربر پیدا نشد."
  const AnswerPrefix: string := "👨\U{200D}🌾 پاسخ پشتیبان:\n"
  const ConfirmNotice: string := "✅ پاسخ ارسال شد."

  /** The filter `F.reply_to_message & (F.from_user.id == ADMIN_ID)`. */
  predicate AdminReplyFilter(admin: int, m: Incoming)
    ensures AdminReplyFilter(admin, m) ==> m.sender == admin && m.replyTo.Some?
  {
    m.replyTo.Some? && m.sender == admin
  }

  /** `f"{m.text}"`: a message without text renders as `None`. */
  function RenderText(text: Option<string>): (r: string)
    ensures text.Some? ==> r == text.value
    ensures text.None? ==> r == "None"
  {
    if text.Some? then text.value else "None"
  }

  /**
   * `admin_reply`: without a tag in the replied-to text, one notice back to
   * the administrator's chat; with one, the answer to the tagged id and then
   * a confirmation back to the administrator's chat (`m.answer`).
   */
  function AdminReply(admin: int, m: Incoming): (sent: seq<Message>)
    requires AdminReplyFilter(admin, m)
    ensures 1 <= |sent| <= 2 && sent[|sent| - 1].chat == m.chat
    ensures |sent| == 1 <==> forall i: nat :: !TagAt(RepliedText(m.replyTo.value.text), i)
    ensures |sent| == 1 ==> sent[0] == Text(m.chat, NotFoundNotice)
    ensures |sent| == 2 ==> sent[0].Text? && sent[0].text == AnswerPrefix + RenderText(m.text)
    ensures |sent| == 2 ==>
      Extract(m.replyTo.value.text).Some? && sent[0].chat == Extract(m.replyTo.value.text).value
    ensures |sent| == 2 ==> sent[1] == Text(m.chat, ConfirmNotice)
  {
    match Extract(m.replyTo.value.text)
    case None => [Text(m.chat, NotFoundNotice)]
    case Some(target) => [Text(target, AnswerPrefix + RenderText(m.text)), Text(m.chat, ConfirmNotice)]
  }

  /** A reply to a message without text (a forwarded photo) gets only the not-found notice. */
  lemma ReplyToTextlessMessage(admin: int, m: Incoming)
    requires AdminReplyFilter(admin, m) && m.replyTo.value.text.None?
    ensures AdminReply(admin, m) == [Text(m.chat, NotFoundNotice)]
  {
  }

  /**
   * Round trip: the administrator's reply to a report caption for a
   * non-negative id reaches exactly that id, followed by one confirmation.
   */
  lemma ReplyToCaption(admin: int, m: Incoming, req: Request, reason: string)
    requires AdminReplyFilter(admin, m) && m.replyTo.value.text == Some(Caption(req, reason))
    requires req.userId >= 0
    ensures AdminReply(admin, m) == [
      Text(req.userId, AnswerPrefix + RenderText(m.text)),
      Text(m.chat, ConfirmNotice)]
  {
    CaptionRoundTrip(req, reason);
  }

  /**
   * End to end: when `analyze` escalates, replying to the first message the
   * administrator received routes the answer to the requester.
   */
  lemma EscalationRoundTrip<D>(admin: int, req: Request, key: Option<string>, call: AiCall<D>, m: Incoming)
    requires !Analyze(admin, req, key, call).response.Succeeded?
    requires req.userId >= 0
    requires AdminReplyFilter(admin, m)
    requires m.replyTo.value.text == Some(Analyze(admin, req, key, call).sent[0].text)
    ensures AdminReply(admin, m)[0] == Text(req.userId, AnswerPrefix + RenderText(m.text))
  {
    var reason := if KeyConfigured(key) then call.message else NoKeyReason;
    ReplyToCaption(admin, m, req, reason);
  }
}
