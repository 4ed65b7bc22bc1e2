/** The admin notification (src/lib/telegram.ts): the message with its action-link
    block, the inline keyboard, the choice between `sendPhoto` and `sendMessage`, and
    the one-shot text-only retry.  The HTTP exchange is not performed: the two
    responses the API would give are inputs, and the requests that would be posted
    are returned. */
module Telegram {
  import opened Tables

  /** The arguments of `sendTelegramNotification`; an absent optional is `None`. */
  datatype Notice = Notice(
    botToken: string, chatId: string, message: string,
    imageUrl: Option<string>, confirmUrl: Option<string>, rejectUrl: Option<string>)

  /** JavaScript truthiness of an optional string: present and not empty. */
  predicate Given(s: Option<string>) {
    s.Some? && s.value != ""
  }

  predicate OccursAt(s: string, sub: string, k: int) {
    0 <= k && k + |sub| <= |s| && s[k..k + |sub|] == sub
  }

  /** `s.includes(sub)`. */
  function Includes(s: string, sub: string): (b: bool)
    ensures b <==> exists k :: OccursAt(s, sub, k)
  {
    if |s| < |sub| then false
    else if s[..|sub|] == sub then
      assert OccursAt(s, sub, 0);
      true
    else
      var b := Includes(s[1..], sub);
      if b then
        var k :| OccursAt(s[1..], sub, k);
        assert OccursAt(s, sub, k + 1);
        true
      else
        assert forall k :: OccursAt(s, sub, k) ==> k == 0 || OccursAt(s[1..], sub, k - 1);
        false
  }

  /** `confirmUrl?.includes('localhost') || confirmUrl?.includes('127.0.0.1')`. */
  predicate IsLocalhost(n: Notice) {
    n.confirmUrl.Some? && (Includes(n.confirmUrl.value, "localhost") || Includes(n.confirmUrl.value, "127.0.0.1"))
  }

  const Rule := "\U{2501}\U{2501}\U{2501}\U{2501}\U{2501}\U{2501}\U{2501}\U{2501}\U{2501}\U{2501}\U{2501}\U{2501}\U{2501}\U{2501}\U{2501}"
  const ConfirmLabel := "\n\U{2705} *CONFIRMAR PAGO:*\n"
  const RejectLabel := "\n\n\U{274C} *RECHAZAR PAGO:*\n"
  const ProofLabel := "\n\n\U{1F4F8} *Ver comprobante:*\n"

  /** The message with the action-link block appended when both links are given. */
  function FullMessage(n: Notice): string {
    if Given(n.confirmUrl) && Given(n.rejectUrl) then
      n.message + "\n\n" + Rule + ConfirmLabel + n.confirmUrl.value + RejectLabel + n.rejectUrl.value
    else n.message
  }

  datatype Button = Button(text: string, url: string)

  /** `reply_markup`: `{ inline_keyboard: rows }`. */
  datatype Keyboard = Keyboard(rows: seq<seq<Button>>)

  /** The keyboard, sent only for two given links that are not local. */
  function InlineKeyboard(n: Notice): Option<Keyboard> {
    if !IsLocalhost(n) && Given(n.confirmUrl) && Given(n.rejectUrl) then
      Some(Keyboard([[Button("\U{2705} CONFIRMAR", n.confirmUrl.value),
                      Button("\U{274C} RECHAZAR", n.rejectUrl.value)]]))
    else None
  }

  datatype Method = SendPhoto | SendMessage

  /** The JSON body; an absent field is `None`. */
  datatype Body = Body(
    chatId: string, parseMode: string, replyMarkup: Option<Keyboard>,
    photo: Option<string>, caption: Option<string>, text: Option<string>)

  /** One POST to the Bot API. */
  datatype Call = Call(url: string, body: Body)

  /** What a request yields: a reply with `ok: true`, a reply without it, or an
      exception from `fetch` or from reading the JSON. */
  datatype Response = Ok | NotOk | Threw

  function ApiUrl(botToken: string, m: Method): string {
    "https://api.telegram.org/bot" + botToken + "/" + (if m == SendPhoto then "sendPhoto" else "sendMessage")
  }

  /** The link block is appended exactly when both links are given; the original
      message always leads, and both links appear in the block. */
  lemma {:induction false} LinkBlockGate(n: Notice)
    ensures n.message <= FullMessage(n)
    ensures FullMessage(n) == n.message <==> !(Given(n.confirmUrl) && Given(n.rejectUrl))
    ensures Given(n.confirmUrl) && Given(n.rejectUrl) ==>
      Includes(FullMessage(n), n.confirmUrl.value) && Includes(FullMessage(n), n.rejectUrl.value)
  {
    if Given(n.confirmUrl) && Given(n.rejectUrl) {
      var full := FullMessage(n);
      var c, r := n.confirmUrl.value, n.rejectUrl.value;
      var pre := n.message + "\n\n" + Rule + ConfirmLabel;
      assert full == pre + c + RejectLabel + r;
      assert |full| > |n.message|;
      assert full[|pre|..|pre| + |c|] == c;
      assert OccursAt(full, c, |pre|);
      assert full[|full| - |r|..] == r;
      assert OccursAt(full, r, |full| - |r|);
    }
  }

  /** The keyboard is sent exactly when both links are given and the confirm link
      names neither `localhost` nor `127.0.0.1`; its two buttons carry the links. */
  lemma KeyboardGate(n: Notice)
    ensures InlineKeyboard(n).Some? <==>
      && Given(n.confirmUrl) && Given(n.rejectUrl)
      && !(exists k :: OccursAt(n.confirmUrl.value, "localhost", k))
      && !(exists k :: OccursAt(n.confirmUrl.value, "127.0.0.1", k))
    ensures InlineKeyboard(n).Some? ==>
      InlineKeyboard(n).value.rows == [[Button("\U{2705} CONFIRMAR", n.confirmUrl.value),
                                        Button("\U{274C} RECHAZAR", n.rejectUrl.value)]]
  {
  }

  /** `sendTelegramNotification`: returns whether the notice got through and the
      requests posted, in order. */
  method SendTelegramNotification(n: Notice, first: Response, retry: Response) returns (ok: bool, calls: seq<Call>)
    // Missing configuration: nothing is sent.
    ensures n.botToken == "" || n.chatId == "" ==> !ok && calls == []
    ensures n.botToken != "" && n.chatId != "" ==>
      && 1 <= |calls| <= 2
      // The first request: photo with caption, or plain text, and the keyboard.
      && calls[0].url == ApiUrl(n.botToken, if Given(n.imageUrl) then SendPhoto else SendMessage)
      && calls[0].body == (if Given(n.imageUrl)
                           then Body(n.chatId, "Markdown", InlineKeyboard(n), n.imageUrl, Some(FullMessage(n)), None)
                           else Body(n.chatId, "Markdown", InlineKeyboard(n), None, None, Some(FullMessage(n))))
      // Exactly one retry, only after a failed reply to a photo request, as text only.
      && (|calls| == 2 <==> Given(n.imageUrl) && first == NotOk)
      && (|calls| == 2 ==>
            calls[1] == Call(ApiUrl(n.botToken, SendMessage),
                             Body(n.chatId, "Markdown", None, None, None,
                                  Some(FullMessage(n) + ProofLabel + n.imageUrl.value))))
    ensures ok <==>
      && n.botToken != "" && n.chatId != ""
      && (first == Ok || (Given(n.imageUrl) && first == NotOk && retry == Ok))
  {
    if n.botToken == "" || n.chatId == "" {
      return false, [];
    }
    var fullMessage := FullMessage(n);
    var apiMethod := if Given(n.imageUrl) then SendPhoto else SendMessage;
    var body := Body(n.chatId, "Markdown", InlineKeyboard(n), None, None, None);
    if Given(n.imageUrl) {
      body := body.(photo := n.imageUrl, caption := Some(fullMessage));
    } else {
      body := body.(text := Some(fullMessage));
    }
    calls := [Call(ApiUrl(n.botToken, apiMethod), body)];
    if first == Threw {
      return false, calls;
    }
    if first == NotOk {
      if Given(n.imageUrl) {
        body := body.(photo := None, caption := None, replyMarkup := None,
                      text := Some(fullMessage + ProofLabel + n.imageUrl.value));
        calls := calls + [Call(ApiUrl(n.botToken, SendMessage), body)];
        return retry == Ok, calls;
      }
      return false, calls;
    }
    return true, calls;
  }
}
