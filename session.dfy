/** The WhatsApp session state the server keeps, `isReady` and
    `qrCodeData`, driven by the client's `qr` and `ready` events and read by
    `GET /api/status` and `POST /api/send-message`. A pure replay of the
    event history specifies the state; the class keeps the fields the
    handlers assign. */
module Session {
  import opened JsStrings
  import AuthGuard
  import ChatId

  /** The moments the handlers assign the state: the `qr` handler storing
      the encoded image (a data URL, opaque here), and the `ready` handler. */
  datatype Event = QrEncoded(image: string) | Ready

  /** The body of `GET /api/status`: `{connected, qrCode}`. */
  datatype Status = Status(connected: bool, qrCode: Option<string>)

  const Initial: Status := Status(false, None)

  /** One handler: `qr` replaces only the image; `ready` connects and drops
      the image. No handler disconnects, and an image is shown right after
      a `qr` event and never right after `ready`. */
  function Step(s: Status, e: Event): (t: Status)
    ensures t.connected <==> s.connected || e == Ready
    ensures t.qrCode.Some? <==> e.QrEncoded?
    ensures e.QrEncoded? ==> t.qrCode == Some(e.image)
  {
    match e
    case QrEncoded(image) => s.(qrCode := Some(image))
    case Ready => Status(true, None)
  }

  /** The state after a history of events, from the state at start-up. The
      server is connected exactly when a `ready` event has happened. */
  function Replay(history: seq<Event>): (s: Status)
    ensures s.connected <==> Ready in history
  {
    if history == [] then Initial
    else
      var n := |history| - 1;
      assert history == history[..n] + [history[n]];
      Step(Replay(history[..n]), history[n])
  }

  lemma ReplayAppend(history: seq<Event>, e: Event)
    ensures Replay(history + [e]) == Step(Replay(history), e)
  {
    assert (history + [e])[..|history|] == history;
  }

  /** Nothing ever disconnects: once connected, always connected. */
  lemma {:induction false} ConnectedIsPermanent(history: seq<Event>, later: seq<Event>)
    requires Replay(history).connected
    ensures Replay(history + later).connected
  {
    if later == [] {
      assert history + later == history;
    } else {
      var n := |later| - 1;
      assert history + later == (history + later[..n]) + [later[n]];
      ConnectedIsPermanent(history, later[..n]);
      ReplayAppend(history + later[..n], later[n]);
    }
  }

  /** While not connected, the status shows the most recent image, if any. */
  lemma {:induction false} ImageBeforeReady(history: seq<Event>, image: string)
    requires Ready !in history
    ensures Replay(history + [QrEncoded(image)]) == Status(false, Some(image))
  {
    ReplayAppend(history, QrEncoded(image));
  }

  /** Right after `ready` the status is connected with no image, whatever
      happened before. */
  lemma ReadyStatus(history: seq<Event>)
    ensures Replay(history + [Ready]) == Status(true, None)
  {
    ReplayAppend(history, Ready);
  }

  /** An image stored after `ready` (the `qr` handler awaits the encoder
      before it assigns) is shown next to `connected: true`. */
  lemma ImageAfterReady(history: seq<Event>, image: string)
    ensures Replay(history + [Ready, QrEncoded(image)]) == Status(true, Some(image))
  {
    ReplayAppend(history, Ready);
    assert history + [Ready, QrEncoded(image)] == (history + [Ready]) + [QrEncoded(image)];
    ReplayAppend(history + [Ready], QrEncoded(image));
  }

  /** What `POST /api/send-message` answers. */
  datatype SendReply =
    | Unauthorized(message: string)
    | NotConnected
    | Sent(chatId: string, text: string)
    | SendFailed
  {
    function StatusCode(): nat {
      match this
      case Unauthorized(_) => 401
      case NotConnected => 400
      case Sent(_, _) => 200
      case SendFailed => 500
    }
  }

  class WhatsAppSession {
    var isReady: bool
    var qrCodeData: Option<string>
    ghost var history: seq<Event>

    ghost predicate Valid()
      reads this
    {
      Status(isReady, qrCodeData) == Replay(history)
    }

    constructor ()
      ensures Valid() && history == []
      ensures !isReady && qrCodeData == None
    {
      isReady := false;
      qrCodeData := None;
      history := [];
    }

    /** The `qr` handler, at the moment it assigns the encoded image. */
    method OnQr(image: string)
      requires Valid()
      modifies this
      ensures Valid() && history == old(history) + [QrEncoded(image)]
      ensures qrCodeData == Some(image) && isReady == old(isReady)
    {
      ReplayAppend(history, QrEncoded(image));
      qrCodeData := Some(image);
      history := history + [QrEncoded(image)];
    }

    /** The `ready` handler. */
    method OnReady()
      requires Valid()
      modifies this
      ensures Valid() && history == old(history) + [Ready]
      ensures isReady && qrCodeData == None
    {
      ReplayAppend(history, Ready);
      isReady := true;
      qrCodeData := None;
      history := history + [Ready];
    }

    /** `GET /api/status`: the state the event history has led to. */
    method GetStatus() returns (s: Status)
      requires Valid()
      ensures s == Replay(history)
      ensures s.connected <==> Ready in history
    {
      s := Status(isReady, qrCodeData);
    }

    /** `POST /api/send-message`, behind `requireAuth`. A missing phone
        number makes `phone.includes` throw, which the handler answers with
        500, like a failed delivery; `delivered` is the outcome of handing
        the message to WhatsApp. */
    method SendMessage(
      authorization: Option<string>, verify: string -> Option<AuthGuard.Claims>,
      phone: Option<string>, text: string, delivered: bool)
      returns (r: SendReply)
      requires Valid()
      ensures var guard := AuthGuard.RequireAuth(authorization, verify);
        && (r.StatusCode() == 401 <==> guard.Denied?)
        && (guard.Denied? ==> r == Unauthorized(guard.message))
        && (r == NotConnected <==> guard.Granted? && !(Ready in history))
        && (r.StatusCode() == 200 <==> guard.Granted? && Ready in history && phone.Some? && delivered)
        && (r == SendFailed <==> guard.Granted? && Ready in history && !(phone.Some? && delivered))
        && (r.Sent? ==> r.chatId == ChatId.ToChatId(phone.value) && Includes(r.chatId, ChatId.Suffix) && r.text == text)
    {
      var guard := AuthGuard.RequireAuth(authorization, verify);
      if guard.Denied? {
        return Unauthorized(guard.message);
      }
      if !isReady {
        return NotConnected;
      }
      if phone.None? || !delivered {
        return SendFailed;
      }
      r := Sent(ChatId.ToChatId(phone.value), text);
    }
  }
}
