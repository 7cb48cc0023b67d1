/** The chat command dispatcher: every inbound WhatsApp message gets exactly
    one reply, chosen from its trimmed, upper-cased body and, for the two
    commands that consult the customer service, from the outcome of that one
    request. The request's outcome is an input here; the result records which
    request, if any, was issued and what the reply text is. */
module Commands {
  import opened JsStrings
  import JsNumber
  import ChatId

  const ConsultKeyword: string := "CONSULTAR"
  const DiscountPrefix: string := "DESCUENTO "

  /** What a body asks for, in the order the dispatcher tries them. */
  datatype Command =
    | Consult
    | Discount(percent: string)  // the text after the prefix, trimmed
    | Help
    | Greeting

  /** The fields of a customer record, as the reply template renders them. */
  datatype Customer = Customer(nombre: string, telefono: string, descuento: string, estado: string)

  /** What came back from the customer service: a parsed body whose
      `success` field is truthy or not, or a failure (network error, a body
      that is not JSON) that the handler catches. */
  datatype Upstream =
    | Answered(success: bool, customer: Customer)
    | Failed

  /** The request the dispatcher sends to the customer service. */
  datatype Request =
    | LookupCustomer(phone: string)
    | UpdateDiscount(phone: string, percent: string)

  datatype Handled = Handled(request: Option<Request>, reply: string)

  // The emoji each reply opens with.
  const Cross: string := "\U{274C} "
  const Warning: string := "\U{26A0}\U{FE0F} "
  const Clipboard: string := "\U{1F4CB} "
  const Check: string := "\U{2705} "

  const NotFoundReply: string := Cross + "Cliente no encontrado en el sistema."
  const ConsultFailedReply: string := Warning + "Error al consultar información. Intente nuevamente."
  const FormatErrorReply: string := Cross + "Formato incorrecto. Use: DESCUENTO 10"
  const UpdateRejectedReply: string := Cross + "Error al actualizar descuento. Verifique que el cliente exista."
  const UpdateFailedReply: string := Warning + "Error al procesar solicitud. Intente nuevamente."
  const HelpReply: string :=
    "\U{1F916} *Comandos disponibles:*\n\n"
    + "\U{1F4CB} CONSULTAR - Ver tu información\n"
    + "\U{1F4B0} DESCUENTO [%] - Actualizar descuento\n"
    + "\U{2753} AYUDA - Ver este mensaje\n\n"
    + "Ejemplo: DESCUENTO 15"
  const GreetingReply: string :=
    "¡Hola! \U{1F44B}\n\n"
    + "Envía *AYUDA* para ver los comandos disponibles."

  function CustomerReply(c: Customer): string {
    Clipboard + "*Información del Cliente*\n\n"
    + "Nombre: " + c.nombre + "\n"
    + "Teléfono: " + c.telefono + "\n"
    + "Descuento actual: " + c.descuento + "%\n"
    + "Estado: " + c.estado
  }

  const UpdatedHead: string := Check + "*Descuento actualizado*\n\nNuevo descuento: "
  const UpdatedMiddle: string := "%\nTeléfono: "

  function UpdatedReply(percent: string, phone: string): string {
    UpdatedHead + percent + UpdatedMiddle + phone
  }

  /** `body.trim().toUpperCase()`. */
  function Normalize(body: string): (text: string)
    ensures IsTrimmed(text)
    ensures ToUpperCase(text) == text
  {
    UpperKeepsTrimmed(Trim(body));
    UpperIdempotent(Trim(body));
    ToUpperCase(Trim(body))
  }

  /** The command a body asks for. The four cases are told apart by
      conditions that exclude one another, so the order of the tests does not
      matter; a discount's percentage is whatever follows the prefix, never
      empty and never padded with whitespace. */
  function Classify(body: string): (c: Command)
    ensures c == Consult <==> Normalize(body) == ConsultKeyword
    ensures c.Discount? <==> StartsWith(Normalize(body), DiscountPrefix)
    ensures c == Help <==> Normalize(body) == "AYUDA" || Normalize(body) == "HELP"
    ensures c.Discount? ==>
      && c.percent == Trim(Normalize(body)[|DiscountPrefix|..])
      && c.percent != []
      && IsTrimmed(c.percent)
  {
    var text := Normalize(body);
    if text == ConsultKeyword then Consult
    else if StartsWith(text, DiscountPrefix) then
      DiscountRemainder(body);
      Discount(Trim(ReplaceFirst(text, DiscountPrefix, "")))
    else if text == "AYUDA" || text == "HELP" then Help
    else Greeting
  }

  /** Removing the prefix leaves the text after it; that text ends with a
      character that is not whitespace, because the body was trimmed before
      it was upper-cased. */
  lemma DiscountRemainder(body: string)
    requires StartsWith(Normalize(body), DiscountPrefix)
    ensures var text := Normalize(body);
      && ReplaceFirst(text, DiscountPrefix, "") == text[|DiscountPrefix|..]
      && Trim(text[|DiscountPrefix|..]) != []
  {
    var text := Normalize(body);
    assert "" + text[|DiscountPrefix|..] == text[|DiscountPrefix|..];
    UpperKeepsTrimmed(Trim(body));
    assert DiscountPrefix[|DiscountPrefix| - 1] == ' ';
    RestAfterPadding(text, DiscountPrefix);
  }

  /** The reply to CONSULTAR. */
  function ConsultReply(outcome: Upstream): string {
    match outcome
    case Answered(success, customer) => if success then CustomerReply(customer) else NotFoundReply
    case Failed => ConsultFailedReply
  }

  /** The reply to an accepted DESCUENTO. */
  function DiscountReply(percent: string, phone: string, outcome: Upstream): string {
    match outcome
    case Answered(success, _) => if success then UpdatedReply(percent, phone) else UpdateRejectedReply
    case Failed => UpdateFailedReply
  }

  /** Whether handling a command consults the customer service. */
  predicate SendsRequest(command: Command) {
    command == Consult || (command.Discount? && !JsNumber.IsNaN(command.percent))
  }

  /** The branch of `processMessage` for a command: a request is sent
      exactly for CONSULTAR and for DESCUENTO with a numeric percentage;
      every request concerns the sender, and an update carries the
      command's percentage. */
  function Respond(command: Command, phone: string, outcome: Upstream): (h: Handled)
    ensures h.request.Some? <==> SendsRequest(command)
    ensures h.request.Some? ==> h.request.value.phone == phone
    ensures h.request.Some? && h.request.value.UpdateDiscount? ==>
      command == Discount(h.request.value.percent)
  {
    match command
    case Consult => Handled(Some(LookupCustomer(phone)), ConsultReply(outcome))
    case Discount(percent) =>
      if JsNumber.IsNaN(percent) then Handled(None, FormatErrorReply)
      else Handled(Some(UpdateDiscount(phone, percent)), DiscountReply(percent, phone, outcome))
    case Help => Handled(None, HelpReply)
    case Greeting => Handled(None, GreetingReply)
  }

  /** `processMessage`: the one reply to a message from `phone`, and the one
      request, if any, that produced the outcome it depends on. Plain chat
      and help never reach the service, and what is sent is always about
      the sender. */
  function ProcessMessage(body: string, phone: string, outcome: Upstream): (h: Handled)
    ensures h.request.Some? <==> SendsRequest(Classify(body))
    ensures h.request.Some? ==> h.request.value.phone == phone
    ensures h.request.Some? && h.request.value.UpdateDiscount? ==>
      Classify(body) == Discount(h.request.value.percent)
  {
    Respond(Classify(body), phone, outcome)
  }

  /** The `message` event: the phone number is the sender's chat id without
      its suffix, and a sender id without the suffix is used as it is. */
  function OnMessage(from: string, body: string, outcome: Upstream): (h: Handled)
    ensures h.request.Some? ==> h.request.value.phone == ChatId.PhoneOf(from)
    ensures !Includes(from, ChatId.Suffix) ==> h == ProcessMessage(body, from, outcome)
  {
    ProcessMessage(body, ChatId.PhoneOf(from), outcome)
  }

  // ------------------------------------------------------------ properties

  /** Normalizing is idempotent. */
  lemma NormalizeIdempotent(body: string)
    ensures Normalize(Normalize(body)) == Normalize(body)
  {
    TrimUpperCommute(Trim(body));
    TrimIdempotent(body);
    UpperIdempotent(Trim(body));
  }

  /** Sending the normalized text instead of the body changes nothing. */
  lemma ReplyDependsOnNormalizedText(body: string, phone: string, outcome: Upstream)
    ensures ProcessMessage(Normalize(body), phone, outcome) == ProcessMessage(body, phone, outcome)
  {
    NormalizeIdempotent(body);
    SameTextSameReply(Normalize(body), body, phone, outcome);
  }

  /** The handling of a message is a function of its normalized text. */
  lemma SameTextSameReply(body: string, other: string, phone: string, outcome: Upstream)
    requires Normalize(body) == Normalize(other)
    ensures ProcessMessage(body, phone, outcome) == ProcessMessage(other, phone, outcome)
  {
    assert Classify(body) == Classify(other);
  }

  /** Bodies that differ only in letter case and in the whitespace around
      them get the same reply and cause the same request. */
  lemma ReplyIgnoresCaseAndPadding(
    body: string, other: string, before: string, after: string, phone: string, outcome: Upstream)
    requires ToUpperCase(body) == ToUpperCase(other)
    requires AllWhitespace(before) && AllWhitespace(after)
    ensures ProcessMessage(before + body + after, phone, outcome) == ProcessMessage(other, phone, outcome)
  {
    NormalizeIgnoresCaseAndPadding(body, other, before, after);
    SameTextSameReply(before + body + after, other, phone, outcome);
  }

  lemma NormalizeIgnoresCaseAndPadding(body: string, other: string, before: string, after: string)
    requires ToUpperCase(body) == ToUpperCase(other)
    requires AllWhitespace(before) && AllWhitespace(after)
    ensures Normalize(before + body + after) == Normalize(other)
  {
    var padded := before + body + after;
    calc {
      Normalize(padded);
      { TrimUpperCommute(padded); }
      Trim(ToUpperCase(padded));
      { UpperOfPadded(before, body, after); }
      Trim(before + ToUpperCase(other) + after);
      { TrimIgnoresPadding(before, ToUpperCase(other), after); }
      Trim(ToUpperCase(other));
      { TrimUpperCommute(other); }
      Normalize(other);
    }
  }

  /** CONSULTAR always looks the sender up, and answers with exactly one of
      three replies: the customer record when the answer reports success,
      "not found" when it does not, and "try again" when the call failed. */
  lemma ConsultOutcomes(body: string, phone: string, outcome: Upstream)
    requires Normalize(body) == ConsultKeyword
    ensures var h := ProcessMessage(body, phone, outcome);
      && h.request == Some(LookupCustomer(phone))
      && (outcome.Answered? && outcome.success ==> h.reply == CustomerReply(outcome.customer))
      && (h.reply == NotFoundReply <==> outcome.Answered? && !outcome.success)
      && (h.reply == ConsultFailedReply <==> outcome.Failed?)
  {
    assert NotFoundReply[0] == Cross[0] != Warning[0] == ConsultFailedReply[0];
    if outcome.Answered? && outcome.success {
      assert CustomerReply(outcome.customer)[0] == Clipboard[0];
    }
  }

  /** A DESCUENTO whose percentage is not a number is answered with the
      format error and sends no request, whatever the service would say. */
  lemma MalformedDiscountSendsNothing(body: string, phone: string, outcome: Upstream)
    requires Classify(body).Discount? && JsNumber.IsNaN(Classify(body).percent)
    ensures ProcessMessage(body, phone, outcome) == Handled(None, FormatErrorReply)
  {
  }

  /** A numeric DESCUENTO sends the percentage text and the phone number to
      the service; on success the confirmation repeats both. */
  lemma DiscountConfirmation(body: string, phone: string, outcome: Upstream)
    requires Classify(body).Discount? && !JsNumber.IsNaN(Classify(body).percent)
    ensures var percent := Classify(body).percent;
      var h := ProcessMessage(body, phone, outcome);
      && h.request == Some(UpdateDiscount(phone, percent))
      && (outcome.Answered? && outcome.success ==>
            h.reply == UpdatedReply(percent, phone)
            && Includes(h.reply, percent) && Includes(h.reply, phone))
      && (outcome.Answered? && !outcome.success ==> h.reply == UpdateRejectedReply)
      && (outcome.Failed? ==> h.reply == UpdateFailedReply)
  {
    UpdatedReplyNames(Classify(body).percent, phone);
  }

  /** The confirmation names the new percentage and the phone number. */
  lemma UpdatedReplyNames(percent: string, phone: string)
    ensures Includes(UpdatedReply(percent, phone), percent)
    ensures Includes(UpdatedReply(percent, phone), phone)
  {
    var reply := UpdatedReply(percent, phone);
    assert Includes(reply, percent) by {
      IncludesMiddle(UpdatedHead, percent, UpdatedMiddle + phone);
      assert UpdatedHead + percent + (UpdatedMiddle + phone) == reply;
    }
    assert Includes(reply, phone) by {
      IncludesMiddle(UpdatedHead + percent + UpdatedMiddle, phone, []);
      assert UpdatedHead + percent + UpdatedMiddle + phone + [] == reply;
    }
  }

  /** Help and the greeting never depend on the service and send nothing. */
  lemma FixedRepliesIgnoreService(body: string, phone: string, outcome: Upstream, other: Upstream)
    requires Classify(body) == Help || Classify(body) == Greeting
    ensures ProcessMessage(body, phone, outcome) == ProcessMessage(body, phone, other)
    ensures ProcessMessage(body, phone, outcome).request == None
    ensures ProcessMessage(body, phone, outcome).reply ==
      if Normalize(body) == "AYUDA" || Normalize(body) == "HELP" then HelpReply else GreetingReply
  {
  }

  /** A message from a chat id answers with the phone number it was sent
      from. */
  lemma ConfirmationNamesSender(phone: string, body: string)
    requires !Includes(phone, ChatId.Suffix)
    requires Classify(body).Discount? && !JsNumber.IsNaN(Classify(body).percent)
    ensures OnMessage(ChatId.ToChatId(phone), body, Answered(true, Customer("", "", "", ""))).reply
      == UpdatedReply(Classify(body).percent, phone)
  {
    ChatId.PhoneOfToChatId(phone);
  }
}
