/** The `onData` handler: one mail submission in, one SMTP reply out.
    The handler is modelled as the sequence of things it does to the
    outside world: consult the phone-number library, call the SMS provider,
    answer the SMTP callback. Both foreign services are parameters. */
module Session {
  import opened Wrappers
  import opened JsString
  import opened Phone
  import opened Mail
  import opened Config

  // The reasons the handler gives the SMTP callback when it rejects.
  const NoRecipientFound: String := "No recipient found."
  const InvalidPhoneNumber: String := "Invalid phone number in recipient."
  const EmptySmsBody: String := "Empty SMS body."
  const SendFailedViaTwilio: String := "Failed to send SMS via Twilio."
  const FailedToParseEmail: String := "Failed to parse email."

  /** What the mail parser made of the data stream. */
  datatype MailParse = ParseError(message: String) | Parsed(mail: ParsedMail)

  /** The arguments of `client.messages.create`. */
  datatype SmsRequest = SmsRequest(body: String, from: String, to: String)

  /** The provider's answer: the created message's SID, or a thrown error. */
  datatype SendResult = Sent(sid: String) | SendFailed(message: String)

  /** The SMS provider, seen only through its answer to one request. */
  type Provider = SmsRequest -> SendResult

  /** One thing the handler does that the outside world sees. */
  datatype Event =
    | Lookup(raw: String, region: String)          // the phone-number library parses `raw`
    | Send(request: SmsRequest, result: SendResult) // the provider is asked to send
    | Reply(error: Option<String>)                  // `callback()` or `callback(new Error(reason))`

  type Trace = seq<Event>

  /** The separator between local part and domain. */
  const At: char := '@'

  /** The handler's whole run for one submission, gate after gate:
      recipient, phone number, body, provider. Every run ends with exactly
      one reply and has no reply before it; the provider is called at most
      once, and only right after the phone-number lookup. */
  function OnData(input: MailParse, settings: Settings, parse: PhoneParser, send: Provider): (trace: Trace)
    ensures 1 <= |trace| <= 3 && trace[|trace| - 1].Reply?
    ensures forall i :: 0 <= i < |trace| - 1 ==> !trace[i].Reply?
    ensures forall i :: 0 <= i < |trace| && trace[i].Send? ==> i == 1 && trace[0].Lookup?
    ensures |trace| >= 2 ==> trace[0].Lookup?
    ensures |trace| == 3 ==> trace[1].Send?
  {
    match input
    case ParseError(_) => [Reply(Some(FailedToParseEmail))]
    case Parsed(mail) =>
      match FirstRecipient(mail)
      case None => [Reply(Some(NoRecipientFound))]
      case Some(to) =>
        match to.address
        // `to.address.split` throws a TypeError, which the parser's `.catch` answers
        case None => [Reply(Some(FailedToParseEmail))]
        case Some(address) => FromPhoneSource(mail, Split(address, At)[0], settings, parse, send)
  }

  /** The rest of the run once the text before the `@` is known: normalize
      it, check the body, send. */
  function FromPhoneSource(mail: ParsedMail, userPart: String, settings: Settings,
                           parse: PhoneParser, send: Provider): (trace: Trace)
    ensures 2 <= |trace| <= 3 && trace[0] == Lookup(userPart, settings.region) && trace[|trace| - 1].Reply?
    ensures |trace| == 3 ==> trace[1].Send?
  {
    var phoneNumber := NormalizePhoneNumber(userPart, settings.region, parse);
    var lookup := Lookup(userPart, settings.region);
    if !Truthy(phoneNumber) then [lookup, Reply(Some(InvalidPhoneNumber))]
    else
      var smsBody := SelectBody(mail);
      if Trim(smsBody) == [] then [lookup, Reply(Some(EmptySmsBody))]
      else
        var request := SmsRequest(smsBody, settings.sender, phoneNumber.value);
        var result := send(request);
        [lookup, Send(request, result),
         Reply(if result.Sent? then None else Some(SendFailedViaTwilio))]
  }

  /** The one reply of a run: None accepts the mail, Some(reason) rejects it. */
  function Response(trace: Trace): Option<String>
    requires |trace| >= 1 && trace[|trace| - 1].Reply?
  {
    trace[|trace| - 1].error
  }

  /** Whether the run asked the provider to send anything. */
  predicate Dispatched(trace: Trace) {
    exists i :: 0 <= i < |trace| && trace[i].Send?
  }

  /** The recipient address the handler goes on to read: the mail parsed,
      it has a first "To" recipient, and that recipient has an address. */
  predicate HasAddress(input: MailParse, address: String) {
    input.Parsed? && FirstRecipient(input.mail) == Some(Recipient(Some(address)))
  }

  /** Without a usable recipient address nothing is attempted: no lookup,
      no send, just the one rejection. A mail that did not parse, and a
      first recipient without an address, are both "Failed to parse email.";
      no first recipient is "No recipient found.". */
  lemma RejectedBeforeLookup(input: MailParse, settings: Settings, parse: PhoneParser, send: Provider)
    requires forall address :: !HasAddress(input, address)
    ensures var trace := OnData(input, settings, parse, send);
      trace == [Reply(Response(trace))] &&
      (Response(trace) == Some(NoRecipientFound) <==> input.Parsed? && FirstRecipient(input.mail).None?) &&
      (Response(trace) == Some(FailedToParseEmail) <==> !(input.Parsed? && FirstRecipient(input.mail).None?))
  {
    if input.Parsed? {
      match FirstRecipient(input.mail)
      case None =>
      case Some(to) =>
        if to.address.Some? {
          assert HasAddress(input, to.address.value);
        }
    }
  }

  /** Once a recipient address is read, the library is asked about the text
      before its first `@` (all of it when there is no `@`), under the
      configured region, and the outcome is decided by the gates in the
      source's order: an unusable number rejects whatever the body, an
      all-whitespace body rejects next, and otherwise the provider gets the
      selected body verbatim, the configured sender and the normalized
      number, and its answer decides between accept and the Twilio failure. */
  lemma AddressedOutcome(input: MailParse, settings: Settings, parse: PhoneParser, send: Provider,
                         address: String, local: String)
    requires HasAddress(input, address)
    requires IsPrefixBeforeFirst(local, address, At)
    ensures var trace := OnData(input, settings, parse, send);
      var phone := NormalizePhoneNumber(local, settings.region, parse);
      var body := SelectBody(input.mail);
      trace[0] == Lookup(local, settings.region) &&
      (Response(trace) == Some(InvalidPhoneNumber) <==> !Truthy(phone)) &&
      (Response(trace) == Some(EmptySmsBody) <==> Truthy(phone) && Trim(body) == []) &&
      (Dispatched(trace) <==> Truthy(phone) && Trim(body) != []) &&
      (Dispatched(trace) ==>
        var request := SmsRequest(body, settings.sender, phone.value);
        trace[1] == Send(request, send(request)) &&
        (Response(trace) == None <==> send(request).Sent?) &&
        (Response(trace) == Some(SendFailedViaTwilio) <==> send(request).SendFailed?))
  {
    SplitHeadIsPrefixBeforeFirst(address, At, local);
    var trace := OnData(input, settings, parse, send);
    assert trace == FromPhoneSource(input.mail, local, settings, parse, send);
    var phone := NormalizePhoneNumber(local, settings.region, parse);
    var body := SelectBody(input.mail);
    var lookup := Lookup(local, settings.region);
    // the rejection reasons are told apart by their lengths
    assert |InvalidPhoneNumber| == 34 && |EmptySmsBody| == 15 && |SendFailedViaTwilio| == 30;
    if !Truthy(phone) {
      assert trace == [lookup, Reply(Some(InvalidPhoneNumber))];
    } else if Trim(body) == [] {
      assert trace == [lookup, Reply(Some(EmptySmsBody))];
    } else {
      var request := SmsRequest(body, settings.sender, phone.value);
      var reply := Reply(if send(request).Sent? then None else Some(SendFailedViaTwilio));
      assert trace == [lookup, Send(request, send(request)), reply];
      assert trace[1].Send?;
    }
  }

  /** The mail is accepted exactly when the provider was asked to send and
      answered with a message SID; every other run rejects. */
  lemma AcceptedIffSent(input: MailParse, settings: Settings, parse: PhoneParser, send: Provider)
    ensures var trace := OnData(input, settings, parse, send);
      Response(trace) == None <==> |trace| == 3 && trace[1].Send? && trace[1].result.Sent?
  {
  }

  /** The phone gate comes before the body gate: an unusable number is
      reported even when the body is empty too, and nothing is sent. */
  lemma PhoneGateWinsOverEmptyBody(input: MailParse, settings: Settings, parse: PhoneParser, send: Provider,
                                   address: String, local: String)
    requires HasAddress(input, address)
    requires IsPrefixBeforeFirst(local, address, At)
    requires NormalizePhoneNumber(local, settings.region, parse).None?
    requires SelectBody(input.mail) == []
    ensures var trace := OnData(input, settings, parse, send);
      trace == [Lookup(local, settings.region), Reply(Some(InvalidPhoneNumber))]
  {
    AddressedOutcome(input, settings, parse, send, address, local);
  }

  /** Only the text before the first `@` of the first recipient matters:
      the domain, any later `@`, and any further recipients can be dropped
      without changing what the handler does. */
  lemma {:induction false} EverythingAfterFirstAtIgnored(
      mail: ParsedMail, settings: Settings, parse: PhoneParser, send: Provider, local: String, rest: String)
    requires At !in local
    requires FirstRecipient(mail) == Some(Recipient(Some(local + [At] + rest)))
    ensures var bare := mail.(to := Some(Single(AddressObject(Some([Recipient(Some(local))])))));
      OnData(Parsed(mail), settings, parse, send) == OnData(Parsed(bare), settings, parse, send)
  {
    var bare := mail.(to := Some(Single(AddressObject(Some([Recipient(Some(local))])))));
    assert (local + [At] + rest)[|local|] == At;
    assert local <= local + [At] + rest;
    SplitHeadIsPrefixBeforeFirst(local + [At] + rest, At, local);
    SplitHeadIsPrefixBeforeFirst(local, At, local);
  }

  // ---------------------------------------------------------------------
  // Concrete runs of the handler
  // ---------------------------------------------------------------------

  /** A mail to 15551234567@gateway.local saying "Hello" in its text
      part, with a library that reads that number as +15551234567 in
      region US, is sent to that number with body "Hello" and accepted. */
  lemma ScenarioPlainTextDelivered(mail: ParsedMail, settings: Settings, parse: PhoneParser, send: Provider,
                                   address: String, sid: String)
    requires address == "15551234567@gateway.local"
    requires FirstRecipient(mail) == Some(Recipient(Some(address)))
    requires mail.text == Some("Hello")
    requires settings.region == "US"
    requires parse("15551234567", "US") == Returned(Some(PhoneNumber("+15551234567", true)))
    requires send(SmsRequest("Hello", settings.sender, "+15551234567")) == Sent(sid)
    ensures OnData(Parsed(mail), settings, parse, send) ==
      [Lookup("15551234567", "US"),
       Send(SmsRequest("Hello", settings.sender, "+15551234567"), Sent(sid)),
       Reply(None)]
  {
    var local: String := "15551234567";
    assert address[|local|] == At;
    assert IsPrefixBeforeFirst(local, address, At);
    var phone := NormalizePhoneNumber(local, settings.region, parse);
    assert phone == Some("+15551234567");
    assert SelectBody(mail) == "Hello";
    assert !IsWhitespace(SelectBody(mail)[0]);
    TrimEmptyIffAllWhitespace(SelectBody(mail));
    AddressedOutcome(Parsed(mail), settings, parse, send, address, local);
    var trace := OnData(Parsed(mail), settings, parse, send);
    assert Dispatched(trace);
    assert |trace| == 3 && trace[1] == Send(SmsRequest("Hello", settings.sender, "+15551234567"), Sent(sid));
  }

  /** A mail to not-a-number@gateway.local, whatever its body, with a
      library that rejects that text, is refused as an invalid phone number;
      nothing is sent. */
  lemma ScenarioNotANumberRejected(mail: ParsedMail, settings: Settings, parse: PhoneParser, send: Provider,
                                   address: String)
    requires address == "not-a-number@gateway.local"
    requires FirstRecipient(mail) == Some(Recipient(Some(address)))
    requires !IsValidParse(parse("not-a-number", settings.region))
    ensures var trace := OnData(Parsed(mail), settings, parse, send);
      trace == [Lookup("not-a-number", settings.region), Reply(Some(InvalidPhoneNumber))]
  {
    var local: String := "not-a-number";
    assert address[|local|] == At;
    assert IsPrefixBeforeFirst(local, address, At);
    AddressedOutcome(Parsed(mail), settings, parse, send, address, local);
  }

  /** A mail with no text part and a non-empty HTML part is sent with the
      HTML, markup and all. */
  lemma ScenarioHtmlSentVerbatim(mail: ParsedMail, settings: Settings, parse: PhoneParser, send: Provider,
                                 address: String, local: String, html: String)
    requires HasAddress(Parsed(mail), address)
    requires IsPrefixBeforeFirst(local, address, At)
    requires IsValidParse(parse(local, settings.region))
    requires parse(local, settings.region).phone.value.number != []
    requires !Truthy(mail.text) && mail.html == Some(html) && Trim(html) != []
    ensures var trace := OnData(Parsed(mail), settings, parse, send);
      |trace| == 3 && trace[1].Send? &&
      trace[1].request == SmsRequest(html, settings.sender, parse(local, settings.region).phone.value.number)
  {
    AddressedOutcome(Parsed(mail), settings, parse, send, address, local);
  }
}
