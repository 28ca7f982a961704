/** The parsed mail as the mail parser hands it over, and the two things
    the gateway reads from it: the first "To" recipient and the SMS body. */
module Mail {
  import opened Wrappers
  import opened JsString

  /** One address of a header; `address` may be missing (a group entry). */
  datatype Recipient = Recipient(address: Option<String>)

  /** The parser's address object, with its list of addresses in `value`. */
  datatype AddressObject = AddressObject(value: Option<seq<Recipient>>)

  /** The `to` field: one address object, or an array of them when the mail
      has several "To" headers (an array has no `value` field). */
  datatype ToField = Single(header: AddressObject) | Several(headers: seq<AddressObject>)

  /** The fields of the parsed mail the gateway reads. `html` is missing
      (or `false`) when the mail has no HTML part. */
  datatype ParsedMail = ParsedMail(to: Option<ToField>, text: Option<String>, html: Option<String>)

  /** `parsed.to && parsed.to.value && parsed.to.value[0]`. */
  function FirstRecipient(mail: ParsedMail): Option<Recipient> {
    match mail.to
    case None => None
    case Some(Several(_)) => None
    case Some(Single(header)) =>
      if header.value.Some? && |header.value.value| > 0 then Some(header.value.value[0]) else None
  }

  /** Only the first entry of the "To" list is ever used: whatever follows
      it, the recipient is that entry. */
  lemma OnlyFirstRecipientCounts(mail: ParsedMail, first: Recipient, rest: seq<Recipient>)
    requires mail.to == Some(Single(AddressObject(Some([first] + rest))))
    ensures FirstRecipient(mail) == Some(first)
  {
  }

  /** No recipient when the "To" field is missing, is an array of several
      headers, has no list, or has an empty list. */
  lemma NoRecipientCases(mail: ParsedMail)
    ensures FirstRecipient(mail).None? <==>
      (mail.to.None? || mail.to.value.Several? || mail.to.value.header.value.None? ||
       mail.to.value.header.value.value == [])
  {
  }

  /** `parsed.text || parsed.html || ''`: the text part if it is a non-empty
      string, else the HTML part if it is, else the empty string. The body is
      taken verbatim: never trimmed, markup never stripped. */
  function SelectBody(mail: ParsedMail): (body: String)
    ensures body == [] || mail.text == Some(body) || mail.html == Some(body)
    ensures Truthy(mail.text) ==> body == mail.text.value
    ensures !Truthy(mail.text) && Truthy(mail.html) ==> body == mail.html.value
    ensures body == [] <==> !Truthy(mail.text) && !Truthy(mail.html)
  {
    if Truthy(mail.text) then mail.text.value
    else if Truthy(mail.html) then mail.html.value
    else []
  }
}
