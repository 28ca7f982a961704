/** `normalizePhoneNumber`: turn the text before the `@` into an E.164
    number with the phone-number library, or into "no number". The library
    itself (its numbering plans and its E.164 formatting) is not modelled:
    it is a parameter, seen only through the result of one parse. */
module Phone {
  import opened Wrappers
  import opened JsString

  /** What a successful parse hands back: the library's `number` field and
      the answer its `isValid()` gives. */
  datatype PhoneNumber = PhoneNumber(number: String, isValid: bool)

  /** One call `parsePhoneNumber(raw, region)`: it throws, or it returns a
      value that may be missing. */
  datatype ParseAttempt = Threw(message: String) | Returned(phone: Option<PhoneNumber>)

  /** The library's parser, from the raw text and the default region. */
  type PhoneParser = (String, String) -> ParseAttempt

  /** A parse the normalizer accepts: it returned a number that is valid. */
  predicate IsValidParse(a: ParseAttempt) {
    a.Returned? && a.phone.Some? && a.phone.value.isValid
  }

  /** Never throws: a thrown parse error, a missing result and an invalid
      number all give None; otherwise the library's `number`, unchanged. */
  function NormalizePhoneNumber(raw: String, region: String, parse: PhoneParser): (r: Option<String>)
    ensures r.Some? <==> IsValidParse(parse(raw, region))
    ensures r.Some? ==> parse(raw, region) == Returned(Some(PhoneNumber(r.value, true)))
  {
    match parse(raw, region)
    case Threw(_) => None
    case Returned(None) => None
    case Returned(Some(phone)) => if phone.isValid then Some(phone.number) else None
  }
}
