/**
 * Product authentication (ProductAuthModal.tsx): a serial number of the form
 * PROD-<product id>-<five letters or digits>, letters in either case, is
 * checked against the catalog.
 */
module ProductAuth {
  import opened Wrappers
  import opened Types
  import opened Text
  import Catalog

  const EmptySerial: string := "Please enter a serial number."
  const NotAssociated: string := "This serial number is not associated with any of our products."
  const BadFormat: string := "Invalid serial number format. Please try again."
  const AuthenticMessage: string := "This product is authentic!"

  predicate AllAlnum(s: string)
  {
    forall i :: 0 <= i < |s| ==> IsAsciiAlnum(s[i])
  }

  /**
   * The pattern `^PROD-(\d+)-([A-Z0-9]{5})$` with the case-insensitive flag,
   * read off the string's layout: five prefix characters, a digit run of at
   * least one, a hyphen, and five letters or digits at the end.
   */
  predicate WellFormed(s: string)
  {
    |s| >= 12 && Lower(s[..5]) == "prod-" && AllDigits(s[5..|s| - 6])
    && s[|s| - 6] == '-' && AllAlnum(s[|s| - 5..])
  }

  /** The product id a serial names: the digit group read in base ten, when the whole serial has the format. */
  function SerialProductId(s: string): (id: Option<nat>)
    ensures id.Some? <==> WellFormed(s)
  {
    if WellFormed(s) then Some(DigitsValue(s[5..|s| - 6])) else None
  }

  /** Every way of writing prefix, digits, hyphen and code is recognised, and names the id its digits spell. */
  lemma SerialOfParts(prefix: string, digits: string, code: string)
    requires Lower(prefix) == "prod-"
    requires |digits| > 0 && AllDigits(digits)
    requires |code| == 5 && AllAlnum(code)
    ensures SerialProductId(prefix + digits + "-" + code) == Some(DigitsValue(digits))
  {
    var s := prefix + digits + "-" + code;
    assert s[..5] == prefix;
    assert s[5..|s| - 6] == digits;
    assert s[|s| - 5..] == code;
  }

  /** A well-formed serial splits into prefix, digits, hyphen and code in exactly that way. */
  lemma WellFormedSplits(s: string)
    requires WellFormed(s)
    ensures s == s[..5] + s[5..|s| - 6] + "-" + s[|s| - 5..]
    ensures |s[5..|s| - 6]| > 0
  {
  }

  /** The serial printed for a product id and a five-character code. */
  function FormatSerial(id: nat, code: string): (s: string)
    requires |code| == 5 && AllAlnum(code)
    ensures WellFormed(s)
  {
    var s := "PROD-" + DecimalString(id) + "-" + code;
    SerialOfParts("PROD-", DecimalString(id), code);
    s
  }

  /** Reading a printed serial gives back its product id. */
  lemma SerialRoundTrip(id: nat, code: string)
    requires |code| == 5 && AllAlnum(code)
    ensures SerialProductId(FormatSerial(id, code)) == Some(id)
  {
    SerialOfParts("PROD-", DecimalString(id), code);
    DigitsValueOfDecimalString(id);
  }

  /** Zeros in front of the id do not change which product a serial names. */
  lemma PaddedSerialSameProduct(digits: string, code: string)
    requires |digits| > 0 && AllDigits(digits)
    requires |code| == 5 && AllAlnum(code)
    ensures SerialProductId("PROD-0" + digits + "-" + code) == SerialProductId("PROD-" + digits + "-" + code)
  {
    assert AllDigits("0" + digits);
    assert "PROD-0" + digits + "-" + code == "PROD-" + ("0" + digits) + "-" + code;
    SerialOfParts("PROD-", "0" + digits, code);
    SerialOfParts("PROD-", digits, code);
    LeadingZeroIgnored(digits);
  }

  lemma LowerSlice(s: string, a: int, b: int)
    requires 0 <= a <= b <= |s|
    ensures Lower(s)[a..b] == Lower(s[a..b])
  {
  }

  /** Typing the serial in lower case makes no difference. */
  lemma LowerCaseSerialSameProduct(s: string)
    ensures SerialProductId(Lower(s)) == SerialProductId(s)
  {
    var t := Lower(s);
    if |s| >= 12 {
      LowerSlice(s, 0, 5);
      LowerIdempotent(s[..5]);
      LowerSlice(s, 5, |s| - 6);
      LowerSlice(s, |s| - 5, |s|);
      var g := s[5..|s| - 6];
      if AllDigits(g) {
        assert Lower(g) == g;
      }
      if AllDigits(t[5..|t| - 6]) {
        assert forall i :: 0 <= i < |g| ==> t[5..|t| - 6][i] == LowerChar(g[i]);
      }
      var code := s[|s| - 5..];
      assert AllAlnum(Lower(code)) <==> AllAlnum(code);
    }
  }

  /** What a check shows: the product, or an error message. */
  datatype AuthResult = Authentic(product: Product) | Refused(message: string)

  /** `handleCheckSerial`: empty input, bad format, unknown id, or the product. */
  function Check(products: seq<Product>, serial: string): (r: AuthResult)
    ensures serial == "" ==> r == Refused(EmptySerial)
    ensures serial != "" && !WellFormed(serial) ==> r == Refused(BadFormat)
    ensures WellFormed(serial) ==>
      (r.Authentic? <==> exists p :: p in products && Some(p.id) == SerialProductId(serial))
    ensures WellFormed(serial) && r.Refused? ==> r.message == NotAssociated
    ensures r.Authentic? ==> r.product in products && Some(r.product.id) == SerialProductId(serial)
    ensures r.Authentic? ==> exists k :: Catalog.FirstWithId(products, k, r.product.id) && products[k] == r.product
    ensures WellFormed(serial) ==> (r.Authentic? <==> Catalog.FindProduct(products, SerialProductId(serial).value).Some?)
    ensures r.Authentic? ==> Some(r.product) == Catalog.FindProduct(products, SerialProductId(serial).value)
  {
    if serial == "" then Refused(EmptySerial)
    else match SerialProductId(serial)
      case None => Refused(BadFormat)
      case Some(id) =>
        match Catalog.FindProduct(products, id)
        case Some(p) => Authentic(p)
        case None => Refused(NotAssociated)
  }

  /** A printed serial of a catalog product checks as authentic. */
  lemma PrintedSerialIsAuthentic(products: seq<Product>, p: Product, code: string)
    requires p in products && p.id >= 0
    requires |code| == 5 && AllAlnum(code)
    ensures Check(products, FormatSerial(p.id, code)).Authentic?
  {
    SerialRoundTrip(p.id, code);
  }

  /** The modal: the serial typed so far and the last check's result, if any. */
  datatype AuthModal = AuthModal(serial: string, result: Option<AuthResult>)

  const Closed: AuthModal := AuthModal("", None)

  function TypeSerial(m: AuthModal, serial: string): (n: AuthModal)
    ensures n.serial == serial && n.result == m.result
  {
    m.(serial := serial)
  }

  /** Submitting the form replaces any earlier result with this check's. */
  function CheckSerial(m: AuthModal, products: seq<Product>): (n: AuthModal)
    ensures n.serial == m.serial
    ensures n.result == Some(Check(products, m.serial))
  {
    AuthModal(m.serial, Some(Check(products, m.serial)))
  }

  /** `handleClose`: the serial and the result are cleared. */
  function Close(m: AuthModal): (n: AuthModal)
    ensures n.serial == "" && n.result.None?
  {
    Closed
  }

  /** "Report an Issue with this Serial": shown only under an error result, and it passes on the typed serial. */
  function ReportIssue(m: AuthModal): (serial: Option<string>)
    ensures serial.Some? <==> m.result.Some? && m.result.value.Refused?
    ensures serial.Some? ==> serial.value == m.serial
  {
    if m.result.Some? && m.result.value.Refused? then Some(m.serial) else None
  }

  /** After a check, reporting is offered exactly when the serial was not authenticated. */
  lemma ReportOfferedIffNotAuthentic(m: AuthModal, products: seq<Product>)
    ensures ReportIssue(CheckSerial(m, products)).Some? <==> !Check(products, m.serial).Authentic?
  {
  }
}
