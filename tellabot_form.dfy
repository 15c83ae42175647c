/**
 * The pure helpers of the Tellabot number tool's client component: the
 * `mm:ss` countdown formatter, the text shown for a received SMS, and the
 * checks a "get number" form passes before any relay call is made.
 */
module TellabotForm {
  import opened Text
  import opened Wrappers

  /** `padStart(2, "0")`. */
  function PadTwo(s: string): (r: string)
  {
    if |s| == 0 then "00" else if |s| == 1 then "0" + s else s
  }

  /** `formatSeconds`: the countdown as `MM:SS`, or `00:00` once nothing is left. */
  function FormatSeconds(seconds: int): (r: string)
  {
    if seconds <= 0 then "00:00"
    else PadTwo(Decimal(seconds / 60)) + ":" + PadTwo(Decimal(seconds % 60))
  }

  lemma PadTwoValue(s: string)
    requires |s| >= 1 && AllDigits(s)
    ensures |PadTwo(s)| == if |s| == 1 then 2 else |s|
    ensures AllDigits(PadTwo(s)) && DigitsValue(PadTwo(s)) == DigitsValue(s)
  {
    if |s| == 1 { LeadingZeroValue(s); }
  }

  /**
   * A positive countdown is shown as minutes, a colon and two digits of
   * seconds: reading the digits back gives the countdown, the seconds part is
   * below 60, and the minutes part has exactly two digits below 100 minutes.
   */
  lemma FormatSecondsClock(seconds: int)
    requires seconds > 0
    ensures var r := FormatSeconds(seconds);
      |r| >= 5 && r[|r| - 3] == ':'
      && AllDigits(r[..|r| - 3]) && AllDigits(r[|r| - 2..])
      && DigitsValue(r[|r| - 2..]) < 60
      && 60 * DigitsValue(r[..|r| - 3]) + DigitsValue(r[|r| - 2..]) == seconds
      && (seconds < 6000 <==> |r| == 5)
  {
    var m, s := Decimal(seconds / 60), Decimal(seconds % 60);
    PadTwoValue(m);
    PadTwoValue(s);
    DecimalRoundTrip(seconds / 60);
    DecimalRoundTrip(seconds % 60);
    ClockJoin(PadTwo(m), PadTwo(s));
  }

  /** Minutes and two seconds digits joined by a colon split back into both parts. */
  lemma ClockJoin(a: string, b: string)
    requires |b| == 2
    ensures var r := a + ":" + b;
      |r| == |a| + 3 && r[|r| - 3] == ':' && r[..|r| - 3] == a && r[|r| - 2..] == b
  {
    var r := a + ":" + b;
    assert r[..|r| - 3] == a;
    assert r[|r| - 2..] == b;
  }

  /** `00:00` is shown exactly when the countdown is not positive. */
  lemma FormatSecondsZero(seconds: int)
    ensures FormatSeconds(seconds) == "00:00" <==> seconds <= 0
  {
    if seconds > 0 {
      FormatSecondsClock(seconds);
    }
  }

  /** The SMS text stored on a record once a message has arrived. */
  function SmsText(reply: string, pin: string): (text: string)
  {
    if pin != "" && reply != "" && Contains(reply, pin) then reply + " (PIN: " + pin + ")"
    else if reply != "" then reply
    else if pin != "" then pin
    else "SMS received."
  }

  /**
   * The text is never empty; a non-empty reply is always shown in full at the
   * front; an empty reply and pin give the generic marker; and a non-empty
   * pin is visible exactly when the reply is empty or already contains it
   * (a pin absent from a non-empty reply is dropped).
   */
  lemma SmsTextShown(reply: string, pin: string)
    ensures SmsText(reply, pin) != ""
    ensures reply != "" ==> StartsWith(SmsText(reply, pin), reply)
    ensures reply == "" && pin == "" ==> SmsText(reply, pin) == "SMS received."
    ensures reply == "" && pin != "" ==> SmsText(reply, pin) == pin
    ensures pin != "" ==> (Contains(SmsText(reply, pin), pin) <==> reply == "" || Contains(reply, pin))
  {
    var text := SmsText(reply, pin);
    if pin != "" {
      if reply == "" {
        ContainsAt(text, pin, 0);
      } else if Contains(reply, pin) {
        var i :| 0 <= i <= |reply| - |pin| && OccursAt(reply, pin, i);
        assert text[i..i + |pin|] == reply[i..i + |pin|];
        ContainsAt(text, pin, i);
      }
    }
  }

  /** The worked example: a reply that repeats its pin gets the pin appended. */
  lemma SmsTextExample()
    ensures SmsText("Your code is 4821", "4821") == "Your code is 4821 (PIN: 4821)"
  {
    ContainsAt("Your code is 4821", "4821", 13);
  }

  /** The location filter the form offers. */
  datatype LocationMode = AnyLocation | ByState | ByAreaCode | ByMdn

  /** The state of the "get number" form when it is submitted. */
  datatype RequestForm = RequestForm(
    loggedIn: bool,
    username: string,
    apiKey: string,
    serviceName: string,
    locationMode: LocationMode,
    stateCode: string,
    areaCode: string,
    mdn: string)

  /**
   * The area-code and MDN inputs keep only digits, and at most three and
   * eleven of them, so the form never holds anything else.
   */
  predicate Sanitized(f: RequestForm) {
    AllDigits(f.areaCode) && |f.areaCode| <= 3 && AllDigits(f.mdn) && |f.mdn| <= 11
  }

  /** The relay parameters of a request, in insertion order. */
  type Params = seq<(string, string)>

  const AreaCodeLengthMessage := "Area code must be exactly 3 digits (201\U{2013}999)."

  /**
   * The guards of `handleGetNumber`, in order, and the parameters it sends
   * when they pass; an `Err` carries the error shown instead of calling the
   * relay.
   */
  function CheckRequestForm(f: RequestForm): (r: Result<Params, string>)
    requires Sanitized(f)
  {
    if !f.loggedIn || f.username == "" || f.apiKey == "" then
      Err("Please login with your Tellabot credentials first.")
    else if f.serviceName == "" then Err("Please select a service.")
    else if f.locationMode == ByState && f.stateCode == "" then Err("Please select a state.")
    else if f.locationMode == ByAreaCode && |f.areaCode| != 3 then Err(AreaCodeLengthMessage)
    else if f.locationMode == ByAreaCode && !(201 <= DigitsValue(f.areaCode) <= 999) then
      Err("Area code must be between 201 and 999.")
    else if f.locationMode == ByMdn && !(|f.mdn| == 11 && AllDigits(f.mdn)) then
      Err("MDN must be exactly 11 digits.")
    else
      var base := [("cmd", "request"), ("user", f.username), ("api_key", f.apiKey), ("service", f.serviceName)];
      Ok(base + FilterParam(f))
  }

  /** The one optional location parameter. */
  function FilterParam(f: RequestForm): Params {
    if f.locationMode == ByState && f.stateCode != "" then [("state", f.stateCode)]
    else if f.locationMode == ByAreaCode && f.areaCode != "" then [("areacode", f.areaCode)]
    else if f.locationMode == ByMdn && f.mdn != "" then [("mdn", f.mdn)]
    else []
  }

  /**
   * A request passes exactly when the user is logged in with credentials, a
   * service is chosen, and the chosen filter is well formed: a non-empty
   * state, an area code of exactly three digits between 201 and 999, or an
   * MDN of exactly eleven digits. The parameters then hold the command, the
   * credentials and the service, followed by at most one filter, the one the
   * form selects.
   */
  lemma CheckRequestFormSpec(f: RequestForm)
    requires Sanitized(f)
    ensures CheckRequestForm(f).Ok? <==>
      f.loggedIn && f.username != "" && f.apiKey != "" && f.serviceName != ""
      && (f.locationMode == ByState ==> f.stateCode != "")
      && (f.locationMode == ByAreaCode ==> |f.areaCode| == 3 && 201 <= DigitsValue(f.areaCode) <= 999)
      && (f.locationMode == ByMdn ==> |f.mdn| == 11)
    ensures CheckRequestForm(f).Ok? ==>
      var p := CheckRequestForm(f).value;
      (|p| == 4 || |p| == 5)
      && p[..4] == [("cmd", "request"), ("user", f.username), ("api_key", f.apiKey), ("service", f.serviceName)]
      && (|p| == 5 <==> f.locationMode != AnyLocation)
      && (f.locationMode == ByState ==> p[4] == ("state", f.stateCode))
      && (f.locationMode == ByAreaCode ==> p[4] == ("areacode", f.areaCode))
      && (f.locationMode == ByMdn ==> p[4] == ("mdn", f.mdn))
  {
  }

  /** `canSubmitRequest`: whether the "get number" button is enabled. */
  predicate CanSubmitRequest(f: RequestForm) {
    f.loggedIn && f.serviceName != ""
    && (f.locationMode == ByState ==> f.stateCode != "")
    && (f.locationMode == ByAreaCode ==> |f.areaCode| == 3)
    && (f.locationMode == ByMdn ==> |f.mdn| == 11)
  }

  /**
   * Every form the handler accepts has its button enabled; the only enabled
   * forms it still rejects lack a credential or carry an area code outside
   * 201..999.
   */
  lemma CanSubmitAgreesWithCheck(f: RequestForm)
    requires Sanitized(f)
    ensures CheckRequestForm(f).Ok? ==> CanSubmitRequest(f)
    ensures CanSubmitRequest(f) && CheckRequestForm(f).Err? ==>
      f.username == "" || f.apiKey == ""
      || (f.locationMode == ByAreaCode && !(201 <= DigitsValue(f.areaCode) <= 999))
  {
    CheckRequestFormSpec(f);
  }
}
