/** The pure helpers of the application's utility module: duration and text
    formatting, password and amount checks, and the status predicates that the
    pages use to decide which actions are offered. */
module Utils {
  import opened Wrappers
  import opened Text
  import Constants

  // ---------- Duration formatting ----------

  /** JavaScript's `%`: the remainder takes the sign of the dividend. */
  function JsRem(a: int, b: int): (r: int)
    requires b > 0
    ensures a >= 0 ==> r == a % b
    ensures a == (if a >= 0 then a / b else -((-a) / b)) * b + r
    ensures -b < r < b
  {
    if a >= 0 then a % b else -((-a) % b)
  }

  /** `formatMinutes`: `0m` for zero, otherwise hours (`Math.floor`, which Dafny's
      `/` computes for a positive divisor) and the JavaScript remainder, leaving out
      a zero part. */
  function FormatMinutes(minutes: int): (r: string)
    ensures minutes == 0 ==> r == "0m"
    ensures minutes != 0 && minutes / 60 == 0 ==> r == IntToString(JsRem(minutes, 60)) + "m"
    ensures minutes != 0 && minutes / 60 != 0 && JsRem(minutes, 60) == 0 ==> r == IntToString(minutes / 60) + "h"
    ensures minutes != 0 && minutes / 60 != 0 && JsRem(minutes, 60) != 0 ==>
      r == IntToString(minutes / 60) + "h " + IntToString(JsRem(minutes, 60)) + "m"
  {
    if minutes == 0 then "0m"
    else
      var hours := minutes / 60;
      var mins := JsRem(minutes, 60);
      if hours == 0 then IntToString(mins) + "m"
      else if mins == 0 then IntToString(hours) + "h"
      else IntToString(hours) + "h " + IntToString(mins) + "m"
  }

  /** Reads `<digits>m`, `<digits>h` or `<digits>h <digits>m` back as a number of
      minutes: the inverse of `FormatMinutes` on non-negative durations. */
  function ParseDuration(s: string): Option<nat> {
    match IndexOfChar(s, 'h')
    case None => MinutesPart(s)
    case Some(i) => HoursPart(s[..i], s[i + 1..])
  }

  /** Reads the hours before `h` and what follows it: nothing or ` <digits>m`. */
  function HoursPart(hs: string, rest: string): Option<nat> {
    if hs == [] || !AllDigits(hs) then None
    else if rest == [] then Some(DigitsValue(hs) * 60)
    else if rest[0] != ' ' then None
    else match MinutesPart(rest[1..])
      case None => None
      case Some(m) => Some(DigitsValue(hs) * 60 + m)
  }

  /** Reads `<digits>m`. */
  function MinutesPart(s: string): Option<nat> {
    if |s| >= 2 && s[|s| - 1] == 'm' && AllDigits(s[..|s| - 1]) then Some(DigitsValue(s[..|s| - 1]))
    else None
  }

  lemma MinutesPartOf(n: nat)
    ensures MinutesPart(NatToString(n) + "m") == Some(n)
  {
    var s := NatToString(n) + "m";
    assert s[..|s| - 1] == NatToString(n);
    NatToStringRoundTrip(n);
  }

  lemma NoHourMarkInDigits(d: string)
    requires AllDigits(d)
    ensures 'h' !in d
  {
    forall i | 0 <= i < |d| ensures d[i] != 'h' { assert IsDigit(d[i]); }
  }

  lemma ParseMinutesOnly(mins: nat)
    ensures ParseDuration(NatToString(mins) + "m") == Some(mins)
  {
    var d := NatToString(mins);
    NoHourMarkInDigits(d);
    assert 'h' !in d + "m";
    MinutesPartOf(mins);
  }

  lemma ParseAfterHourMark(hd: string, rest: string)
    requires AllDigits(hd)
    ensures ParseDuration(hd + ['h'] + rest) == HoursPart(hd, rest)
  {
    var s := hd + ['h'] + rest;
    NoHourMarkInDigits(hd);
    IndexOfCharAfter(hd, 'h', rest);
    assert s[..|hd|] == hd;
    assert s[|hd| + 1..] == rest;
  }

  lemma HoursPartWithMinutes(hd: string, md: string)
    requires AllDigits(hd) && hd != [] && MinutesPart(md).Some?
    ensures HoursPart(hd, [' '] + md) == Some(DigitsValue(hd) * 60 + MinutesPart(md).value)
  {
    assert ([' '] + md)[1..] == md;
  }

  lemma ParseHoursOnly(hours: nat)
    ensures ParseDuration(NatToString(hours) + "h") == Some(hours * 60)
  {
    var hd := NatToString(hours);
    assert hd + "h" == hd + ['h'] + [];
    ParseAfterHourMark(hd, []);
    NatToStringRoundTrip(hours);
  }

  lemma ParseHoursAndMinutes(hours: nat, mins: nat)
    ensures ParseDuration(NatToString(hours) + "h " + NatToString(mins) + "m") == Some(hours * 60 + mins)
  {
    var hd := NatToString(hours);
    var md := NatToString(mins) + "m";
    var rest := [' '] + md;
    assert NatToString(hours) + "h " + NatToString(mins) + "m" == hd + ['h'] + rest;
    ParseHourMarkAndMinutes(hours, mins, hd, md, rest);
  }

  lemma ParseHourMarkAndMinutes(hours: nat, mins: nat, hd: string, md: string, rest: string)
    requires hd == NatToString(hours) && md == NatToString(mins) + "m" && rest == [' '] + md
    ensures ParseDuration(hd + ['h'] + rest) == Some(hours * 60 + mins)
  {
    ParseAfterHourMark(hd, rest);
    MinutesPartOf(mins);
    HoursPartWithMinutes(hd, md);
    NatToStringRoundTrip(hours);
  }

  /** Formatting a non-negative number of minutes loses nothing: the text reads
      back as the same number. */
  lemma {:induction false} FormatMinutesRoundTrip(minutes: nat)
    ensures ParseDuration(FormatMinutes(minutes)) == Some(minutes)
  {
    if minutes == 0 {
      ParseMinutesOnly(0);
    } else if minutes / 60 == 0 {
      RoundTripMinutesOnly(minutes);
    } else if minutes % 60 == 0 {
      RoundTripHoursOnly(minutes);
    } else {
      RoundTripHoursAndMinutes(minutes);
    }
  }

  lemma RoundTripMinutesOnly(minutes: nat)
    requires 0 < minutes < 60
    ensures ParseDuration(FormatMinutes(minutes)) == Some(minutes)
  {
    assert FormatMinutes(minutes) == NatToString(minutes) + "m";
    ParseMinutesOnly(minutes);
  }

  lemma RoundTripHoursOnly(minutes: nat)
    requires minutes >= 60 && minutes % 60 == 0
    ensures ParseDuration(FormatMinutes(minutes)) == Some(minutes)
  {
    var hours := minutes / 60;
    assert FormatMinutes(minutes) == NatToString(hours) + "h";
    ParseHoursOnly(hours);
  }

  lemma RoundTripHoursAndMinutes(minutes: nat)
    requires minutes >= 60 && minutes % 60 != 0
    ensures ParseDuration(FormatMinutes(minutes)) == Some(minutes)
  {
    var hours, mins := minutes / 60, minutes % 60;
    assert FormatMinutes(minutes) == NatToString(hours) + "h " + NatToString(mins) + "m";
    ParseHoursAndMinutes(hours, mins);
  }

  // ---------- Text helpers ----------

  /** `truncate(text, maxLength)`: the text itself when it is empty or short enough,
      otherwise its first `maxLength` characters (none for a negative bound, as
      `substring` clamps) followed by `...`. */
  function Truncate(text: string, maxLength: int): (r: string)
    ensures text == [] || |text| <= maxLength ==> r == text
    ensures !(text == [] || |text| <= maxLength) ==>
      |r| == (if maxLength < 0 then 0 else maxLength) + 3 && r[|r| - 3..] == "..." &&
      r[..|r| - 3] == text[..|r| - 3]
  {
    if text == [] || |text| <= maxLength then text
    else text[..if maxLength < 0 then 0 else maxLength] + "..."
  }

  /** Truncating twice to the same length is truncating once. */
  lemma TruncateIdempotent(text: string, maxLength: int)
    ensures Truncate(Truncate(text, maxLength), maxLength) == Truncate(text, maxLength)
  {
    var r := Truncate(text, maxLength);
    if !(text == [] || |text| <= maxLength) {
      var k := if maxLength < 0 then 0 else maxLength;
      assert r[..k] == text[..k];
    }
  }

  /** `capitalize`: the first character upper-cased, the rest kept. */
  function Capitalize(s: string): (r: string)
    ensures |r| == |s|
    ensures s != [] ==> r[0] == UpperChar(s[0]) && r[1..] == s[1..]
  {
    if s == [] then "" else [UpperChar(s[0])] + s[1..]
  }

  /** Capitalizing twice is capitalizing once. */
  lemma CapitalizeIdempotent(s: string)
    ensures Capitalize(Capitalize(s)) == Capitalize(s)
  {
    if s != [] {
      assert UpperChar(UpperChar(s[0])) == UpperChar(s[0]);
    }
  }

  /** `pluralize(count, singular, plural)`; an absent or empty `plural` falls back to
      `singular + "s"`, as JavaScript's `||` does. */
  function Pluralize(count: int, singular: string, plural: Option<string>): (r: string)
    ensures count == 1 ==> r == singular
    ensures count != 1 && plural.Some? && plural.value != "" ==> r == plural.value
    ensures count != 1 && (plural.None? || plural.value == "") ==> r == singular + "s"
    ensures plural.None? ==> (r == singular <==> count == 1)
  {
    var pluralForm := if plural.Some? && plural.value != "" then plural.value else singular + "s";
    if count == 1 then singular else pluralForm
  }

  // ---------- Validation ----------

  datatype PasswordCheck = PasswordCheck(valid: bool, message: string)

  const PasswordTooShort := "Password must be at least 8 characters"
  const PasswordNeedsLower := "Password must contain lowercase letters"
  const PasswordNeedsDigit := "Password must contain numbers"

  /** The regular expression `/[a-z]/` matches somewhere in `s`. */
  predicate HasLower(s: string) { exists i :: 0 <= i < |s| && IsLower(s[i]) }

  /** The regular expression `/[0-9]/` matches somewhere in `s`. */
  predicate HasDigit(s: string) { exists i :: 0 <= i < |s| && IsDigit(s[i]) }

  /** `validatePassword`: the three rules checked in order, the first broken one
      naming the message; valid, with an empty message, only when all hold. */
  function ValidatePassword(password: string): (r: PasswordCheck)
    ensures r.valid <==> |password| >= 8 && HasLower(password) && HasDigit(password)
    ensures r.valid <==> r.message == ""
    ensures |password| < 8 ==> r.message == PasswordTooShort
    ensures |password| >= 8 && !HasLower(password) ==> r.message == PasswordNeedsLower
    ensures |password| >= 8 && HasLower(password) && !HasDigit(password) ==> r.message == PasswordNeedsDigit
  {
    if password == [] || |password| < 8 then PasswordCheck(false, PasswordTooShort)
    else if !HasLower(password) then PasswordCheck(false, PasswordNeedsLower)
    else if !HasDigit(password) then PasswordCheck(false, PasswordNeedsDigit)
    else PasswordCheck(true, "")
  }

  /** `isValidAmount`: inside the closed range. */
  function IsValidAmount(amount: int, min: int, max: int): (r: bool)
    ensures r <==> min <= amount <= max
  {
    amount >= min && amount <= max
  }

  // ---------- Status predicates (they compare the status strings) ----------

  /** Each status predicate accepts exactly the string that parses as the status it names. */
  function CanTaskReceiveProposals(status: string): (r: bool)
    ensures r <==> Constants.ParseTaskStatus(status) == Some(Constants.TaskStatus.Open)
  {
    status == "open"
  }

  function CanEditProposal(status: string): (r: bool)
    ensures r <==> Constants.ParseProposalStatus(status) == Some(Constants.ProposalStatus.Pending)
  {
    status == "pending"
  }

  function CanEscrowPayment(paymentPhase: string, contractStatus: string): (r: bool)
    ensures r <==> Constants.ParsePaymentPhase(paymentPhase) == Some(Constants.PaymentPhase.Unfunded) &&
                   Constants.ParseContractStatus(contractStatus) == Some(Constants.ContractStatus.Draft)
  {
    paymentPhase == "unfunded" && contractStatus == "draft"
  }

  function CanReleasePayment(paymentPhase: string, contractStatus: string): (r: bool)
    ensures r <==> Constants.ParsePaymentPhase(paymentPhase) == Some(Constants.PaymentPhase.Escrowed) &&
                   Constants.ParseContractStatus(contractStatus) == Some(Constants.ContractStatus.Delivered)
  {
    paymentPhase == "escrowed" && contractStatus == "delivered"
  }

  /** On the values the enumerations produce, each status predicate holds exactly
      for the one status (or pair) it names. */
  lemma {:induction false} StatusPredicatesOnEnums(t: Constants.TaskStatus, p: Constants.ProposalStatus,
                                                   ph: Constants.PaymentPhase, c: Constants.ContractStatus)
    ensures CanTaskReceiveProposals(t.Name()) <==> t == Constants.TaskStatus.Open
    ensures CanEditProposal(p.Name()) <==> p == Constants.ProposalStatus.Pending
    ensures CanEscrowPayment(ph.Name(), c.Name()) <==>
      ph == Constants.PaymentPhase.Unfunded && c == Constants.ContractStatus.Draft
    ensures CanReleasePayment(ph.Name(), c.Name()) <==>
      ph == Constants.PaymentPhase.Escrowed && c == Constants.ContractStatus.Delivered
  {
    Constants.NamesInjective();
    assert Constants.TaskStatus.Open.Name() == "open";
    assert Constants.ProposalStatus.Pending.Name() == "pending";
    assert Constants.PaymentPhase.Unfunded.Name() == "unfunded";
    assert Constants.PaymentPhase.Escrowed.Name() == "escrowed";
    assert Constants.ContractStatus.Draft.Name() == "draft";
    assert Constants.ContractStatus.Delivered.Name() == "delivered";
  }

  /** The joint guards are stricter than the payment handlers' own checks, which
      look at the phase alone; and strictly so: an unfunded payment on an active
      contract passes the escrow handler but not `canEscrowPayment`. */
  lemma JointGuardsImplyHandlerGuards(ph: Constants.PaymentPhase, c: Constants.ContractStatus)
    ensures CanEscrowPayment(ph.Name(), c.Name()) ==> ph == Constants.PaymentPhase.Unfunded
    ensures CanReleasePayment(ph.Name(), c.Name()) ==> ph == Constants.PaymentPhase.Escrowed
    ensures !CanEscrowPayment(Constants.PaymentPhase.Unfunded.Name(), Constants.ContractStatus.Active.Name())
    ensures !CanReleasePayment(Constants.PaymentPhase.Escrowed.Name(), Constants.ContractStatus.Active.Name())
  {
    StatusPredicatesOnEnums(Constants.TaskStatus.Open, Constants.ProposalStatus.Pending, ph, c);
  }
}
