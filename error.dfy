/**
 * `ZKError`: a numeric code, a message, an optional foreign cause (`err`,
 * kept only as the string it displays as) and an optional wrapped `ZKError`
 * (the cause chain that `source()` walks); the `ErrorEnums` code/message
 * pairs and the `ErrorEnumsStruct` registry; and the `Display` layout
 * `code=<c>,msg=<m>[,err=<e>][,wrapped err=<wrapped>]`.
 */
module Error {
  import opened Wrappers

  /** `ErrorEnums::Kind(code, msg)`, the only variant the enum has. */
  datatype ErrorEnums = Kind(code: nat, msg: string) {

    /** `get_code`: the code the entry was declared with. */
    function GetCode(): (r: nat)
      ensures Kind(r, msg) == this
    {
      code
    }

    /** `get_msg`: the message the entry was declared with. */
    function GetMsg(): (r: string)
      ensures Kind(code, r) == this
    {
      msg
    }

    /** Success is code 0 and nothing else. */
    predicate IsSuccess()
      ensures IsSuccess() <==> GetCode() == 0
    {
      GetCode() == 0
    }
  }

  // The `ErrorEnumsStruct` registry, in declaration order.
  const SUCCESS := Kind(0, "success")
  const UNKNOWN := Kind(1, "unknown")
  const IO_ERROR := Kind(2, "IO FAILED")
  const JSON_SERIALIZE := Kind(3, "json serialize failed")
  const RESPONSE_FAILED := Kind(4, "response failed")
  const COMMAND_NOT_EXISTS := Kind(5, "command not exists")
  const CHANNEL_SEND_FAILED := Kind(6, "channel send failed")
  const INTERNAL_SERVER_ERROR := Kind(7, "internal server error")
  const DUPLICATE_OPTION := Kind(7, "DUPLICATE_OPTION")
  const ILLEGAL_STEP := Kind(8, "ILLEGAL_STEP")
  const DUPLICATE_STEP := Kind(9, "DUPLICATE_STEP")
  const EVENT_BUS_DUPLICATE_CLIENTID := Kind(10, "duplicate client id")
  const EVENT_BUS_SUBSCRIBE_FAILED := Kind(11, "failed to subscribe")

  function Registry(): (r: seq<ErrorEnums>)
    ensures |r| == 13 && r[0] == SUCCESS && r[1] == UNKNOWN
  {
    [SUCCESS, UNKNOWN, IO_ERROR, JSON_SERIALIZE, RESPONSE_FAILED, COMMAND_NOT_EXISTS,
     CHANNEL_SEND_FAILED, INTERNAL_SERVER_ERROR, DUPLICATE_OPTION, ILLEGAL_STEP,
     DUPLICATE_STEP, EVENT_BUS_DUPLICATE_CLIENTID, EVENT_BUS_SUBSCRIBE_FAILED]
  }

  predicate CodesUnique(reg: seq<ErrorEnums>) {
    forall i, j :: 0 <= i < j < |reg| ==> reg[i].GetCode() != reg[j].GetCode()
  }

  /** Two distinct registry entries share code 7, so a code does not identify an entry. */
  lemma RegistryCodesNotUnique()
    ensures !CodesUnique(Registry())
    ensures INTERNAL_SERVER_ERROR != DUPLICATE_OPTION
    ensures INTERNAL_SERVER_ERROR.GetCode() == DUPLICATE_OPTION.GetCode() == 7
  {
    var reg := Registry();
    assert reg[7].GetCode() == reg[8].GetCode();
  }

  /** SUCCESS is the only registry entry that counts as success. */
  lemma RegistryOnlySuccessSucceeds(i: nat)
    requires i < |Registry()|
    ensures Registry()[i].IsSuccess() <==> i == 0
  {
  }

  /** The crate's error value. `err` is a foreign `Box<dyn Error>`, kept as its display string. */
  datatype ZKError = ZKError(code: nat, msg: string, err: Option<string>, wrapped: Option<ZKError>) {

    /** `with_wrapped_error`: attaches a wrapped cause and touches nothing else. */
    function WithWrappedError(w: ZKError): (r: ZKError)
      ensures r.wrapped == Some(w)
      ensures r.code == code && r.msg == msg && r.err == err
    {
      this.(wrapped := Some(w))
    }

    /** `with_error`: attaches a foreign cause and touches nothing else. */
    function WithError(e: string): (r: ZKError)
      ensures r.err == Some(e)
      ensures r.code == code && r.msg == msg && r.wrapped == wrapped
      ensures r.Source() == Source()
    {
      this.(err := Some(e))
    }

    /** `Error::source`: the wrapped `ZKError`; the foreign `err` is never a source. */
    function Source(): (r: Option<ZKError>)
      ensures r.Some? <==> wrapped.Some?
      ensures r.Some? ==> r.value == wrapped.value && r.value < this
    {
      match wrapped
      case Some(v) => Some(v)
      case None => None
    }
  }

  type ZKResult<T> = Result<T, ZKError>

  /** `ZKError::new`: the given code and message, no cause of either kind. */
  function New(code: nat, msg: string): (e: ZKError)
    ensures e.code == code && e.msg == msg
    ensures e.err.None? && e.wrapped.None? && e.Source().None?
  {
    ZKError(code, msg, None, None)
  }

  /** `From<&ErrorEnums>`: the enum's code and message. */
  function FromEnum(s: ErrorEnums): (e: ZKError)
    ensures e.code == s.GetCode() && e.msg == s.GetMsg()
    ensures e.err.None? && e.wrapped.None?
  {
    New(s.GetCode(), s.GetMsg())
  }

  /** `From<&str>`: always code 0. */
  function FromStr(msg: string): (e: ZKError)
    ensures e.code == 0 && e.msg == msg
    ensures e.err.None? && e.wrapped.None?
  {
    New(0, msg)
  }

  // ---------------------------------------------------------------------
  // Display

  predicate IsDigit(c: char) { '0' <= c <= '9' }

  predicate AllDigits(s: string) { forall i :: 0 <= i < |s| ==> IsDigit(s[i]) }

  function DigitChar(d: nat): (c: char)
    requires d < 10
    ensures IsDigit(c) && c as int - '0' as int == d
  {
    "0123456789"[d]
  }

  /** `{}` of a `usize`: decimal, no leading zeros. */
  function NatToString(n: nat): string
    decreases n
  {
    if n < 10 then [DigitChar(n)] else NatToString(n / 10) + [DigitChar(n % 10)]
  }

  /** The value of a string of decimal digits. */
  function ParseDigits(s: string): nat
    requires AllDigits(s)
    decreases |s|
  {
    if s == [] then 0
    else ParseDigits(s[..|s| - 1]) * 10 + (s[|s| - 1] as int - '0' as int)
  }

  /** Decimal rendering is a non-empty digit string that reads back as the number. */
  lemma {:induction false} NatToStringRoundTrip(n: nat)
    ensures NatToString(n) != [] && AllDigits(NatToString(n))
    ensures ParseDigits(NatToString(n)) == n
    decreases n
  {
    if n >= 10 {
      NatToStringRoundTrip(n / 10);
      var s := NatToString(n);
      assert s[..|s| - 1] == NatToString(n / 10);
    }
  }

  /** The longest prefix of `s` made of digits. */
  function LeadingDigits(s: string): (d: string)
    ensures AllDigits(d)
    decreases |s|
  {
    if s != [] && IsDigit(s[0]) then [s[0]] + LeadingDigits(s[1..]) else []
  }

  lemma {:induction false} LeadingDigitsStopAtSeparator(d: string, rest: string)
    requires AllDigits(d)
    requires rest != [] && !IsDigit(rest[0])
    ensures LeadingDigits(d + rest) == d
    decreases |d|
  {
    if d != [] {
      assert (d + rest)[1..] == d[1..] + rest;
      LeadingDigitsStopAtSeparator(d[1..], rest);
    } else {
      assert d + rest == rest;
    }
  }

  /** The code a `Display` string starts with, if it has that shape. */
  function CodeOf(s: string): Option<nat> {
    if |s| >= 5 && s[..5] == "code=" && LeadingDigits(s[5..]) != []
    then Some(ParseDigits(LeadingDigits(s[5..])))
    else None
  }

  /** What `Display` produces for one error; the chain is finite, so is the string. */
  function Display(e: ZKError): string
    decreases e
  {
    "code=" + NatToString(e.code) + ",msg=" + e.msg
    + (match e.err case Some(x) => ",err=" + x case None => "")
    + (match e.wrapped case Some(w) => ",wrapped err=" + Display(w) case None => "")
  }

  /** `Display::fmt`, building the string with successive `push_str` calls. */
  method Fmt(e: ZKError) returns (msg: string)
    ensures msg == Display(e)
    decreases e
  {
    msg := "code=" + NatToString(e.code) + ",msg=" + e.msg;
    ghost var errPart := match e.err case Some(x) => ",err=" + x case None => "";
    match e.err {
      case Some(x) =>
        msg := msg + ",err=";
        msg := msg + x;
      case None =>
    }
    assert msg == "code=" + NatToString(e.code) + ",msg=" + e.msg + errPart;
    match e.wrapped {
      case Some(v) =>
        msg := msg + ",wrapped err=";
        var inner := Fmt(v);
        msg := msg + inner;
      case None =>
    }
  }

  /** A rendered code followed by a separator reads back as that code. */
  lemma CodeOfRendered(n: nat, rest: string)
    requires rest != [] && rest[0] == ','
    ensures CodeOf("code=" + NatToString(n) + rest) == Some(n)
  {
    var s := "code=" + NatToString(n) + rest;
    var digits := NatToString(n);
    NatToStringRoundTrip(n);
    assert s[..5] == "code=";
    assert s[5..] == digits + rest;
    LeadingDigitsStopAtSeparator(digits, rest);
  }

  /** The code can be read back from the front of the display string. */
  lemma DisplayShowsCode(e: ZKError)
    ensures CodeOf(Display(e)) == Some(e.code)
  {
    var rest := ",msg=" + e.msg
      + (match e.err case Some(x) => ",err=" + x case None => "")
      + (match e.wrapped case Some(w) => ",wrapped err=" + Display(w) case None => "");
    assert Display(e) == "code=" + NatToString(e.code) + rest;
    CodeOfRendered(e.code, rest);
  }

  /** A wrapped cause is displayed, in full, at the end of its wrapper's string. */
  lemma DisplayEndsWithSource(e: ZKError)
    requires e.Source().Some?
    ensures exists head :: Display(e) == head + ",wrapped err=" + Display(e.Source().value)
  {
    var w := e.Source().value;
    var head := "code=" + NatToString(e.code) + ",msg=" + e.msg
      + (match e.err case Some(x) => ",err=" + x case None => "");
    assert Display(e) == head + ",wrapped err=" + Display(w);
  }

  /** Wrapping an error with no cause yet appends the cause's display. */
  lemma DisplayOfWrapped(e: ZKError, w: ZKError)
    requires e.wrapped.None?
    ensures Display(e.WithWrappedError(w)) == Display(e) + ",wrapped err=" + Display(w)
  {
  }
}
