/** Resource names and page tokens: protobuf/service/name.go and pagination.go. */
module Names {
  import opened Octets

  datatype NameError = InvalidName | InvalidParent | InvalidPageToken

  const WILDCARD := "-"
  const DEVICES := "devices"
  const EVENTS := "events"

  // ----- Splitting at slashes -----

  /** The pieces between slashes: always one more than there are slashes. */
  function Split(s: string): (parts: seq<string>)
    ensures |parts| >= 1
  {
    if s == "" then [""]
    else
      var rest := Split(s[1..]);
      if s[0] == '/' then [""] + rest else [[s[0]] + rest[0]] + rest[1..]
  }

  /** A piece in front of a slash splits off whole. */
  lemma {:induction false} SplitPiece(a: string, b: string)
    requires '/' !in a
    ensures Split(a + "/" + b) == [a] + Split(b)
  {
    if a == "" {
      assert (a + "/" + b)[1..] == b;
    } else {
      SplitPiece(a[1..], b);
      assert (a + "/" + b)[1..] == a[1..] + "/" + b;
      assert a == [a[0]] + a[1..];
    }
  }

  lemma {:induction false} SplitWhole(a: string)
    requires '/' !in a
    ensures Split(a) == [a]
  {
    if a != "" {
      SplitWhole(a[1..]);
      assert a == [a[0]] + a[1..];
    }
  }

  function Join(parts: seq<string>): string
    requires parts != []
  {
    if |parts| == 1 then parts[0] else parts[0] + "/" + Join(parts[1..])
  }

  /** Splitting loses nothing, and no piece holds a slash. */
  lemma {:induction false} SplitJoins(s: string)
    ensures Join(Split(s)) == s
    ensures forall i :: 0 <= i < |Split(s)| ==> '/' !in Split(s)[i]
  {
    if s != "" {
      SplitJoins(s[1..]);
      var rest := Split(s[1..]);
      assert s == [s[0]] + s[1..];
      if s[0] == '/' {
        assert ([""] + rest)[1..] == rest;
      } else {
        var parts := [[s[0]] + rest[0]] + rest[1..];
        assert parts[1..] == rest[1..];
        assert Join(parts) == [s[0]] + Join(rest);
      }
    }
  }

  // ----- Names -----

  predicate ValidSegment(s: string) {
    s != "" && s != WILDCARD
  }

  /** One identifier of a name: not empty, not the wildcard, and without a slash. */
  predicate Segment(s: string) {
    ValidSegment(s) && '/' !in s
  }

  function EventName(device: string, event: string): string {
    DEVICES + "/" + device + "/" + EVENTS + "/" + event
  }

  function DeviceName(device: string): string {
    DEVICES + "/" + device
  }

  function ParseEventName(name: string): Result<(string, string), NameError> {
    var parts := Split(name);
    if |parts| != 4 || parts[0] != DEVICES || parts[2] != EVENTS || !ValidSegment(parts[1]) || !ValidSegment(parts[3]) then Err(InvalidName)
    else Ok((parts[1], parts[3]))
  }

  function ParseParent(parent: string): Result<string, NameError> {
    var parts := Split(parent);
    if |parts| != 2 || parts[0] != DEVICES || parts[1] == "" then Err(InvalidParent)
    else if parts[1] != WILDCARD && !ValidSegment(parts[1]) then Err(InvalidParent)
    else Ok(parts[1])
  }

  lemma SplitEventName(device: string, event: string)
    requires '/' !in device && '/' !in event
    ensures Split(EventName(device, event)) == [DEVICES, device, EVENTS, event]
  {
    hide Split;
    SplitWhole(event);
    SplitPiece(EVENTS, event);
    SplitPiece(device, EVENTS + "/" + event);
    SplitPiece(DEVICES, device + "/" + EVENTS + "/" + event);
    assert EventName(device, event) == DEVICES + "/" + (device + "/" + EVENTS + "/" + event);
    assert device + "/" + EVENTS + "/" + event == device + "/" + (EVENTS + "/" + event);
  }

  /** The names accepted are exactly those of the pattern devices/{device}/events/{event}, and they are read
      back as the identifiers they were made from. */
  lemma EventNameExact(name: string, device: string, event: string)
    ensures ParseEventName(name) == Ok((device, event)) <==> name == EventName(device, event) && Segment(device) && Segment(event)
  {
    hide Split, Join;
    if ParseEventName(name) == Ok((device, event)) {
      SplitJoins(name);
      JoinFour(DEVICES, device, EVENTS, event);
      assert Split(name) == [DEVICES, device, EVENTS, event];
    }
    if name == EventName(device, event) && Segment(device) && Segment(event) {
      SplitEventName(device, event);
    }
  }

  lemma JoinFour(a: string, b: string, c: string, d: string)
    ensures Join([a, b, c, d]) == a + "/" + b + "/" + c + "/" + d
  {
    assert [a, b, c, d][1..] == [b, c, d];
    assert [b, c, d][1..] == [c, d];
    JoinTwo(c, d);
    assert Join([b, c, d]) == b + "/" + (c + "/" + d);
    assert Join([a, b, c, d]) == a + "/" + (b + "/" + (c + "/" + d));
    assert b + "/" + (c + "/" + d) == b + "/" + c + "/" + d;
    assert a + "/" + (b + "/" + c + "/" + d) == a + "/" + b + "/" + c + "/" + d;
  }

  /** A parent is devices/{device}, where the device may also be the wildcard. */
  lemma ParentExact(parent: string, device: string)
    ensures ParseParent(parent) == Ok(device) <==> parent == DeviceName(device) && (device == WILDCARD || Segment(device))
  {
    hide Split, Join;
    if ParseParent(parent) == Ok(device) {
      SplitJoins(parent);
      JoinTwo(DEVICES, device);
      assert Split(parent) == [DEVICES, device];
    }
    if parent == DeviceName(device) && (device == WILDCARD || Segment(device)) {
      SplitWhole(device);
      SplitPiece(DEVICES, device);
    }
  }

  lemma JoinTwo(a: string, b: string)
    ensures Join([a, b]) == a + "/" + b
  {
    assert [a, b][1..] == [b];
  }

  // ----- Event identifiers -----

  const HEX_DIGITS := "0123456789abcdef"

  /** The lowest digits of n in hexadecimal, most significant first. */
  function Hex(n: nat, digits: nat): (s: string)
    ensures |s| == digits
  {
    if digits == 0 then "" else Hex(n / 16, digits - 1) + [HEX_DIGITS[n % 16]]
  }

  function Power16(digits: nat): nat {
    if digits == 0 then 1 else 16 * Power16(digits - 1)
  }

  const EVENT_ID_DIGITS: nat := 16

  /** Sixteen digits, as every event identifier has. */
  function EventId(n: nat): string {
    Hex(n, EVENT_ID_DIGITS)
  }

  lemma {:induction false} HexInjective(m: nat, n: nat, digits: nat)
    requires m < Power16(digits) && n < Power16(digits) && Hex(m, digits) == Hex(n, digits)
    ensures m == n
  {
    if digits > 0 {
      var a, b := Hex(m, digits), Hex(n, digits);
      assert a[..digits - 1] == Hex(m / 16, digits - 1) && b[..digits - 1] == Hex(n / 16, digits - 1);
      assert a[digits - 1] == HEX_DIGITS[m % 16] && b[digits - 1] == HEX_DIGITS[n % 16];
      DigitInjective(m % 16, n % 16);
      HexInjective(m / 16, n / 16, digits - 1);
    }
  }

  lemma DigitInjective(a: nat, b: nat)
    requires a < 16 && b < 16 && HEX_DIGITS[a] == HEX_DIGITS[b]
    ensures a == b
  {
  }

  lemma {:induction false} HexSegment(n: nat, digits: nat)
    ensures '/' !in Hex(n, digits)
  {
    if digits > 0 {
      HexSegment(n / 16, digits - 1);
      assert HEX_DIGITS[n % 16] != '/';
    }
  }

  const MAX_UINT64: nat := 0xffff_ffff_ffff_ffff

  lemma Uint64Digits()
    ensures Power16(EVENT_ID_DIGITS) == MAX_UINT64 + 1
  {
    assert Power16(4) == 0x1_0000;
    assert Power16(8) == 0x1_0000_0000;
    assert Power16(12) == 0x1_0000_0000_0000;
  }

  // ----- Page tokens -----

  /** A page token, with its base64 dress taken off. */
  datatype Token = NoToken | Garbled | Token(raw: string)

  const SEPARATOR: char := '\0'

  function Digit(d: nat): char
    requires d < 10
  {
    "0123456789"[d]
  }

  /** A number in decimal, without leading zeros. */
  function Decimal(n: nat): (s: string)
    ensures s != ""
  {
    if n < 10 then [Digit(n)] else Decimal(n / 10) + [Digit(n % 10)]
  }

  function DigitValue(c: char): Option<nat> {
    if '0' <= c <= '9' then Some((c - '0') as int) else None
  }

  /** What the digits say, read from the left; nothing when one of them is not a digit or the number does not
      fit 64 bits. */
  function ParseUint(s: string): Option<nat> {
    if s == "" then None else ParseDigits(s)
  }

  function ParseDigits(s: string): Option<nat> {
    if s == "" then Some(0)
    else
      var d := DigitValue(s[|s| - 1]);
      var rest := ParseDigits(s[..|s| - 1]);
      if d.None? || rest.None? || 10 * rest.value + d.value > MAX_UINT64 then None else Some(10 * rest.value + d.value)
  }

  lemma DigitReads(d: nat)
    requires d < 10
    ensures DigitValue(Digit(d)) == Some(d) && Digit(d) != SEPARATOR
  {
  }

  lemma {:induction false} DecimalReads(n: nat)
    requires n <= MAX_UINT64
    ensures ParseUint(Decimal(n)) == Some(n) && SEPARATOR !in Decimal(n)
  {
    DigitReads(n % 10);
    var s := Decimal(n);
    if n < 10 {
      assert s[|s| - 1] == Digit(n) && s[..|s| - 1] == "";
      assert ParseDigits(s) == Some(n);
    } else {
      DecimalReads(n / 10);
      assert s[..|s| - 1] == Decimal(n / 10) && s[|s| - 1] == Digit(n % 10);
    }
  }

  function EncodeCursor(parent: string, n: nat): Token {
    Token(parent + [SEPARATOR] + Decimal(n))
  }

  /** The last separator, or the length of the string when there is none. */
  function LastSeparator(s: string): (k: nat)
    ensures k <= |s|
    ensures k < |s| ==> s[k] == SEPARATOR && forall i :: k < i < |s| ==> s[i] != SEPARATOR
    ensures k == |s| ==> SEPARATOR !in s
  {
    if s == "" then 0
    else if s[|s| - 1] == SEPARATOR then |s| - 1
    else
      var k := LastSeparator(s[..|s| - 1]);
      if k == |s| - 1 then |s| else k
  }

  function DecodeCursor(token: Token, parent: string): Result<nat, NameError> {
    if !token.Token? then Err(InvalidPageToken)
    else
      var raw := token.raw;
      var k := LastSeparator(raw);
      if k == |raw| || raw[..k] != parent then Err(InvalidPageToken)
      else
        match ParseUint(raw[k + 1..])
        case None => Err(InvalidPageToken)
        case Some(n) => Ok(n)
  }

  /** A token is read back under the parent it was cut for, to the number it was cut at, whatever the parent
      contains; under any other parent it is refused. */
  lemma CursorRoundTrip(parent: string, other: string, n: nat)
    requires n <= MAX_UINT64
    ensures DecodeCursor(EncodeCursor(parent, n), other) == if other == parent then Ok(n) else Err(InvalidPageToken)
  {
    hide Decimal, ParseUint, LastSeparator;
    DecimalReads(n);
    var raw := EncodeCursor(parent, n).raw;
    var k := LastSeparator(raw);
    assert raw[|parent|] == SEPARATOR;
    assert forall i :: |parent| < i < |raw| ==> raw[i] == Decimal(n)[i - |parent| - 1];
    assert k == |parent|;
    assert raw[..k] == parent && raw[k + 1..] == Decimal(n);
  }
}
