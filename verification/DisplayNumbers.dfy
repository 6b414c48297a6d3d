/** Display numbers such as W-001, and the trimming of stored phone numbers. */
module DisplayNumbers {
  import opened QueueTypes

  function Digit(d: nat): (c: char)
    requires d < 10
    ensures '0' <= c <= '9'
  {
    '0' + d as char
  }

  function Decimal(n: nat): (s: string)
    ensures |s| >= 1
  {
    if n < 10 then [Digit(n)] else Decimal(n / 10) + [Digit(n % 10)]
  }

  function PadStart(s: string, width: nat, fill: char): (padded: string)
    ensures |padded| == if |s| >= width then |s| else width
    decreases width - |s|
  {
    if |s| >= width then s else PadStart([fill] + s, width, fill)
  }

  function Prefix(registrationType: RegistrationType): string {
    if registrationType.ONLINE? then "Q-" else "W-"
  }

  /** The number shown to the party: Q-001 for online parties, W-001 for walk-ins. */
  function QueueNumber(registrationType: RegistrationType, sequenceNumber: nat): string {
    Prefix(registrationType) + PadStart(Decimal(sequenceNumber), 3, '0')
  }

  /** The number a string of decimal digits stands for. */
  function Value(digits: string): int {
    if digits == [] then 0 else 10 * Value(digits[..|digits| - 1]) + (digits[|digits| - 1] as int - '0' as int)
  }

  /** Reads a display number back: the channel and the sequence number. */
  function Parse(number: string): Option<(RegistrationType, int)> {
    if |number| < 3 then None
    else if number[..2] == "Q-" then Some((ONLINE, Value(number[2..])))
    else if number[..2] == "W-" then Some((WALK_IN, Value(number[2..])))
    else None
  }

  lemma {:induction false} DecimalHasValue(n: nat)
    ensures Value(Decimal(n)) == n
  {
    if n < 10 {
      assert [Digit(n)][..0] == [];
    } else {
      DecimalHasValue(n / 10);
      assert Decimal(n)[..|Decimal(n)| - 1] == Decimal(n / 10);
    }
  }

  lemma {:induction false} LeadingZero(digits: string)
    ensures Value(['0'] + digits) == Value(digits)
  {
    if digits == [] {
      assert (['0'] + digits)[..0] == [];
    } else {
      var n := |digits| - 1;
      assert (['0'] + digits)[..n + 1] == ['0'] + digits[..n];
      LeadingZero(digits[..n]);
    }
  }

  lemma {:induction false} PaddingKeepsValue(digits: string, width: nat)
    ensures Value(PadStart(digits, width, '0')) == Value(digits)
    decreases width - |digits|
  {
    if |digits| < width {
      PaddingKeepsValue(['0'] + digits, width);
      LeadingZero(digits);
    }
  }

  /** A display number gives back its channel and its sequence number, however many digits it has. */
  lemma NumberParsesBack(registrationType: RegistrationType, sequenceNumber: nat)
    ensures Parse(QueueNumber(registrationType, sequenceNumber)) == Some((registrationType, sequenceNumber))
  {
    var digits := PadStart(Decimal(sequenceNumber), 3, '0');
    var number := Prefix(registrationType) + digits;
    DecimalHasValue(sequenceNumber);
    PaddingKeepsValue(Decimal(sequenceNumber), 3);
    assert number[..2] == Prefix(registrationType) && number[2..] == digits;
  }

  /** So different channels or sequence numbers never show the same number. */
  lemma NumberIsInjective(t: RegistrationType, n: nat, u: RegistrationType, m: nat)
    ensures QueueNumber(t, n) == QueueNumber(u, m) <==> t == u && n == m
  {
    NumberParsesBack(t, n);
    NumberParsesBack(u, m);
  }

  lemma {:induction false} DecimalIsPlain(n: nat)
    ensures forall k :: 0 <= k < |Decimal(n)| ==> '0' <= Decimal(n)[k] <= '9'
    ensures |Decimal(n)| > 1 ==> Decimal(n)[0] != '0'
  {
    if n >= 10 {
      DecimalIsPlain(n / 10);
      assert n / 10 < 10 ==> Decimal(n / 10) == [Digit(n / 10)] && n / 10 > 0;
    }
  }

  lemma {:induction false} PaddingIsPlain(digits: string, width: nat)
    requires forall k :: 0 <= k < |digits| ==> '0' <= digits[k] <= '9'
    ensures forall k :: 0 <= k < |PadStart(digits, width, '0')| ==> '0' <= PadStart(digits, width, '0')[k] <= '9'
    decreases width - |digits|
  {
    if |digits| < width { PaddingIsPlain(['0'] + digits, width); }
  }

  /** Behind the prefix of the channel stand at least three digits, and more only where they are needed. */
  lemma NumberIsPadded(registrationType: RegistrationType, sequenceNumber: nat)
    ensures var number := QueueNumber(registrationType, sequenceNumber);
            && |number| >= 5
            && number[..2] == (if registrationType == ONLINE then "Q-" else "W-")
            && (forall k :: 2 <= k < |number| ==> '0' <= number[k] <= '9')
            && (|number| > 5 ==> number[2] != '0')
  {
    var digits := PadStart(Decimal(sequenceNumber), 3, '0');
    var number := QueueNumber(registrationType, sequenceNumber);
    DecimalIsPlain(sequenceNumber);
    PaddingIsPlain(Decimal(sequenceNumber), 3);
    assert number[..2] == Prefix(registrationType) && number[2..] == digits;
    forall k | 2 <= k < |number| ensures '0' <= number[k] <= '9' { assert number[k] == digits[k - 2]; }
  }

  /** JavaScript white space. */
  predicate IsSpace(c: char) {
    c in {' ', '\t', '\n', '\r', '\U{000B}', '\U{000C}', '\U{00A0}', '\U{1680}', '\U{2028}', '\U{2029}',
          '\U{202F}', '\U{205F}', '\U{3000}', '\U{FEFF}'}
    || '\U{2000}' <= c <= '\U{200A}'
  }

  function Trim(s: string): string {
    if s == [] then s
    else if IsSpace(s[0]) then Trim(s[1..])
    else if IsSpace(s[|s| - 1]) then Trim(s[..|s| - 1])
    else s
  }

  /** The white space of JavaScript, by code point. */
  lemma SpacesAre(c: char)
    ensures IsSpace(c) <==> var code := c as int;
                            || 9 <= code <= 13 || code == 32 || code == 160 || code == 5760 || 8192 <= code <= 8202
                            || code == 8232 || code == 8233 || code == 8239 || code == 8287 || code == 12288
                            || code == 65279
  {
  }

  /** Trimming takes the white space off both ends and nothing else. */
  lemma {:induction false} TrimIs(s: string) returns (a: nat, b: nat)
    ensures a <= b <= |s| && Trim(s) == s[a..b]
    ensures forall k :: 0 <= k < a || b <= k < |s| ==> IsSpace(s[k])
    ensures a < b ==> !IsSpace(s[a]) && !IsSpace(s[b - 1])
    decreases |s|
  {
    a, b := 0, |s|;
    if s != [] && IsSpace(s[0]) {
      a, b := TrimIs(s[1..]);
      a, b := a + 1, b + 1;
    } else if s != [] && IsSpace(s[|s| - 1]) {
      a, b := TrimIs(s[..|s| - 1]);
    }
  }
}
