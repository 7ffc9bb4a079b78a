/** The wait endpoint's timeout parameter: decimal text to a duration, in 64-bit arithmetic. */
module Timeouts {
  import opened Flaps
  import opened Emulator
  import L = Leases

  const MIN_TIMEOUT: int := L.SECOND
  const MAX_TIMEOUT: int := 60 * L.SECOND

  predicate IsDigit(c: char) { '0' <= c <= '9' }

  function Digits(s: string): Option<nat>
  {
    if s == "" then Some(0)
    else
      var n := |s| - 1;
      match Digits(s[..n])
      case None => None
      case Some(v) => if IsDigit(s[n]) then Some(10 * v + (s[n] as int - '0' as int)) else None
  }

  predicate FitsInt64(n: int) { -0x8000_0000_0000_0000 <= n < 0x8000_0000_0000_0000 }

  /** strconv.Atoi: an optional sign and at least one digit; out of range is an error. */
  function Atoi(raw: string): Option<int> {
    var signed := raw != "" && (raw[0] == '-' || raw[0] == '+');
    var digits := if signed then raw[1..] else raw;
    if digits == "" then None
    else
      match Digits(digits)
      case None => None
      case Some(v) =>
        var n: int := if signed && raw[0] == '-' then 0 - v else v;
        if FitsInt64(n) then Some(n) else None
  }

  function Decimal(n: nat): (s: string)
    ensures s != "" && forall c :: c in s ==> IsDigit(c)
  {
    var digit := [('0' as int + n % 10) as char];
    if n < 10 then digit else Decimal(n / 10) + digit
  }

  /** strconv.Itoa. */
  function Itoa(n: int): string {
    if n < 0 then "-" + Decimal(-n) else Decimal(n)
  }

  lemma {:induction false} DigitsOfDecimal(n: nat)
    ensures Digits(Decimal(n)) == Some(n)
  {
    var s := Decimal(n);
    if 10 <= n {
      DigitsOfDecimal(n / 10);
      assert s[..|s| - 1] == Decimal(n / 10);
    } else {
      assert s[..0] == "";
    }
  }

  function ClampSeconds(secs: int): int {
    var d := Wrap64(secs * L.SECOND);
    if d < MIN_TIMEOUT then MIN_TIMEOUT else if d > MAX_TIMEOUT then MAX_TIMEOUT else d
  }

  function ClampTimeout(raw: string): int {
    if raw == "" then MAX_TIMEOUT
    else
      match Atoi(raw)
      case None => MIN_TIMEOUT
      case Some(secs) => ClampSeconds(secs)
  }

  /** Whatever the text, wrap-around included, a wait lasts between one second and sixty. */
  lemma ClampInRange(raw: string)
    ensures MIN_TIMEOUT <= ClampTimeout(raw) <= MAX_TIMEOUT
  {
  }

  /** The clamp the documentation promises: the requested seconds, at least 1 and at most 60. */
  function Promised(secs: int): int {
    L.SECOND * (if secs < 1 then 1 else if secs > 60 then 60 else secs)
  }

  const LIMIT: int := 9_223_372_036

  /** Wrap-around moves a value by a whole number of turns. */
  lemma Wrap64Exact(n: int)
    ensures FitsInt64(Wrap64(n))
    ensures FitsInt64(n) ==> Wrap64(n) == n
  {
  }

  const TURN: int := 0x1_0000_0000_0000_0000

  /** The register holds what is left of a value when whole turns are taken off, the upper half read as negative. */
  lemma Wrap64Residue(n: int)
    ensures Wrap64(n) == if n % TURN < TURN / 2 then n % TURN else n % TURN - TURN
  {
    var q, rest := n / TURN, n % TURN;
    assert n == q * TURN + rest;
    if rest < TURN / 2 {
      assert n + TURN / 2 == q * TURN + (rest + TURN / 2);
    } else {
      assert n + TURN / 2 == (q + 1) * TURN + (rest - TURN / 2);
    }
  }

  lemma SecondsKeepPromiseIff(secs: int)
    requires FitsInt64(secs)
    ensures -LIMIT <= secs <= LIMIT ==> ClampSeconds(secs) == Promised(secs)
    ensures
      var rest := secs * L.SECOND % TURN;
      && (LIMIT < secs ==> (ClampSeconds(secs) == Promised(secs) <==> MAX_TIMEOUT <= rest < TURN / 2))
      && (secs < -LIMIT ==> (ClampSeconds(secs) == Promised(secs) <==> rest <= MIN_TIMEOUT || TURN / 2 <= rest))
  {
    var n := secs * L.SECOND;
    Wrap64Exact(n);
    Wrap64Residue(n);
    hide Wrap64;
  }

  /** Whatever number is asked for, its decimal text is what the endpoint gets and what Atoi gives back. */
  lemma AtoiOfItoa(n: int)
    requires FitsInt64(n)
    ensures Atoi(Itoa(n)) == Some(n)
  {
    hide Decimal, Digits;
    if n < 0 {
      DigitsOfDecimal(-n);
      assert ("-" + Decimal(-n))[1..] == Decimal(-n);
    } else {
      DigitsOfDecimal(n);
      assert Decimal(n)[0] in Decimal(n);
    }
  }

  /**
   The promise is kept for every count of seconds whose nanoseconds fit 64 bits. Beyond, what counts is what the
   nanoseconds leave when whole turns of the register are taken off: from a minute up to half a turn for a count
   too large; for one too small, at most a second, or half a turn and more.
   */
  lemma ClampKeepsPromiseIff(secs: int)
    requires FitsInt64(secs)
    ensures -LIMIT <= secs <= LIMIT ==> ClampTimeout(Itoa(secs)) == Promised(secs)
    ensures
      var rest, kept := secs * L.SECOND % TURN, ClampTimeout(Itoa(secs)) == Promised(secs);
      && (LIMIT < secs ==> (kept <==> MAX_TIMEOUT <= rest < TURN / 2))
      && (secs < -LIMIT ==> (kept <==> rest <= MIN_TIMEOUT || TURN / 2 <= rest))
  {
    hide ClampSeconds, Promised;
    AtoiOfItoa(secs);
    SecondsKeepPromiseIff(secs);
  }

  // ---- any text at all ----

  function Zeros(z: nat): string { seq(z, _ => '0') }

  /** A decimal numeral, leading zeros and an explicit plus sign allowed. */
  ghost predicate IsNumeral(raw: string, sign: string, z: nat, v: nat) {
    sign in {"", "+", "-"} && raw == sign + Zeros(z) + Decimal(v)
  }

  ghost predicate Numeral(raw: string, n: int) {
    exists sign, z: nat, v: nat :: IsNumeral(raw, sign, z, v) && n == if sign == "-" then 0 - v else v
  }

  /** What follows the sign, if there is one. */
  function Unsigned(raw: string): string {
    if raw != "" && (raw[0] == '-' || raw[0] == '+') then raw[1..] else raw
  }

  /** No digit at all, or something that is not a digit. */
  predicate NoNumber(raw: string) {
    Unsigned(raw) == "" || exists c :: c in Unsigned(raw) && !IsDigit(c)
  }

  lemma {:induction false} DigitsIffAllDigits(s: string)
    ensures Digits(s).Some? <==> forall c :: c in s ==> IsDigit(c)
  {
    if s != "" {
      var n := |s| - 1;
      DigitsIffAllDigits(s[..n]);
      assert s == s[..n] + [s[n]];
    }
  }

  lemma {:induction false} DigitsOfZeros(z: nat, v: nat)
    ensures Digits(Zeros(z) + Decimal(v)) == Some(v)
    decreases v
  {
    var s := Zeros(z) + Decimal(v);
    if 10 <= v {
      DigitsOfZeros(z, v / 10);
      assert s[..|s| - 1] == Zeros(z) + Decimal(v / 10);
    } else {
      assert s[..|s| - 1] == Zeros(z);
      OnlyZeros(z);
    }
  }

  lemma {:induction false} OnlyZeros(z: nat)
    ensures Digits(Zeros(z)) == Some(0)
  {
    if z > 0 {
      OnlyZeros(z - 1);
      assert Zeros(z)[..z - 1] == Zeros(z - 1);
    }
  }

  /** Every run of digits is some zeros and the decimal text of its value. */
  lemma {:induction false} DigitsAreDecimal(s: string) returns (z: nat)
    requires s != "" && Digits(s).Some?
    ensures s == Zeros(z) + Decimal(Digits(s).value)
  {
    var n := |s| - 1;
    DigitsIffAllDigits(s);
    var digit: nat := s[n] as int - '0' as int;
    if n == 0 {
      z := 0;
      assert Digits(s[..0]) == Some(0);
      assert Decimal(digit) == [s[n]];
    } else {
      z := DigitsAreDecimal(s[..n]);
      var v := Digits(s[..n]).value;
      if v == 0 {
        z := z + 1;
        assert Decimal(0) == "0" && Decimal(digit) == [s[n]];
      } else {
        assert (10 * v + digit) / 10 == v && (10 * v + digit) % 10 == digit;
        assert Decimal(10 * v + digit) == Decimal(v) + [s[n]];
      }
    }
  }

  lemma NumeralDigits(raw: string, sign: string, z: nat, v: nat)
    requires IsNumeral(raw, sign, z, v)
    ensures Unsigned(raw) == Zeros(z) + Decimal(v) && Digits(Unsigned(raw)) == Some(v)
    ensures sign == "-" <==> raw[0] == '-'
  {
    hide Decimal, Digits;
    DigitsOfZeros(z, v);
    var body := Zeros(z) + Decimal(v);
    assert raw == sign + body;
    assert IsDigit(body[0]) by {
      assert body[0] == '0' || body[0] in Decimal(v);
    }
  }

  lemma DigitsAreNumeral(raw: string) returns (sign: string, z: nat, v: nat)
    requires !NoNumber(raw)
    ensures IsNumeral(raw, sign, z, v)
  {
    hide Decimal, Digits;
    var body := Unsigned(raw);
    DigitsIffAllDigits(body);
    z := DigitsAreDecimal(body);
    v := Digits(body).value;
    sign := if body == raw then "" else [raw[0]];
    assert raw == sign + body;
    assert sign + (Zeros(z) + Decimal(v)) == sign + Zeros(z) + Decimal(v);
  }

  /** A text is the numeral of one value at most. */
  lemma ValueOfNumeral(raw: string, n: int)
    requires Numeral(raw, n)
    ensures Unsigned(raw) != "" && raw != "" && Digits(Unsigned(raw)).Some?
    ensures n == if raw[0] == '-' then 0 - Digits(Unsigned(raw)).value else Digits(Unsigned(raw)).value
  {
    hide Decimal, Digits;
    var sign, z: nat, v: nat :| IsNumeral(raw, sign, z, v) && n == if sign == "-" then 0 - v else v;
    NumeralDigits(raw, sign, z, v);
  }

  /** A text is a numeral exactly when it is digits, one at least, after an optional sign. */
  lemma NumeralIff(raw: string)
    ensures (exists n :: Numeral(raw, n)) <==> !NoNumber(raw)
  {
    hide Decimal, Digits, IsNumeral;
    if n :| Numeral(raw, n) {
      ValueOfNumeral(raw, n);
      DigitsIffAllDigits(Unsigned(raw));
    }
    if !NoNumber(raw) {
      var sign, z, v := DigitsAreNumeral(raw);
      var size: int := v;
      assert Numeral(raw, if sign == "-" then 0 - size else size);
    }
  }

  /** Atoi takes exactly the numerals whose value fits 64 bits. */
  lemma AtoiIff(raw: string, n: int)
    ensures Atoi(raw) == Some(n) <==> Numeral(raw, n) && FitsInt64(n)
  {
    hide Decimal, Digits, Numeral;
    DigitsIffAllDigits(Unsigned(raw));
    NumeralIff(raw);
    if m :| Numeral(raw, m) {
      ValueOfNumeral(raw, m);
      if Numeral(raw, n) {
        ValueOfNumeral(raw, n);
      }
    }
  }

  /** Nothing gives a minute; what is no number, or none of 64 bits, a second; a number what its decimal text gives. */
  lemma ClampOfText(raw: string)
    ensures raw == "" ==> ClampTimeout(raw) == 60_000_000_000
    ensures raw != "" && NoNumber(raw) ==> ClampTimeout(raw) == 1_000_000_000
    ensures forall n :: Numeral(raw, n) ==>
      ClampTimeout(raw) == if FitsInt64(n) then ClampTimeout(Itoa(n)) else 1_000_000_000
  {
    hide Atoi, Itoa, NoNumber, Numeral, ClampSeconds;
    NumeralIff(raw);
    if Atoi(raw).Some? {
      AtoiIff(raw, Atoi(raw).value);
    }
    forall n | Numeral(raw, n)
      ensures ClampTimeout(raw) == if FitsInt64(n) then ClampTimeout(Itoa(n)) else 1_000_000_000
    {
      ValueOfNumeral(raw, n);
      AtoiIff(raw, n);
      if FitsInt64(n) {
        AtoiOfItoa(n);
        ItoaIsText(n);
      } else if Atoi(raw).Some? {
        ValueOfNumeral(raw, Atoi(raw).value);
      }
    }
  }

  lemma ItoaIsText(n: int)
    ensures Itoa(n) != ""
  {
    hide Decimal;
  }

  /** The first run of counts past the limit, nine billion of them, asks for the longest wait and gets the shortest. */
  lemma ClampBreaksPromise(secs: int)
    requires LIMIT < secs <= 18_446_744_074
    ensures ClampTimeout(Itoa(secs)) == MIN_TIMEOUT && Promised(secs) == MAX_TIMEOUT
  {
    AtoiOfItoa(secs);
    Wrap64Residue(secs * L.SECOND);
  }

  lemma OneMoreDigit(n: nat, text: string, digit: nat, longer: string)
    requires 0 < n && digit < 10 && Decimal(n) == text && longer == text + [('0' as int + digit) as char]
    ensures Decimal(10 * n + digit) == longer
  {
    assert (10 * n + digit) / 10 == n && (10 * n + digit) % 10 == digit;
  }

  /** As the endpoint receives it: one second past the limit. */
  lemma ClampBreaksPromiseOnText()
    ensures ClampTimeout("9223372037") == MIN_TIMEOUT && Promised(9_223_372_037) == MAX_TIMEOUT
  {
    assert Decimal(9) == "9";
    hide ClampTimeout, Decimal;
    OneMoreDigit(9, "9", 2, "92");
    OneMoreDigit(92, "92", 2, "922");
    OneMoreDigit(922, "922", 3, "9223");
    OneMoreDigit(9_223, "9223", 3, "92233");
    OneMoreDigit(92_233, "92233", 7, "922337");
    OneMoreDigit(922_337, "922337", 2, "9223372");
    OneMoreDigit(9_223_372, "9223372", 0, "92233720");
    OneMoreDigit(92_233_720, "92233720", 3, "922337203");
    OneMoreDigit(922_337_203, "922337203", 7, "9223372037");
    ClampBreaksPromise(9_223_372_037);
  }

  /**
   How long a lease is granted: as asked, in nanoseconds, as far as they fit a 64-bit register; if they wrap to
   nothing or less, thirty seconds; and what the server has for standard if no time is asked for.
   */
  function GrantedFor(ttl: int, standard: int): int {
    var rest := ttl * 1_000_000_000 % TURN;
    if ttl <= 0 && 0 < standard then standard
    else if 0 < ttl && 0 < rest < TURN / 2 then rest
    else 30_000_000_000
  }

  /** The same arithmetic governs lease times to live: a request is honoured exactly when its nanoseconds fit. */
  lemma LeaseTtlHonouredIff(ttl: int, o: Options)
    ensures L.Ttl(RequestedTtl(ttl, o)) == GrantedFor(ttl, o.leaseTTL)
    ensures 0 < GrantedFor(ttl, o.leaseTTL)
    ensures 0 < ttl ==> (GrantedFor(ttl, o.leaseTTL) == ttl * 1_000_000_000 <==> ttl <= LIMIT)
  {
    Wrap64Residue(ttl * L.SECOND);
    Wrap64Exact(ttl * L.SECOND);
  }
}
