/** 256-bit token ids and their decimal form: a digit-by-digit parser, a printer that
    divides 64-bit limbs by ten to the nineteenth, and a second printer that divides
    bytes by ten. */
module TokenId {
  import opened Arith
  import opened Quotes

  const TEN_19 := 10_000_000_000_000_000_000

  const TWO_64 := 0x1_0000_0000_0000_0000

  function Pow(base: nat, n: nat): (p: nat)
    requires base > 0
    ensures p > 0
  {
    if n == 0 then 1 else base * Pow(base, n - 1)
  }

  /** The value of big-endian digits in some base. */
  function Value(base: nat, digits: seq<nat>): nat
    requires base > 0
  {
    if digits == [] then 0
    else Value(base, digits[..|digits| - 1]) * base + digits[|digits| - 1]
  }

  predicate InBase(base: nat, digits: seq<nat>) {
    forall i :: 0 <= i < |digits| ==> digits[i] < base
  }

  /** A token id: 32 big-endian bytes. */
  type Token = t: seq<nat> | |t| == 32 && InBase(256, t) witness seq(32, _ => 0)

  // ---- Decimal text ----

  predicate IsDigit(c: char) {
    '0' <= c <= '9'
  }

  predicate AllDigits(text: string) {
    forall i :: 0 <= i < |text| ==> IsDigit(text[i])
  }

  function DigitOf(c: char): nat
    requires IsDigit(c)
    ensures DigitOf(c) < 10
  {
    (c as int) - ('0' as int)
  }

  function CharOf(d: nat): (c: char)
    requires d < 10
    ensures IsDigit(c) && DigitOf(c) == d
  {
    (d + ('0' as int)) as char
  }

  /** The number a digit string denotes. */
  function Number(text: string): nat
    requires AllDigits(text)
  {
    if text == "" then 0
    else Number(text[..|text| - 1]) * 10 + DigitOf(text[|text| - 1])
  }

  /** The decimal form of a number, without leading zeros. */
  function Decimal(n: nat): (text: string)
    ensures text != "" && AllDigits(text)
  {
    if n < 10 then [CharOf(n)] else Decimal(n / 10) + [CharOf(n % 10)]
  }

  /** A digit string without its leading zeros, keeping one digit. */
  function Canonical(text: string): (c: string)
    requires text != "" && AllDigits(text)
    ensures c != "" && AllDigits(c)
  {
    if |text| > 1 && text[0] == '0' then Canonical(text[1..]) else text
  }

  // ---- Positional notation ----

  lemma {:induction false} PowAdd(base: nat, a: nat, b: nat)
    requires base > 0
    ensures Pow(base, a + b) == Pow(base, a) * Pow(base, b)
  {
    if b > 0 {
      PowAdd(base, a, b - 1);
      assert Pow(base, a) * (base * Pow(base, b - 1)) == base * (Pow(base, a) * Pow(base, b - 1));
    }
  }

  lemma {:induction false} ShiftArith(h: int, p: int, v: int, base: int)
    ensures (h * p + v) * base == h * (base * p) + v * base
  {
  }

  /** Concatenation shifts the high digits past the low ones. */
  lemma {:induction false} ValueConcat(base: nat, hi: seq<nat>, lo: seq<nat>)
    requires base > 0
    ensures Value(base, hi + lo) == Value(base, hi) * Pow(base, |lo|) + Value(base, lo)
  {
    if lo == [] {
      assert hi + lo == hi;
    } else {
      var lo' := lo[..|lo| - 1];
      assert (hi + lo)[..|hi + lo| - 1] == hi + lo';
      ValueConcat(base, hi, lo');
      ShiftArith(Value(base, hi), Pow(base, |lo'|), Value(base, lo'), base);
    }
  }

  lemma {:induction false} ValueStep(base: nat, digits: seq<nat>, digits': seq<nat>, last: nat)
    requires base > 0 && digits' == digits + [last]
    ensures Value(base, digits') == Value(base, digits) * base + last
  {
    assert digits'[..|digits' | - 1] == digits;
  }

  lemma {:induction false} BoundArith(v: int, p: int, base: int)
    requires v < p && base > 0
    ensures v * base + base <= base * p
  {
    MulLe(v + 1, p, base);
    assert (v + 1) * base == v * base + base;
  }

  lemma {:induction false} ValueBound(base: nat, digits: seq<nat>)
    requires base > 0 && InBase(base, digits)
    ensures Value(base, digits) < Pow(base, |digits|)
  {
    if digits != [] {
      var init := digits[..|digits| - 1];
      ValueBound(base, init);
      BoundArith(Value(base, init), Pow(base, |init|), base);
    }
  }

  /** Fixed-width digits are determined by their value. */
  lemma {:induction false} ValueInjective(base: nat, a: seq<nat>, b: seq<nat>)
    requires base > 0 && |a| == |b| && InBase(base, a) && InBase(base, b)
    requires Value(base, a) == Value(base, b)
    ensures a == b
  {
    if a != [] {
      var a', b' := a[..|a| - 1], b[..|b| - 1];
      var la, lb := a[|a| - 1], b[|b| - 1];
      LastDigit(base, Value(base, a'), la);
      LastDigit(base, Value(base, b'), lb);
      ValueInjective(base, a', b');
      assert a == a' + [la] && b == b' + [lb];
    }
  }

  lemma {:induction false} LastDigit(base: nat, q: nat, r: nat)
    requires base > 0 && r < base
    ensures (q * base + r) / base == q && (q * base + r) % base == r
  {
    assert (q + 1) * base == q * base + base;
    FloorIs(q * base + r, base, q);
    assert q * base + r == base * ((q * base + r) / base) + (q * base + r) % base;
    assert base * q == q * base;
  }

  // ---- Parsing ----

  /** Unicode White_Space, which surrounding text is trimmed of. */
  predicate IsWhitespace(c: char) {
    var u := c as int;
    || 0x9 <= u <= 0xD || u == 0x20 || u == 0x85 || u == 0xA0 || u == 0x1680
    || 0x2000 <= u <= 0x200A || u == 0x2028 || u == 0x2029 || u == 0x202F || u == 0x205F || u == 0x3000
  }

  function TrimStart(text: string): string {
    if text != "" && IsWhitespace(text[0]) then TrimStart(text[1..]) else text
  }

  function TrimEnd(text: string): string {
    if text != "" && IsWhitespace(text[|text| - 1]) then TrimEnd(text[..|text| - 1]) else text
  }

  function Trim(text: string): string {
    TrimEnd(TrimStart(text))
  }

  datatype ParseError = Malformed | TooLarge

  /** The whole contract of the parser. */
  ghost predicate Parses(text: string, result: Result<Token, ParseError>) {
    var value := Trim(text);
    if value == "" || !AllDigits(value) then result == Err(Malformed)
    else if Number(value) >= Pow(256, 32) then result == Err(TooLarge)
    else result.Ok? && Value(256, result.value) == Number(value)
  }

  lemma {:induction false} ParsesDeterministic(text: string, a: Result<Token, ParseError>, b: Result<Token, ParseError>)
    requires Parses(text, a) && Parses(text, b)
    ensures a == b
  {
    if a.Ok? {
      ValueInjective(256, a.value, b.value);
    }
  }

  lemma {:induction false} NumberStep(text: string, k: nat)
    requires AllDigits(text) && k < |text|
    ensures Number(text[..k + 1]) == 10 * Number(text[..k]) + DigitOf(text[k])
  {
    assert text[..k + 1][..k] == text[..k];
  }

  lemma {:induction false} NumberGrows(text: string, k: nat)
    requires AllDigits(text) && k <= |text|
    ensures Number(text[..k]) <= Number(text)
    decreases |text|
  {
    if k == |text| {
      assert text[..k] == text;
    } else {
      NumberGrows(text[..|text| - 1], k);
      assert text[..|text| - 1][..k] == text[..k];
    }
  }

  /** Multiply the bytes by ten and add a digit, in place. */
  method ShiftIn(out: array<nat>, digit: nat) returns (carry: nat)
    requires out.Length == 32 && InBase(256, out[..]) && digit < 10
    modifies out
    ensures InBase(256, out[..]) && Value(256, out[..]) < Pow(256, 32)
    ensures carry == 0 ==> Value(256, out[..]) == 10 * Value(256, old(out[..])) + digit
    ensures carry != 0 ==> Pow(256, 32) <= 10 * Value(256, old(out[..])) + digit
  {
    ghost var before := out[..];
    carry := digit;
    var i := 32;
    assert out[32..] == [] && before[32..] == [];
    while i > 0
      invariant i <= 32 && Shifting(out[..], before, i, carry, digit)
    {
      i := i - 1;
      var next := out[i] * 10 + carry;
      ghost var now := out[..];
      out[i] := next % 256;
      assert out[..] == now[i := out[i]];
      ShiftByte(now, before, out[..], i, carry, digit);
      carry := next / 256;
    }
    assert out[0..] == out[..] && before[0..] == before;
    ValueBound(256, out[..]);
    CarryOut(Value(256, out[..]), carry, Pow(256, 32));
  }

  /** The bytes from `i` on have been multiplied, and this much is carried. */
  ghost predicate Shifting(out: seq<nat>, before: seq<nat>, i: nat, carry: nat, digit: nat) {
    && |out| == |before| == 32 && i <= 32 && carry < 10
    && InBase(256, out) && out[..i] == before[..i]
    && Value(256, out[i..]) + carry * Pow(256, 32 - i) == 10 * Value(256, before[i..]) + digit
  }

  lemma {:induction false} ShiftByte(
    now: seq<nat>, before: seq<nat>, after: seq<nat>, i: nat, carry: nat, digit: nat)
    requires i < 32 && Shifting(now, before, i + 1, carry, digit)
    requires |after| == 32 && after == now[i := after[i]] && after[i] == (now[i] * 10 + carry) % 256
    ensures var next := now[i] * 10 + carry;
            next < 0x1_0000 && Shifting(after, before, i, next / 256, digit)
  {
    var next := now[i] * 10 + carry;
    assert now[i] == now[..i + 1][i] == before[..i + 1][i] == before[i];
    assert after[i..][1..] == now[i + 1..] && before[i..][1..] == before[i + 1..];
    ByteStep(after[i..], before[i..], next, carry, digit);
    assert after[..i] == now[..i + 1][..i] && before[..i] == before[..i + 1][..i];
  }

  lemma {:induction false} CarryOut(low: nat, carry: nat, p: nat)
    ensures carry == 0 ==> low + carry * p == low
    ensures carry != 0 ==> p <= low + carry * p
  {
    if carry != 0 {
      MulLe(1, carry, p);
    }
  }

  /** One byte of the carry chain. */
  lemma {:induction false} ByteStep(out: seq<nat>, before: seq<nat>, next: nat, carried: nat, digit: nat)
    requires |out| == |before| > 0
    requires next == before[0] * 10 + carried && out[0] == next % 256
    requires Value(256, out[1..]) + carried * Pow(256, |out| - 1) == 10 * Value(256, before[1..]) + digit
    ensures Value(256, out) + (next / 256) * Pow(256, |out|) == 10 * Value(256, before) + digit
  {
    var p := Pow(256, |out| - 1);
    assert out == [out[0]] + out[1..] && before == [before[0]] + before[1..];
    ValueConcat(256, [out[0]], out[1..]);
    ValueConcat(256, [before[0]], before[1..]);
    SingleDigit(out[0]);
    SingleDigit(before[0]);
    CarryArith(out[0], before[0], carried, next / 256, Value(256, out[1..]), Value(256, before[1..]), p, digit);
  }

  lemma {:induction false} CarryArith(o: int, b: int, carried: int, q: int, vo: int, vb: int, p: int, digit: int)
    requires b * 10 + carried == 256 * q + o
    requires vo + carried * p == 10 * vb + digit
    ensures o * p + vo + q * (256 * p) == 10 * (b * p + vb) + digit
  {
    assert (b * 10 + carried) * p == 10 * (b * p) + carried * p;
    assert (256 * q + o) * p == q * (256 * p) + o * p;
  }

  lemma {:induction false} SingleDigit(d: nat)
    ensures Value(256, [d]) == d
  {
    assert [d][..0] == [];
  }

  /** These bytes denote the number the first `k` digits of a text do. */
  ghost predicate Denotes(out: seq<nat>, text: string, k: nat)
    requires AllDigits(text) && k <= |text|
  {
    InBase(256, out) && Value(256, out) == Number(text[..k]) < Pow(256, 32)
  }

  lemma {:induction false} DigitRead(text: string, k: nat)
    requires AllDigits(text) && k < |text|
    ensures Number(text[..k + 1]) == 10 * Number(text[..k]) + DigitOf(text[k]) <= Number(text)
  {
    NumberStep(text, k);
    NumberGrows(text, k + 1);
  }

  /** Parse a decimal token id into 32 big-endian bytes. */
  method ParseTokenId(text: string) returns (result: Result<Token, ParseError>)
    ensures Parses(text, result)
  {
    var value := Trim(text);
    if value == "" || !AllDigits(value) {
      return Err(Malformed);
    }
    result := ReadDigits(value);
  }

  /** Read a text of digits from the left. */
  method ReadDigits(value: string) returns (result: Result<Token, ParseError>)
    requires AllDigits(value)
    ensures if Number(value) >= Pow(256, 32) then result == Err(TooLarge)
            else result.Ok? && Value(256, result.value) == Number(value)
  {
    var out := new nat[32](_ => 0);
    ZeroValue(out[..]);
    ValueBound(256, out[..]);
    for k := 0 to |value|
      invariant Denotes(out[..], value, k)
    {
      var carry := ShiftIn(out, DigitOf(value[k]));
      DigitRead(value, k);
      if carry != 0 {
        return Err(TooLarge);
      }
    }
    assert value[..|value|] == value;
    return Ok(out[..]);
  }

  lemma {:induction false} ZeroValue(digits: seq<nat>)
    requires forall i :: 0 <= i < |digits| ==> digits[i] == 0
    ensures Value(256, digits) == 0
  {
    if digits != [] {
      ZeroValue(digits[..|digits| - 1]);
    }
  }

  // ---- Printing ----

  /** The last `k` decimal digits of a number, leading zeros kept. */
  function Padded(n: nat, k: nat): (text: string)
    ensures |text| == k && AllDigits(text)
  {
    if k == 0 then "" else Padded(n / 10, k - 1) + [CharOf(n % 10)]
  }

  /** Fill a text with zeros on the left up to a width. */
  function ZeroFill(text: string, width: nat): string
    decreases width - |text|
  {
    if |text| >= width then text else ZeroFill("0" + text, width)
  }

  /** Zero-filling the decimal form yields exactly the last digits, for numbers that fit. */
  lemma {:induction false} ZeroFilledDecimal(n: nat, k: nat)
    requires k > 0 && n < Pow(10, k)
    ensures |Decimal(n)| <= k && ZeroFill(Decimal(n), k) == Padded(n, k)
  {
    if n < 10 {
      OneDigitPadded(n, k);
    } else {
      assert Pow(10, 0) == 1 && Pow(10, k) == 10 * Pow(10, k - 1);
      assert k > 1;
      ZeroFilledDecimal(n / 10, k - 1);
      ZeroFillAppend(Decimal(n / 10), CharOf(n % 10), k - 1);
    }
  }

  lemma {:induction false} OneDigitPadded(n: nat, k: nat)
    requires k > 0 && n < 10
    ensures ZeroFill([CharOf(n)], k) == Padded(n, k)
  {
    if k == 1 {
      assert Padded(n / 10, 0) == "";
    } else {
      OneDigitPadded(0, k - 1);
      assert n / 10 == 0;
      ZeroFillAppend([CharOf(0)], CharOf(n), k - 1);
      assert "0" + [CharOf(n)] == [CharOf(0)] + [CharOf(n)];
    }
  }

  /** Filling and then appending a character is appending and then filling one further. */
  lemma {:induction false} ZeroFillAppend(text: string, c: char, width: nat)
    requires |text| <= width
    ensures ZeroFill(text, width) + [c] == ZeroFill(text + [c], width + 1)
    decreases width - |text|
  {
    if |text| < width {
      ZeroFillAppend("0" + text, c, width);
      assert ("0" + text) + [c] == "0" + (text + [c]);
    }
  }

  /** A number is its high part followed by its last `k` digits, if the high part is not zero. */
  lemma {:induction false} DecimalSplit(n: nat, k: nat)
    requires n >= Pow(10, k)
    ensures n / Pow(10, k) > 0
    ensures Decimal(n) == Decimal(n / Pow(10, k)) + Padded(n % Pow(10, k), k)
  {
    if k == 0 {
      assert n / 1 == n;
      assert Decimal(n) + "" == Decimal(n);
    } else {
      var p := Pow(10, k - 1);
      assert p >= 1;
      DivideByTen(n, p);
      DecimalSplit(n / 10, k - 1);
      var high, mid, last := Decimal(n / Pow(10, k)), Padded((n / 10) % p, k - 1), [CharOf(n % 10)];
      assert (high + mid) + last == high + (mid + last);
    }
  }

  /** Dividing by ten first, and by the rest afterwards. */
  lemma {:induction false} DivideByTen(n: nat, p: nat)
    requires p >= 1 && n >= 10 * p
    ensures n >= 10 && n / 10 >= p
    ensures (n / 10) / p == n / (10 * p)
    ensures (n % (10 * p)) / 10 == (n / 10) % p
    ensures (n % (10 * p)) % 10 == n % 10
  {
    var m, d := n / 10, n % 10;
    var q, r := m / p, m % p;
    assert m == p * q + r;
    assert n == 10 * m + d;
    assert n == (10 * p) * q + (10 * r + d) by {
      assert (10 * p) * q == 10 * (p * q);
    }
    QuotientIs(n, 10 * p, q, 10 * r + d);
  }

  lemma {:induction false} QuotientIs(n: nat, d: nat, q: nat, r: nat)
    requires d > 0 && n == d * q + r && r < d
    ensures n / d == q && n % d == r
  {
    assert d * q == q * d;
    LastDigit(d, q, r);
  }

  /** One digit of a long division, on values: what was read so far and its quotient. */
  lemma {:induction false} DivisionStep(
    base: nat, divisor: nat, before: nat, quotient: nat, rem: nat, digit: nat, digit': nat, rem': nat)
    requires base > 0 && divisor > 0
    requires before == quotient * divisor + rem
    requires rem * base + digit == digit' * divisor + rem'
    ensures before * base + digit == (quotient * base + digit') * divisor + rem'
  {
    assert (quotient * divisor + rem) * base == (quotient * base) * divisor + rem * base;
    assert (quotient * base + digit') * divisor == (quotient * base) * divisor + digit' * divisor;
  }

  /** A digit of the quotient fits its base. */
  lemma {:induction false} QuotientDigit(base: nat, divisor: nat, rem: nat, digit: nat)
    requires rem < divisor && digit < base
    ensures (rem * base + digit) / divisor < base
    ensures rem * base + digit < divisor * base
  {
    MulLe(rem + 1, divisor, base);
    assert (rem + 1) * base == rem * base + base;
    assert divisor * base == base * divisor;
    FloorGe(rem * base + digit, divisor, base);
  }

  /** Divide the remainder so far and the next digit. Together they stay below divisor times
      base, which for limbs fits 128 bits, and the quotient is narrowed to the width of a digit,
      which loses nothing. */
  method DivideDigit(base: nat, divisor: nat, rem: nat, digit: nat) returns (quotient: nat, rest: nat)
    requires base > 0 && rem < divisor && digit < base
    ensures rem * base + digit < divisor * base && quotient < base && rest < divisor
    ensures rem * base + digit == quotient * divisor + rest
  {
    var cur := rem * base + digit;
    QuotientDigit(base, divisor, rem, digit);
    NarrowQuotient(base, cur / divisor);
    quotient := (cur / divisor) % base;
    rest := cur % divisor;
    assert cur == divisor * quotient + rest;
  }

  /** Long division of big-endian digits, in place: four 64-bit limbs by ten to the
      nineteenth for one printer, 32 bytes by ten for the other. */
  method DivideInPlace(digits: array<nat>, base: nat, divisor: nat) returns (rem: nat)
    requires base > 0 && divisor > 0 && InBase(base, digits[..])
    modifies digits
    ensures InBase(base, digits[..])
    ensures Value(base, digits[..]) == Value(base, old(digits[..])) / divisor
    ensures rem == Value(base, old(digits[..])) % divisor
  {
    ghost var before := digits[..];
    rem := 0;
    for i := 0 to digits.Length
      invariant |before| == digits.Length && LongDivision(base, divisor, before, digits[..], i, rem)
    {
      ghost var now := digits[..];
      var quotient, rest := DivideDigit(base, divisor, rem, digits[i]);
      LongDivisionStep(base, divisor, before, now, i, rem, quotient, rest);
      digits[i] := quotient;
      rem := rest;
      assert digits[..] == now[i := quotient];
    }
    assert before[..|before|] == before && digits[..][..|before|] == digits[..];
    LastDigit(divisor, Value(base, digits[..]), rem);
  }

  /** The first `i` digits have been divided. */
  ghost predicate LongDivision(base: nat, divisor: nat, before: seq<nat>, now: seq<nat>, i: nat, rem: nat)
    requires base > 0
  {
    && i <= |before| == |now| && rem < divisor && InBase(base, now) && now[i..] == before[i..]
    && Value(base, before[..i]) == Value(base, now[..i]) * divisor + rem
  }

  lemma {:induction false} LongDivisionStep(
    base: nat, divisor: nat, before: seq<nat>, now: seq<nat>, i: nat, rem: nat, quotient: nat, rest: nat)
    requires base > 0 && i < |before| && LongDivision(base, divisor, before, now, i, rem)
    requires quotient < base && rest < divisor && rem * base + now[i] == quotient * divisor + rest
    ensures LongDivision(base, divisor, before, now[i := quotient], i + 1, rest)
  {
    var next := now[i := quotient];
    assert now[i] == now[i..][0] == before[i..][0] == before[i];
    assert next[..i + 1] == now[..i] + [quotient] && before[..i + 1] == before[..i] + [before[i]];
    assert next[i + 1..] == now[i..][1..] && before[i + 1..] == before[i..][1..];
    ValueStep(base, now[..i], next[..i + 1], quotient);
    ValueStep(base, before[..i], before[..i + 1], before[i]);
    DivisionStep(base, divisor, Value(base, before[..i]), Value(base, now[..i]), rem, before[i], quotient, rest);
  }

  lemma {:induction false} NarrowQuotient(base: nat, q: nat)
    requires q < base
    ensures q % base == q
  {
    LastDigit(base, 0, q);
  }

  /** Digits are all zero exactly when their value is. */
  lemma {:induction false} ZeroDigits(base: nat, digits: seq<nat>)
    requires base > 0
    ensures (forall i :: 0 <= i < |digits| ==> digits[i] == 0) <==> Value(base, digits) == 0
  {
    if digits != [] {
      var init := digits[..|digits| - 1];
      ZeroDigits(base, init);
      if Value(base, init) > 0 {
        MulLe(1, Value(base, init), base);
      }
    }
  }

  /** Eight bytes at a time, the bytes of a token are its limbs. */
  lemma {:induction false} LimbsOfBytes(token: seq<nat>, limbs: seq<nat>)
    requires |token| == 32 && |limbs| == 4
    requires forall i :: 0 <= i < 4 ==> limbs[i] == Value(256, token[8 * i..8 * i + 8])
    ensures Value(TWO_64, limbs) == Value(256, token)
  {
    PowOfBytes();
    PrefixLimb(token, limbs, 1);
    PrefixLimb(token, limbs, 2);
    PrefixLimb(token, limbs, 3);
    PrefixLimb(token, limbs, 4);
    assert token[..32] == token && limbs[..4] == limbs && limbs[..0] == [] && token[..0] == [];
  }

  lemma {:induction false} PowOfBytes()
    ensures Pow(256, 8) == TWO_64
  {
    assert Pow(256, 4) == 0x1_0000_0000;
    PowAdd(256, 4, 4);
  }

  lemma {:induction false} PrefixLimb(token: seq<nat>, limbs: seq<nat>, k: nat)
    requires |token| == 32 && |limbs| == 4 && 0 < k <= 4
    requires limbs[k - 1] == Value(256, token[8 * (k - 1)..8 * (k - 1) + 8])
    ensures Value(TWO_64, limbs[..k - 1]) == Value(256, token[..8 * (k - 1)]) ==>
              Value(TWO_64, limbs[..k]) == Value(256, token[..8 * k])
  {
    PowOfBytes();
    assert limbs[..k][..k - 1] == limbs[..k - 1];
    assert token[..8 * k] == token[..8 * (k - 1)] + token[8 * (k - 1)..8 * k];
    ValueConcat(256, token[..8 * (k - 1)], token[8 * (k - 1)..8 * k]);
  }

  /** The chunks of a number, most significant last, put back together. */
  function Assemble(chunks: seq<string>): string {
    if chunks == [] then "" else Assemble(chunks[1..]) + chunks[0]
  }

  lemma {:induction false} AssembleAppend(chunks: seq<string>, c: string)
    ensures Assemble(chunks + [c]) == c + Assemble(chunks)
  {
    if chunks == [] {
      assert [c][1..] == [];
    } else {
      assert (chunks + [c])[1..] == chunks[1..] + [c];
      AssembleAppend(chunks[1..], c);
      assert (c + Assemble(chunks[1..])) + chunks[0] == c + (Assemble(chunks[1..]) + chunks[0]);
    }
  }

  /** Big-endian limbs of a token. */
  method ToLimbs(token: Token) returns (limbs: array<nat>)
    ensures fresh(limbs) && limbs.Length == 4 && InBase(TWO_64, limbs[..])
    ensures Value(TWO_64, limbs[..]) == Value(256, token)
  {
    limbs := new nat[4](_ => 0);
    PowOfBytes();
    for i := 0 to 4
      invariant InBase(TWO_64, limbs[..])
      invariant forall k :: 0 <= k < i ==> limbs[k] == Value(256, token[8 * k..8 * k + 8])
    {
      ValueBound(256, token[8 * i..8 * i + 8]);
      limbs[i] := Value(256, token[8 * i..8 * i + 8]);
    }
    LimbsOfBytes(token, limbs[..]);
  }

  method AllZero(digits: array<nat>) returns (zero: bool)
    ensures zero <==> forall i :: 0 <= i < digits.Length ==> digits[i] == 0
  {
    for i := 0 to digits.Length
      invariant forall k :: 0 <= k < i ==> digits[k] == 0
    {
      if digits[i] != 0 {
        return false;
      }
    }
    return true;
  }

  /** Print a token id nineteen digits at a time: exactly its decimal form. */
  method ToDecimal(token: Token) returns (text: string)
    ensures text == Decimal(Value(256, token))
  {
    var limbs := ToLimbs(token);
    var chunks: seq<string> := [];
    ghost var n := Value(256, token);
    ghost var v := n;
    Pow19();
    while true
      invariant InBase(TWO_64, limbs[..]) && Value(TWO_64, limbs[..]) == v
      invariant Printed(n, v, chunks)
      decreases v
    {
      var rem := DivideInPlace(limbs, TWO_64, TEN_19);
      var zero := AllZero(limbs);
      ZeroDigits(TWO_64, limbs[..]);
      if zero {
        var leading := if rem == 0 && chunks == [] then "0" else Decimal(rem);
        LastChunk(n, v, rem, chunks, leading);
        chunks := chunks + [leading];
        break;
      }
      ChunkAssembles(n, v, rem, chunks);
      chunks := chunks + [ZeroFill(Decimal(rem), 19)];
      v := v / TEN_19;
    }
    text := Assemble(chunks);
  }

  /** The chunks printed and the number left make up the whole. */
  ghost predicate Printed(n: nat, v: nat, chunks: seq<string>) {
    if chunks == [] then v == n else v > 0 && Decimal(n) == Decimal(v) + Assemble(chunks)
  }

  /** The leading chunk completes the text. */
  lemma {:induction false} LastChunk(n: nat, v: nat, rem: nat, chunks: seq<string>, leading: string)
    requires Printed(n, v, chunks) && v / TEN_19 == 0 && rem == v % TEN_19
    requires leading == if rem == 0 && chunks == [] then "0" else Decimal(rem)
    ensures Assemble(chunks + [leading]) == Decimal(n)
  {
    AssembleAppend(chunks, leading);
  }

  /** Putting a full chunk in front keeps what the chunks stand for. */
  lemma {:induction false} ChunkAssembles(n: nat, v: nat, rem: nat, chunks: seq<string>)
    requires v / TEN_19 > 0 && rem == v % TEN_19
    requires Printed(n, v, chunks)
    ensures v / TEN_19 < v && Printed(n, v / TEN_19, chunks + [ZeroFill(Decimal(rem), 19)])
  {
    ChunkSplits(v);
    ZeroFilledDecimal(rem, 19);
    AssembleAppend(chunks, Padded(rem, 19));
    ConcatAssoc(Decimal(v / TEN_19), Padded(rem, 19), Assemble(chunks));
    if chunks == [] {
      assert Padded(rem, 19) + Assemble(chunks) == Padded(rem, 19);
    }
  }

  lemma {:induction false} ConcatAssoc(a: string, b: string, c: string)
    ensures (a + b) + c == a + (b + c)
  {
  }

  lemma {:induction false} Pow19()
    ensures Pow(10, 19) == TEN_19
  {
    assert Pow(10, 4) == 10_000;
    PowAdd(10, 4, 4);
    PowAdd(10, 8, 8);
    assert Pow(10, 3) == 1_000;
    PowAdd(10, 16, 3);
  }

  /** A full chunk of nineteen digits splits off the end of a number that does not fit one. */
  lemma {:induction false} ChunkSplits(v: nat)
    requires v / TEN_19 > 0
    ensures Decimal(v) == Decimal(v / TEN_19) + Padded(v % TEN_19, 19)
    ensures v % TEN_19 < Pow(10, 19) && v / TEN_19 < v
  {
    Pow19();
    DecimalSplit(v, 19);
  }

  function Reverse(text: string): string {
    if text == "" then "" else Reverse(text[1..]) + [text[0]]
  }

  lemma {:induction false} ReverseAppend(text: string, c: char)
    ensures Reverse(text + [c]) == [c] + Reverse(text)
  {
    if text == "" {
      assert [c][1..] == "";
    } else {
      assert (text + [c])[1..] == text[1..] + [c];
      ReverseAppend(text[1..], c);
    }
  }

  /** Print a token id one digit at a time: the same decimal form. */
  method ToDecimalBytewise(token: Token) returns (text: string)
    ensures text == Decimal(Value(256, token))
  {
    var value := new nat[32](i requires 0 <= i < 32 => token[i]);
    assert value[..] == token;
    var digits: string := "";
    ghost var n := Value(256, token);
    ghost var v := n;
    while true
      invariant InBase(256, value[..]) && Value(256, value[..]) == v
      invariant digits == "" ==> v == n
      invariant digits != "" ==> v > 0 && Decimal(n) == Decimal(v) + Reverse(digits)
      decreases v
    {
      var rem := DivideInPlace(value, 256, 10);
      ReverseAppend(digits, CharOf(rem));
      ghost var before := digits;
      digits := digits + [CharOf(rem)];
      var zero := AllZero(value);
      ZeroDigits(256, value[..]);
      if zero {
        assert v == rem;
        assert Decimal(n) == Reverse(digits);
        LastIsLeading(v, before, digits);
        break;
      }
      assert (Decimal(v / 10) + [CharOf(rem)]) + Reverse(before) == Decimal(v / 10) + ([CharOf(rem)] + Reverse(before));
      v := v / 10;
    }
    digits := StripTrailing(digits);
    text := Reverse(digits);
  }

  function WithoutTrailing(digits: string): string {
    if |digits| > 1 && digits[|digits| - 1] == '0' then WithoutTrailing(digits[..|digits| - 1]) else digits
  }

  /** Drop trailing zeros, keeping one digit. */
  method StripTrailing(digits: string) returns (stripped: string)
    ensures stripped == WithoutTrailing(digits)
  {
    stripped := digits;
    while |stripped| > 1 && stripped[|stripped| - 1] == '0'
      invariant WithoutTrailing(stripped) == WithoutTrailing(digits)
    {
      stripped := stripped[..|stripped| - 1];
    }
  }

  /** The last digit collected is the leading one, and it is not a zero to be stripped. */
  lemma {:induction false} LastIsLeading(v: nat, before: string, digits: string)
    requires v < 10 && digits == before + [CharOf(v)] && (before != "" ==> v > 0)
    ensures |digits| > 1 ==> digits[|digits| - 1] != '0'
  {
  }

  // ---- Round trips ----

  lemma {:induction false} NumberOfDecimal(n: nat)
    ensures Number(Decimal(n)) == n
  {
    if n < 10 {
      assert [CharOf(n)][..0] == "";
    } else {
      NumberOfDecimal(n / 10);
      assert Decimal(n)[..|Decimal(n)| - 1] == Decimal(n / 10);
    }
  }

  lemma {:induction false} DigitsAreTrimmed(text: string)
    requires AllDigits(text)
    ensures Trim(text) == text
  {
  }

  /** Parsing the printed form of any token id gives it back. */
  lemma {:induction false} PrintThenParse(token: Token, result: Result<Token, ParseError>)
    requires Parses(Decimal(Value(256, token)), result)
    ensures result == Ok(token)
  {
    var text := Decimal(Value(256, token));
    DigitsAreTrimmed(text);
    NumberOfDecimal(Value(256, token));
    ValueBound(256, token);
    ValueInjective(256, token, result.value);
  }

  /** A leading zero changes nothing. */
  lemma {:induction false} NumberSkipsZero(text: string)
    requires text != "" && AllDigits(text) && text[0] == '0'
    ensures Number(text) == Number(text[1..])
    decreases |text|
  {
    if |text| == 1 {
      assert text[..0] == "" && text[1..] == "";
    } else {
      var init := text[..|text| - 1];
      NumberSkipsZero(init);
      assert text[1..][..|text[1..]| - 1] == init[1..];
    }
  }

  lemma {:induction false} CharOfDigit(c: char)
    requires IsDigit(c)
    ensures CharOf(DigitOf(c)) == c
  {
    assert (CharOf(DigitOf(c)) as int) == (c as int);
  }

  /** A digit string without a leading zero is the decimal form of its number. */
  lemma {:induction false} DecimalOfNumber(text: string)
    requires text != "" && AllDigits(text) && (|text| > 1 ==> text[0] != '0')
    ensures Decimal(Number(text)) == text
    ensures text[0] != '0' ==> Number(text) > 0
  {
    var init, last := text[..|text| - 1], text[|text| - 1];
    if |text| == 1 {
      assert init == "" && text == [last];
      CharOfDigit(last);
      assert Number(init) == 0;
      assert Number(text) == DigitOf(last);
    } else {
      assert init[0] == text[0];
      DecimalOfNumber(init);
      LastDigit(10, Number(init), DigitOf(last));
      DecimalAppend(Number(init), last, Number(text));
      assert text == init + [last];
    }
  }

  lemma {:induction false} DecimalAppend(n: nat, last: char, m: nat)
    requires n > 0 && IsDigit(last) && m / 10 == n && m % 10 == DigitOf(last)
    ensures Decimal(m) == Decimal(n) + [last]
  {
    assert m >= 10;
    CharOfDigit(last);
  }

  lemma {:induction false} DecimalIsCanonical(text: string)
    requires text != "" && AllDigits(text)
    ensures Decimal(Number(text)) == Canonical(text)
  {
    if |text| > 1 && text[0] == '0' {
      NumberSkipsZero(text);
      DecimalIsCanonical(text[1..]);
    } else {
      DecimalOfNumber(text);
    }
  }

  /** Printing a parsed text gives it back without surrounding space and leading zeros. */
  lemma {:induction false} ParseThenPrint(text: string, result: Result<Token, ParseError>)
    requires Parses(text, result) && result.Ok?
    ensures Decimal(Value(256, result.value)) == Canonical(Trim(text))
  {
    DecimalIsCanonical(Trim(text));
  }
}
