/**
 * The one-time passwords of src/auth/totp.ts: section 5.3 of RFC 4226 for one code, section 5.2 of
 * RFC 6238 for the window. HMAC-SHA-1 is any function with a twenty-byte result.
 */
module Totp {
  import opened Prelude
  import opened Base32

  const DIGITS := 6
  const STEP_MS := 30_000
  const WINDOW := 1
  const COUNTERS := 0x1_0000_0000_0000_0000

  type Digest = d: seq<bv8> | |d| == 20 witness [0, 0, 0, 0, 0, 0, 0, 0, 0, 0, 0, 0, 0, 0, 0, 0, 0, 0, 0, 0]
  type Mac = (seq<Byte>, seq<Byte>) -> Digest

  // ---- what a code is ----

  /** The n low bytes of a number, most significant first. */
  function BigEndian(v: nat, n: nat): (bytes: seq<Byte>)
    ensures |bytes| == n
  {
    if n == 0 then [] else BigEndian(v / 256, n - 1) + [v % 256]
  }

  /** The n low decimal digits of a number, most significant first. */
  function Decimals(v: nat, n: nat): (text: string)
    ensures |text| == n
    ensures forall i :: 0 <= i < n ==> IsDigit(text[i])
  {
    if n == 0 then [] else Decimals(v / 10, n - 1) + [DigitChar(v % 10)]
  }

  predicate IsDigit(ch: char) {
    '0' <= ch <= '9'
  }

  function DigitChar(d: nat): char
    requires d < 10
  {
    ('0' as int + d) as char
  }

  /** The last 31 bits of the four bytes at the offset that the last four bits of the digest name. */
  function Truncate(d: Digest): (n: nat)
    ensures n < 0x8000_0000
  {
    var o := d[19] as int % 16;
    (d[o] as int * 0x100_0000 + d[o + 1] as int * 0x1_0000 + d[o + 2] as int * 0x100 + d[o + 3] as int) % 0x8000_0000
  }

  /** The example of section 5.4 of RFC 4226. */
  lemma StandardExample(mac: Mac, key: seq<Byte>, counter: nat)
    requires mac(key, BigEndian(counter, 8)) == [0x1f, 0x86, 0x98, 0x69, 0x0e, 0x02, 0xca, 0x16, 0x61, 0x85,
                                                 0x50, 0xef, 0x7f, 0x19, 0xda, 0x8e, 0x94, 0x5b, 0x55, 0x5a]
    ensures Truncate(mac(key, BigEndian(counter, 8))) == 0x50ef7f19
    ensures Code(mac, key, counter) == "872921"
  {
    hide BigEndian, Decimals;
    var d := mac(key, BigEndian(counter, 8));
    assert d[19] as int % 16 == 10;
    assert d[10] as int == 0x50 && d[11] as int == 0xef && d[12] as int == 0x7f && d[13] as int == 0x19;
    SixDecimals(872921);
  }

  /** A six-digit text says its number. */
  lemma SixDecimals(v: nat)
    ensures Decimals(v, 6) == [DigitChar(v / 100_000 % 10), DigitChar(v / 10_000 % 10), DigitChar(v / 1000 % 10),
                               DigitChar(v / 100 % 10), DigitChar(v / 10 % 10), DigitChar(v % 10)]
  {
    hide DigitChar, Decimals;
    var a, b, c, d, e := v / 10, v / 10 / 10, v / 10 / 10 / 10, v / 10 / 10 / 10 / 10, v / 10 / 10 / 10 / 10 / 10;
    assert b == v / 100 && c == v / 1000 && d == v / 10_000 && e == v / 100_000;
    NoDecimals(e / 10);
    OneMoreDecimal(e, 0);
    OneMoreDecimal(d, 1);
    OneMoreDecimal(c, 2);
    OneMoreDecimal(b, 3);
    OneMoreDecimal(a, 4);
    OneMoreDecimal(v, 5);
  }

  lemma NoDecimals(v: nat)
    ensures Decimals(v, 0) == []
  {
  }

  lemma OneMoreDecimal(v: nat, n: nat)
    ensures Decimals(v, n + 1) == Decimals(v / 10, n) + [DigitChar(v % 10)]
  {
  }

  function Code(mac: Mac, key: seq<Byte>, counter: nat): string {
    Decimals(Truncate(mac(key, BigEndian(counter, 8))) % 1_000_000, DIGITS)
  }

  // ---- how the source computes it ----

  /** Node's writeUInt32BE: false is its RangeError. */
  method WriteUInt32BE(buf: array<Byte>, value: int, offset: nat) returns (ok: bool)
    requires offset + 4 <= buf.Length
    modifies buf
    ensures ok <==> 0 <= value < WORD
    ensures forall i :: 0 <= i < buf.Length && !(offset <= i < offset + 4) ==> buf[i] == old(buf[i])
    ensures ok ==> buf[offset..offset + 4] == BigEndian(value, 4)
  {
    if !(0 <= value < WORD) {
      return false;
    }
    buf[offset] := value / 0x100_0000;
    buf[offset + 1] := value / 0x1_0000 % 256;
    buf[offset + 2] := value / 0x100 % 256;
    buf[offset + 3] := value % 256;
    FourBytes(value);
    return true;
  }

  lemma FourBytes(v: nat)
    ensures BigEndian(v, 4) == [v / 0x100_0000 % 256, v / 0x1_0000 % 256, v / 0x100 % 256, v % 256]
  {
    hide BigEndian;
    var a, b, c := v / 256, v / 256 / 256, v / 256 / 256 / 256;
    assert a == v / 0x100 && b == v / 0x1_0000 && c == v / 0x100_0000;
    NoBytes(c / 256);
    OneMoreByte(c, 0);
    OneMoreByte(b, 1);
    OneMoreByte(a, 2);
    OneMoreByte(v, 3);
  }

  lemma NoBytes(v: nat)
    ensures BigEndian(v, 0) == []
  {
  }

  lemma OneMoreByte(v: nat, n: nat)
    ensures BigEndian(v, n + 1) == BigEndian(v / 256, n) + [v % 256]
  {
  }

  function Down(v: nat, n: nat): nat
    decreases n
  {
    if n == 0 then v else Down(v / 256, n - 1)
  }

  lemma {:induction false} BigEndianSplit(v: nat, m: nat, n: nat)
    ensures BigEndian(v, m + n) == BigEndian(Down(v, n), m) + BigEndian(v, n)
    decreases n
  {
    hide BigEndian;
    if n == 0 {
      NoBytes(v);
    } else {
      BigEndianSplit(v / 256, m, n - 1);
      OneMoreByte(v, m + n - 1);
      OneMoreByte(v, n - 1);
    }
  }

  lemma DownFour(v: nat)
    ensures Down(v, 4) == v / WORD
  {
    assert Down(v, 4) == Down(v / 256, 3) == Down(v / 256 / 256, 2) == Down(v / 256 / 256 / 256, 1);
    assert Down(v / 256 / 256 / 256, 1) == Down(v / 256 / 256 / 256 / 256, 0);
  }

  lemma LowByte(k: nat, x: nat)
    ensures (256 * k + x) % 256 == x % 256
  {
  }

  lemma LowFour(v: nat)
    ensures BigEndian(v % WORD, 4) == BigEndian(v, 4)
  {
    hide BigEndian;
    var q, r := v / WORD, v % WORD;
    FourBytes(v);
    FourBytes(r);
    LowByte(q, r / 0x100_0000);
    LowByte(0x100 * q, r / 0x1_0000);
    LowByte(0x1_0000 * q, r / 0x100);
    LowByte(0x100_0000 * q, r);
    Quotients(v);
  }

  lemma Quotients(v: nat)
    ensures var q, r := v / WORD, v % WORD;
            && v / 0x100_0000 == 256 * q + r / 0x100_0000
            && v / 0x1_0000 == 256 * (0x100 * q) + r / 0x1_0000
            && v / 0x100 == 256 * (0x1_0000 * q) + r / 0x100
            && v == 256 * (0x100_0000 * q) + r
  {
  }

  /** Eight bytes written as two 32-bit halves. */
  lemma Halves(v: nat)
    ensures BigEndian(v, 8) == BigEndian(v / WORD, 4) + BigEndian(v % WORD, 4)
  {
    hide BigEndian, Down;
    BigEndianSplit(v, 4, 4);
    DownFour(v);
    LowFour(v);
  }

  /** `String(n)` */
  function ToString(v: nat): (text: string)
    ensures |text| > 0
  {
    if v < 10 then [DigitChar(v)] else ToString(v / 10) + [DigitChar(v % 10)]
  }

  function PadStart(text: string, width: nat): (padded: string)
    decreases width - |text|
  {
    if |text| >= width then text else PadStart(['0'] + text, width)
  }

  lemma {:induction false} PadSnoc(text: string, ch: char, width: nat)
    ensures PadStart(text + [ch], width + 1) == PadStart(text, width) + [ch]
    decreases width - |text|
  {
    if |text| < width {
      assert ['0'] + (text + [ch]) == (['0'] + text) + [ch];
      PadSnoc(['0'] + text, ch, width);
    }
  }

  function Pow10(n: nat): nat {
    if n == 0 then 1 else 10 * Pow10(n - 1)
  }

  lemma {:induction false} ZerosAllTheWay(width: nat)
    ensures PadStart(['0'], width + 1) == Decimals(0, width + 1)
  {
    if width == 0 {
      assert Decimals(0, 0) == [];
    } else {
      ZerosAllTheWay(width - 1);
      assert ['0'] + ['0'] == ['0', '0'];
      PadSnoc(['0'], '0', width);
      assert PadStart(['0'], width + 1) == PadStart(['0', '0'], width + 1);
    }
  }

  /** Printing and padding gives the low digits when the number has no more than that many. */
  lemma {:induction false} PaddedDecimal(v: nat, width: nat)
    requires v < Pow10(width + 1)
    ensures PadStart(ToString(v), width + 1) == Decimals(v, width + 1)
    decreases width
  {
    if v < 10 {
      PadOneDigit(v, width);
    } else {
      PaddedDecimal(v / 10, width - 1);
      PadSnoc(ToString(v / 10), DigitChar(v % 10), width);
    }
  }

  lemma PadOneDigit(v: nat, width: nat)
    requires v < 10
    ensures PadStart([DigitChar(v)], width + 1) == Decimals(v, width + 1)
  {
    assert Decimals(v, width + 1) == Decimals(0, width) + [DigitChar(v)];
    if width > 0 {
      ZerosAllTheWay(width - 1);
      PadSnoc(['0'], DigitChar(v), width);
      assert ['0'] + [DigitChar(v)] == ['0', DigitChar(v)];
      assert PadStart([DigitChar(v)], width + 1) == PadStart(['0', DigitChar(v)], width + 1);
    }
  }

  /** The masks, shifts and ors of the source read the same 31-bit number as the standard. */
  lemma MaskAndShift(a: bv8, b: bv8, c: bv8, d: bv8)
    ensures (((a & 0x7f) as bv32 << 24) | (b as bv32 << 16) | (c as bv32 << 8) | d as bv32) as int
         == a as int % 128 * 0x100_0000 + b as int * 0x1_0000 + c as int * 0x100 + d as int
  {
  }

  /** The offset is at most fifteen, so all four bytes lie inside the digest. */
  method DynamicTruncation(digest: Digest) returns (binary: bv32)
    ensures binary as int == Truncate(digest)
  {
    var offset := (digest[|digest| - 1] & 0x0f) as int;
    LowNibble(digest[19]);
    binary := ((digest[offset] & 0x7f) as bv32 << 24) | (digest[offset + 1] as bv32 << 16)
              | (digest[offset + 2] as bv32 << 8) | digest[offset + 3] as bv32;
    MaskAndShift(digest[offset], digest[offset + 1], digest[offset + 2], digest[offset + 3]);
    LastBits(digest[offset] as int, digest[offset + 1] as int, digest[offset + 2] as int, digest[offset + 3] as int);
  }

  lemma LowNibble(b: bv8)
    ensures (b & 0x0f) as int == b as int % 16
  {
  }

  lemma LastBits(a: nat, b: nat, c: nat, d: nat)
    requires b < 256 && c < 256 && d < 256
    ensures (a * 0x100_0000 + b * 0x1_0000 + c * 0x100 + d) % 0x8000_0000
         == a % 128 * 0x100_0000 + b * 0x1_0000 + c * 0x100 + d
  {
  }

  /** None of a negative or too large counter: the write of its bytes throws. */
  method Hotp(mac: Mac, secret: seq<Byte>, counter: int) returns (r: Outcome<string>)
    ensures r == if 0 <= counter < COUNTERS then Answer(Code(mac, secret, counter)) else Failure
  {
    hide BigEndian, Truncate, Decimals, PadStart, ToString;
    var buf := new Byte[8](_ => 0);
    var ok := WriteUInt32BE(buf, counter / WORD, 0);
    if !ok {
      return Failure;
    }
    ghost var high := buf[..4];
    ok := WriteUInt32BE(buf, counter % WORD, 4);
    Halves(counter);
    assert buf[..] == high + buf[4..8];
    var digest := mac(secret, buf[..]);
    var binary := DynamicTruncation(digest);
    var code := binary as int % 1_000_000;
    assert Pow10(6) == 1_000_000;
    PaddedDecimal(code, 5);
    return Answer(PadStart(ToString(code), DIGITS));
  }

  // ---- checking a code ----

  /** `text.replace(/\D/g, '')`, on the first n characters. */
  function DigitsTo(text: string, n: nat): (digits: string)
    requires n <= |text|
    ensures forall i :: 0 <= i < |digits| ==> IsDigit(digits[i])
  {
    if n == 0 then [] else DigitsTo(text, n - 1) + if IsDigit(text[n - 1]) then [text[n - 1]] else []
  }

  function DigitsOf(text: string): string {
    DigitsTo(text, |text|)
  }

  /** Cleaning a code keeps all its digits, in their order, and nothing else. */
  lemma {:induction false} DigitsKept(text: string, n: nat) returns (at: seq<nat>)
    requires n <= |text|
    ensures |at| == |DigitsTo(text, n)|
    ensures forall k :: 0 <= k < |at| ==> at[k] < n && DigitsTo(text, n)[k] == text[at[k]]
    ensures forall j, k :: 0 <= j < k < |at| ==> at[j] < at[k]
    ensures forall i :: 0 <= i < n ==> (i in at <==> '0' <= text[i] <= '9')
  {
    at := [];
    if n > 0 {
      at := DigitsKept(text, n - 1);
      if IsDigit(text[n - 1]) {
        at := at + [n - 1];
      }
    }
  }

  /** Which half-minute a time falls in; before 1970 the number is negative. */
  function Step(nowMs: int): int {
    nowMs / STEP_MS
  }

  ghost predicate Shown(mac: Mac, key: seq<Byte>, digits: string, step: int) {
    0 <= step && digits == Code(mac, key, step)
  }

  /** Every counter the window tries can be written as 64 bits. */
  predicate Countable(step: int) {
    WINDOW <= step < COUNTERS - WINDOW
  }

  /** What the check must say: the code is shown now, or one step either side. */
  ghost function Verdict(mac: Mac, key: seq<Byte>, code: string, nowMs: int): Outcome<bool> {
    if |DigitsOf(code)| != DIGITS || key == [] then Answer(false)
    else if !Countable(Step(nowMs)) then Failure
    else Answer(exists step :: Step(nowMs) - WINDOW <= step <= Step(nowMs) + WINDOW
                               && Shown(mac, key, DigitsOf(code), step))
  }

  method VerifyTotp(mac: Mac, upper: Upper, secretBase32: string, code: string, nowMs: int) returns (r: Outcome<bool>)
    ensures exists key: seq<Byte> :: Decodes(upper, secretBase32, key) && r == Verdict(mac, key, code, nowMs)
  {
    hide Code, Decodes, DigitsOf;
    var secret := Base32Decode(upper, secretBase32);
    var clean := DigitsOf(code);
    if |clean| != DIGITS || |secret| == 0 {
      return Answer(false);
    }
    var counter := Step(nowMs);
    var matched := false;
    for drift := -WINDOW to WINDOW + 1
      invariant drift > -WINDOW ==> WINDOW <= counter
      invariant drift == WINDOW + 1 ==> counter + WINDOW < COUNTERS
      invariant matched <==>
                exists step :: counter - WINDOW <= step < counter + drift && Shown(mac, secret, clean, step)
    {
      var expected := Hotp(mac, secret, counter + drift);
      if expected == Failure {
        return Failure;
      }
      if expected.value == clean {
        assert Shown(mac, secret, clean, counter + drift);
        matched := true;
      }
    }
    return Answer(matched);
  }

  // ---- what follows ----

  /** Six decimal digits, whatever the key and the counter. */
  lemma CodesAreSixDigits(mac: Mac, key: seq<Byte>, counter: nat)
    ensures |Code(mac, key, counter)| == DIGITS && DigitsOf(Code(mac, key, counter)) == Code(mac, key, counter)
  {
    DigitsStay(Code(mac, key, counter), DIGITS);
  }

  lemma {:induction false} DigitsStay(text: string, n: nat)
    requires n <= |text| && forall i :: 0 <= i < |text| ==> IsDigit(text[i])
    ensures DigitsTo(text, n) == text[..n]
  {
    if n > 0 {
      DigitsStay(text, n - 1);
    }
  }

  /** Different numbers below a million are different codes: nothing is lost in printing. */
  lemma {:induction false} DecimalsInjective(a: nat, b: nat, n: nat)
    requires a < Pow10(n) && b < Pow10(n) && Decimals(a, n) == Decimals(b, n)
    ensures a == b
  {
    if n > 0 {
      assert Decimals(a, n)[..n - 1] == Decimals(a / 10, n - 1) && Decimals(b, n)[..n - 1] == Decimals(b / 10, n - 1);
      assert Decimals(a, n)[n - 1] == Decimals(b, n)[n - 1];
      DecimalsInjective(a / 10, b / 10, n - 1);
    }
  }

  /** Two 64-bit counters have different eight bytes. */
  lemma {:induction false} BigEndianInjective(a: nat, b: nat, n: nat)
    requires BigEndian(a, n) == BigEndian(b, n) && Down(a, n) == 0 && Down(b, n) == 0
    ensures a == b
  {
    if n > 0 {
      assert BigEndian(a, n)[..n - 1] == BigEndian(a / 256, n - 1)
             && BigEndian(b, n)[..n - 1] == BigEndian(b / 256, n - 1);
      assert BigEndian(a, n)[n - 1] == BigEndian(b, n)[n - 1];
      BigEndianInjective(a / 256, b / 256, n - 1);
    }
  }

  lemma {:induction false} DownTwice(v: nat, m: nat, n: nat)
    ensures Down(v, m + n) == Down(Down(v, m), n)
    decreases m
  {
    if m > 0 {
      DownTwice(v / 256, m - 1, n);
    }
  }

  /**
   * What a collision takes: two counters never send the same message, and their codes agree exactly when
   * the truncated digests agree modulo a million.
   */
  lemma CollisionIff(mac: Mac, key: seq<Byte>, a: nat, b: nat)
    requires a < COUNTERS && b < COUNTERS && a != b
    ensures BigEndian(a, 8) != BigEndian(b, 8)
    ensures Code(mac, key, a) == Code(mac, key, b)
       <==> Truncate(mac(key, BigEndian(a, 8))) % 1_000_000 == Truncate(mac(key, BigEndian(b, 8))) % 1_000_000
  {
    hide BigEndian, Down, Decimals, Truncate;
    DownTwice(a, 4, 4);
    DownTwice(b, 4, 4);
    DownFour(a);
    DownFour(b);
    DownFour(a / WORD);
    DownFour(b / WORD);
    if BigEndian(a, 8) == BigEndian(b, 8) {
      BigEndianInjective(a, b, 8);
    }
    if Code(mac, key, a) == Code(mac, key, b) {
      assert Pow10(6) == 1_000_000;
      DecimalsInjective(Truncate(mac(key, BigEndian(a, 8))) % 1_000_000,
          Truncate(mac(key, BigEndian(b, 8))) % 1_000_000, 6);
    }
  }

  /** The check throws exactly in the first half-minute of 1970 or before, or at the very end of 64 bits. */
  lemma ThrowsIff(mac: Mac, key: seq<Byte>, code: string, nowMs: int)
    ensures Verdict(mac, key, code, nowMs) == Failure
       <==> |DigitsOf(code)| == DIGITS && key != [] && !(30_000 <= nowMs < 30_000 * (0x1_0000_0000_0000_0000 - 1))
  {
  }

  /** The step of `later` differs from the step of `shownAt`, yet some step in its window shows the same code. */
  ghost predicate Collides(mac: Mac, key: seq<Byte>, shownAt: int, later: int)
    requires 0 <= shownAt
  {
    exists step :: Step(later) - WINDOW <= step <= Step(later) + WINDOW && step != Step(shownAt)
                   && Shown(mac, key, Code(mac, key, Step(shownAt)), step)
  }

  /**
   * A code shown at one time is accepted at another exactly when the steps are at most one apart, or by a collision.
   */
  lemma AcceptedIff(mac: Mac, key: seq<Byte>, shownAt: int, now: int)
    requires key != [] && 0 <= shownAt && Countable(Step(now))
    ensures Verdict(mac, key, Code(mac, key, Step(shownAt)), now) == Answer(true)
       <==> -1 <= Step(now) - Step(shownAt) <= 1 || Collides(mac, key, shownAt, now)
  {
    hide Code, DigitsOf;
    CodesAreSixDigits(mac, key, Step(shownAt));
    assert Shown(mac, key, Code(mac, key, Step(shownAt)), Step(shownAt));
  }

  /** Within thirty seconds of its time a code is always accepted. */
  lemma AcceptedWithinThirtySeconds(mac: Mac, key: seq<Byte>, shownAt: int, now: int)
    requires key != [] && 0 <= shownAt && Countable(Step(now))
    requires -30_000 <= now - shownAt <= 30_000
    ensures Verdict(mac, key, Code(mac, key, Step(shownAt)), now) == Answer(true)
  {
    AcceptedIff(mac, key, shownAt, now);
  }

  /** A minute or more away it is accepted only if another counter happens to show the same six digits. */
  lemma RefusedAfterAMinute(mac: Mac, key: seq<Byte>, shownAt: int, now: int)
    requires key != [] && 0 <= shownAt && Countable(Step(now))
    requires now - shownAt >= 60_000 || shownAt - now >= 60_000
    ensures Verdict(mac, key, Code(mac, key, Step(shownAt)), now) == Answer(true) <==> Collides(mac, key, shownAt, now)
  {
    AcceptedIff(mac, key, shownAt, now);
  }
}
