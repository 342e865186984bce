/**
 * The base32 codec of src/auth/totp.ts (section 6 of RFC 4648).
 *
 * The accumulators of the source are 32-bit words that are shifted left for ever and never masked.
 * A word is modelled as a number below 2^32: shifting left multiplies and wraps, shifting right
 * divides, `&` with a low mask takes a remainder, and `|` adds, because the bits shifted in are zero.
 */
module Base32 {
  import opened Prelude

  const B32 := "ABCDEFGHIJKLMNOPQRSTUVWXYZ234567"
  const WORD := 0x1_0000_0000

  type Byte = b: nat | b < 256
  type Digit = d: nat | d < 32

  /** The reading of `&`, `|` and the constant shifts above, on real 32-bit words. */
  lemma WordOperators(v: bv32, b: bv32, d: bv32)
    requires b < 256 && d < 32
    ensures (v << 8) | b == v * 256 + b && (v << 5) | d == v * 32 + d
    ensures v & 31 == v % 32 && v & 255 == v % 256
    ensures v >> 1 == v / 2 && v >> 4 == v / 16 && v >> 7 == v / 128
  {
  }

  /**
   * On real words a shift by any number of places goes one place at a time. One place doubles, the top bit lost, or
   * halves: that is how `Shl` and `Shr` are defined.
   */
  lemma WordShifts(v: bv32, n: bv32)
    requires n < 31
    ensures v << (n + 1) == (v << 1) << n && v >> (n + 1) == (v >> 1) >> n
  {
  }

  lemma OnePlace(v: bv32)
    ensures v << 0 == v && v >> 0 == v && v << 1 == v * 2 && v >> 1 == v / 2
  {
  }

  /** `v << n`, one place at a time, as `WordShifts` says. */
  function Shl(v: nat, n: nat): nat
    decreases n
  {
    if n == 0 then v else Shl(v * 2 % WORD, n - 1)
  }

  /** `v >>> n`, one place at a time, as `WordShifts` says. */
  function Shr(v: nat, n: nat): nat
    decreases n
  {
    if n == 0 then v else Shr(v / 2, n - 1)
  }

  // ---- strings of bits, most significant first ----

  /** The low k bits of a number. */
  function LowBits(v: nat, k: nat): (bits: seq<bool>)
    ensures |bits| == k
  {
    if k == 0 then [] else LowBits(v / 2, k - 1) + [v % 2 == 1]
  }

  lemma LowBitsStep(v: nat, k: nat)
    ensures LowBits(v, k + 1) == LowBits(v / 2, k) + [v % 2 == 1]
  {
  }

  lemma NoBits(v: nat)
    ensures LowBits(v, 0) == []
  {
  }

  /** The bits of the first n numbers of a row, `width` bits each. */
  function BitsTo(words: seq<nat>, n: nat, width: nat): (bits: seq<bool>)
    requires n <= |words|
    ensures |bits| == width * n
  {
    if n == 0 then [] else BitsTo(words, n - 1, width) + LowBits(words[n - 1], width)
  }

  function BitsOf(words: seq<nat>, width: nat): (bits: seq<bool>)
    ensures |bits| == width * |words|
  {
    BitsTo(words, |words|, width)
  }

  function Zeros(n: nat): (z: seq<bool>)
    ensures |z| == n
  {
    if n == 0 then [] else Zeros(n - 1) + [false]
  }

  lemma {:induction false} BitsOfPrefix(a: seq<nat>, b: seq<nat>, n: nat, width: nat)
    requires n <= |a| && n <= |b| && forall i :: 0 <= i < n ==> a[i] == b[i]
    ensures BitsTo(a, n, width) == BitsTo(b, n, width)
  {
    if n > 0 {
      BitsOfPrefix(a, b, n - 1, width);
    }
  }

  lemma BitsOfSnoc(words: seq<nat>, w: nat, width: nat)
    ensures BitsOf(words + [w], width) == BitsOf(words, width) + LowBits(w, width)
  {
    BitsOfPrefix(words, words + [w], |words|, width);
  }

  // ---- what the operators do to bits ----

  /** `v` with the m low bits of `b` shifted in behind it. */
  function Insert(v: nat, b: nat, m: nat): nat
    decreases m
  {
    if m == 0 then v else 2 * Insert(v, b / 2, m - 1) + b % 2
  }

  lemma {:induction false} InsertStep(v: nat, b: nat, m: nat, scale: nat)
    requires Insert(v, b / 2, m) == v * scale + b / 2
    ensures Insert(v, b, m + 1) == v * (2 * scale) + b
  {
    assert v * (2 * scale) == 2 * (v * scale);
    assert Insert(v, b, m + 1) == 2 * Insert(v, b / 2, m) + b % 2;
  }

  lemma InsertByte(v: nat, b: Byte)
    ensures Insert(v, b, 8) == v * 256 + b
  {
    hide Insert;
    assert Insert(v, b / 32, 3) == v * 8 + b / 32 by { InsertThree(v, b / 32); }
    InsertStep(v, b / 16, 3, 8);
    InsertStep(v, b / 8, 4, 16);
    InsertStep(v, b / 4, 5, 32);
    InsertStep(v, b / 2, 6, 64);
    InsertStep(v, b, 7, 128);
  }

  lemma InsertThree(v: nat, b: nat)
    requires b < 8
    ensures Insert(v, b, 3) == v * 8 + b
  {
  }

  lemma InsertDigit(v: nat, d: Digit)
    ensures Insert(v, d, 5) == v * 32 + d
  {
    hide Insert;
    InsertThree(v, d / 4);
    InsertStep(v, d / 2, 3, 8);
    InsertStep(v, d, 4, 16);
  }

  lemma {:induction false} BitsInserted(v: nat, b: nat, k: nat, m: nat)
    ensures LowBits(Insert(v, b, m), k + m) == LowBits(v, k) + LowBits(b, m)
    decreases m
  {
    if m > 0 {
      BitsInserted(v, b / 2, k, m - 1);
    }
  }

  lemma MultipleAtLeast(k: int, p: int)
    requires k >= 1 && p >= 0
    ensures k * p >= p
  {
    assert (k - 1) * p >= 0;
  }

  lemma QuotientIsUnique(p: int, q: int, r: int, q': int, r': int)
    requires 0 <= r < p && 0 <= r' < p && p * q + r == p * q' + r'
    ensures q == q' && r == r'
  {
    assert (q' - q) * p == r - r' && (q - q') * p == r' - r;
    if q' > q {
      MultipleAtLeast(q' - q, p);
    } else if q' < q {
      MultipleAtLeast(q - q', p);
    }
  }

  lemma HalfOfRemainder(v: nat, p: nat)
    requires p >= 1
    ensures v % (2 * p) / 2 == v / 2 % p && v % (2 * p) % 2 == v % 2
  {
    var q, r := v / (2 * p), v % (2 * p);
    assert v == (2 * p) * q + r;
    assert (2 * p) * q == 2 * (p * q);
    assert v / 2 == p * q + r / 2;
    var x := v / 2;
    assert x == p * (x / p) + x % p;
    QuotientIsUnique(p, q, r / 2, x / p, x % p);
  }

  /** Losing the bits from position n up changes none of the k <= n low ones. */
  lemma {:induction false} BitsSurviveWrap(v: nat, n: nat, k: nat)
    requires k <= n
    ensures LowBits(v % Pow2(n), k) == LowBits(v, k)
    decreases k
  {
    if k > 0 {
      HalfOfRemainder(v, Pow2(n - 1));
      BitsSurviveWrap(v / 2, n - 1, k - 1);
    }
  }

  lemma WordIsPow2()
    ensures WORD == Pow2(32)
  {
    assert Pow2(8) == 256 && Pow2(16) == 0x1_0000 && Pow2(24) == 0x100_0000;
  }

  /** A word with m more bits shifted in: the pending k bits, then those m. */
  lemma ShiftIn(v: nat, b: nat, k: nat, m: nat)
    requires k + m <= 32
    ensures LowBits(Insert(v, b, m) % WORD, k + m) == LowBits(v, k) + LowBits(b, m)
  {
    WordIsPow2();
    BitsSurviveWrap(Insert(v, b, m), 32, k + m);
    BitsInserted(v, b, k, m);
  }

  /** The top `width` of the pending bits, then the n others. */
  lemma {:induction false} ReadTop(v: nat, width: nat, n: nat)
    ensures LowBits(v, width + n) == LowBits(Shr(v, n), width) + LowBits(v, n)
    decreases n
  {
    hide LowBits;
    if n == 0 {
      NoBits(v);
    } else {
      LowBitsStep(v, width + n - 1);
      LowBitsStep(v, n - 1);
      ReadTop(v / 2, width, n - 1);
    }
  }

  /** A mask keeps the bits under it. */
  lemma Masked(u: nat)
    ensures LowBits(u % 32, 5) == LowBits(u, 5) && LowBits(u % 256, 8) == LowBits(u, 8)
  {
    assert Pow2(5) == 32 && Pow2(8) == 256;
    BitsSurviveWrap(u, 5, 5);
    BitsSurviveWrap(u, 8, 8);
  }

  lemma {:induction false} ZerosFirst(n: nat)
    ensures Zeros(n + 1) == [false] + Zeros(n)
  {
    if n > 0 {
      ZerosFirst(n - 1);
    }
  }

  lemma {:induction false} ZerosShiftedIn(v: nat, k: nat, n: nat)
    requires k + n <= 32
    ensures LowBits(Shl(v, n), k + n) == LowBits(v, k) + Zeros(n)
    decreases n
  {
    if n > 0 {
      assert Insert(v, 0, 1) == v * 2 && LowBits(0, 1) == [false];
      ShiftIn(v, 0, k, 1);
      ZerosShiftedIn(v * 2 % WORD, k + 1, n - 1);
      ZerosFirst(n - 1);
    }
  }

  /** The last digit is the k pending bits filled up with zeros. */
  lemma {:induction false} PadDigit(v: nat, k: nat)
    requires 0 < k < 5
    ensures LowBits(Shl(v, 5 - k) % 32, 5) == LowBits(v, k) + Zeros(5 - k)
  {
    Masked(Shl(v, 5 - k));
    ZerosShiftedIn(v, k, 5 - k);
  }

  lemma {:induction false} NumberFromBits(a: nat, b: nat, k: nat)
    requires a < Pow2(k) && b < Pow2(k) && LowBits(a, k) == LowBits(b, k)
    ensures a == b
    decreases k
  {
    if k > 0 {
      assert LowBits(a, k)[..k - 1] == LowBits(a / 2, k - 1) && LowBits(b, k)[..k - 1] == LowBits(b / 2, k - 1);
      assert LowBits(a, k)[k - 1] == LowBits(b, k)[k - 1];
      NumberFromBits(a / 2, b / 2, k - 1);
    }
  }

  /** Rows of numbers below 2^width are told apart by their bits. */
  lemma {:induction false} RowFromBits(a: seq<nat>, b: seq<nat>, n: nat, width: nat)
    requires n <= |a| && n <= |b| && BitsTo(a, n, width) == BitsTo(b, n, width)
    requires forall i :: 0 <= i < n ==> a[i] < Pow2(width) && b[i] < Pow2(width)
    ensures forall i :: 0 <= i < n ==> a[i] == b[i]
  {
    if n > 0 {
      SplitEqual(BitsTo(a, n - 1, width), LowBits(a[n - 1], width), BitsTo(b, n - 1, width), LowBits(b[n - 1], width));
      RowFromBits(a, b, n - 1, width);
      NumberFromBits(a[n - 1], b[n - 1], width);
    }
  }

  lemma SplitEqual<T>(a: seq<T>, b: seq<T>, c: seq<T>, d: seq<T>)
    requires a + b == c + d && |b| == |d|
    ensures a == c && b == d
  {
    assert |a| == |c|;
    assert (a + b)[..|a|] == a && (c + d)[..|a|] == c;
    assert (a + b)[|a|..] == b && (c + d)[|a|..] == d;
  }

  // ---- the alphabet ----

  /** The character at a digit's place in the alphabet, `B32[d]`. */
  function Letter(d: Digit): char {
    if d < 26 then ('A' as int + d) as char else ('2' as int + (d - 26)) as char
  }

  lemma LettersAreTheAlphabet(d: Digit)
    ensures Letter(d) == B32[d]
  {
    assert forall i :: 0 <= i < 26 ==> B32[i] == ('A' as int + i) as char;
    assert forall i :: 26 <= i < 32 ==> B32[i] == ('2' as int + (i - 26)) as char;
  }

  /** `B32.indexOf(ch)`, with None for -1. */
  function IndexOf(ch: char): (r: Option<Digit>)
    ensures r.Some? ==> Letter(r.value) == ch
    ensures r == None ==> forall d: Digit :: Letter(d) != ch
  {
    if 'A' <= ch <= 'Z' then Some(ch as int - 'A' as int)
    else if '2' <= ch <= '7' then Some(ch as int - '2' as int + 26)
    else None
  }

  /** Upper-casing by the full Unicode rules, which may turn one character into several; the codec takes it as given. */
  type Upper = string -> string

  /** All the codec asks of it: letters of the alphabet stay as they are. */
  ghost predicate KeepsLetters(upper: Upper) {
    forall digits: seq<Digit> :: upper(Spell(digits)) == Spell(digits)
  }

  /** The first n characters with everything outside the alphabet dropped. */
  function KeptTo(text: string, n: nat): string
    requires n <= |text|
  {
    if n == 0 then []
    else KeptTo(text, n - 1) + if IndexOf(text[n - 1]).Some? then [text[n - 1]] else []
  }

  /** Cleaning keeps every character of the alphabet, in order, and no other. */
  lemma {:induction false} LettersKept(text: string, n: nat) returns (at: seq<nat>)
    requires n <= |text|
    ensures |at| == |KeptTo(text, n)|
    ensures forall k :: 0 <= k < |at| ==> at[k] < n && KeptTo(text, n)[k] == text[at[k]]
    ensures forall j, k :: 0 <= j < k < |at| ==> at[j] < at[k]
    ensures forall i :: 0 <= i < n ==> (i in at <==> 'A' <= text[i] <= 'Z' || '2' <= text[i] <= '7')
  {
    at := [];
    if n > 0 {
      at := LettersKept(text, n - 1);
      if IndexOf(text[n - 1]).Some? {
        at := at + [n - 1];
      }
    }
  }

  function Clean(upper: Upper, text: string): string {
    KeptTo(upper(text), |upper(text)|)
  }

  function Spell(digits: seq<Digit>): (text: string)
    ensures |text| == |digits|
    ensures forall i :: 0 <= i < |text| ==> text[i] == Letter(digits[i])
  {
    seq(|digits|, i requires 0 <= i < |digits| => Letter(digits[i]))
  }

  lemma SpellInjective(a: seq<Digit>, b: seq<Digit>)
    requires Spell(a) == Spell(b)
    ensures a == b
  {
    assert |Spell(a)| == |Spell(b)|;
    forall i | 0 <= i < |a| ensures a[i] == b[i] {
      assert Spell(a)[i] == Spell(b)[i];
    }
  }

  lemma {:induction false} SpelledIsKept(digits: seq<Digit>, n: nat)
    requires n <= |digits|
    ensures KeptTo(Spell(digits), n) == Spell(digits)[..n]
  {
    if n > 0 {
      SpelledIsKept(digits, n - 1);
    }
  }

  lemma {:induction false} KeptIsSpelled(text: string, n: nat) returns (digits: seq<Digit>)
    requires n <= |text|
    ensures KeptTo(text, n) == Spell(digits)
  {
    if n == 0 {
      digits := [];
    } else {
      digits := KeptIsSpelled(text, n - 1);
      var last := IndexOf(text[n - 1]);
      if last.Some? {
        digits := digits + [last.value];
      }
    }
  }

  lemma CleanedDigits(upper: Upper, text: string) returns (digits: seq<Digit>)
    ensures Clean(upper, text) == Spell(digits)
  {
    digits := KeptIsSpelled(upper(text), |upper(text)|);
  }

  // ---- what the codec should do ----

  /** The digits are the bits of the bytes cut in fives, the last one filled up with zeros. */
  ghost predicate Packs(bytes: seq<Byte>, digits: seq<Digit>) {
    && 0 <= 5 * |digits| - 8 * |bytes| < 5
    && BitsOf(digits, 5) == BitsOf(bytes, 8) + Zeros(5 * |digits| - 8 * |bytes|)
  }

  ghost predicate Encodes(bytes: seq<Byte>, text: string) {
    exists digits: seq<Digit> :: Packs(bytes, digits) && text == Spell(digits)
  }

  /** The first example of section 10 of RFC 4648: the byte of "f" is written "MY". */
  lemma StandardExample()
    ensures Encodes([0x66], "MY")
  {
    hide BitsOf, LowBits, Zeros;
    var bytes: seq<Byte>, digits: seq<Digit> := [0x66], [12, 24];
    OneWord(0x66, 8);
    OneWord(12, 5);
    BitsOfSnoc([12], 24, 5);
    assert [12] + [24] == digits;
    assert Shr(0x66, 3) == Shr(0x33, 2) == Shr(25, 1) == Shr(12, 0) == 12;
    assert Shl(0x66, 2) == Shl(0xcc, 1) == Shl(0x198, 0) == 0x198;
    ReadTop(0x66, 5, 3);
    PadDigit(0x66, 3);
    assert Packs(bytes, digits);
    assert Spell(digits) == "MY";
  }

  lemma OneWord(w: nat, width: nat)
    ensures BitsOf([w], width) == LowBits(w, width)
  {
    assert BitsTo([w], 0, width) == [];
  }

  /** The bytes are the bits of the digits cut in eights, a last partial group dropped. */
  ghost predicate Unpacks(digits: seq<Digit>, bytes: seq<Byte>) {
    && 0 <= 5 * |digits| - 8 * |bytes| < 8
    && BitsOf(digits, 5)[..8 * |bytes|] == BitsOf(bytes, 8)
  }

  ghost predicate Decodes(upper: Upper, text: string, bytes: seq<Byte>) {
    exists digits: seq<Digit> :: Clean(upper, text) == Spell(digits) && Unpacks(digits, bytes)
  }

  lemma OneMoreWord(words: seq<nat>, i: nat, width: nat)
    requires i < |words|
    ensures BitsTo(words, i + 1, width) == BitsTo(words, i, width) + LowBits(words[i], width)
  {
  }

  /** A number read in joins the pending bits. */
  lemma Accept(done: seq<bool>, v: nat, bits: nat, words: seq<nat>, i: nat, width: nat)
    requires i < |words| && bits + width <= 32
    requires done + LowBits(v, bits) == BitsTo(words, i, width)
    ensures done + LowBits(Insert(v, words[i], width) % WORD, bits + width) == BitsTo(words, i + 1, width)
  {
    hide LowBits, BitsTo, Insert;
    ShiftIn(v, words[i], bits, width);
    OneMoreWord(words, i, width);
    assert done + (LowBits(v, bits) + LowBits(words[i], width)) == BitsTo(words, i, width) + LowBits(words[i], width);
  }

  /** A number written out takes the top of the pending bits with it. */
  lemma Emit(words: seq<nat>, w: nat, v: nat, bits: nat, width: nat, read: seq<bool>)
    requires width <= bits && BitsOf(words, width) + LowBits(v, bits) == read
    requires LowBits(w, width) == LowBits(Shr(v, bits - width), width)
    ensures BitsOf(words + [w], width) + LowBits(v, bits - width) == read
  {
    hide BitsTo, LowBits, Shr;
    ReadTop(v, width, bits - width);
    BitsOfSnoc(words, w, width);
    assert BitsOf(words, width) + LowBits(v, bits)
        == (BitsOf(words, width) + LowBits(w, width)) + LowBits(v, bits - width);
  }

  /** Nothing pending, or the pending bits padded into one more digit: the encoding is complete. */
  lemma {:induction false} EncodingComplete(digits: seq<Digit>, v: nat, bits: nat, buf: seq<Byte>)
    requires bits < 5 && BitsOf(digits, 5) + LowBits(v, bits) == BitsOf(buf, 8)
    ensures if bits == 0 then Packs(buf, digits) else Packs(buf, digits + [Shl(v, 5 - bits) % 32])
  {
    hide BitsTo, Shl;
    if bits == 0 {
      assert LowBits(v, 0) == [] && Zeros(0) == [];
    } else {
      hide LowBits, BitsOf, Zeros;
      var last := Shl(v, 5 - bits) % 32;
      PadDigit(v, bits);
      BitsOfSnoc(digits, last, 5);
      assert |digits + [last]| == |digits| + 1 && 5 * |digits| + bits == 8 * |buf|;
      assert BitsOf(digits + [last], 5) == (BitsOf(digits, 5) + LowBits(v, bits)) + Zeros(5 - bits);
    }
  }

  method Base32Encode(buf: seq<Byte>) returns (out: string)
    ensures Encodes(buf, out)
  {
    hide LowBits, BitsTo, Insert, Shr, Shl;
    var bits, value := 0, 0;
    out := "";
    ghost var digits: seq<Digit> := [];
    for i := 0 to |buf|
      invariant 0 <= bits < 5 && 0 <= value < WORD && out == Spell(digits)
      invariant BitsOf(digits, 5) + LowBits(value, bits) == BitsTo(buf, i, 8)
    {
      Accept(BitsOf(digits, 5), value, bits, buf, i, 8);
      InsertByte(value, buf[i]);
      value := (value * 256 + buf[i]) % WORD;
      bits := bits + 8;
      while bits >= 5
        invariant 0 <= bits <= 12 && out == Spell(digits)
        invariant BitsOf(digits, 5) + LowBits(value, bits) == BitsTo(buf, i + 1, 8)
      {
        var d: Digit := Shr(value, bits - 5) % 32;
        Masked(Shr(value, bits - 5));
        Emit(digits, d, value, bits, 5, BitsTo(buf, i + 1, 8));
        digits := digits + [d];
        out := out + [Letter(d)];
        bits := bits - 5;
      }
    }
    EncodingComplete(digits, value, bits, buf);
    if bits > 0 {
      var d: Digit := Shl(value, 5 - bits) % 32;
      digits := digits + [d];
      out := out + [Letter(d)];
    }
    assert Packs(buf, digits);
  }

  method Base32Decode(upper: Upper, input: string) returns (out: seq<Byte>)
    ensures Decodes(upper, input, out)
  {
    hide LowBits, BitsTo, Insert, Shr, Clean;
    var clean := Clean(upper, input);
    var bits, value := 0, 0;
    out := [];
    ghost var digits := CleanedDigits(upper, input);
    for i := 0 to |clean|
      invariant 0 <= bits < 8 && 0 <= value < WORD
      invariant BitsOf(out, 8) + LowBits(value, bits) == BitsTo(digits, i, 5)
    {
      var idx := IndexOf(clean[i]);
      if idx == None {
        continue;
      }
      Accept(BitsOf(out, 8), value, bits, digits, i, 5);
      InsertDigit(value, digits[i]);
      value := (value * 32 + idx.value) % WORD;
      bits := bits + 5;
      if bits >= 8 {
        var b: Byte := Shr(value, bits - 8) % 256;
        Masked(Shr(value, bits - 8));
        Emit(out, b, value, bits, 8, BitsTo(digits, i + 1, 5));
        out := out + [b];
        bits := bits - 8;
      }
    }
    assert Unpacks(digits, out);
  }

  // ---- what follows ----

  /** One encoding per byte string, of ceil(8n/5) characters. */
  lemma EncodingIsUnique(bytes: seq<Byte>, a: string, b: string)
    requires Encodes(bytes, a) && Encodes(bytes, b)
    ensures a == b && |a| == (8 * |bytes| + 4) / 5
  {
    hide BitsTo, LowBits, Spell;
    assert Pow2(5) == 32;
    var x: seq<Digit> :| Packs(bytes, x) && a == Spell(x);
    var y: seq<Digit> :| Packs(bytes, y) && b == Spell(y);
    assert |x| == |y|;
    RowFromBits(x, y, |x|, 5);
  }

  lemma DecodingIsUnique(upper: Upper, text: string, a: seq<Byte>, b: seq<Byte>)
    requires Decodes(upper, text, a) && Decodes(upper, text, b)
    ensures a == b
  {
    hide BitsTo, LowBits;
    assert Pow2(8) == 256;
    var x: seq<Digit> :| Clean(upper, text) == Spell(x) && Unpacks(x, a);
    var y: seq<Digit> :| Clean(upper, text) == Spell(y) && Unpacks(y, b);
    SpellInjective(x, y);
    assert |a| == |b|;
    RowFromBits(a, b, |a|, 8);
  }

  /** Decoding an encoding gives the bytes back, whatever their number. */
  lemma RoundTrip(upper: Upper, bytes: seq<Byte>, text: string, back: seq<Byte>)
    requires KeepsLetters(upper) && Encodes(bytes, text) && Decodes(upper, text, back)
    ensures back == bytes
  {
    var x: seq<Digit> :| Packs(bytes, x) && text == Spell(x);
    SpelledIsKept(x, |x|);
    assert Spell(x)[..|x|] == Spell(x);
    assert BitsOf(x, 5)[..8 * |bytes|] == BitsOf(bytes, 8);
    assert Unpacks(x, bytes);
    DecodingIsUnique(upper, text, bytes, back);
  }

  /** The other way round, a text comes back unchanged exactly when it is an encoding of something. */
  lemma ReencodesIff(upper: Upper, text: string, bytes: seq<Byte>, again: string)
    requires KeepsLetters(upper) && Decodes(upper, text, bytes) && Encodes(bytes, again)
    ensures again == text <==> exists b: seq<Byte> :: Encodes(b, text)
  {
    if b: seq<Byte> :| Encodes(b, text) {
      RoundTrip(upper, b, text, bytes);
      EncodingIsUnique(bytes, again, text);
    }
  }

  method EncodeThenDecode(upper: Upper, bytes: seq<Byte>) returns (back: seq<Byte>)
    requires KeepsLetters(upper)
    ensures back == bytes
  {
    var text := Base32Encode(bytes);
    back := Base32Decode(upper, text);
    RoundTrip(upper, bytes, text, back);
  }
}
