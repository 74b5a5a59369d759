/**
 The 4-digit pairing code, derived from the same HKDF output on both sides: Kotlin combines
 signed bytes with masks, shifts and ORs, Rust reads a big-endian integer.
 */
module PairingCode {
  import opened Wrappers
  import opened Text
  import opened Hkdf

  const OKM_LEN := 4
  const MODULUS := 10_000
  const CODE_LEN := 4

  const SALT: Bytes := Ascii("phonebridge/v1/pair")
  const INFO: Bytes := Ascii("phonebridge/v1/code")

  function Ascii(s: string): (b: Bytes)
    ensures |b| == |s|
  {
    seq(|s|, i requires 0 <= i < |s| => s[i] as int % 256)
  }

  // ---------------------------------------------------------------------------
  // Bitwise operations on non-negative integers, bit by bit
  // ---------------------------------------------------------------------------

  function Pow2(k: nat): (p: nat)
    ensures p > 0
  {
    if k == 0 then 1 else 2 * Pow2(k - 1)
  }

  function Shl(n: nat, k: nat): nat { n * Pow2(k) }

  function Or(a: nat, b: nat): nat
    decreases a + b
  {
    if a == 0 then b else if b == 0 then a
    else (if a % 2 == 1 || b % 2 == 1 then 1 else 0) + 2 * Or(a / 2, b / 2)
  }

  function And(a: nat, b: nat): nat
    decreases a + b
  {
    if a == 0 || b == 0 then 0
    else (if a % 2 == 1 && b % 2 == 1 then 1 else 0) + 2 * And(a / 2, b / 2)
  }

  lemma ShlDoubles(n: nat, k: nat)
    requires k > 0
    ensures Shl(n, k) == 2 * Shl(n, k - 1)
  {
    assert Shl(n, k) == n * (2 * Pow2(k - 1));
  }

  /** OR with a number that fits below the shift is addition. */
  lemma {:induction false} OrOfDisjoint(high: nat, low: nat, k: nat)
    requires low < Pow2(k)
    ensures Or(Shl(high, k), low) == Shl(high, k) + low
  {
    if k > 0 && high > 0 && low > 0 {
      OrOfDisjoint(high, low / 2, k - 1);
      ShlDoubles(high, k);
    }
  }

  /** Masking with 2^k - 1 keeps the remainder. */
  lemma {:induction false} AndWithMask(n: nat, k: nat)
    ensures And(n, Pow2(k) - 1) == n % Pow2(k)
  {
    if k > 0 {
      var p := Pow2(k - 1);
      AndWithMask(n / 2, k - 1);
      assert (2 * p - 1) / 2 == p - 1 || p == 1;
      DoubleMod(n, p);
    }
  }

  lemma DoubleMod(n: nat, p: nat)
    requires p > 0
    ensures n % (2 * p) == n % 2 + 2 * ((n / 2) % p)
  {
    var q, r := (n / 2) / p, (n / 2) % p;
    assert n == 2 * (q * p + r) + n % 2;
    assert n == q * (2 * p) + (2 * r + n % 2);
    ModUnique(n, 2 * p, q, 2 * r + n % 2);
  }

  lemma ModUnique(n: int, m: int, q: int, r: int)
    requires m > 0 && 0 <= r < m && n == q * m + r
    ensures n % m == r
  {
    var d := n / m - q;
    assert n % m == n - (n / m) * m;
    assert n % m == r - d * m;
    assert d >= 1 ==> d * m >= m;
    assert d <= -1 ==> d * m <= -m;
  }

  // ---------------------------------------------------------------------------
  // Kotlin
  // ---------------------------------------------------------------------------

  /** The two's-complement pattern of `b.toLong()` for a signed byte. */
  function LongBits(b: int): (n: nat)
    requires -128 <= b <= 127
  {
    if b < 0 then Pow2Of64() + b else b
  }

  function Pow2Of64(): (n: nat) { 0x1_0000_0000_0000_0000 }

  /** `okm[i]` as a Kotlin `Byte`. */
  function SignedByte(b: Byte): (s: int)
    ensures -128 <= s <= 127
  {
    ToSignedByte(b)
  }

  /** `okm[i].toLong() and 0xFF` */
  function MaskedLong(b: Byte): nat {
    And(LongBits(SignedByte(b)), 0xFF)
  }

  function KotlinNumber(okm: Bytes): nat
    requires |okm| == OKM_LEN
  {
    Combine(MaskedLong(okm[0]), MaskedLong(okm[1]), MaskedLong(okm[2]), MaskedLong(okm[3]))
  }

  function Combine(a: nat, b: nat, c: nat, d: nat): nat {
    Or(Or(Or(Shl(a, 24), Shl(b, 16)), Shl(c, 8)), d)
  }

  function Digit(n: nat): (c: char)
    requires n < 10
    ensures '0' <= c <= '9' && c as int - '0' as int == n
  {
    ('0' as int + n) as char
  }

  function ToDecimal(n: nat): (s: string)
    ensures s != []
  {
    if n < 10 then [Digit(n)] else ToDecimal(n / 10) + [Digit(n % 10)]
  }

  function PadStart(s: string, width: nat): string {
    seq(if |s| < width then width - |s| else 0, i => '0') + s
  }

  function KotlinCode(okm: Bytes): string
    requires |okm| == OKM_LEN
  {
    PadStart(ToDecimal(KotlinNumber(okm) % MODULUS), CODE_LEN)
  }

  // ---------------------------------------------------------------------------
  // Rust
  // ---------------------------------------------------------------------------

  /** `u32::from_be_bytes` */
  function BigEndian(bytes: Bytes): nat {
    if bytes == [] then 0 else BigEndian(bytes[..|bytes| - 1]) * 256 + bytes[|bytes| - 1]
  }

  /** `format!("{:0width$}", n)`: at least `width` digits, zeros in front. */
  function ZeroPadded(n: nat, width: nat): (s: string)
    decreases width, n
  {
    if width <= 1 && n < 10 then [Digit(n)]
    else ZeroPadded(n / 10, if width == 0 then 0 else width - 1) + [Digit(n % 10)]
  }

  function RustCode(okm: Bytes): string
    requires |okm| == OKM_LEN
  {
    ZeroPadded(BigEndian(okm) % MODULUS, CODE_LEN)
  }

  // ---------------------------------------------------------------------------
  // Agreement
  // ---------------------------------------------------------------------------

  lemma MaskKeepsLowByte(n: nat)
    ensures And(n, 0xFF) == n % 0x100
  {
    BytePowers();
    AndWithMask(n, 8);
  }

  lemma TwosComplementLowByte(b: Byte)
    ensures LongBits(SignedByte(b)) % 256 == b
  {
    ModUnique(LongBits(SignedByte(b)), 256, if b < 128 then 0 else 0x100_0000_0000_0000 - 1, b);
  }

  lemma MaskUndoesSign(b: Byte)
    ensures MaskedLong(b) == b
  {
    TwosComplementLowByte(b);
    MaskKeepsLowByte(LongBits(SignedByte(b)));
  }

  lemma BytePowers()
    ensures Pow2(8) == 0x100 && Pow2(16) == 0x1_0000 && Pow2(24) == 0x100_0000
  {
    assert Pow2(4) == 16;
    assert Pow2(8) == 16 * Pow2(4);
    assert Pow2(12) == 16 * Pow2(8);
    assert Pow2(16) == 16 * Pow2(12);
    assert Pow2(20) == 16 * Pow2(16);
    assert Pow2(24) == 16 * Pow2(20);
  }

  lemma BigEndianOfFour(okm: Bytes, a: int, b: int, c: int, d: int)
    requires |okm| == 4 && a == okm[0] && b == okm[1] && c == okm[2] && d == okm[3]
    ensures BigEndian(okm) == ((a * 0x100 + b) * 0x100 + c) * 0x100 + d
  {
    assert okm[..3][..2] == okm[..2] && okm[..2][..1] == okm[..1] && okm[..1][..0] == [];
    assert BigEndian(okm[..1]) == a;
    assert BigEndian(okm[..2]) == a * 0x100 + b;
    assert BigEndian(okm[..3]) == (a * 0x100 + b) * 0x100 + c;
  }

  lemma Pow2Plus8(k: nat)
    ensures Pow2(k + 8) == 0x100 * Pow2(k)
  {
    assert Pow2(k + 2) == 4 * Pow2(k);
    assert Pow2(k + 4) == 4 * Pow2(k + 2);
    assert Pow2(k + 6) == 4 * Pow2(k + 4);
    assert Pow2(k + 7) == 2 * Pow2(k + 6);
  }

  lemma ScaledSum(high: nat, low: nat, p: nat)
    requires low < 0x100 && p > 0
    ensures low * p < 0x100 * p
    ensures high * (0x100 * p) + low * p == (high * 0x100 + low) * p
  {
  }

  lemma OrStep(high: nat, low: nat, k: nat)
    requires low < 0x100
    ensures Or(Shl(high, k + 8), Shl(low, k)) == Shl(high * 0x100 + low, k)
  {
    Pow2Plus8(k);
    ScaledSum(high, low, Pow2(k));
    OrOfDisjoint(high, Shl(low, k), k + 8);
  }

  lemma ShlByZero(n: nat)
    ensures Shl(n, 0) == n
  {
    assert Pow2(0) == 1;
  }

  lemma OrOfFour(a: nat, b: nat, c: nat, d: nat, k: nat)
    requires b < 0x100 && c < 0x100 && d < 0x100 && k == 8
    ensures Combine(a, b, c, d) == ((a * 0x100 + b) * 0x100 + c) * 0x100 + d
  {
    var x := a * 0x100 + b;
    var y := x * 0x100 + c;
    OrStep(a, b, k + 8);
    OrStep(x, c, k);
    OrStep(y, d, 0);
    ShlByZero(d);
    ShlByZero(y * 0x100 + d);
    assert Combine(a, b, c, d) == Or(Or(Or(Shl(a, k + 8 + 8), Shl(b, k + 8)), Shl(c, k)), d);
  }

  /** Shifts and ORs of the masked signed bytes give the big-endian number. */
  lemma KotlinNumberIsBigEndian(okm: Bytes)
    requires |okm| == OKM_LEN
    ensures KotlinNumber(okm) == BigEndian(okm) < 0x1_0000_0000
  {
    var a: int, b: int, c: int, d: int := okm[0], okm[1], okm[2], okm[3];
    MaskUndoesSign(a); MaskUndoesSign(b); MaskUndoesSign(c); MaskUndoesSign(d);
    OrOfFour(a, b, c, d, 8);
    BigEndianOfFour(okm, a, b, c, d);
  }

  /** The shape `Initiator::on_challenge` demands of a code. */
  predicate IsPairingCode(code: string) {
    Utf8Length(code) == 4 && forall i | 0 <= i < |code| :: '0' <= code[i] <= '9'
  }

  function DecimalValue(s: string): int {
    if s == [] then 0 else DecimalValue(s[..|s| - 1]) * 10 + (s[|s| - 1] as int - '0' as int)
  }

  lemma PadStep(n: nat, width: nat)
    requires width > 1 && |ToDecimal(n / 10)| < width
    ensures PadStart(ToDecimal(n), width) == PadStart(ToDecimal(n / 10), width - 1) + [Digit(n % 10)]
  {
    if n < 10 {
      assert ToDecimal(n / 10) == "0";
    }
  }

  lemma {:induction false} PaddedDecimal(n: nat, width: nat)
    requires width > 0 && n < Pow10(width)
    ensures |ToDecimal(n)| <= width && PadStart(ToDecimal(n), width) == ZeroPadded(n, width)
    decreases width
  {
    if width > 1 {
      PaddedDecimal(n / 10, width - 1);
      PadStep(n, width);
    }
  }

  lemma {:induction false} ValueOfPadded(n: nat, width: nat)
    requires width > 0 && n < Pow10(width)
    ensures |ZeroPadded(n, width)| == width && DecimalValue(ZeroPadded(n, width)) == n
    ensures forall i | 0 <= i < width :: '0' <= ZeroPadded(n, width)[i] <= '9'
    decreases width
  {
    var s := ZeroPadded(n, width);
    if width == 1 {
      assert s[..0] == [];
    } else {
      ValueOfPadded(n / 10, width - 1);
      assert s == ZeroPadded(n / 10, width - 1) + [Digit(n % 10)];
      assert s[..width - 1] == ZeroPadded(n / 10, width - 1);
    }
  }

  function Pow10(k: nat): nat {
    if k == 0 then 1 else 10 * Pow10(k - 1)
  }

  /**
   For any four bytes of key material both sides show the same string, it is the zero-padded
   value of the big-endian number modulo 10000, and it passes the challenge check.
   */
  lemma CodesAgree(okm: Bytes)
    requires |okm| == OKM_LEN
    ensures KotlinCode(okm) == RustCode(okm)
    ensures |RustCode(okm)| == 4 && DecimalValue(RustCode(okm)) == BigEndian(okm) % 10_000
    ensures IsPairingCode(RustCode(okm))
  {
    KotlinNumberIsBigEndian(okm);
    assert Pow10(2) == 100 && Pow10(4) == 100 * Pow10(2);
    PaddedDecimal(BigEndian(okm) % MODULUS, CODE_LEN);
    ValueOfPadded(BigEndian(okm) % MODULUS, CODE_LEN);
    LengthsOfAscii(RustCode(okm));
  }

  /** `PairingCode.derive`; `None` when the secret is not 32 bytes. */
  method DeriveKotlin(mac: Mac, secret: Bytes) returns (code: Option<string>)
    ensures code.Some? <==> |secret| == 32
    ensures code.Some? ==> code.value == DeriveRust(mac, secret)
  {
    if |secret| != 32 {
      return None;
    }
    var okm := HkdfSha256(mac, secret, SALT, INFO, OKM_LEN);
    CodesAgree(okm.value);
    code := Some(KotlinCode(okm.value));
  }

  /** `derive_pairing_code`, on the same HKDF. */
  function DeriveRust(mac: Mac, secret: Bytes): string {
    RustCode(Expand(mac, Extract(mac, SALT, secret), INFO, OKM_LEN))
  }

  /** Written out: the code is the number in the first four bytes of the first block, modulo 10000. */
  lemma CodeOfFirstBlock(mac: Mac, secret: Bytes)
    ensures var block := mac(mac(Ascii("phonebridge/v1/pair"), secret), Ascii("phonebridge/v1/code") + [1]);
      var a: int, b: int, c: int, d: int := block[0], block[1], block[2], block[3];
      DecimalValue(DeriveRust(mac, secret)) == (((a * 0x100 + b) * 0x100 + c) * 0x100 + d) % 10_000
  {
    var okm := Expand(mac, Extract(mac, SALT, secret), INFO, OKM_LEN);
    var block := mac(mac(SALT, secret), INFO + [1]);
    TwoBlocks(mac, SALT, secret, INFO, OKM_LEN);
    assert okm == block[..4];
    CodesAgree(okm);
    BigEndianOfFour(okm, block[0], block[1], block[2], block[3]);
  }

  /** Both constant strings are 19 bytes long. */
  lemma ConstantLengths()
    ensures |SALT| == 19 && |INFO| == 19
  {
  }

  /** Two peers that agree on the secret agree on the code, and the code is well formed. */
  lemma DerivedCodeIsAccepted(mac: Mac, secret: Bytes)
    ensures IsPairingCode(DeriveRust(mac, secret))
    ensures DecimalValue(DeriveRust(mac, secret)) < 10_000
  {
    CodesAgree(Expand(mac, Extract(mac, SALT, secret), INFO, OKM_LEN));
  }
}
