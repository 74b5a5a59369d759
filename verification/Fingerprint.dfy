/**
 Certificate fingerprints: the Rust printer and parser, the Kotlin validator, and the
 pin check that compares printed strings.
 */
module Fingerprint {
  import opened Wrappers
  import opened Text

  const SHA256_LEN := 32

  datatype FingerprintError = PairCount(n: nat) | PairLength(index: nat, len: nat) | PairHex(index: nat)

  type Digest = d: seq<Byte> | |d| == SHA256_LEN witness seq(SHA256_LEN, i => 0)

  // ---------------------------------------------------------------------------
  // Hex pairs
  // ---------------------------------------------------------------------------

  function UpperHex(n: Byte): char
    requires n < 16
  {
    (if n < 10 then '0' as int + n else 'A' as int + n - 10) as char
  }

  function HexValue(c: char): Option<Byte> {
    if '0' <= c <= '9' then Some(c as int - '0' as int)
    else if 'a' <= c <= 'f' then Some(c as int - 'a' as int + 10)
    else if 'A' <= c <= 'F' then Some(c as int - 'A' as int + 10)
    else None
  }

  lemma DigitTable(n: Byte)
    requires n < 16
    ensures UpperHex(n) == "0123456789ABCDEF"[n]
    ensures HexValue("0123456789ABCDEF"[n]) == HexValue("0123456789abcdef"[n]) == Some(n)
  {
  }

  /** `format!("{:02X}", b)` */
  function PrintPair(b: Byte): string {
    [UpperHex(b / 16), UpperHex(b % 16)]
  }

  function HexNumber(digits: string): Option<nat> {
    if digits == [] then Some(0)
    else
      var low := HexValue(digits[|digits| - 1]);
      var high := HexNumber(digits[..|digits| - 1]);
      if low.None? || high.None? then None else Some(high.value * 16 + low.value)
  }

  /** `u8::from_str_radix(p, 16)`: one leading `+` is allowed before at least one digit. */
  function FromStrRadix16(p: string): Option<Byte> {
    var digits := if p != [] && p[0] == '+' then p[1..] else p;
    if digits == [] then None
    else
      var n := HexNumber(digits);
      if n.Some? && n.value < 256 then Some(n.value) else None
  }

  // ---------------------------------------------------------------------------
  // Printer and parser
  // ---------------------------------------------------------------------------

  function PrintPairs(bytes: seq<Byte>): (parts: seq<string>)
    ensures |parts| == |bytes|
    ensures forall i | 0 <= i < |bytes| :: parts[i] == PrintPair(bytes[i])
  {
    seq(|bytes|, i requires 0 <= i < |bytes| => PrintPair(bytes[i]))
  }

  function Print(bytes: seq<Byte>): string {
    Join(PrintPairs(bytes), ':')
  }

  /** Pairs from index `i` on; the first bad one decides the error. */
  function ParsePairs(parts: seq<string>, i: nat): (r: Result<seq<Byte>, FingerprintError>)
    requires i <= |parts|
    ensures r.Ok? ==> |r.value| == |parts| - i
    decreases |parts| - i
  {
    if i == |parts| then Ok([])
    else if Utf8Length(parts[i]) != 2 then Err(PairLength(i, Utf8Length(parts[i])))
    else
      var b := FromStrRadix16(parts[i]);
      if b.None? then Err(PairHex(i))
      else
        var rest := ParsePairs(parts, i + 1);
        if rest.Err? then rest else Ok([b.value] + rest.value)
  }

  function Parse(s: string): (r: Result<seq<Byte>, FingerprintError>)
    ensures r.Ok? ==> |r.value| == SHA256_LEN
  {
    var parts := Split(s, ':');
    if |parts| != SHA256_LEN then Err(PairCount(|parts|)) else ParsePairs(parts, 0)
  }

  lemma {:induction false} PrintGrows(bytes: seq<Byte>, i: nat)
    requires i < |bytes|
    ensures Print(bytes[..i + 1]) == Print(bytes[..i]) + (if i > 0 then ":" else "") + PrintPair(bytes[i])
    decreases i
  {
    var parts := PrintPairs(bytes[..i + 1]);
    assert PrintPairs(bytes[..i]) == parts[..i];
    JoinGrows(parts, ':');
  }

  lemma {:induction false} JoinGrows(parts: seq<string>, sep: char)
    requires parts != []
    ensures var n := |parts| - 1;
      Join(parts, sep) == Join(parts[..n], sep) + (if n > 0 then [sep] else []) + parts[n]
  {
    var n := |parts| - 1;
    if n > 0 {
      JoinGrows(parts[1..], sep);
      assert parts[1..][..n - 1] == parts[..n][1..];
      if n > 1 {
        assert parts[..n][0] == parts[0];
      }
    }
  }

  /** The formatting loop over the digest. */
  method PrintLoop(bytes: seq<Byte>) returns (s: string)
    ensures s == Print(bytes)
  {
    s := "";
    for i := 0 to |bytes|
      invariant s == Print(bytes[..i])
    {
      PrintGrows(bytes, i);
      if i > 0 {
        s := s + ":";
      }
      s := s + PrintPair(bytes[i]);
    }
    assert bytes[..|bytes|] == bytes;
  }

  lemma {:induction false} ParsePairsFails(parts: seq<string>, i: nat, k: nat)
    requires k <= i <= |parts|
    requires forall j | k <= j < i :: Utf8Length(parts[j]) == 2 && FromStrRadix16(parts[j]).Some?
    ensures ParsePairs(parts, i).Err? ==> ParsePairs(parts, k) == ParsePairs(parts, i)
    ensures ParsePairs(parts, i).Ok? ==> ParsePairs(parts, k).Ok?
    ensures ParsePairs(parts, i).Ok? ==>
      forall j | k <= j < i :: ParsePairs(parts, k).value[j - k] == FromStrRadix16(parts[j]).value
    ensures ParsePairs(parts, i).Ok? ==> ParsePairs(parts, k).value[i - k..] == ParsePairs(parts, i).value
    decreases i - k
  {
    if k < i {
      ParsePairsFails(parts, i, k + 1);
    }
  }

  /** The parsing loop that fills `out[i]`, stopping at the first bad pair. */
  method ParseLoop(s: string) returns (r: Result<seq<Byte>, FingerprintError>)
    ensures r == Parse(s)
  {
    var parts := Split(s, ':');
    if |parts| != SHA256_LEN {
      return Err(PairCount(|parts|));
    }
    var out := new Byte[SHA256_LEN](_ => 0);
    for i := 0 to |parts|
      invariant forall j | 0 <= j < i :: Utf8Length(parts[j]) == 2 && FromStrRadix16(parts[j]) == Some(out[j])
    {
      ParsePairsFails(parts, i, 0);
      if Utf8Length(parts[i]) != 2 {
        return Err(PairLength(i, Utf8Length(parts[i])));
      }
      var b := FromStrRadix16(parts[i]);
      if b.None? {
        return Err(PairHex(i));
      }
      out[i] := b.value;
    }
    ParsePairsFails(parts, |parts|, 0);
    assert out[..] == ParsePairs(parts, 0).value;
    r := Ok(out[..]);
  }

  // ---------------------------------------------------------------------------
  // The Kotlin validator
  // ---------------------------------------------------------------------------

  predicate IsUpperHex(c: char) {
    '0' <= c <= '9' || 'A' <= c <= 'F'
  }

  predicate IsUpperPair(p: string) {
    Utf16Length(p) == 2 && forall i | 0 <= i < |p| :: IsUpperHex(p[i])
  }

  predicate IsValidFingerprint(s: string) {
    && Utf16Length(s) == 32 * 3 - 1
    && var parts := Split(s, ':');
       |parts| == 32 && forall i | 0 <= i < |parts| :: IsUpperPair(parts[i])
  }

  // ---------------------------------------------------------------------------
  // Theorems
  // ---------------------------------------------------------------------------

  lemma NumberOfTwo(p: string)
    requires |p| == 2
    ensures HexNumber(p) == if HexValue(p[0]).Some? && HexValue(p[1]).Some?
                            then Some(HexValue(p[0]).value * 16 + HexValue(p[1]).value) else None
    ensures HexNumber(p[1..]) == if HexValue(p[1]).Some? then Some(HexValue(p[1]).value) else None
  {
    assert p[..1] == [p[0]] && p[..1][..0] == [];
    assert HexNumber(p[..1]) == if HexValue(p[0]).Some? then Some(HexValue(p[0]).value) else None;
    assert p[1..] == [p[1]] && p[1..][..0] == [];
  }

  lemma HexDigitRoundTrip(n: Byte)
    requires n < 16
    ensures HexValue(UpperHex(n)) == Some(n) && IsUpperHex(UpperHex(n))
  {
  }

  lemma PairRoundTrip(b: Byte)
    ensures FromStrRadix16(PrintPair(b)) == Some(b)
    ensures IsUpperPair(PrintPair(b)) && Utf8Length(PrintPair(b)) == 2 && ':' !in PrintPair(b)
  {
    var p := PrintPair(b);
    HexDigitRoundTrip(b / 16);
    HexDigitRoundTrip(b % 16);
    LengthsOfAscii(p);
    NumberOfTwo(p);
  }

  /** An upper-case pair is what the printer prints for the byte it denotes. */
  lemma UpperPairIsPrinted(p: string)
    requires IsUpperPair(p)
    ensures Utf8Length(p) == 2 && FromStrRadix16(p).Some? && PrintPair(FromStrRadix16(p).value) == p
  {
    LengthsOfAscii(p);
    NumberOfTwo(p);
    var hi, lo := HexValue(p[0]).value, HexValue(p[1]).value;
    assert UpperHex(hi) == p[0] && UpperHex(lo) == p[1];
    assert (hi * 16 + lo) / 16 == hi && (hi * 16 + lo) % 16 == lo;
  }

  lemma {:induction false} ParsePrintedPairs(bytes: seq<Byte>, i: nat)
    requires i <= |bytes|
    ensures ParsePairs(PrintPairs(bytes), i) == Ok(bytes[i..])
    decreases |bytes| - i
  {
    if i == |bytes| {
      assert bytes[i..] == [];
    } else {
      PairRoundTrip(bytes[i]);
      ParsePrintedPairs(bytes, i + 1);
      assert PrintPairs(bytes)[i] == PrintPair(bytes[i]);
      assert bytes[i..] == [bytes[i]] + bytes[i + 1..];
    }
  }

  lemma SplitOfPrint(bytes: seq<Byte>)
    requires bytes != []
    ensures Split(Print(bytes), ':') == PrintPairs(bytes)
  {
    forall i | 0 <= i < |bytes| ensures ':' !in PrintPairs(bytes)[i] {
      PairRoundTrip(bytes[i]);
    }
    SplitOfJoin(PrintPairs(bytes), ':');
  }

  /** Parsing undoes printing on every digest. */
  lemma ParseOfPrint(d: Digest)
    ensures Parse(Print(d)) == Ok(d)
  {
    SplitOfPrint(d);
    ParsePrintedPairs(d, 0);
  }

  lemma {:induction false} LengthOfPrint(bytes: seq<Byte>)
    requires bytes != []
    ensures IsAscii(Print(bytes)) && |Print(bytes)| == 3 * |bytes| - 1
  {
    PairRoundTrip(bytes[0]);
    if |bytes| > 1 {
      LengthOfPrint(bytes[1..]);
      assert PrintPairs(bytes)[1..] == PrintPairs(bytes[1..]);
    }
  }

  /** The validator accepts everything the printer prints. */
  lemma PrintedIsValid(d: Digest)
    ensures IsValidFingerprint(Print(d))
  {
    LengthOfPrint(d);
    LengthsOfAscii(Print(d));
    SplitOfPrint(d);
    forall i | 0 <= i < |d| ensures IsUpperPair(PrintPairs(d)[i]) {
      PairRoundTrip(d[i]);
    }
  }

  lemma {:induction false} ParseUpperPairs(parts: seq<string>, i: nat)
    requires i <= |parts| && forall j | 0 <= j < |parts| :: IsUpperPair(parts[j])
    ensures ParsePairs(parts, i).Ok? && PrintPairs(ParsePairs(parts, i).value) == parts[i..]
    decreases |parts| - i
  {
    if i < |parts| {
      UpperPairIsPrinted(parts[i]);
      ParseUpperPairs(parts, i + 1);
    }
  }

  /** The validator accepts nothing else: a valid string parses, and prints back as itself. */
  lemma ValidIsPrinted(s: string)
    requires IsValidFingerprint(s)
    ensures Parse(s).Ok? && Print(Parse(s).value) == s
  {
    ParseUpperPairs(Split(s, ':'), 0);
    JoinOfSplit(s, ':');
  }

  /** Kotlin's accepted language is exactly the image of the Rust printer. */
  lemma ValidatorIsImageOfPrinter(s: string)
    ensures IsValidFingerprint(s) <==> exists d: Digest :: s == Print(d)
  {
    if IsValidFingerprint(s) {
      ValidIsPrinted(s);
      var d: Digest := Parse(s).value;
      assert s == Print(d);
    }
    if d: Digest :| s == Print(d) {
      PrintedIsValid(d);
    }
  }

  /** Printing undoes parsing exactly on the strings the Kotlin side accepts. */
  lemma PrintOfParse(s: string)
    requires Parse(s).Ok?
    ensures Print(Parse(s).value) == s <==> IsValidFingerprint(s)
  {
    if IsValidFingerprint(s) {
      ValidIsPrinted(s);
    }
    if Print(Parse(s).value) == s {
      var d: Digest := Parse(s).value;
      PrintedIsValid(d);
    }
  }

  predicate IsHexPairOrSigned(p: string) {
    |p| == 2 && (HexValue(p[0]).Some? || p[0] == '+') && HexValue(p[1]).Some?
  }

  lemma AcceptedPair(p: string)
    ensures Utf8Length(p) == 2 && FromStrRadix16(p).Some? <==> IsHexPairOrSigned(p)
  {
    LengthsOfAscii(p);
    if |p| == 2 {
      NumberOfTwo(p);
      assert IsHexPairOrSigned(p) ==> IsAscii(p);
    } else if |p| == 1 {
      assert p[..0] == [];
      assert p[0] as int >= 0x80 ==> HexValue(p[0]).None?;
    }
  }

  lemma {:induction false} AcceptedPairs(parts: seq<string>, i: nat)
    requires i <= |parts|
    ensures ParsePairs(parts, i).Ok? <==> forall j | i <= j < |parts| :: IsHexPairOrSigned(parts[j])
    decreases |parts| - i
  {
    if i < |parts| {
      AcceptedPair(parts[i]);
      AcceptedPairs(parts, i + 1);
    }
  }

  /** The exact language of the Rust parser: wider than the printer's by lower case and `+d`. */
  lemma ParserLanguage(s: string)
    ensures Parse(s).Ok? <==>
      |Split(s, ':')| == SHA256_LEN && forall i | 0 <= i < |Split(s, ':')| :: IsHexPairOrSigned(Split(s, ':')[i])
  {
    AcceptedPairs(Split(s, ':'), 0);
  }

  /** Pair `i` is the first that the parser cannot take. */
  ghost predicate FirstBad(parts: seq<string>, i: nat) {
    i < |parts| && !IsHexPairOrSigned(parts[i]) && forall j | 0 <= j < i :: IsHexPairOrSigned(parts[j])
  }

  lemma {:induction false} BadPairs(parts: seq<string>, i: nat)
    requires i <= |parts| && forall j | 0 <= j < i :: IsHexPairOrSigned(parts[j])
    ensures match ParsePairs(parts, i)
      case Err(PairLength(k, n)) => FirstBad(parts, k) && n == Utf8Length(parts[k]) != 2
      case Err(PairHex(k)) => FirstBad(parts, k) && Utf8Length(parts[k]) == 2
      case Err(PairCount(_)) => false
      case Ok(_) => true
    decreases |parts| - i
  {
    if i < |parts| {
      AcceptedPair(parts[i]);
      if IsHexPairOrSigned(parts[i]) {
        BadPairs(parts, i + 1);
      }
    }
  }

  /** What an error says: the wrong number of pairs, or the first bad pair and what is wrong with it. */
  lemma ErrorNamesFirstBadPair(s: string)
    ensures var parts := Split(s, ':');
      match Parse(s)
      case Err(PairCount(n)) => n == |parts| != SHA256_LEN
      case Err(PairLength(k, n)) => |parts| == SHA256_LEN && FirstBad(parts, k) && n == Utf8Length(parts[k]) != 2
      case Err(PairHex(k)) => |parts| == SHA256_LEN && FirstBad(parts, k) && Utf8Length(parts[k]) == 2
      case Ok(_) => |parts| == SHA256_LEN
  {
    BadPairs(Split(s, ':'), 0);
  }

  // ---------------------------------------------------------------------------
  // Pinning
  // ---------------------------------------------------------------------------

  datatype PinError = NoCert | UnknownDevice | Mismatch(expected: string, got: string)

  /** `verify_pin`, with SHA-256 as the parameter `sha`. */
  function VerifyPin(store: map<nat, string>, device: nat, chain: seq<seq<Byte>>, sha: seq<Byte> -> Digest)
    : Result<(), PinError>
  {
    if chain == [] then Err(NoCert)
    else
      var got := Print(sha(chain[0]));
      if device !in store then Err(UnknownDevice)
      else if store[device] == got then Ok(())
      else Err(Mismatch(store[device], got))
  }

  /**
   Over every store: a certificate is admitted exactly if the device is known and its pin is the
   canonical spelling of the leaf's digest; an unknown device is refused whatever it presents.
   */
  lemma AdmitsIff(store: map<nat, string>, device: nat, chain: seq<seq<Byte>>, sha: seq<Byte> -> Digest)
    ensures var r := VerifyPin(store, device, chain, sha);
      && (r.Ok? <==> chain != [] && device in store && IsValidFingerprint(store[device])
                     && Parse(store[device]) == Ok(sha(chain[0])))
      && (r == Err(NoCert) <==> chain == [])
      && (r == Err(UnknownDevice) <==> chain != [] && device !in store)
      && (r.Err? && r.error.Mismatch? ==>
            device in store && r.error.expected == store[device] && Parse(r.error.got) == Ok(sha(chain[0])))
  {
    if chain != [] {
      ParseOfPrint(sha(chain[0]));
      PrintedIsValid(sha(chain[0]));
      if device in store && IsValidFingerprint(store[device]) {
        ValidIsPrinted(store[device]);
      }
    }
  }

  /** A pin printed from a digest admits exactly the certificates with that digest. */
  lemma PrintedPinAdmitsItsDigest(
    store: map<nat, string>, device: nat, chain: seq<seq<Byte>>, sha: seq<Byte> -> Digest, pinned: Digest)
    requires device in store && store[device] == Print(pinned)
    ensures VerifyPin(store, device, chain, sha).Ok? <==> chain != [] && sha(chain[0]) == pinned
  {
    ParseOfPrint(pinned);
    if chain != [] {
      ParseOfPrint(sha(chain[0]));
    }
  }

  /**
   A pin that the parser accepted at pairing time can still refuse its own certificate: it
   admits a leaf with the digest it denotes iff it is in the canonical spelling.
   */
  lemma ParseablePinNeedsCanonicalSpelling(
    store: map<nat, string>, device: nat, chain: seq<seq<Byte>>, sha: seq<Byte> -> Digest)
    requires device in store && Parse(store[device]).Ok? && chain != []
    requires sha(chain[0]) == Parse(store[device]).value
    ensures VerifyPin(store, device, chain, sha).Ok? <==> IsValidFingerprint(store[device])
  {
    PrintOfParse(store[device]);
  }
}
