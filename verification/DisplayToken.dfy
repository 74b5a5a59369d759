/**
 The display token: 32 random bytes in hex, kept in a file that is replaced through a
 temporary file, and compared without an early exit.
 */
module DisplayToken {
  import opened Wrappers
  import opened Text

  const TOKEN_BYTES := 32

  // ---------------------------------------------------------------------------
  // Hex
  // ---------------------------------------------------------------------------

  predicate IsHexDigit(c: char) {
    '0' <= c <= '9' || 'a' <= c <= 'f' || 'A' <= c <= 'F'
  }

  /** `s.len()` counts bytes; no byte of a longer encoding is a hex digit. */
  predicate IsValidHex(s: string) {
    Utf8Length(s) == 2 * TOKEN_BYTES && AllIn(s, IsHexDigit)
  }

  function HexDigit(n: Byte): (c: char)
    requires n < 16
    ensures IsHexDigit(c)
  {
    (if n < 10 then '0' as int + n else 'a' as int + n - 10) as char
  }

  /** The source looks the digit up in a table. */
  lemma DigitTable(n: Byte)
    requires n < 16
    ensures HexDigit(n) == "0123456789abcdef"[n]
  {
  }

  function HexOf(bytes: seq<Byte>): (s: string)
    ensures |s| == 2 * |bytes| && AllIn(s, IsHexDigit)
  {
    if bytes == [] then []
    else HexOf(bytes[..|bytes| - 1]) + [HexDigit(bytes[|bytes| - 1] / 16), HexDigit(bytes[|bytes| - 1] % 16)]
  }

  /** The shift and the mask of the source are the quotient and the remainder by 16. */
  method HexEncode(bytes: seq<Byte>) returns (out: string)
    ensures out == HexOf(bytes)
  {
    out := [];
    for i := 0 to |bytes|
      invariant out == HexOf(bytes[..i])
    {
      assert bytes[..i + 1][..i] == bytes[..i];
      out := out + [HexDigit(bytes[i] / 16)];
      out := out + [HexDigit(bytes[i] % 16)];
    }
    assert bytes[..|bytes|] == bytes;
  }

  function DigitValue(c: char): (n: Byte)
    requires IsHexDigit(c)
    ensures n < 16
  {
    if c <= '9' then c as int - '0' as int
    else if c <= 'F' then c as int - 'A' as int + 10
    else c as int - 'a' as int + 10
  }

  function BytesOf(s: string): (bytes: seq<Byte>)
    requires AllIn(s, IsHexDigit)
  {
    if |s| < 2 then []
    else BytesOf(s[..|s| - 2]) + [DigitValue(s[|s| - 2]) * 16 + DigitValue(s[|s| - 1])]
  }

  lemma DigitRoundTrip(n: Byte)
    requires n < 16
    ensures DigitValue(HexDigit(n)) == n
  {
  }

  lemma BytesOfSnoc(s: string)
    requires |s| >= 2 && AllIn(s, IsHexDigit)
    ensures AllIn(s[..|s| - 2], IsHexDigit) && IsHexDigit(s[|s| - 2]) && IsHexDigit(s[|s| - 1])
    ensures BytesOf(s) == BytesOf(s[..|s| - 2]) + [DigitValue(s[|s| - 2]) * 16 + DigitValue(s[|s| - 1])]
  {
  }

  lemma BytesOfLastPair(t: string, hi: Byte, lo: Byte)
    requires AllIn(t, IsHexDigit) && hi < 16 && lo < 16
    ensures AllIn(t + [HexDigit(hi), HexDigit(lo)], IsHexDigit)
    ensures BytesOf(t + [HexDigit(hi), HexDigit(lo)]) == BytesOf(t) + [hi * 16 + lo]
  {
    var s := t + [HexDigit(hi), HexDigit(lo)];
    assert s[..|s| - 2] == t && s[|s| - 2] == HexDigit(hi) && s[|s| - 1] == HexDigit(lo);
    DigitRoundTrip(hi);
    DigitRoundTrip(lo);
    BytesOfSnoc(s);
  }

  lemma HexOfSnoc(bytes: seq<Byte>, b: Byte)
    ensures HexOf(bytes + [b]) == HexOf(bytes) + [HexDigit(b / 16), HexDigit(b % 16)]
  {
    assert (bytes + [b])[..|bytes|] == bytes;
  }

  lemma Halves(b: Byte)
    ensures b / 16 < 16 && b % 16 < 16 && b / 16 * 16 + b % 16 == b
  {
  }

  lemma BytesOfHexSnoc(before: seq<Byte>, b: Byte)
    requires BytesOf(HexOf(before)) == before
    ensures BytesOf(HexOf(before + [b])) == before + [b]
  {
    var hi, lo := b / 16, b % 16;
    Halves(b);
    HexOfSnoc(before, b);
    BytesOfLastPair(HexOf(before), hi, lo);
  }

  lemma {:induction false} BytesOfHex(bytes: seq<Byte>)
    ensures BytesOf(HexOf(bytes)) == bytes
  {
    if bytes != [] {
      var before, last := bytes[..|bytes| - 1], bytes[|bytes| - 1];
      BytesOfHex(before);
      BytesOfHexSnoc(before, last);
      assert bytes == before + [last];
    }
  }

  /** Different random bytes never print as the same token. */
  lemma HexIsInjective(a: seq<Byte>, b: seq<Byte>)
    requires HexOf(a) == HexOf(b)
    ensures a == b
  {
    BytesOfHex(a);
    BytesOfHex(b);
  }

  // ---------------------------------------------------------------------------
  // Comparison
  // ---------------------------------------------------------------------------

  /** The differences of all byte pairs, OR-ed together, vanish exactly when every pair agrees. */
  method Verify(current: seq<bv8>, candidate: seq<bv8>) returns (ok: bool)
    ensures ok <==> candidate == current
  {
    if |candidate| != |current| {
      return false;
    }
    var diff: bv8 := 0;
    for i := 0 to |current|
      invariant diff == 0 <==> current[..i] == candidate[..i]
    {
      FoldedDifference(diff, current[i], candidate[i]);
      PrefixesAgree(current, candidate, i);
      diff := diff | (current[i] ^ candidate[i]);
    }
    assert current[..|current|] == current && candidate[..|current|] == candidate;
    ok := diff == 0;
  }

  lemma FoldedDifference(d: bv8, a: bv8, b: bv8)
    ensures d | (a ^ b) == 0 <==> d == 0 && a == b
  {
  }

  lemma PrefixesAgree(a: seq<bv8>, b: seq<bv8>, i: nat)
    requires i < |a| == |b|
    ensures a[..i + 1] == b[..i + 1] <==> a[..i] == b[..i] && a[i] == b[i]
  {
    assert a[..i + 1] == a[..i] + [a[i]] && b[..i + 1] == b[..i] + [b[i]];
  }

  // ---------------------------------------------------------------------------
  // Trimming
  // ---------------------------------------------------------------------------

  /** The White_Space property of Unicode. */
  predicate IsSpace(c: char) {
    var n := c as int;
    0x09 <= n <= 0x0D || n == 0x20 || n == 0x85 || n == 0xA0 || n == 0x1680 || 0x2000 <= n <= 0x200A
    || n == 0x2028 || n == 0x2029 || n == 0x202F || n == 0x205F || n == 0x3000
  }

  function Trim(s: string): (t: string)
    ensures t == [] || (!IsSpace(t[0]) && !IsSpace(t[|t| - 1]))
    ensures |t| <= |s|
    decreases |s|
  {
    if s == [] then []
    else if IsSpace(s[0]) then Trim(s[1..])
    else if IsSpace(s[|s| - 1]) then Trim(s[..|s| - 1])
    else s
  }

  /** All of the text but the stretch from `i` to `j` is white space. */
  predicate SpaceOutside(s: string, i: nat, j: nat) {
    forall k | 0 <= k < |s| && !(i <= k < j) :: IsSpace(s[k])
  }

  lemma DropFront(s: string, i: nat, j: nat)
    requires s != [] && IsSpace(s[0]) && i <= j <= |s| - 1 && SpaceOutside(s[1..], i, j)
    ensures SpaceOutside(s, i + 1, j + 1) && s[1..][i..j] == s[i + 1..j + 1]
  {
    forall k | 0 <= k < |s| && !(i + 1 <= k < j + 1)
      ensures IsSpace(s[k])
    {
      assert k > 0 ==> s[k] == s[1..][k - 1];
    }
  }

  lemma DropBack(s: string, i: nat, j: nat)
    requires s != [] && IsSpace(s[|s| - 1]) && i <= j <= |s| - 1 && SpaceOutside(s[..|s| - 1], i, j)
    ensures SpaceOutside(s, i, j) && s[..|s| - 1][i..j] == s[i..j]
  {
    forall k | 0 <= k < |s| && !(i <= k < j)
      ensures IsSpace(s[k])
    {
      assert k < |s| - 1 ==> s[k] == s[..|s| - 1][k];
    }
  }

  /** Trimming takes white space from both ends and nothing else. */
  lemma {:induction false} TrimTakesOnlySpace(s: string) returns (i: nat, j: nat)
    ensures i <= j <= |s| && Trim(s) == s[i..j] && SpaceOutside(s, i, j)
    decreases |s|
  {
    if s == [] {
      i, j := 0, 0;
    } else if IsSpace(s[0]) {
      i, j := TrimTakesOnlySpace(s[1..]);
      DropFront(s, i, j);
      i, j := i + 1, j + 1;
    } else if IsSpace(s[|s| - 1]) {
      i, j := TrimTakesOnlySpace(s[..|s| - 1]);
      DropBack(s, i, j);
    } else {
      i, j := 0, |s|;
    }
  }

  function LowerCase(s: string): (t: string)
    ensures |t| == |s|
    ensures forall i | 0 <= i < |s| ::
      t[i] == if 'A' <= s[i] <= 'Z' then (s[i] as int - 'A' as int + 'a' as int) as char else s[i]
  {
    seq(|s|, i requires 0 <= i < |s| =>
      if 'A' <= s[i] <= 'Z' then (s[i] as int - 'A' as int + 'a' as int) as char else s[i])
  }

  lemma LowerHexDigit(c: char)
    requires IsHexDigit(c)
    ensures HexDigit(DigitValue(c)) == if 'A' <= c <= 'Z' then (c as int - 'A' as int + 'a' as int) as char else c
  {
  }

  lemma PairOfDigits(hi: Byte, lo: Byte)
    requires hi < 16 && lo < 16
    ensures hi * 16 + lo < 256 && (hi * 16 + lo) / 16 == hi && (hi * 16 + lo) % 16 == lo
  {
  }

  lemma LowerCaseSnoc(s: string)
    requires |s| >= 2 && IsHexDigit(s[|s| - 2]) && IsHexDigit(s[|s| - 1])
    ensures LowerCase(s) == LowerCase(s[..|s| - 2])
      + [HexDigit(DigitValue(s[|s| - 2])), HexDigit(DigitValue(s[|s| - 1]))]
  {
    LowerHexDigit(s[|s| - 2]);
    LowerHexDigit(s[|s| - 1]);
  }

  lemma {:induction false} HexOfBytes(s: string, n: nat)
    requires AllIn(s, IsHexDigit) && |s| == 2 * n
    ensures |BytesOf(s)| == n && HexOf(BytesOf(s)) == LowerCase(s)
    decreases n
  {
    if n > 0 {
      BytesOfSnoc(s);
      HexOfBytes(s[..|s| - 2], n - 1);
      HexOfLastPair(BytesOf(s[..|s| - 2]), s);
    }
  }

  lemma HexOfLastPair(before: seq<Byte>, s: string)
    requires |s| >= 2 && IsHexDigit(s[|s| - 2]) && IsHexDigit(s[|s| - 1])
    requires HexOf(before) == LowerCase(s[..|s| - 2])
    ensures HexOf(before + [DigitValue(s[|s| - 2]) * 16 + DigitValue(s[|s| - 1])]) == LowerCase(s)
  {
    var hi, lo := DigitValue(s[|s| - 2]), DigitValue(s[|s| - 1]);
    PairOfDigits(hi, lo);
    HexOfSnoc(before, hi * 16 + lo);
    LowerCaseSnoc(s);
  }

  /** The shape check admits exactly the prints of 32 bytes, in either case. */
  lemma ValidIffPrinted(s: string)
    ensures IsValidHex(s) <==> exists bytes :: |bytes| == TOKEN_BYTES && LowerCase(s) == HexOf(bytes)
  {
    if IsValidHex(s) {
      AsciiOfHex(s);
      HexOfBytes(s, TOKEN_BYTES);
      assert |BytesOf(s)| == TOKEN_BYTES && LowerCase(s) == HexOf(BytesOf(s));
    }
    if bytes :| |bytes| == TOKEN_BYTES && LowerCase(s) == HexOf(bytes) {
      forall i | 0 <= i < |s|
        ensures IsHexDigit(s[i])
      {
        assert IsHexDigit(HexOf(bytes)[i]);
        assert LowerCase(s)[i] == HexOf(bytes)[i];
      }
      AsciiOfHex(s);
    }
  }

  lemma AsciiOfHex(s: string)
    requires AllIn(s, IsHexDigit)
    ensures Utf8Length(s) == |s|
  {
    assert forall i | 0 <= i < |s| :: IsHexDigit(s[i]);
    LengthsOfAscii(s);
  }

  /** A printed token has the right length and shape, and trimming leaves it alone. */
  lemma PrintedIsAccepted(bytes: seq<Byte>)
    requires |bytes| == TOKEN_BYTES
    ensures IsValidHex(HexOf(bytes)) && Trim(HexOf(bytes)) == HexOf(bytes)
  {
    var s := HexOf(bytes);
    assert forall i | 0 <= i < |s| :: IsHexDigit(s[i]);
    LengthsOfAscii(s);
  }

  // ---------------------------------------------------------------------------
  // The file
  // ---------------------------------------------------------------------------

  /** Where a write of the token file stops; `WriteStops(k)` after `k` characters of the temporary file. */
  datatype Fault = NoFault | NoDirectory | WriteStops(k: nat) | NoPermission | NoRename

  datatype TokenError = Empty | NotHex | Unreadable | NotWritten

  datatype Disk = Disk(token: Option<string>, temp: Option<string>)

  /** Both files after a write: the token file is touched by success alone. */
  function WrittenDisk(disk: Disk, content: string, fault: Fault): (d: Disk)
    ensures d.token == if fault.NoFault? then Some(content) else disk.token
  {
    match fault
    case NoFault => Disk(Some(content), None)
    case NoDirectory => disk
    case WriteStops(k) => disk.(temp := Some(if k < |content| then content[..k] else content))
    case _ => disk.(temp := Some(content))
  }

  /** What `load_or_generate` makes of an existing file. */
  function Loaded(content: string): Result<string, TokenError> {
    var s := Trim(content);
    if s == [] then Err(Empty) else if !IsValidHex(s) then Err(NotHex) else Ok(s)
  }

  lemma {:induction false} TrimOfPadded(s: string, i: nat, j: nat)
    requires i < j <= |s| && SpaceOutside(s, i, j) && !IsSpace(s[i]) && !IsSpace(s[j - 1])
    ensures Trim(s) == s[i..j]
    decreases |s|
  {
    if i > 0 {
      assert forall k | 0 <= k < |s| - 1 :: s[1..][k] == s[k + 1];
      TrimOfPadded(s[1..], i - 1, j - 1);
    } else if j < |s| {
      assert forall k | 0 <= k < |s| - 1 :: s[..|s| - 1][k] == s[k];
      TrimOfPadded(s[..|s| - 1], i, j);
    }
  }

  lemma TrimIsEmptyIff(s: string)
    ensures Trim(s) == [] <==> AllIn(s, IsSpace)
  {
    var i, j := TrimTakesOnlySpace(s);
    if Trim(s) == [] {
      assert i == j;
    } else {
      assert Trim(s)[0] == s[i];
    }
  }

  lemma DigitIsNoSpace(c: char)
    requires IsHexDigit(c)
    ensures !IsSpace(c)
  {
  }

  /**
   A file is accepted exactly if it is one printable token between any white space, and that is
   the token; a file of white space alone is reported as empty, any other as not hexadecimal.
   */
  lemma LoadedIff(content: string, t: string)
    ensures Loaded(content) == Ok(t) <==>
      IsValidHex(t) && exists i, j | 0 <= i <= j <= |content| :: SpaceOutside(content, i, j) && content[i..j] == t
    ensures Loaded(content) == Err(Empty) <==> AllIn(content, IsSpace)
    ensures Loaded(content).Err? ==> Loaded(content).error in {Empty, NotHex}
  {
    TrimIsEmptyIff(content);
    var i, j := TrimTakesOnlySpace(content);
    if IsValidHex(t) && exists i, j | 0 <= i <= j <= |content| :: SpaceOutside(content, i, j) && content[i..j] == t {
      PaddedIsLoaded(content, t);
    }
  }

  lemma PaddedIsLoaded(content: string, t: string)
    requires IsValidHex(t)
    requires exists i, j | 0 <= i <= j <= |content| :: SpaceOutside(content, i, j) && content[i..j] == t
    ensures Trim(content) == t != []
  {
    var i, j :| 0 <= i <= j <= |content| && SpaceOutside(content, i, j) && content[i..j] == t;
    AsciiOfHex(t);
    DigitIsNoSpace(t[0]);
    DigitIsNoSpace(t[|t| - 1]);
    assert t[0] == content[i] && t[|t| - 1] == content[j - 1];
    TrimOfPadded(content, i, j);
  }

  predicate Sound(token: Option<string>) {
    token.None? || Loaded(token.value).Ok?
  }

  class TokenStore {
    var token: Option<string>
    var temp: Option<string>
    /** The token in memory; absent before the first load. */
    var current: Option<string>

    constructor (token: Option<string>, temp: Option<string>)
      ensures this.token == token && this.temp == temp && current == None
    {
      this.token, this.temp, current := token, temp, None;
    }

    /** Create directory, write the temporary file, restrict it, rename it. */
    method WriteTokenFile(content: string, fault: Fault) returns (r: Result<(), TokenError>)
      modifies this`token, this`temp
      ensures r.Ok? <==> fault.NoFault?
      ensures Disk(token, temp) == WrittenDisk(Disk(old(token), old(temp)), content, fault)
    {
      if fault.NoDirectory? {
        return Err(NotWritten);
      }
      temp := Some([]);
      var i := 0;
      while i < |content| && fault != WriteStops(i)
        invariant i <= |content| && temp == Some(content[..i]) && token == old(token)
        invariant fault.WriteStops? && fault.k < |content| ==> i <= fault.k
      {
        assert content[..i + 1] == content[..i] + [content[i]];
        temp := Some(temp.value + [content[i]]);
        i := i + 1;
      }
      assert content[..|content|] == content;
      if fault.WriteStops? {
        assert i < |content| ==> fault.k == i;
        return Err(NotWritten);
      }
      if fault.NoPermission? || fault.NoRename? {
        return Err(NotWritten);
      }
      token, temp := temp, None;
      r := Ok(());
    }

    /** `random` are the bytes a new token would get. */
    method LoadOrGenerate(readable: bool, random: seq<Byte>, fault: Fault) returns (r: Result<string, TokenError>)
      requires |random| == TOKEN_BYTES
      modifies this
      ensures Sound(old(token)) ==> Sound(token)
      ensures old(token).Some? ==> token == old(token)
      ensures r.Ok? <==> readable && (if old(token).Some? then Sound(old(token)) else fault.NoFault?)
      ensures r.Ok? ==> token.Some? && current == Some(r.value) && Loaded(token.value) == r
      ensures r.Err? ==> token == old(token) && current == old(current)
      ensures !readable ==> r == Err(Unreadable)
      ensures readable && old(token).Some? ==> r == Loaded(old(token).value)
      ensures readable && old(token).None? && r.Ok? ==> r.value == HexOf(random) && token == Some(HexOf(random))
      ensures Disk(token, temp) ==
        if readable && old(token).None? then WrittenDisk(Disk(old(token), old(temp)), HexOf(random), fault)
        else Disk(old(token), old(temp))
    {
      if !readable {
        return Err(Unreadable);
      }
      if token.Some? {
        var s := Trim(token.value);
        if s == [] {
          return Err(Empty);
        }
        if !IsValidHex(s) {
          return Err(NotHex);
        }
        current := Some(s);
        return Ok(s);
      }
      var s := HexEncode(random);
      PrintedIsAccepted(random);
      var w := WriteTokenFile(s, fault);
      if w.Err? {
        return Err(w.error);
      }
      current := Some(s);
      r := Ok(s);
    }

    /** A rotation that fails anywhere leaves both the file and the memory as they were. */
    method Rotate(random: seq<Byte>, fault: Fault) returns (r: Result<string, TokenError>)
      requires |random| == TOKEN_BYTES
      modifies this
      ensures r.Ok? <==> fault.NoFault?
      ensures r.Ok? ==> token == Some(r.value) == current && r.value == HexOf(random) && Loaded(r.value) == r
      ensures r.Err? ==> token == old(token) && current == old(current)
      ensures Disk(token, temp) == WrittenDisk(Disk(old(token), old(temp)), HexOf(random), fault)
    {
      var s := HexEncode(random);
      PrintedIsAccepted(random);
      var w := WriteTokenFile(s, fault);
      if w.Err? {
        return Err(w.error);
      }
      current := Some(s);
      r := Ok(s);
    }
  }

  // ---------------------------------------------------------------------------
  // Crashes
  // ---------------------------------------------------------------------------

  /** One process over its lifetime; `memory` is the token it verifies against. */
  datatype Process =
    | Down
    | Running(memory: string)
    | Writing(previous: Option<string>, content: string, written: nat)
    | Renamed(content: string)

  datatype Sys = Sys(disk: Disk, process: Process)

  datatype Step =
    | Boot(random: seq<Byte>)
    | BeginRotate(random: seq<Byte>)
    | Truncate
    | WriteChar
    | Fail
    | Rename
    | Commit
    | Crash

  predicate Enabled(s: Sys, step: Step) {
    match step
    case Boot(random) => s.process.Down? && |random| == TOKEN_BYTES
    case BeginRotate(random) => s.process.Running? && |random| == TOKEN_BYTES
    case Truncate => s.process.Writing? && s.process.written == 0
    case WriteChar => s.process.Writing? && s.disk.temp.Some? && s.process.written < |s.process.content|
      && |s.disk.temp.value| == s.process.written
    case Fail => s.process.Writing?
    case Rename => s.process.Writing? && s.disk.temp == Some(s.process.content)
      && s.process.written == |s.process.content|
    case Commit => s.process.Renamed?
    case Crash => true
  }

  function Next(s: Sys, step: Step): Sys
    requires Enabled(s, step)
  {
    match step
    case Boot(random) =>
      (match s.disk.token
       case None => s.(process := Writing(None, HexOf(random), 0))
       case Some(content) => s.(process := if Loaded(content).Ok? then Running(Loaded(content).value) else Down))
    case BeginRotate(random) => s.(process := Writing(Some(s.process.memory), HexOf(random), 0))
    case Truncate => s.(disk := s.disk.(temp := Some([])))
    case WriteChar =>
      Sys(s.disk.(temp := Some(s.disk.temp.value + [s.process.content[s.process.written]])),
          s.process.(written := s.process.written + 1))
    case Fail => s.(process := if s.process.previous.Some? then Running(s.process.previous.value) else Down)
    case Rename => Sys(Disk(s.disk.temp, None), Renamed(s.process.content))
    case Commit => s.(process := Running(s.process.content))
    case Crash => s.(process := Down)
  }

  ghost predicate IsRun(trace: seq<Sys>, steps: seq<Step>) {
    && |trace| == |steps| + 1
    && forall i | 0 <= i < |steps| :: Enabled(trace[i], steps[i]) && trace[i + 1] == Next(trace[i], steps[i])
  }

  /** Memory and disk of one state: what is in memory is what a restart would load. */
  ghost predicate Coherent(s: Sys) {
    && Sound(s.disk.token)
    && match s.process
       case Down => true
       case Running(memory) => s.disk.token.Some? && Loaded(s.disk.token.value) == Ok(memory)
       case Writing(previous, content, _) =>
         && Loaded(content) == Ok(content)
         && (previous.Some? <==> s.disk.token.Some?)
         && (previous.Some? ==> Loaded(s.disk.token.value) == Ok(previous.value))
       case Renamed(content) => s.disk.token == Some(content) && Loaded(content) == Ok(content)
  }

  lemma StepKeepsCoherent(s: Sys, step: Step)
    requires Coherent(s) && Enabled(s, step)
    ensures Coherent(Next(s, step))
    ensures s.disk.token.Some? ==> Next(s, step).disk.token.Some?
    ensures Next(s, step).disk.token != s.disk.token ==> step.Rename?
  {
    match step {
      case Boot(random) => PrintedIsAccepted(random);
      case BeginRotate(random) => PrintedIsAccepted(random);
      case _ =>
    }
  }

  /**
   Whatever the partial writes, failures and crashes, and wherever they fall in whatever
   sequence of boots and rotations: the token file is absent, which it can only be before its
   first creation, or one that the next start accepts; and a running process, in particular
   one whose rotation has just failed, holds exactly what the file says.
   */
  lemma {:induction false} CrashSafe(trace: seq<Sys>, steps: seq<Step>, n: nat)
    requires IsRun(trace, steps) && n < |trace|
    requires Sound(trace[0].disk.token) && trace[0].process.Down?
    ensures Coherent(trace[n])
    ensures forall i | 0 <= i <= n :: trace[i].disk.token.Some? ==> trace[n].disk.token.Some?
  {
    if n > 0 {
      CrashSafe(trace, steps, n - 1);
      StepKeepsCoherent(trace[n - 1], steps[n - 1]);
    }
  }

  /** Why the rename matters: the temporary file itself can be left with any prefix of a token. */
  lemma TemporaryCanBeTorn(random: seq<Byte>) returns (trace: seq<Sys>, steps: seq<Step>)
    requires |random| == TOKEN_BYTES
    ensures IsRun(trace, steps) && trace[0] == Sys(Disk(None, None), Down)
    ensures !Sound(trace[|steps|].disk.temp) && trace[|steps|].process.Down?
  {
    steps := [Boot(random), Truncate, Crash];
    var s0 := Sys(Disk(None, None), Down);
    var s1 := Next(s0, steps[0]);
    var s2 := Next(s1, steps[1]);
    trace := [s0, s1, s2, Next(s2, steps[2])];
  }

  // ---------------------------------------------------------------------------
  // The methods are runs of those steps
  // ---------------------------------------------------------------------------

  predicate AllEnabled(s: Sys, steps: seq<Step>)
    decreases |steps|
  {
    steps == [] || (Enabled(s, steps[0]) && AllEnabled(Next(s, steps[0]), steps[1..]))
  }

  function Go(s: Sys, steps: seq<Step>): Sys
    requires AllEnabled(s, steps)
    decreases |steps|
  {
    if steps == [] then s else Go(Next(s, steps[0]), steps[1..])
  }

  lemma {:induction false} GoFurther(s: Sys, a: seq<Step>, b: seq<Step>)
    requires AllEnabled(s, a) && AllEnabled(Go(s, a), b)
    ensures AllEnabled(s, a + b) && Go(s, a + b) == Go(Go(s, a), b)
    decreases |a|
  {
    if a == [] {
      assert a + b == b;
    } else {
      GoFurther(Next(s, a[0]), a[1..], b);
      assert (a + b)[1..] == a[1..] + b;
    }
  }

  function Writes(n: nat): seq<Step> {
    if n == 0 then [] else [WriteChar] + Writes(n - 1)
  }

  lemma {:induction false} WritesExtend(s: Sys, n: nat)
    requires s.process.Writing? && s.process.written + n <= |s.process.content|
    requires s.disk.temp == Some(s.process.content[..s.process.written])
    ensures AllEnabled(s, Writes(n))
    ensures var to := s.process.written + n;
      Go(s, Writes(n)) == Sys(s.disk.(temp := Some(s.process.content[..to])), s.process.(written := to))
    decreases n
  {
    if n > 0 {
      var t := Next(s, WriteChar);
      assert t.disk.temp.value == s.process.content[..s.process.written + 1];
      WritesExtend(t, n - 1);
      assert Writes(n)[1..] == Writes(n - 1);
    }
  }

  /** The steps of a write that stops where the fault says. */
  function WriteSteps(content: string, fault: Fault): seq<Step> {
    match fault
    case NoDirectory => [Fail]
    case NoFault => [Truncate] + Writes(|content|) + [Rename, Commit]
    case WriteStops(k) => [Truncate] + Writes(if k < |content| then k else |content|) + [Fail]
    case _ => [Truncate] + Writes(|content|) + [Fail]
  }

  lemma TruncateAndWrite(disk: Disk, previous: Option<string>, content: string, n: nat)
    requires n <= |content|
    ensures var s := Sys(disk, Writing(previous, content, 0));
      && AllEnabled(s, [Truncate] + Writes(n))
      && Go(s, [Truncate] + Writes(n)) == Sys(disk.(temp := Some(content[..n])), Writing(previous, content, n))
  {
    var s := Sys(disk, Writing(previous, content, 0));
    var t := Next(s, Truncate);
    assert t.disk.temp == Some(content[..0]);
    WritesExtend(t, n);
    assert ([Truncate] + Writes(n))[1..] == Writes(n);
  }

  lemma WriteIsRun(disk: Disk, previous: Option<string>, content: string, fault: Fault)
    ensures var s := Sys(disk, Writing(previous, content, 0));
      && AllEnabled(s, WriteSteps(content, fault))
      && Go(s, WriteSteps(content, fault)) ==
           Sys(WrittenDisk(disk, content, fault),
               if fault.NoFault? then Running(content)
               else if previous.Some? then Running(previous.value) else Down)
  {
    var s := Sys(disk, Writing(previous, content, 0));
    if fault.NoDirectory? {
      assert [Fail][1..] == [];
    } else {
      var n := if fault.WriteStops? && fault.k < |content| then fault.k else |content|;
      TruncateAndWrite(disk, previous, content, n);
      assert content[..|content|] == content;
      var u := Go(s, [Truncate] + Writes(n));
      assert [Fail][1..] == [] && [Rename, Commit][1..] == [Commit] && [Commit][1..] == [];
      if fault.NoFault? {
        assert AllEnabled(Next(u, Rename), [Commit]);
        GoFurther(s, [Truncate] + Writes(n), [Rename, Commit]);
      } else {
        GoFurther(s, [Truncate] + Writes(n), [Fail]);
      }
    }
  }

  /**
   A rotation, and a first start, that meet any fault are runs of the steps the crash theorem is
   about, with the outcome the methods promise for the disk and for the memory.
   */
  lemma MethodsAreRuns(disk: Disk, memory: string, random: seq<Byte>, fault: Fault)
    returns (rotation: seq<Step>, boot: seq<Step>)
    requires |random| == TOKEN_BYTES
    ensures AllEnabled(Sys(disk, Running(memory)), rotation)
    ensures Go(Sys(disk, Running(memory)), rotation) ==
      Sys(WrittenDisk(disk, HexOf(random), fault), Running(if fault.NoFault? then HexOf(random) else memory))
    ensures disk.token.None? ==>
      && AllEnabled(Sys(disk, Down), boot)
      && Go(Sys(disk, Down), boot) ==
           Sys(WrittenDisk(disk, HexOf(random), fault), if fault.NoFault? then Running(HexOf(random)) else Down)
  {
    var steps := WriteSteps(HexOf(random), fault);
    rotation, boot := [BeginRotate(random)] + steps, [Boot(random)] + steps;
    WriteIsRun(disk, Some(memory), HexOf(random), fault);
    WriteIsRun(disk, None, HexOf(random), fault);
    assert rotation[1..] == steps && boot[1..] == steps;
  }
}
