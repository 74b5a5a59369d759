/**
 Placeholder substitution on UTF-8 text. A Rust `String` is its bytes, so templates, keys,
 values and output are byte sequences here; slices are legal only at character boundaries.
 */
module Template {
  import opened Wrappers
  import opened Text

  type Bytes = seq<Byte>

  const OPEN: Byte := 0x7B
  const CLOSE: Byte := 0x7D

  predicate IsContinuation(b: Byte) {
    0x80 <= b < 0xC0
  }

  function LeadWidth(b: Byte): nat {
    if b < 0x80 then 1 else if b < 0xC0 then 0 else if b < 0xE0 then 2 else if b < 0xF0 then 3 else 4
  }

  /** Lead bytes followed by their continuation bytes; every `str` is of this form. */
  predicate WellFormed(s: Bytes) {
    s == [] ||
    (var w := LeadWidth(s[0]);
     1 <= w <= |s| && (forall k | 1 <= k < w :: IsContinuation(s[k])) && WellFormed(s[w..]))
  }

  /** `str::is_char_boundary`. */
  predicate IsBoundary(s: Bytes, i: nat) {
    i == |s| || (i < |s| && !IsContinuation(s[i]))
  }

  lemma {:induction false} AfterAscii(s: Bytes, i: nat)
    requires WellFormed(s) && i < |s| && s[i] < 0x80
    ensures IsBoundary(s, i) && IsBoundary(s, i + 1)
  {
    var w := LeadWidth(s[0]);
    if i < w {
      assert i == 0 && w == 1;
      assert i + 1 < |s| ==> s[1..][0] == s[1] && LeadWidth(s[1]) >= 1;
    } else {
      AfterAscii(s[w..], i - w);
      assert s[w..][i - w] == s[i];
    }
  }

  lemma {:induction false} SuffixIsWellFormed(s: Bytes, i: nat)
    requires WellFormed(s) && i <= |s| && IsBoundary(s, i)
    ensures WellFormed(s[i..])
  {
    if i == 0 {
      assert s[0..] == s;
    } else {
      var w := LeadWidth(s[0]);
      SuffixIsWellFormed(s[w..], i - w);
      assert s[w..][i - w..] == s[i..];
    }
  }

  lemma PrefixOfTail(s: Bytes, w: nat, i: nat)
    requires w <= i <= |s|
    ensures s[..i][w..] == s[w..][..i - w]
  {
  }

  lemma {:induction false} PrefixIsWellFormed(s: Bytes, i: nat)
    requires WellFormed(s) && i <= |s| && IsBoundary(s, i)
    ensures WellFormed(s[..i])
  {
    if i > 0 {
      var w := LeadWidth(s[0]);
      PrefixIsWellFormed(s[w..], i - w);
      PrefixOfTail(s, w, i);
    }
  }

  lemma TailOfConcat(a: Bytes, b: Bytes, w: nat)
    requires w <= |a|
    ensures (a + b)[w..] == a[w..] + b
  {
  }

  lemma {:induction false} ConcatIsWellFormed(a: Bytes, b: Bytes)
    requires WellFormed(a) && WellFormed(b)
    ensures WellFormed(a + b)
  {
    if a == [] {
      assert a + b == b;
    } else {
      var w, s := LeadWidth(a[0]), a + b;
      ConcatIsWellFormed(a[w..], b);
      TailOfConcat(a, b, w);
      assert s[0] == a[0] && forall k | 1 <= k < w :: s[k] == a[k];
    }
  }

  /** `&s[i..j]`, which panics off a character boundary; what it returns is text again. */
  function Slice(s: Bytes, i: nat, j: nat): (r: Bytes)
    requires WellFormed(s) && i <= j <= |s| && IsBoundary(s, i) && IsBoundary(s, j)
    ensures r == s[i..j] && WellFormed(r)
  {
    PrefixIsWellFormed(s, j);
    assert IsBoundary(s[..j], i);
    SuffixIsWellFormed(s[..j], i);
    assert s[..j][i..] == s[i..j];
    s[i..j]
  }

  /** Position of the first closing brace from `i` on, or the length if there is none. */
  function FindClose(s: Bytes, i: nat): (n: nat)
    requires i <= |s|
    ensures i <= n <= |s| && (n < |s| ==> s[n] == CLOSE) && forall k | i <= k < n :: s[k] != CLOSE
    decreases |s| - i
  {
    if i == |s| || s[i] == CLOSE then i else FindClose(s, i + 1)
  }

  function Lookup(vars: seq<(Bytes, Bytes)>, key: Bytes): Option<Bytes> {
    if vars == [] then None else if vars[0].0 == key then Some(vars[0].1) else Lookup(vars[1..], key)
  }

  /** `push(b as char)`: the byte becomes a code point, which takes two bytes from 0x80 on. */
  function Pushed(b: Byte): Bytes {
    if b < 0x80 then [b] else [0xC0 + b / 64, 0x80 + b % 64]
  }

  // ---------------------------------------------------------------------------
  // Reference: parse once, then substitute piece by piece
  // ---------------------------------------------------------------------------

  /** A template as plain bytes and placeholders. */
  datatype Pieces = End | Plain(b: Byte, rest: Pieces) | Hole(key: Bytes, rest: Pieces)

  /** The pieces of the template from byte `i` on. */
  function Parse(s: Bytes, i: nat): Pieces
    requires i <= |s|
    decreases |s| - i
  {
    if i == |s| then End
    else if s[i] == OPEN && FindClose(s, i + 1) < |s| then
      var n := FindClose(s, i + 1);
      Hole(s[i + 1..n], Parse(s, n + 1))
    else Plain(s[i], Parse(s, i + 1))
  }

  function Braced(key: Bytes): Bytes {
    [OPEN] + key + [CLOSE]
  }

  /** The template a sequence of pieces is written as. */
  function Written(ps: Pieces): Bytes {
    match ps
    case End => []
    case Plain(b, rest) => [b] + Written(rest)
    case Hole(key, rest) => Braced(key) + Written(rest)
  }

  /** The first variable of that name, or the placeholder as written. */
  function Filled(key: Bytes, vars: seq<(Bytes, Bytes)>): Bytes {
    var v := Lookup(vars, key);
    if v.Some? then v.value else Braced(key)
  }

  /** What the template means: text as it is, each placeholder filled once. */
  function Substituted(ps: Pieces, vars: seq<(Bytes, Bytes)>): Bytes {
    match ps
    case End => []
    case Plain(b, rest) => [b] + Substituted(rest, vars)
    case Hole(key, rest) => Filled(key, vars) + Substituted(rest, vars)
  }

  /** What the loop emits. */
  function Emitted(ps: Pieces, vars: seq<(Bytes, Bytes)>): Bytes {
    match ps
    case End => []
    case Plain(b, rest) => Pushed(b) + Emitted(rest, vars)
    case Hole(key, rest) => Filled(key, vars) + Emitted(rest, vars)
  }

  lemma SplitHole(s: Bytes, i: nat, n: nat)
    requires i < n < |s| && s[i] == OPEN && s[n] == CLOSE
    ensures Braced(s[i + 1..n]) + s[n + 1..] == s[i..]
  {
  }

  lemma SplitFirst(s: Bytes, i: nat)
    requires i < |s|
    ensures [s[i]] + s[i + 1..] == s[i..]
  {
  }

  /** The pieces partition the template. */
  lemma {:induction false} WrittenOfParse(s: Bytes, i: nat)
    requires i <= |s|
    ensures Written(Parse(s, i)) == s[i..]
    decreases |s| - i
  {
    if i < |s| {
      var n := FindClose(s, i + 1);
      if s[i] == OPEN && n < |s| {
        WrittenOfParse(s, n + 1);
        SplitHole(s, i, n);
      } else {
        WrittenOfParse(s, i + 1);
        SplitFirst(s, i);
      }
    }
  }

  /**
   What makes a parse the right one: an opening brace stays text only if no closing brace
   follows, and a placeholder ends at the first closing brace.
   */
  predicate Canonical(ps: Pieces) {
    match ps
    case End => true
    case Plain(b, rest) => (b == OPEN ==> CLOSE !in Written(rest)) && Canonical(rest)
    case Hole(key, rest) => CLOSE !in key && Canonical(rest)
  }

  lemma {:induction false} ParseIsCanonical(s: Bytes, i: nat)
    requires i <= |s|
    ensures Canonical(Parse(s, i))
    decreases |s| - i
  {
    if i < |s| {
      var n := FindClose(s, i + 1);
      if s[i] == OPEN && n < |s| {
        ParseIsCanonical(s, n + 1);
      } else {
        ParseIsCanonical(s, i + 1);
        WrittenOfParse(s, i + 1);
      }
    }
  }

  /** A text is split in one way only at its first closing brace. */
  lemma SplitsOnce(k: Bytes, a: Bytes, l: Bytes, b: Bytes)
    requires k + [CLOSE] + a == l + [CLOSE] + b && CLOSE !in k && CLOSE !in l
    ensures k == l && a == b
  {
    var s, t := k + [CLOSE] + a, l + [CLOSE] + b;
    assert s[|k|] == CLOSE && t[|l|] == CLOSE;
    assert forall i | 0 <= i < |k| :: s[i] == k[i] != CLOSE;
    assert forall i | 0 <= i < |l| :: t[i] == l[i] != CLOSE;
    assert k == s[..|k|] && l == t[..|l|];
    assert a == s[|k| + 1..] && b == t[|l| + 1..];
  }

  lemma AfterOpen(key: Bytes, rest: Bytes)
    ensures Braced(key) + rest == [OPEN] + (key + [CLOSE] + rest)
  {
  }

  lemma SameHead(b: Byte, s: Bytes, c: Byte, t: Bytes)
    requires [b] + s == [c] + t
    ensures b == c && s == t
  {
    assert ([b] + s)[0] == b && ([c] + t)[0] == c;
    assert s == ([b] + s)[1..] && t == ([c] + t)[1..];
  }

  lemma OpenIsNotHole(rest: Pieces, key: Bytes, tail: Pieces)
    requires CLOSE !in Written(rest) && CLOSE !in key
    ensures Written(Plain(OPEN, rest)) != Written(Hole(key, tail))
  {
    AfterOpen(key, Written(tail));
    assert (key + [CLOSE] + Written(tail))[|key|] == CLOSE;
    if [OPEN] + Written(rest) == [OPEN] + (key + [CLOSE] + Written(tail)) {
      SameHead(OPEN, Written(rest), OPEN, key + [CLOSE] + Written(tail));
    }
  }

  lemma HolesAgree(k: Bytes, p: Pieces, l: Bytes, q: Pieces)
    requires Written(Hole(k, p)) == Written(Hole(l, q)) && CLOSE !in k && CLOSE !in l
    ensures k == l && Written(p) == Written(q)
  {
    AfterOpen(k, Written(p));
    AfterOpen(l, Written(q));
    SameHead(OPEN, k + [CLOSE] + Written(p), OPEN, l + [CLOSE] + Written(q));
    SplitsOnce(k, Written(p), l, Written(q));
  }

  lemma {:induction false} CanonicalIsUnique(ps: Pieces, qs: Pieces)
    requires Written(ps) == Written(qs) && Canonical(ps) && Canonical(qs)
    ensures ps == qs
  {
    assert (ps == End <==> |Written(ps)| == 0) && (qs == End <==> |Written(qs)| == 0);
    match (ps, qs) {
      case (End, End) =>
      case (End, _) =>
      case (_, End) =>
      case (Plain(b, p), Plain(c, q)) =>
        SameHead(b, Written(p), c, Written(q));
        CanonicalIsUnique(p, q);
      case (Hole(k, p), Hole(l, q)) =>
        HolesAgree(k, p, l, q);
        CanonicalIsUnique(p, q);
      case (Plain(b, p), Hole(k, q)) =>
        AfterOpen(k, Written(q));
        SameHead(b, Written(p), OPEN, k + [CLOSE] + Written(q));
        OpenIsNotHole(p, k, q);
      case (Hole(k, p), Plain(b, q)) =>
        AfterOpen(k, Written(p));
        SameHead(b, Written(q), OPEN, k + [CLOSE] + Written(p));
        OpenIsNotHole(q, k, p);
    }
  }

  /** The parse is the one canonical way to write the template as text and placeholders. */
  lemma ParseIsUnique(template: Bytes, ps: Pieces)
    ensures Parse(template, 0) == ps <==> Written(ps) == template && Canonical(ps)
  {
    assert template[0..] == template;
    WrittenOfParse(template, 0);
    ParseIsCanonical(template, 0);
    if Written(ps) == template && Canonical(ps) {
      CanonicalIsUnique(ps, Parse(template, 0));
    }
  }

  /** What is still to be appended from byte `i` on. */
  function Pending(s: Bytes, i: nat, vars: seq<(Bytes, Bytes)>): Bytes
    requires i <= |s|
  {
    Emitted(Parse(s, i), vars)
  }

  lemma Reassociate(a: Bytes, b: Bytes, c: Bytes)
    ensures a + (b + c) == (a + b) + c
  {
  }

  lemma HoleStep(s: Bytes, i: nat, n: nat, out: Bytes, vars: seq<(Bytes, Bytes)>)
    requires i < n < |s| && s[i] == OPEN && FindClose(s, i + 1) == n
    ensures out + Pending(s, i, vars) == (out + Filled(s[i + 1..n], vars)) + Pending(s, n + 1, vars)
  {
    Reassociate(out, Filled(s[i + 1..n], vars), Pending(s, n + 1, vars));
  }

  lemma PlainStep(s: Bytes, i: nat, out: Bytes, vars: seq<(Bytes, Bytes)>)
    requires i < |s| && !(s[i] == OPEN && FindClose(s, i + 1) < |s|)
    ensures out + Pending(s, i, vars) == (out + Pushed(s[i])) + Pending(s, i + 1, vars)
  {
    Reassociate(out, Pushed(s[i]), Pending(s, i + 1, vars));
  }

  /** The encoding of code point `b`: one byte below 0x80, else a lead byte of two with the rest. */
  lemma PushedIsWellFormed(b: Byte)
    ensures WellFormed(Pushed(b))
    ensures var p := Pushed(b);
      if b < 0x80 then p == [b]
      else |p| == 2 && LeadWidth(p[0]) == 2 && IsContinuation(p[1]) && (p[0] - 0xC0) * 64 + (p[1] - 0x80) == b
  {
    var p := Pushed(b);
    assert p[|p|..] == [];
  }

  lemma FilledIsWellFormed(key: Bytes, vars: seq<(Bytes, Bytes)>)
    requires WellFormed(key) && forall v | v in vars :: WellFormed(v.1)
    ensures WellFormed(Filled(key, vars))
  {
    LookupFindsFirst(vars, key);
    assert WellFormed([OPEN][1..]) && WellFormed([CLOSE][1..]);
    ConcatIsWellFormed([OPEN], key);
    ConcatIsWellFormed([OPEN] + key, [CLOSE]);
  }

  /** Variable `i` is the first of that name. */
  ghost predicate IsFirst(vars: seq<(Bytes, Bytes)>, key: Bytes, i: nat) {
    i < |vars| && vars[i].0 == key && forall j | 0 <= j < i :: vars[j].0 != key
  }

  /** A present name is always found, and its first value is taken. */
  lemma {:induction false} LookupFindsFirst(vars: seq<(Bytes, Bytes)>, key: Bytes)
    ensures Lookup(vars, key).Some? <==> exists v | v in vars :: v.0 == key
    ensures forall i: nat | IsFirst(vars, key, i) :: Lookup(vars, key) == Some(vars[i].1)
    ensures Lookup(vars, key).Some? ==> (key, Lookup(vars, key).value) in vars
  {
    if vars != [] {
      LookupFindsFirst(vars[1..], key);
      assert vars == [vars[0]] + vars[1..];
      forall i: nat | IsFirst(vars, key, i)
        ensures Lookup(vars, key) == Some(vars[i].1)
      {
        if i > 0 {
          assert vars[0].0 != key;
          assert forall j | 0 <= j < i - 1 :: vars[1..][j] == vars[j + 1];
          assert IsFirst(vars[1..], key, i - 1);
        }
      }
    }
  }

  /** The text for a placeholder: the value of the first variable of that name, or itself in braces. */
  ghost predicate Fills(key: Bytes, vars: seq<(Bytes, Bytes)>, text: Bytes) {
    && (forall i: nat | IsFirst(vars, key, i) :: text == vars[i].1)
    && ((forall v | v in vars :: v.0 != key) ==> text == Braced(key))
  }

  /** What a text has to be for the pieces and the variables, told without the loop's functions. */
  ghost predicate Means(ps: Pieces, vars: seq<(Bytes, Bytes)>, out: Bytes) {
    match ps
    case End => out == []
    case Plain(b, rest) => out != [] && out[0] == b && Means(rest, vars, out[1..])
    case Hole(key, rest) => exists text :: Fills(key, vars, text) && text <= out && Means(rest, vars, out[|text|..])
  }

  lemma SomeFirst(vars: seq<(Bytes, Bytes)>, key: Bytes) returns (i: nat)
    requires exists v | v in vars :: v.0 == key
    ensures IsFirst(vars, key, i)
  {
    i := 0;
    while vars[i].0 != key
      invariant i < |vars| && forall j | 0 <= j < i :: vars[j].0 != key
      decreases |vars| - i
    {
      i := i + 1;
    }
  }

  /** There is exactly one such text. */
  lemma FilledIsTheText(key: Bytes, vars: seq<(Bytes, Bytes)>, text: Bytes)
    ensures Fills(key, vars, text) <==> text == Filled(key, vars)
  {
    LookupFindsFirst(vars, key);
    if exists v | v in vars :: v.0 == key {
      var i := SomeFirst(vars, key);
    }
  }

  lemma {:induction false} SubstitutedIsMeant(ps: Pieces, vars: seq<(Bytes, Bytes)>, out: Bytes)
    ensures Means(ps, vars, out) <==> out == Substituted(ps, vars)
  {
    match ps {
      case End =>
      case Plain(b, rest) =>
        if out != [] {
          SubstitutedIsMeant(rest, vars, out[1..]);
          assert out == [out[0]] + out[1..];
        }
      case Hole(key, rest) =>
        var text := Filled(key, vars);
        FilledIsTheText(key, vars, text);
        if text <= out {
          SubstitutedIsMeant(rest, vars, out[|text|..]);
          assert out == text + out[|text|..];
        }
        forall other | Fills(key, vars, other)
          ensures other == text
        {
          FilledIsTheText(key, vars, other);
        }
    }
  }

  /**
   The index loop. Every slice it takes is at character boundaries, as `Slice` demands, and what
   it appends is piece after piece of the template: an inserted value is never looked at again.
   From text it makes text.
   */
  method Render(template: Bytes, vars: seq<(Bytes, Bytes)>) returns (out: Bytes)
    requires WellFormed(template) && forall v | v in vars :: WellFormed(v.1)
    ensures out == Emitted(Parse(template, 0), vars)
    ensures WellFormed(out)
  {
    out := [];
    var i := 0;
    while i < |template|
      invariant i <= |template| && WellFormed(out)
      invariant out + Pending(template, i, vars) == Pending(template, 0, vars)
      decreases |template| - i
    {
      if template[i] == OPEN {
        AfterAscii(template, i);
        var close := FindClose(template, i + 1);
        if close < |template| {
          AfterAscii(template, close);
          HoleStep(template, i, close, out, vars);
          var key := Slice(template, i + 1, close);
          FilledIsWellFormed(key, vars);
          ConcatIsWellFormed(out, Filled(key, vars));
          out := out + Filled(key, vars);
          i := close + 1;
          continue;
        }
      }
      PlainStep(template, i, out, vars);
      PushedIsWellFormed(template[i]);
      ConcatIsWellFormed(out, Pushed(template[i]));
      out := out + Pushed(template[i]);
      i := i + 1;
    }
    assert out + [] == out;
  }

  // ---------------------------------------------------------------------------
  // When the loop is right
  // ---------------------------------------------------------------------------

  /** All text outside placeholders is ASCII. */
  predicate PlainIsAscii(ps: Pieces) {
    match ps
    case End => true
    case Plain(b, rest) => b < 0x80 && PlainIsAscii(rest)
    case Hole(_, rest) => PlainIsAscii(rest)
  }

  lemma {:induction false} EmittedVersusMeant(ps: Pieces, vars: seq<(Bytes, Bytes)>)
    ensures if PlainIsAscii(ps) then Emitted(ps, vars) == Substituted(ps, vars)
      else |Emitted(ps, vars)| > |Substituted(ps, vars)|
  {
    if ps != End {
      EmittedVersusMeant(ps.rest, vars);
    }
  }

  /**
   Take the template as the one canonical sequence of text and placeholders. Rendering replaces
   each placeholder by the value of the first variable of its name, and keeps everything else,
   exactly when the text outside the placeholders is ASCII; otherwise the output is longer,
   because each other byte is encoded a second time.
   */
  lemma RenderIsSubstitution(template: Bytes, vars: seq<(Bytes, Bytes)>, ps: Pieces)
    requires Written(ps) == template && Canonical(ps)
    ensures Means(ps, vars, Emitted(Parse(template, 0), vars)) <==> PlainIsAscii(ps)
    ensures !PlainIsAscii(ps) ==> |Emitted(Parse(template, 0), vars)| > |Substituted(ps, vars)|
  {
    ParseIsUnique(template, ps);
    EmittedVersusMeant(ps, vars);
    SubstitutedIsMeant(ps, vars, Emitted(ps, vars));
  }

  /** Some placeholder names a variable. */
  predicate Matches(ps: Pieces, vars: seq<(Bytes, Bytes)>) {
    match ps
    case End => false
    case Plain(_, rest) => Matches(rest, vars)
    case Hole(key, rest) => (exists v | v in vars :: v.0 == key) || Matches(rest, vars)
  }

  lemma {:induction false} NoMatchIsIdentity(ps: Pieces, vars: seq<(Bytes, Bytes)>)
    requires !Matches(ps, vars)
    ensures Substituted(ps, vars) == Written(ps)
  {
    if ps != End {
      NoMatchIsIdentity(ps.rest, vars);
      if ps.Hole? {
        LookupFindsFirst(vars, ps.key);
      }
    }
  }

  /** With no matching variable the template comes back exactly when that text is ASCII. */
  lemma UnmatchedTemplateIsKept(template: Bytes, vars: seq<(Bytes, Bytes)>, ps: Pieces)
    requires Written(ps) == template && Canonical(ps) && !Matches(ps, vars)
    ensures Emitted(Parse(template, 0), vars) == template <==> PlainIsAscii(ps)
  {
    ParseIsUnique(template, ps);
    NoMatchIsIdentity(ps, vars);
    EmittedVersusMeant(ps, vars);
  }

  /** U+7684, the first ideograph of the built-in Chinese SMS title, comes out as three other characters. */
  lemma IdeographIsGarbled(de: Bytes, vars: seq<(Bytes, Bytes)>)
    requires de == [0xE7, 0x9A, 0x84]
    ensures WellFormed(de) && Emitted(Parse(de, 0), vars) == [0xC3, 0xA7, 0xC2, 0x9A, 0xC2, 0x84]
  {
    var rest := de[3..];
    assert |de| == 3 && |rest| == 0 && WellFormed(rest);
    var p3 := Parse(de, 3);
    assert p3 == End;
    var p2 := Plain(0x84, p3);
    assert Parse(de, 2) == p2;
    var p1 := Plain(0x9A, p2);
    assert Parse(de, 1) == p1;
    assert Emitted(p2, vars) == [0xC2, 0x84];
    assert Emitted(p1, vars) == [0xC2, 0x9A, 0xC2, 0x84];
  }
}
