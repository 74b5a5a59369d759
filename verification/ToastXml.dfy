/** The toast markup of the Windows backend and the escaping of what users put in it. */
module ToastXml {
  import opened Text

  // ---------------------------------------------------------------------------
  // Escaping
  // ---------------------------------------------------------------------------

  /** `str::replace` of one character. */
  function Replace(s: string, c: char, sub: string): string {
    if s == [] then [] else (if s[0] == c then sub else [s[0]]) + Replace(s[1..], c, sub)
  }

  /** Four passes over the whole string; the ampersand goes first. */
  function Esc(s: string): string {
    Replace(Replace(Replace(Replace(s, '&', "&amp;"), '<', "&lt;"), '>', "&gt;"), '"', "&quot;")
  }

  function Entity(c: char): (e: string)
    ensures 1 <= |e| <= 6
  {
    match c
    case '&' => "&amp;"
    case '<' => "&lt;"
    case '>' => "&gt;"
    case '"' => "&quot;"
    case _ => [c]
  }

  /** One pass, character by character. */
  function Mapped(s: string): string {
    if s == [] then [] else Entity(s[0]) + Mapped(s[1..])
  }

  lemma {:induction false} ReplaceAppend(a: string, b: string, c: char, sub: string)
    ensures Replace(a + b, c, sub) == Replace(a, c, sub) + Replace(b, c, sub)
  {
    if a == [] {
      assert a + b == b;
    } else {
      assert (a + b)[1..] == a[1..] + b;
      ReplaceAppend(a[1..], b, c, sub);
    }
  }

  lemma EscAppend(a: string, b: string)
    ensures Esc(a + b) == Esc(a) + Esc(b)
  {
    var a1, b1 := Replace(a, '&', "&amp;"), Replace(b, '&', "&amp;");
    var a2, b2 := Replace(a1, '<', "&lt;"), Replace(b1, '<', "&lt;");
    var a3, b3 := Replace(a2, '>', "&gt;"), Replace(b2, '>', "&gt;");
    ReplaceAppend(a, b, '&', "&amp;");
    ReplaceAppend(a1, b1, '<', "&lt;");
    ReplaceAppend(a2, b2, '>', "&gt;");
    ReplaceAppend(a3, b3, '"', "&quot;");
  }

  lemma ReplaceOne(x: char, c: char, sub: string)
    ensures Replace([x], c, sub) == if x == c then sub else [x]
  {
    assert Replace([x], c, sub) == (if x == c then sub else [x]) + Replace([], c, sub);
  }

  /** A string without the character is left alone. */
  lemma {:induction false} ReplaceNothing(s: string, c: char, sub: string)
    requires c !in s
    ensures Replace(s, c, sub) == s
  {
    if s != [] {
      ReplaceNothing(s[1..], c, sub);
    }
  }

  /** The passes after the first leave an entity alone. */
  lemma EntityStays(e: string)
    requires '<' !in e && '>' !in e && '"' !in e
    ensures Replace(e, '<', "&lt;") == e && Replace(e, '>', "&gt;") == e && Replace(e, '"', "&quot;") == e
  {
    ReplaceNothing(e, '<', "&lt;");
    ReplaceNothing(e, '>', "&gt;");
    ReplaceNothing(e, '"', "&quot;");
  }

  lemma EscOne(x: char)
    ensures Esc([x]) == Entity(x)
  {
    ReplaceOne(x, '&', "&amp;");
    ReplaceOne(x, '<', "&lt;");
    ReplaceOne(x, '>', "&gt;");
    ReplaceOne(x, '"', "&quot;");
    if x == '&' || x == '<' || x == '>' || x == '"' {
      EntityStays(Entity(x));
    }
  }

  /** The four passes do what one pass would: no pass touches what an earlier one wrote. */
  lemma {:induction false} PassesAreOneMap(s: string)
    ensures Esc(s) == Mapped(s)
  {
    if s != [] {
      PassesAreOneMap(s[1..]);
      assert s == [s[0]] + s[1..];
      EscAppend([s[0]], s[1..]);
      EscOne(s[0]);
    }
  }

  // ---------------------------------------------------------------------------
  // Decoding, and the exact image
  // ---------------------------------------------------------------------------

  /** The entity at the head of the text, as its character and its length. */
  function Head(t: string): (h: (char, nat))
    requires t != []
    ensures 1 <= h.1 <= |t|
  {
    if "&amp;" <= t then ('&', 5)
    else if "&lt;" <= t then ('<', 4)
    else if "&gt;" <= t then ('>', 4)
    else if "&quot;" <= t then ('"', 6)
    else (t[0], 1)
  }

  function Decode(t: string): string
    decreases |t|
  {
    if t == [] then [] else [Head(t).0] + Decode(t[Head(t).1..])
  }

  predicate IsMarkup(c: char) {
    c == '<' || c == '>' || c == '"'
  }

  predicate HeadsEntity(t: string) {
    "&amp;" <= t || "&lt;" <= t || "&gt;" <= t || "&quot;" <= t
  }

  /** No raw `<`, `>` or `"`, and every `&` opens one of the four entities. */
  ghost predicate Escaped(t: string) {
    forall i | 0 <= i < |t| :: !IsMarkup(t[i]) && (t[i] == '&' ==> HeadsEntity(t[i..]))
  }

  lemma EntityHead(c: char, rest: string)
    ensures var t := Entity(c) + rest; Head(t) == (c, |Entity(c)|)
    ensures var t := Entity(c) + rest; (t[0] == '&' <==> HeadsEntity(t)) && !IsMarkup(t[0])
    ensures forall i | 1 <= i < |Entity(c)| :: Entity(c)[i] != '&' && !IsMarkup(Entity(c)[i])
  {
    var e := Entity(c);
    var t := e + rest;
    assert e <= t && t[0] == e[0];
    if c == '&' || c == '<' || c == '>' || c == '"' {
      assert t[1] == e[1];
    }
  }

  lemma {:induction false} DecodeOfMapped(s: string)
    ensures Decode(Mapped(s)) == s
  {
    if s != [] {
      DecodeOfMapped(s[1..]);
      EntityHead(s[0], Mapped(s[1..]));
      assert Mapped(s)[|Entity(s[0])|..] == Mapped(s[1..]);
    }
  }

  lemma EscapedAppend(e: string, rest: string)
    requires e != [] && Escaped(rest)
    requires !IsMarkup(e[0]) && (e[0] == '&' ==> HeadsEntity(e + rest))
    requires forall i | 1 <= i < |e| :: e[i] != '&' && !IsMarkup(e[i])
    ensures Escaped(e + rest)
  {
    var t := e + rest;
    forall i | 0 <= i < |t|
      ensures !IsMarkup(t[i]) && (t[i] == '&' ==> HeadsEntity(t[i..]))
    {
      if i == 0 {
        assert t[0..] == t;
      } else if i >= |e| {
        assert t[i..] == rest[i - |e|..];
        assert t[i] == rest[i - |e|];
      }
    }
  }

  lemma {:induction false} MappedIsEscaped(s: string)
    ensures Escaped(Mapped(s))
  {
    if s != [] {
      MappedIsEscaped(s[1..]);
      EntityHead(s[0], Mapped(s[1..]));
      EscapedAppend(Entity(s[0]), Mapped(s[1..]));
    }
  }

  lemma EscapedTail(t: string, n: nat)
    requires Escaped(t) && n <= |t|
    ensures Escaped(t[n..])
  {
    var u := t[n..];
    forall i | 0 <= i < |u|
      ensures !IsMarkup(u[i]) && (u[i] == '&' ==> HeadsEntity(u[i..]))
    {
      assert u[i] == t[n + i] && u[i..] == t[n + i..];
    }
  }

  lemma HeadIsEntity(t: string)
    requires t != [] && Escaped(t)
    ensures Entity(Head(t).0) == t[..Head(t).1]
  {
    assert t[0..] == t;
    assert t[..1] == [t[0]];
  }

  lemma {:induction false} MappedOfDecode(t: string)
    requires Escaped(t)
    ensures Mapped(Decode(t)) == t
    decreases |t|
  {
    if t != [] {
      var n := Head(t).1;
      EscapedTail(t, n);
      MappedOfDecode(t[n..]);
      HeadIsEntity(t);
      assert t == t[..n] + t[n..];
      assert Decode(t)[1..] == Decode(t[n..]);
    }
  }

  /** Escaping loses nothing, and its outputs are exactly the texts safe inside the markup. */
  lemma EscapedIsImage(s: string, t: string)
    ensures Escaped(Esc(s)) && Decode(Esc(s)) == s
    ensures Escaped(t) <==> Esc(Decode(t)) == t
  {
    PassesAreOneMap(s);
    MappedIsEscaped(s);
    DecodeOfMapped(s);
    PassesAreOneMap(Decode(t));
    MappedIsEscaped(Decode(t));
    if Escaped(t) {
      MappedOfDecode(t);
    }
  }

  // ---------------------------------------------------------------------------
  // The toast
  // ---------------------------------------------------------------------------

  datatype Toast = Toast(title: string, body: string, actions: seq<(string, string)>)

  const HEAD :=
    "<toast activationType=\"foreground\" launch=\"phonebridge://action/noop\">\n" +
    "  <visual>\n    <binding template=\"ToastGeneric\">\n      <text>"
  const BETWEEN := "</text>\n      <text>"
  const AFTER := "</text>\n    </binding>\n  </visual>\n  "
  const TAIL := "\n</toast>"
  const ACTION_OPEN := "<action content=\""
  const ARGUMENTS := "\" arguments=\""
  const URI := "phonebridge://action/"
  const ACTION_MIDDLE := ARGUMENTS + URI
  const ACTION_CLOSE := "\" activationType=\"foreground\" />"

  function ActionXml(key: string, caption: string): (s: string)
    ensures s != []
  {
    ACTION_OPEN + Esc(caption) + ACTION_MIDDLE + key + ACTION_CLOSE
  }

  function ActionsXml(actions: seq<(string, string)>): (s: string)
    ensures s == [] <==> actions == []
  {
    if actions == [] then []
    else
      var last := actions[|actions| - 1];
      ActionsXml(actions[..|actions| - 1]) + ActionXml(last.0, last.1)
  }

  function Block(actions: string): string {
    if actions == [] then [] else "<actions>" + actions + "</actions>"
  }

  function Assembled(
      head: string, title: string, between: string, body: string, after: string, block: string, tail: string): string
  {
    head + Esc(title) + between + Esc(body) + after + block + tail
  }

  function Xml(t: Toast): string {
    Assembled(HEAD, t.title, BETWEEN, t.body, AFTER, Block(ActionsXml(t.actions)), TAIL)
  }

  method BuildToastXml(t: Toast) returns (xml: string)
    ensures xml == Xml(t)
  {
    var actions := "";
    for i := 0 to |t.actions|
      invariant actions == ActionsXml(t.actions[..i])
    {
      assert t.actions[..i + 1][..i] == t.actions[..i];
      var (key, caption) := t.actions[i];
      actions := actions + ActionXml(key, caption);
    }
    assert t.actions[..|t.actions|] == t.actions;
    var block := if actions == [] then "" else "<actions>" + actions + "</actions>";
    xml := HEAD + Esc(t.title) + BETWEEN + Esc(t.body) + AFTER + block + TAIL;
  }

  /** The markup characters of a text, in order. */
  function Skeleton(s: string): string {
    if s == [] then [] else if IsMarkup(s[0]) then [s[0]] + Skeleton(s[1..]) else Skeleton(s[1..])
  }

  lemma {:induction false} SkeletonAppend(a: string, b: string)
    ensures Skeleton(a + b) == Skeleton(a) + Skeleton(b)
  {
    if a == [] {
      assert a + b == b;
    } else {
      assert (a + b)[1..] == a[1..] + b;
      SkeletonAppend(a[1..], b);
    }
  }

  lemma {:induction false} SkeletonOfPlain(s: string)
    requires forall i | 0 <= i < |s| :: !IsMarkup(s[i])
    ensures Skeleton(s) == []
  {
    if s != [] {
      SkeletonOfPlain(s[1..]);
    }
  }

  /** Escaped text adds nothing to the skeleton around it. */
  lemma TextIsInvisible(before: string, text: string, after: string)
    ensures Skeleton(before + Esc(text) + after) == Skeleton(before) + Skeleton(after)
  {
    EscapedIsImage(text, text);
    SkeletonOfPlain(Esc(text));
    SkeletonAppend(before, Esc(text));
    SkeletonAppend(before + Esc(text), after);
  }

  lemma ActionSkeleton(key: string, caption: string)
    ensures Skeleton(ActionXml(key, caption)) == Skeleton(ACTION_OPEN) + Skeleton(ACTION_MIDDLE + key + ACTION_CLOSE)
  {
    Around(ACTION_OPEN, caption, ACTION_MIDDLE, key, ACTION_CLOSE);
  }

  lemma Around(open: string, text: string, middle: string, key: string, close: string)
    ensures Skeleton(open + Esc(text) + middle + key + close) == Skeleton(open) + Skeleton(middle + key + close)
  {
    TextIsInvisible(open, text, middle + key + close);
    assert open + Esc(text) + middle + key + close == open + Esc(text) + (middle + key + close);
  }

  lemma {:induction false} ActionsSkeleton(a: seq<(string, string)>, b: seq<(string, string)>)
    requires |a| == |b| && forall i | 0 <= i < |a| :: a[i].0 == b[i].0
    ensures Skeleton(ActionsXml(a)) == Skeleton(ActionsXml(b))
  {
    if a != [] {
      var n := |a| - 1;
      ActionsSkeleton(a[..n], b[..n]);
      ActionSkeleton(a[n].0, a[n].1);
      ActionSkeleton(b[n].0, b[n].1);
      SkeletonAppend(ActionsXml(a[..n]), ActionXml(a[n].0, a[n].1));
      SkeletonAppend(ActionsXml(b[..n]), ActionXml(b[n].0, b[n].1));
    }
  }

  lemma TwoTexts(head: string, a: string, between: string, b: string, after: string, block: string, tail: string)
    ensures Skeleton(Assembled(head, a, between, b, after, block, tail)) ==
      Skeleton(head) + Skeleton(between) + Skeleton(after) + Skeleton(block) + Skeleton(tail)
  {
    var first := head + Esc(a) + between;
    TextIsInvisible(head, a, between);
    TextIsInvisible(first, b, after);
    SkeletonAppend(first + Esc(b) + after, block);
    SkeletonAppend(first + Esc(b) + after + block, tail);
  }

  /** No title, body or caption can open or close an element or an attribute. */
  lemma MarkupIgnoresText(a: Toast, b: Toast)
    requires |a.actions| == |b.actions| && forall i | 0 <= i < |a.actions| :: a.actions[i].0 == b.actions[i].0
    ensures Skeleton(Xml(a)) == Skeleton(Xml(b))
  {
    TwoTexts(HEAD, a.title, BETWEEN, a.body, AFTER, Block(ActionsXml(a.actions)), TAIL);
    TwoTexts(HEAD, b.title, BETWEEN, b.body, AFTER, Block(ActionsXml(b.actions)), TAIL);
    ActionsSkeleton(a.actions, b.actions);
    BlockIgnoresText(ActionsXml(a.actions), ActionsXml(b.actions));
  }

  lemma BlockIgnoresText(a: string, b: string)
    requires Skeleton(a) == Skeleton(b) && (a == [] <==> b == [])
    ensures Skeleton(Block(a)) == Skeleton(Block(b))
  {
    if a != [] {
      BlockSkeleton(a);
      BlockSkeleton(b);
    }
  }

  lemma BlockSkeleton(s: string)
    requires s != []
    ensures Skeleton(Block(s)) == Skeleton("<actions>") + Skeleton(s) + Skeleton("</actions>")
  {
    SkeletonAppend("<actions>", s);
    SkeletonAppend("<actions>" + s, "</actions>");
  }

  // ---------------------------------------------------------------------------
  // Reading the markup back
  // ---------------------------------------------------------------------------

  function UpToMarkup(s: string): string {
    if s == [] || IsMarkup(s[0]) then [] else [s[0]] + UpToMarkup(s[1..])
  }

  /** The text after the `n`-th markup character, up to the next one. */
  function Field(s: string, n: nat): string {
    if n == 0 then UpToMarkup(s)
    else if s == [] then []
    else if IsMarkup(s[0]) then Field(s[1..], n - 1)
    else Field(s[1..], n)
  }

  lemma {:induction false} UpToMarkupStops(text: string, rest: string)
    requires forall i | 0 <= i < |text| :: !IsMarkup(text[i])
    requires rest != [] && IsMarkup(rest[0])
    ensures UpToMarkup(text + rest) == text
  {
    if text == [] {
      assert text + rest == rest;
    } else {
      assert (text + rest)[1..] == text[1..] + rest;
      UpToMarkupStops(text[1..], rest);
    }
  }

  lemma {:induction false} FieldAfter(before: string, rest: string)
    requires before != [] && IsMarkup(before[|before| - 1])
    ensures |Skeleton(before)| > 0 && Field(before + rest, |Skeleton(before)|) == UpToMarkup(rest)
  {
    assert (before + rest)[1..] == before[1..] + rest;
    if |before| > 1 {
      FieldAfter(before[1..], rest);
    } else {
      assert before[1..] == [] && before[1..] + rest == rest;
    }
  }

  /** Text between markup is found by counting the markup characters before it. */
  lemma TextIsField(before: string, text: string, rest: string)
    requires before != [] && IsMarkup(before[|before| - 1]) && rest != [] && IsMarkup(rest[0])
    ensures Decode(Field(before + Esc(text) + rest, |Skeleton(before)|)) == text
  {
    EscapedIsImage(text, text);
    UpToMarkupStops(Esc(text), rest);
    FieldAfter(before, Esc(text) + rest);
    assert before + Esc(text) + rest == before + (Esc(text) + rest);
  }

  function Keys(actions: seq<(string, string)>): (keys: seq<string>)
    ensures |keys| == |actions|
  {
    seq(|actions|, i requires 0 <= i < |actions| => actions[i].0)
  }

  /** The same actions with no captions: all the layout depends on. */
  function Blank(keys: seq<string>): (actions: seq<(string, string)>)
    ensures |actions| == |keys| && forall i | 0 <= i < |keys| :: actions[i] == (keys[i], "")
  {
    seq(|keys|, i requires 0 <= i < |keys| => (keys[i], ""))
  }

  /** The three stretches of fixed markup around the texts. */
  datatype Layout = Layout(head: string, between: string, after: string) {
    function TitlePosition(): nat {
      |Skeleton(head)|
    }

    function BodyPosition(): nat {
      |Skeleton(head)| + |Skeleton(between)|
    }

    function CaptionPosition(keys: seq<string>, i: nat): nat
      requires i < |keys|
    {
      BodyPosition() + |Skeleton(after)| + |Skeleton("<actions>")| + |Skeleton(ActionsXml(Blank(keys[..i])))|
      + |Skeleton(ACTION_OPEN)|
    }

    predicate Shaped() {
      && head != [] && IsMarkup(head[|head| - 1])
      && between != [] && IsMarkup(between[0]) && IsMarkup(between[|between| - 1])
      && after != [] && IsMarkup(after[0])
    }

    function Xml(t: Toast): string {
      Assembled(head, t.title, between, t.body, after, Block(ActionsXml(t.actions)), TAIL)
    }

    /** A reader that knows the layout and the keys, and walks the markup. */
    function Read(xml: string, keys: seq<string>): Toast {
      Toast(
        Decode(Field(xml, TitlePosition())),
        Decode(Field(xml, BodyPosition())),
        seq(|keys|, i requires 0 <= i < |keys| => (keys[i], Decode(Field(xml, CaptionPosition(keys, i))))))
    }
  }

  const TOAST := Layout(HEAD, BETWEEN, AFTER)

  lemma TitleIsRead(l: Layout, t: Toast)
    requires l.Shaped()
    ensures Decode(Field(l.Xml(t), l.TitlePosition())) == t.title
  {
    var block := Block(ActionsXml(t.actions));
    Regroup(l.head, Esc(t.title), l.between, Esc(t.body), l.after, block, TAIL);
    TextIsField(l.head, t.title, l.between + (Esc(t.body) + (l.after + (block + TAIL))));
  }

  lemma BodyIsRead(l: Layout, t: Toast)
    requires l.Shaped()
    ensures Decode(Field(l.Xml(t), l.BodyPosition())) == t.body
  {
    var block := Block(ActionsXml(t.actions));
    var before := l.head + Esc(t.title) + l.between;
    assert before[|before| - 1] == l.between[|l.between| - 1];
    Regroup(l.head, Esc(t.title), l.between, Esc(t.body), l.after, block, TAIL);
    TextIsInvisible(l.head, t.title, l.between);
    TextIsField(before, t.body, l.after + (block + TAIL));
  }

  lemma Regroup(a: string, b: string, c: string, d: string, e: string, f: string, g: string)
    ensures a + b + c + d + e + f + g == a + b + (c + (d + (e + (f + g))))
    ensures a + b + c + d + e + f + g == (a + b + c) + d + (e + (f + g))
  {
  }

  lemma {:induction false} ActionsSplit(actions: seq<(string, string)>, i: nat) returns (tail: string)
    requires i < |actions|
    ensures ActionsXml(actions) == ActionsXml(actions[..i]) + ActionXml(actions[i].0, actions[i].1) + tail
  {
    var n := |actions| - 1;
    if i == n {
      tail := [];
    } else {
      var rest := ActionsSplit(actions[..n], i);
      assert actions[..n][..i] == actions[..i];
      var last := ActionXml(actions[n].0, actions[n].1);
      tail := rest + last;
      Rejoin(ActionsXml(actions[..i]) + ActionXml(actions[i].0, actions[i].1), rest, last);
      assert actions[..n][i] == actions[i];
    }
  }

  /** What stands before the caption of action `i`, and after it. */
  lemma AroundCaption(open: string, inner: string, key: string, caption: string, middle: string, close: string,
                      before: string, tail: string, after: string)
    requires inner == before + (open + Esc(caption) + middle + key + close) + tail
    ensures inner + after == (before + open) + Esc(caption) + (middle + (key + close + tail + after))
  {
  }

  lemma BeforeCaption(l: Layout, t: Toast, i: nat)
    requires i < |t.actions|
    ensures var before := l.head + Esc(t.title) + l.between + Esc(t.body) + l.after + "<actions>"
        + ActionsXml(t.actions[..i]) + ACTION_OPEN;
      |Skeleton(before)| == l.CaptionPosition(Keys(t.actions), i)
  {
    var before := ActionsXml(t.actions[..i]);
    TwoTexts(l.head, t.title, l.between, t.body, l.after, "<actions>", before + ACTION_OPEN);
    SkeletonAppend(before, ACTION_OPEN);
    ActionsSkeleton(t.actions[..i], Blank(Keys(t.actions)[..i]));
    Rejoin(l.head + Esc(t.title) + l.between + Esc(t.body) + l.after + "<actions>", before, ACTION_OPEN);
  }

  lemma Rejoin(a: string, b: string, c: string)
    ensures a + b + c == a + (b + c)
  {
  }

  lemma CaptionIsRead(l: Layout, t: Toast, i: nat)
    requires i < |t.actions|
    ensures Decode(Field(l.Xml(t), l.CaptionPosition(Keys(t.actions), i))) == t.actions[i].1
  {
    var (key, caption) := t.actions[i];
    var front := l.head + Esc(t.title) + l.between + Esc(t.body) + l.after;
    var before := ActionsXml(t.actions[..i]);
    var tail := ActionsSplit(t.actions, i);
    var rest := ACTION_MIDDLE + (key + ACTION_CLOSE + tail + ("</actions>" + TAIL));
    AroundCaption(ACTION_OPEN, ActionsXml(t.actions), key, caption, ACTION_MIDDLE, ACTION_CLOSE,
                  before, tail, "</actions>" + TAIL);
    Reassemble(front, "<actions>", ActionsXml(t.actions), "</actions>", TAIL, before + ACTION_OPEN, Esc(caption), rest);
    BeforeCaption(l, t, i);
    Rejoin(front + "<actions>", before, ACTION_OPEN);
    TextIsField(front + "<actions>" + before + ACTION_OPEN, caption, rest);
  }

  lemma Reassemble(a: string, open: string, inner: string, close: string, tail: string, b: string, c: string, d: string)
    requires inner + (close + tail) == b + c + d
    ensures a + (open + inner + close) + tail == ((a + open) + b) + c + d
  {
    assert a + (open + inner + close) + tail == (a + open) + (inner + (close + tail));
  }

  // ---------------------------------------------------------------------------
  // Reading the keys back
  // ---------------------------------------------------------------------------

  predicate IsClean(key: string) {
    forall i | 0 <= i < |key| :: !IsMarkup(key[i])
  }

  lemma {:induction false} UpToMarkupOfClean(s: string, rest: string)
    requires rest != [] && IsMarkup(rest[0])
    ensures UpToMarkup(s + rest) == s <==> IsClean(s)
    ensures |UpToMarkup(s + rest)| <= |s|
  {
    if s == [] {
      assert s + rest == rest;
    } else {
      assert (s + rest)[1..] == s[1..] + rest;
      UpToMarkupOfClean(s[1..], rest);
      assert s == [s[0]] + s[1..];
      if IsClean(s[1..]) && !IsMarkup(s[0]) {
        assert forall i | 1 <= i < |s| :: s[i] == s[1..][i - 1];
      }
      if IsClean(s) {
        assert forall i | 0 <= i < |s[1..]| :: s[1..][i] == s[i + 1];
      }
    }
  }

  /** A raw stretch between markup is found whole exactly if it has no markup of its own. */
  lemma RawIsField(before: string, raw: string, rest: string)
    requires before != [] && IsMarkup(before[|before| - 1]) && rest != [] && IsMarkup(rest[0])
    ensures Field(before + raw + rest, |Skeleton(before)|) == raw <==> IsClean(raw)
  {
    FieldAfter(before, raw + rest);
    UpToMarkupOfClean(raw, rest);
    Rejoin(before, raw, rest);
  }

  lemma RawAfter(upto: string, text: string, args: string, raw: string, rest: string)
    requires Skeleton(upto + text + args) == Skeleton(upto) + Skeleton(args)
    requires args != [] && IsMarkup(args[|args| - 1]) && rest != [] && IsMarkup(rest[0])
    ensures Field(upto + text + (args + (raw + rest)), |Skeleton(upto)| + |Skeleton(args)|) == raw <==> IsClean(raw)
  {
    var before := upto + text + args;
    assert before[|before| - 1] == args[|args| - 1];
    RawIsField(before, raw, rest);
    Rejoin(upto + text, args, raw + rest);
    Rejoin(before, raw, rest);
  }

  lemma UriIsClean(uri: string, key: string)
    requires IsClean(uri)
    ensures IsClean(uri + key) <==> IsClean(key)
  {
    assert forall i | 0 <= i < |key| :: (uri + key)[|uri| + i] == key[i];
  }

  lemma KeyAfterText(
      upto: string, text: string, args: string, uri: string, key: string, close: string, rest: string)
    requires args != [] && IsMarkup(args[|args| - 1]) && IsClean(uri)
    requires close != [] && IsMarkup(close[0]) && close <= rest
    ensures Field(upto + Esc(text) + (args + ((uri + key) + rest)), |Skeleton(upto)| + |Skeleton(args)|) == uri + key
      <==> IsClean(key)
  {
    assert rest[0] == close[0];
    TextIsInvisible(upto, text, args);
    RawAfter(upto, Esc(text), args, uri + key, rest);
    UriIsClean(uri, key);
  }

  lemma AroundKey(open: string, text: string, args: string, uri: string, key: string, close: string,
                  before: string, tail: string, after: string, inner: string)
    requires inner == before + (open + text + (args + uri) + key + close) + tail
    ensures inner + after == (before + open) + text + (args + ((uri + key) + (close + (tail + after))))
  {
  }

  /** `args` and `close` are the markup before and after the URI of an action, which starts with `uri`. */
  predicate Surrounds(args: string, uri: string, close: string) {
    && ACTION_MIDDLE == args + uri && ACTION_CLOSE == close && IsClean(uri)
    && args != [] && IsMarkup(args[|args| - 1]) && close != [] && IsMarkup(close[0])
  }

  lemma FixedParts()
    ensures Surrounds(ARGUMENTS, URI, ACTION_CLOSE)
  {
  }

  /** The markup around the key of action `i`. */
  lemma AroundKeyOf(l: Layout, t: Toast, i: nat, args: string, uri: string, close: string)
    returns (upto: string, rest: string)
    requires i < |t.actions| && Surrounds(args, uri, close)
    ensures close <= rest
    ensures l.Xml(t) == upto + Esc(t.actions[i].1) + (args + ((uri + t.actions[i].0) + rest))
    ensures |Skeleton(upto)| == l.CaptionPosition(Keys(t.actions), i)
  {
    var (key, caption) := t.actions[i];
    var front := l.head + Esc(t.title) + l.between + Esc(t.body) + l.after;
    var before := ActionsXml(t.actions[..i]);
    var tail := ActionsSplit(t.actions, i);
    rest := close + (tail + ("</actions>" + TAIL));
    AroundKey(ACTION_OPEN, Esc(caption), args, uri, key, close,
              before, tail, "</actions>" + TAIL, ActionsXml(t.actions));
    Reassemble(front, "<actions>", ActionsXml(t.actions), "</actions>", TAIL,
               before + ACTION_OPEN, Esc(caption), args + ((uri + key) + rest));
    BeforeCaption(l, t, i);
    Rejoin(front + "<actions>", before, ACTION_OPEN);
    upto := front + "<actions>" + before + ACTION_OPEN;
  }

  /**
   The key of an action goes into its URI as it is. In every layout, and with the fixed markup of
   `FixedParts`, a reader that counts markup finds the URI with the whole key, as many markup
   characters after the caption as `args` has, exactly if the key has none of its own.
   */
  lemma KeyIsReadIff(l: Layout, t: Toast, i: nat, args: string, uri: string, close: string) returns (upto: string)
    requires i < |t.actions| && Surrounds(args, uri, close)
    ensures |Skeleton(upto)| == l.CaptionPosition(Keys(t.actions), i)
    ensures Field(l.Xml(t), |Skeleton(upto)| + |Skeleton(args)|) == uri + t.actions[i].0 <==> IsClean(t.actions[i].0)
  {
    var rest;
    upto, rest := AroundKeyOf(l, t, i, args, uri, close);
    KeyAfterText(upto, t.actions[i].1, args, uri, t.actions[i].0, close, rest);
  }

  lemma TextsAreRead(l: Layout, t: Toast)
    requires l.Shaped()
    ensures l.Read(l.Xml(t), Keys(t.actions)) == t
  {
    TitleIsRead(l, t);
    BodyIsRead(l, t);
    forall i | 0 <= i < |t.actions|
      ensures l.Read(l.Xml(t), Keys(t.actions)).actions[i] == t.actions[i]
    {
      CaptionIsRead(l, t, i);
    }
  }

  /** A reader that counts markup characters gets every text back: title, body and all captions. */
  lemma TextsSurvive(t: Toast)
    ensures TOAST.Read(Xml(t), Keys(t.actions)) == t
  {
    TextsAreRead(TOAST, t);
    assert Xml(t) == TOAST.Xml(t);
  }
}
