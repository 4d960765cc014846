/**
 Which stack traces share a canonical form.  Two traces that differ in frame numbers, addresses,
 spacing, padding, blank lines and later frames have the same form; and two traces have the same
 form exactly when their tokens agree once they are split at the separator.
 */
module StackTraces {
  import opened StackCanon

  // ------------------------------------------------------------- alike traces

  predicate Blank(line: string) {
    All(line, Space)
  }

  /** How a frame line writes its symbol and module. */
  datatype Style = Style(left: string, shown: Shown, gap: string, right: string)

  ghost predicate Writes(line: string, d: Style, sym: string, mod: string) {
    && line == d.left + (Show(d.shown, SymbolPart(sym, d.gap, mod)) + d.right)
    && ShownOk(d.shown) && All(d.left, Space) && All(d.right, Space)
    && sym != "" && All(sym, Solid) && All(mod, Solid)
    && if mod == "" then d.gap == "" else d.gap != "" && All(d.gap, Space)
  }

  function FrameText(sym: string, mod: string): string {
    if mod == "" then sym else sym + "@" + mod
  }

  /** Two frame lines with the same symbol and module, up to addresses inside them. */
  ghost predicate SameFrame(l: string, m: string) {
    exists d, d', sym, mod, sym', mod' ::
      Writes(l, d, sym, mod) && Writes(m, d', sym', mod') && Mask(FrameText(sym, mod)) == Mask(FrameText(sym', mod'))
  }

  ghost predicate Pads(line: string, left: string, text: string, right: string) {
    && line == left + (text + right) && All(left, Space) && All(right, Space)
    && text != "" && !IsSpace(text[0]) && !IsSpace(text[|text| - 1])
  }

  ghost predicate SamePadded(l: string, m: string) {
    exists left, right, left', right', text :: Pads(l, left, text, right) && Pads(m, left', text, right')
  }

  ghost predicate Alike(l: string, m: string) {
    l == m || SameFrame(l, m) || SamePadded(l, m)
  }

  /** Two traces that agree line by line, blank lines apart. */
  ghost predicate SameTrace(a: seq<string>, b: seq<string>)
    decreases |a| + |b|
  {
    || (a == [] && b == [])
    || (a != [] && Blank(a[0]) && SameTrace(a[1..], b))
    || (b != [] && Blank(b[0]) && SameTrace(a, b[1..]))
    || (a != [] && b != [] && Alike(a[0], b[0]) && SameTrace(a[1..], b[1..]))
  }

  lemma BlankToken(line: string)
    requires Blank(line)
    ensures Token(line) == ""
  {
    SpanOver(line, "", Space);
    assert line + "" == line;
    assert StripLeft(line) == "";
    assert Strip(line) == "";
  }

  lemma AlikeToken(l: string, m: string)
    requires Alike(l, m)
    ensures Token(l) == Token(m)
  {
    if SameFrame(l, m) {
      var d, d', sym, mod, sym', mod' :|
        Writes(l, d, sym, mod) && Writes(m, d', sym', mod') && Mask(FrameText(sym, mod)) == Mask(FrameText(sym', mod'));
      WritesToken(l, d, sym, mod);
      WritesToken(m, d', sym', mod');
    } else if SamePadded(l, m) {
      var left, right, left', right', text :| Pads(l, left, text, right) && Pads(m, left', text, right');
      StripPads(left, text, right);
      StripPads(left', text, right');
    }
  }

  lemma WritesToken(line: string, d: Style, sym: string, mod: string)
    requires Writes(line, d, sym, mod)
    ensures Token(line) == Mask(FrameText(sym, mod))
  {
    FrameToken(d.shown, d.left, d.right, sym, d.gap, mod);
  }

  lemma TokensOfFirst(lines: seq<string>)
    requires lines != []
    ensures Tokens(lines) == (if Token(lines[0]) == "" then [] else [Token(lines[0])]) + Tokens(lines[1..])
  {
    assert MapLines(Token, lines)[1..] == MapLines(Token, lines[1..]);
  }

  lemma {:induction false} SameTokens(a: seq<string>, b: seq<string>)
    requires SameTrace(a, b)
    ensures Tokens(a) == Tokens(b)
    decreases |a| + |b|
  {
    if a != [] && Blank(a[0]) && SameTrace(a[1..], b) {
      TokensOfFirst(a);
      BlankToken(a[0]);
      SameTokens(a[1..], b);
    } else if b != [] && Blank(b[0]) && SameTrace(a, b[1..]) {
      TokensOfFirst(b);
      BlankToken(b[0]);
      SameTokens(a, b[1..]);
    } else if a != [] {
      TokensOfFirst(a);
      TokensOfFirst(b);
      AlikeToken(a[0], b[0]);
      SameTokens(a[1..], b[1..]);
    }
  }

  /** Main result on traces.  Frame numbers, load addresses, spacing, padding, blank lines, and
      whatever follows five frames, do not change the canonical form. */
  lemma SameTraceSameForm(a: seq<string>, b: seq<string>, later: seq<string>, later': seq<string>, crashType: string)
    requires SameTrace(a, b)
    requires (later == [] && later' == []) || |Tokens(a)| >= 5
    ensures Canonical(a + later, crashType) == Canonical(b + later', crashType)
  {
    SameTokens(a, b);
    if |Tokens(a)| >= 5 {
      LaterLinesIgnored(a, later, crashType);
      LaterLinesIgnored(b, later', crashType);
    } else {
      assert a + later == a && b + later' == b;
    }
  }

  // ------------------------------------------------------------ equal forms

  /** A text split at every bar. */
  function Split(s: string): (r: seq<string>)
    ensures r != []
    decreases |s|
  {
    if s == "" then [""]
    else
      var rest := Split(s[1..]);
      if s[0] == '|' then [""] + rest else [[s[0]] + rest[0]] + rest[1..]
  }

  function Pieces(ts: seq<string>): seq<string>
    decreases |ts|
  {
    if ts == [] then [] else Split(ts[0]) + Pieces(ts[1..])
  }

  lemma {:induction false} SplitAtBar(a: string, b: string)
    ensures Split(a + ("|" + b)) == Split(a) + Split(b)
    decreases |a|
  {
    var s := a + ("|" + b);
    if a == "" {
      assert s == "|" + b && s[1..] == b;
    } else {
      assert s[1..] == a[1..] + ("|" + b);
      SplitAtBar(a[1..], b);
    }
  }

  lemma {:induction false} SplitJoins(ts: seq<string>)
    requires ts != []
    ensures Split(JoinBars(ts)) == Pieces(ts)
    decreases |ts|
  {
    if |ts| == 1 {
      assert Pieces(ts[1..]) == [];
    } else {
      SplitJoins(ts[1..]);
      assert JoinBars(ts) == ts[0] + ("|" + JoinBars(ts[1..]));
      SplitAtBar(ts[0], JoinBars(ts[1..]));
    }
  }

  lemma {:induction false} JoinSplits(s: string)
    ensures JoinBars(Split(s)) == s
    decreases |s|
  {
    if s != "" {
      var rest := Split(s[1..]);
      JoinSplits(s[1..]);
      if s[0] == '|' {
        assert ([""] + rest)[1..] == rest;
        assert s == "" + "|" + s[1..];
      } else {
        JoinFirst(s[0], rest);
        assert s == [s[0]] + s[1..];
      }
    }
  }

  lemma JoinFirst(c: char, rest: seq<string>)
    requires rest != []
    ensures JoinBars([[c] + rest[0]] + rest[1..]) == [c] + JoinBars(rest)
  {
    var ts := [[c] + rest[0]] + rest[1..];
    assert ts[1..] == rest[1..];
    if |rest| > 1 {
      assert [c] + rest[0] + "|" + JoinBars(rest[1..]) == [c] + (rest[0] + "|" + JoinBars(rest[1..]));
    }
  }

  ghost predicate NoneBlank(ts: seq<string>) {
    forall i :: 0 <= i < |ts| ==> ts[i] != ""
  }

  lemma JoinNonEmpty(ts: seq<string>)
    requires NoneBlank(ts)
    ensures JoinBars(ts) == "" <==> ts == []
  {
  }

  lemma JoinsAgree(x: seq<string>, y: seq<string>)
    requires NoneBlank(x) && NoneBlank(y)
    ensures JoinBars(x) == JoinBars(y) <==> Pieces(x) == Pieces(y)
  {
    JoinNonEmpty(x);
    JoinNonEmpty(y);
    if x != [] && y != [] {
      SplitJoins(x);
      SplitJoins(y);
      JoinSplits(JoinBars(x));
      JoinSplits(JoinBars(y));
    }
  }

  lemma {:induction false} NonBlankHasNone(ts: seq<string>)
    ensures NoneBlank(NonBlank(ts))
    decreases |ts|
  {
    if ts != [] {
      NonBlankHasNone(ts[1..]);
    }
  }

  function Form(lines: seq<string>): seq<string> {
    FirstFive(Tokens(lines))
  }

  /** What the canonical form joins: the crash type and the tokens, or an empty text for none. */
  function Parts(lines: seq<string>, crashType: string): (ps: seq<string>)
    ensures |ps| >= 2
  {
    [crashType] + (if Form(lines) == [] then [""] else Form(lines))
  }

  lemma CanonicalJoinsParts(lines: seq<string>, crashType: string)
    ensures Canonical(lines, crashType) == JoinBars(Parts(lines, crashType))
  {
    assert Parts(lines, crashType)[1..] == if Form(lines) == [] then [""] else Form(lines);
  }

  /** Main result on collisions: two traces with their crash types have the same canonical form if and
      only if crash type and first five tokens are the same after splitting them at every bar. */
  lemma CollideIff(a: seq<string>, s: string, b: seq<string>, t: string)
    ensures Canonical(a, s) == Canonical(b, t) <==> Pieces(Parts(a, s)) == Pieces(Parts(b, t))
  {
    CanonicalJoinsParts(a, s);
    CanonicalJoinsParts(b, t);
    SplitJoins(Parts(a, s));
    SplitJoins(Parts(b, t));
    JoinSplits(Canonical(a, s));
    JoinSplits(Canonical(b, t));
  }

  /** For one crash type the tokens alone decide. */
  lemma SameFormIff(a: seq<string>, b: seq<string>, crashType: string)
    ensures Canonical(a, crashType) == Canonical(b, crashType) <==> Pieces(Form(a)) == Pieces(Form(b))
  {
    NonBlankHasNone(MapLines(Token, a));
    NonBlankHasNone(MapLines(Token, b));
    JoinsAgree(Form(a), Form(b));
    var before := crashType + "|";
    assert (before + JoinBars(Form(a)))[|before|..] == JoinBars(Form(a));
    assert (before + JoinBars(Form(b)))[|before|..] == JoinBars(Form(b));
  }

  lemma {:induction false} NoBarOnePiece(s: string)
    requires '|' !in s
    ensures Split(s) == [s]
    decreases |s|
  {
    if s != "" {
      assert '|' !in s[1..];
      NoBarOnePiece(s[1..]);
      assert s == [s[0]] + s[1..];
    }
  }

  lemma {:induction false} NoBarsNoSplit(ts: seq<string>)
    requires forall i :: 0 <= i < |ts| ==> '|' !in ts[i]
    ensures Pieces(ts) == ts
    decreases |ts|
  {
    if ts != [] {
      NoBarOnePiece(ts[0]);
      NoBarsNoSplit(ts[1..]);
    }
  }

  /** Without bars in the tokens, the form tells the first five tokens apart. */
  lemma NoBarsNoCollision(a: seq<string>, b: seq<string>, crashType: string)
    requires forall i :: 0 <= i < |Form(a)| ==> '|' !in Form(a)[i]
    requires forall i :: 0 <= i < |Form(b)| ==> '|' !in Form(b)[i]
    ensures Canonical(a, crashType) == Canonical(b, crashType) <==> Form(a) == Form(b)
  {
    SameFormIff(a, b, crashType);
    NoBarsNoSplit(Form(a));
    NoBarsNoSplit(Form(b));
  }

  predicate Word(s: string) {
    s != "" && All(s, Solid) && s[0] != '#'
  }

  lemma {:induction false} NoSpaceNoIn(s: string)
    requires All(s, Solid)
    ensures IndexOf(s, " in ") == |s|
    decreases |s|
  {
    if s != "" {
      assert s[0] != " in "[0];
      NoSpaceNoIn(s[1..]);
    }
  }

  /** A line that is one word: its token is the word, apart from addresses. */
  lemma WordToken(s: string)
    requires Word(s)
    ensures Token(s) == Mask(s)
  {
    StripPads("", s, "");
    assert "" + (s + "") == s;
    assert ' ' !in s;
    NoSpaceNoIn(s);
  }

  lemma WordTokens(s: string)
    requires Word(s)
    ensures Tokens([s]) == [Mask(s)]
  {
    WordToken(s);
    TokensOfFirst([s]);
    assert [s][1..] == [];
  }

  /** With a bar in a word, two frames and one frame share a form. */
  lemma BarJoinsFrames(a: string, b: string, crashType: string)
    requires Word(a) && Word(b)
    ensures Canonical([a + ("|" + b)], crashType) == Canonical([a, b], crashType)
    ensures Form([a + ("|" + b)]) != Form([a, b])
  {
    OneFrame(a, b);
    TwoFrames(a, b);
    JoinTwo(Mask(a), Mask(b));
    assert |Form([a, b])| == 2;
  }

  /** With a bar in a crash type, its tail and a frame share a form. */
  lemma BarJoinsType(x: string, y: string, a: seq<string>)
    requires Word(y) && Masked(y) && 1 <= |Tokens(a)| <= 4
    ensures Canonical(a, x + ("|" + y)) == Canonical([y] + a, x)
    ensures Form(a) != Form([y] + a)
  {
    WordTokens(y);
    MaskFixes(y);
    TokensAppend([y], a);
    TypeTail(x, y, Tokens(a));
  }

  lemma TypeTail(x: string, y: string, ts: seq<string>)
    requires ts != []
    ensures x + ("|" + y) + "|" + JoinBars(ts) == x + "|" + JoinBars([y] + ts)
  {
    assert ([y] + ts)[1..] == ts;
  }

  lemma OneFrame(a: string, b: string)
    requires Word(a) && Word(b)
    ensures Form([a + ("|" + b)]) == [Mask(a) + "|" + Mask(b)]
  {
    WordJoined(a, b);
    WordForm(a + ("|" + b));
    MaskAtBar(a, b);
  }

  lemma WordJoined(a: string, b: string)
    requires Word(a) && Word(b)
    ensures Word(a + ("|" + b))
  {
    var s := a + ("|" + b);
    assert s[0] == a[0];
    assert forall i :: 0 <= i < |s| ==> s[i] == if i < |a| then a[i] else if i == |a| then '|' else b[i - |a| - 1];
  }

  lemma WordForm(s: string)
    requires Word(s)
    ensures Form([s]) == [Mask(s)]
  {
    WordTokens(s);
  }

  lemma TwoFrames(a: string, b: string)
    requires Word(a) && Word(b)
    ensures Form([a, b]) == [Mask(a), Mask(b)]
  {
    WordTokens(a);
    WordTokens(b);
    assert [a, b] == [a] + [b];
    TokensAppend([a], [b]);
  }

  lemma MaskAtBar(a: string, b: string)
    ensures Mask(a + ("|" + b)) == Mask(a) + "|" + Mask(b)
  {
    assert a + ("|" + b) == (a + "|") + b;
    MaskSplits(a + "|", b);
    MaskBar(a);
  }

  lemma {:induction false} MaskBar(a: string)
    ensures Mask(a + "|") == Mask(a) + "|"
    decreases |a|
  {
    var s := a + "|";
    if a == "" {
      assert s == "|" && s[1..] == "";
      assert Mask(s) == "|";
    } else if AddressAt(s) {
      AddressInside(s, "");
      assert s + "" == s;
      var n := Span(s[2..], Hex);
      assert s[2..] == a[2..] + "|";
      SpanBeforeBar(a[2..]);
      assert s[2 + n..] == a[2 + n..] + "|";
      MaskBar(a[2 + n..]);
      assert "0x?" + (Mask(a[2 + n..]) + "|") == "0x?" + Mask(a[2 + n..]) + "|";
    } else {
      assert s[1..] == a[1..] + "|";
      assert !AddressAt(a) by {
        assert forall i :: 0 <= i < |a| ==> s[i] == a[i];
      }
      MaskBar(a[1..]);
      assert [a[0]] + (Mask(a[1..]) + "|") == [a[0]] + Mask(a[1..]) + "|";
    }
  }

  lemma {:induction false} SpanBeforeBar(a: string)
    ensures Span(a + "|", Hex) == Span(a, Hex)
    decreases |a|
  {
    if a != "" {
      assert (a + "|")[1..] == a[1..] + "|";
      SpanBeforeBar(a[1..]);
    }
  }

  lemma JoinTwo(x: string, y: string)
    ensures JoinBars([x, y]) == x + "|" + y && JoinBars([x + "|" + y]) == x + "|" + y
  {
    assert [x, y][1..] == [y];
  }
}
