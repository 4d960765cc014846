/** What token each kind of line gives, and which tokens the canonical form is made of. */
module StackTokens {
  import opened Common
  import opened StackCanon

  // ---------------------------------------------------------- character classes

  lemma CharacterClasses(c: char)
    ensures IsHex(c) <==> c in "0123456789abcdefABCDEF"
    ensures IsSpace(c) <==> c in " \t\n\r\U{0B}\U{0C}"
    ensures In(c, Digit) <==> c in "0123456789"
  {
  }

  // ------------------------------------------------------------ sanitizer frames

  lemma {:induction false} SpanSplits(s: string, cls: Class)
    ensures All(s[..Span(s, cls)], cls)
    ensures s == s[..Span(s, cls)] + s[Span(s, cls)..]
    decreases |s|
  {
    if s != "" && In(s[0], cls) {
      SpanSplits(s[1..], cls);
      var n := Span(s[1..], cls);
      assert s[..n + 1] == [s[0]] + s[1..][..n];
    }
  }

  /** A symbol, a module if there is one, and what follows the module, each as long as it can be. */
  ghost predicate IsSymbol(f: Frame, gap: string, rest: string) {
    && f.sym != "" && All(f.sym, Solid) && All(gap, Space) && All(f.mod, Solid)
    && (gap == "" ==> f.mod == "") && (f.mod == "" ==> rest == "")
    && (rest != "" ==> IsSpace(rest[0]))
  }

  function SymbolText(f: Frame, gap: string, rest: string): string {
    f.sym + (gap + (f.mod + rest))
  }

  /** The parts of a symbol text. */
  lemma SymbolParts(symbol: string, f: Frame) returns (gap: string, rest: string)
    requires var n := Span(symbol, Solid);
             var mod := symbol[n..][Span(symbol[n..], Space)..];
             n > 0 && f == Frame(symbol[..n], mod[..Span(mod, Solid)])
    ensures symbol == SymbolText(f, gap, rest) && IsSymbol(f, gap, rest)
  {
    SpanSplits(symbol, Solid);
    var after := symbol[Span(symbol, Solid)..];
    assert after == "" || IsSpace(after[0]);
    SpanSplits(after, Space);
    gap := after[..Span(after, Space)];
    var mod := after[Span(after, Space)..];
    assert mod == "" || !IsSpace(mod[0]);
    assert gap == "" ==> after == "";
    SpanSplits(mod, Solid);
    rest := mod[Span(mod, Solid)..];
  }

  lemma SymbolIsSound(text: string) returns (gap2: string, gap3: string, gap: string, rest: string)
    requires ParseSymbol(text).Some?
    ensures gap2 != "" && All(gap2, Space) && gap3 != "" && All(gap3, Space)
    ensures var f := ParseSymbol(text).value;
            IsSymbol(f, gap, rest) && text == gap2 + ("in" + (gap3 + SymbolText(f, gap, rest)))
  {
    var word, afterIn, symbol;
    gap2, word := TakeSpan(text, Space);
    afterIn := word[2..];
    PrefixAndTail(word, "in");
    gap3, symbol := TakeSpan(afterIn, Space);
    gap, rest := SymbolParts(symbol, ParseSymbol(text).value);
  }

  /** The longest prefix within a class, and what follows it. */
  lemma TakeSpan(s: string, cls: Class) returns (a: string, b: string)
    ensures a == s[..Span(s, cls)] && b == s[Span(s, cls)..] && s == a + b
    ensures All(a, cls) && |a| == Span(s, cls)
  {
    SpanSplits(s, cls);
    a, b := s[..Span(s, cls)], s[Span(s, cls)..];
  }

  lemma PrefixAndTail(s: string, prefix: string)
    requires |prefix| <= |s| && s[..|prefix|] == prefix
    ensures s == prefix + s[|prefix|..]
  {
  }

  lemma NumberIsSound(line: string) returns (number: string, gap1: string, address: string)
    requires ParseFrame(line).Some?
    ensures line == "#" + (number + (gap1 + address)) && ParseFrame(line) == ParseAddress(address)
    ensures number != "" && All(number, Digit) && gap1 != "" && All(gap1, Space)
  {
    var tail, afterNumber := line[1..], "";
    HashAndTail(line);
    number, afterNumber := TakeSpan(tail, Digit);
    gap1, address := TakeSpan(afterNumber, Space);
  }

  lemma HashAndTail(line: string)
    requires line != "" && line[0] == '#'
    ensures line == "#" + line[1..]
  {
  }

  lemma AddressIsSound(address: string) returns (x: char, hex: string, text: string)
    requires ParseAddress(address).Some?
    ensures address == "0" + [x] + (hex + text) && ParseAddress(address) == ParseSymbol(text)
    ensures (x == 'x' || x == 'X') && hex != "" && All(hex, Hex)
  {
    x := address[1];
    hex, text := TakeSpan(address[2..], Hex);
    ZeroAndTail(address);
  }

  lemma ZeroAndTail(address: string)
    requires AddressAt(address)
    ensures address == "0" + [address[1]] + address[2..]
    ensures Span(address[2..], Hex) > 0
  {
    assert address[2..][0] == address[2];
  }

  /** Only lines of the frame pattern parse, and what they parse to are the pattern's parts ... */
  lemma FramesAreShown(line: string) returns (f: Shown, gap: string, rest: string)
    requires ParseFrame(line).Some?
    ensures var frame := ParseFrame(line).value;
            ShownOk(f) && IsSymbol(frame, gap, rest) && line == Show(f, SymbolText(frame, gap, rest))
  {
    var number, gap1, address := NumberIsSound(line);
    var x, hex, text := AddressIsSound(address);
    var gap2, gap3;
    gap2, gap3, gap, rest := SymbolIsSound(text);
    f := Shown(number, gap1, x, hex, gap2, gap3);
  }

  /** ... and all lines of the pattern parse, to these parts. */
  lemma ShownAreFrames(f: Shown, frame: Frame, gap: string, rest: string)
    requires ShownOk(f) && IsSymbol(frame, gap, rest)
    ensures ParseFrame(Show(f, SymbolText(frame, gap, rest))) == Some(frame)
  {
    var symbol := SymbolText(frame, gap, rest);
    var text := f.gap2 + ("in" + (f.gap3 + symbol));
    NumberParses(f.number, f.gap1, ShowAddress(f, symbol));
    SkipsAddress(f.x, f.address, text);
    SymbolParses(f.gap2, f.gap3, frame, gap, rest);
  }

  lemma SymbolParses(gap2: string, gap3: string, frame: Frame, gap: string, rest: string)
    requires gap2 != "" && All(gap2, Space) && gap3 != "" && All(gap3, Space) && IsSymbol(frame, gap, rest)
    ensures ParseSymbol(gap2 + ("in" + (gap3 + SymbolText(frame, gap, rest)))) == Some(frame)
  {
    var symbol := SymbolText(frame, gap, rest);
    var word := "in" + (gap3 + symbol);
    SpanOver(gap2, word, Space);
    assert word[..2] == "in" && word[2..] == gap3 + symbol;
    SpanOver(gap3, symbol, Space);
    SpanOver(frame.sym, gap + (frame.mod + rest), Solid);
    SpanOver(gap, frame.mod + rest, Space);
    SpanOver(frame.mod, rest, Solid);
  }

  // ----------------------------------------------------------- other lines

  ghost predicate FirstAt(s: string, sub: string, k: nat) {
    && k <= |s| && sub <= s[k..]
    && forall j :: 0 <= j < k ==> !(sub <= s[j..])
  }

  lemma {:induction false} IndexOfFirst(s: string, sub: string, k: nat)
    requires sub != "" && FirstAt(s, sub, k)
    ensures IndexOf(s, sub) == k
    decreases |s|
  {
    assert s[0..] == s;
    if k > 0 {
      assert s[1..][k - 1..] == s[k..];
      forall j | 0 <= j < k - 1
        ensures !(sub <= s[1..][j..])
      {
        assert s[1..][j..] == s[j + 1..];
      }
      IndexOfFirst(s[1..], sub, k - 1);
    }
  }

  lemma {:induction false} IndexOfNone(s: string, sub: string)
    requires sub != "" && forall j :: 0 <= j < |s| ==> !(sub <= s[j..])
    ensures IndexOf(s, sub) == |s|
    decreases |s|
  {
    if s != "" {
      assert s[0..] == s;
      forall j | 0 <= j < |s| - 1
        ensures !(sub <= s[1..][j..])
      {
        assert s[1..][j..] == s[j + 1..];
      }
      IndexOfNone(s[1..], sub);
    }
  }

  ghost predicate Trimmed(s: string) {
    s != "" && !IsSpace(s[0]) && !IsSpace(s[|s| - 1])
  }

  /** A line that is no frame and names its function after the first " in ", perhaps with an argument
      list: `after` is empty or starts, perhaps after spaces, with "(". */
  ghost predicate NamesAfterIn(core: string, before: string, pad: string, sym: string, after: string) {
    && core == before + (" in " + (pad + (sym + after))) && Trimmed(core)
    && ParseFrame(core).None? && before != "" && FirstAt(core, " in ", |before|)
    && All(pad, Space) && Trimmed(sym) && '(' !in sym
    && (after == "" || exists pad', args :: after == pad' + ("(" + args) && All(pad', Space))
  }

  /** The token of such a line is its symbol, apart from addresses, whatever stands before " in ",
      among the arguments, and around the line. */
  lemma InToken(left: string, core: string, right: string, before: string, pad: string, sym: string, after: string)
    requires All(left, Space) && All(right, Space)
    requires NamesAfterIn(core, before, pad, sym, after)
    ensures Token(left + (core + right)) == Mask(sym)
  {
    var text := pad + (sym + after);
    StripPads(left, core, right);
    RawInToken(core, before, text);
    NameStripped(text, pad, sym, after);
  }

  lemma RawInToken(core: string, before: string, text: string)
    requires core == before + (" in " + text) && ParseFrame(core).None? && FirstAt(core, " in ", |before|)
    ensures RawToken(core) == Strip(Before(text, "("))
  {
    IndexOfFirst(core, " in ", |before|);
    TailAfterIn(core, before, text);
  }

  lemma TailAfterIn(core: string, before: string, text: string)
    requires core == before + (" in " + text)
    ensures |before| < |core| && core[|before| + 4..] == text
  {
    assert core == (before + " in ") + text;
  }

  lemma NameStripped(text: string, pad: string, sym: string, after: string)
    requires text == pad + (sym + after) && All(pad, Space) && Trimmed(sym) && '(' !in sym
    requires after == "" || exists pad', args :: after == pad' + ("(" + args) && All(pad', Space)
    ensures Strip(Before(text, "(")) == sym
  {
    if after == "" {
      NameAlone(text, pad, sym);
    } else {
      var pad', args :| after == pad' + ("(" + args) && All(pad', Space);
      assert text == pad + (sym + (pad' + ("(" + args)));
      ArgumentsStart(text, pad, sym, pad', args);
      StripPads(pad, sym, pad');
    }
  }

  lemma NameAlone(text: string, pad: string, sym: string)
    requires text == pad + (sym + "") && All(pad, Space) && Trimmed(sym) && '(' !in sym
    ensures Strip(Before(text, "(")) == sym
  {
    NoParenthesis(text, pad, sym);
    assert text[..|text|] == text;
    StripPads(pad, sym, "");
  }

  lemma NoParenthesis(text: string, pad: string, sym: string)
    requires text == pad + (sym + "") && All(pad, Space) && '(' !in sym
    ensures IndexOf(text, "(") == |text|
  {
    forall j | 0 <= j < |text|
      ensures !("(" <= text[j..])
    {
      assert text[j] != '(' by {
        assert text[j] == if j < |pad| then pad[j] else sym[j - |pad|];
      }
      assert text[j..][0] == text[j];
    }
    IndexOfNone(text, "(");
  }

  lemma ArgumentsStart(text: string, pad: string, sym: string, pad': string, args: string)
    requires text == pad + (sym + (pad' + ("(" + args)))
    requires All(pad, Space) && All(pad', Space) && '(' !in sym
    ensures Before(text, "(") == pad + (sym + pad')
  {
    var name := pad + (sym + pad');
    assert text == name + ("(" + args);
    assert text[|name|..] == "(" + args;
    forall j | 0 <= j < |name|
      ensures !("(" <= text[j..])
    {
      assert text[j] == if j < |pad| then pad[j] else if j < |pad| + |sym| then sym[j - |pad|]
                        else pad'[j - |pad| - |sym|];
      assert text[j..][0] == text[j] != '(';
    }
    IndexOfFirst(text, "(", |name|);
    assert text[..|name|] == name;
  }

  /** A line with a space in it and without " in " that is no frame gives no token. */
  lemma NoToken(left: string, core: string, right: string)
    requires All(left, Space) && All(right, Space) && Trimmed(core)
    requires ParseFrame(core).None? && ' ' in core && forall j :: 0 <= j < |core| ==> !(" in " <= core[j..])
    ensures Token(left + (core + right)) == ""
  {
    StripPads(left, core, right);
    IndexOfNone(core, " in ");
  }

  // ------------------------------------------------------- the tokens of a trace

  /** The form takes the first five tokens, or all of them when there are fewer, in order. */
  lemma FirstFiveLaw(tokens: seq<string>)
    ensures FirstFive(tokens) <= tokens
    ensures |FirstFive(tokens)| == if |tokens| < 5 then |tokens| else 5
  {
  }

  /** The tokens of a trace are those of its lines that are not empty, line after line. */
  lemma TokensLaw(line: string, lines: seq<string>)
    ensures Tokens([line] + lines) == (if Token(line) == "" then [] else [Token(line)]) + Tokens(lines)
    ensures Tokens([]) == []
  {
    MapFirst(line, lines);
    NonBlankFirst(Token(line), MapLines(Token, lines));
    assert MapLines(Token, []) == [];
  }

  lemma MapFirst(line: string, lines: seq<string>)
    ensures MapLines(Token, [line] + lines) == [Token(line)] + MapLines(Token, lines)
  {
    MapLinesAppend(Token, [line], lines);
    assert MapLines(Token, [line]) == [Token(line)];
  }

  lemma NonBlankFirst(t: string, ts: seq<string>)
    ensures NonBlank([t] + ts) == (if t == "" then [] else [t]) + NonBlank(ts)
  {
    assert ([t] + ts)[1..] == ts;
  }

  /** The form is the crash type, a bar, and the joined tokens, where joining puts one bar between. */
  lemma CanonicalLaw(lines: seq<string>, crashType: string)
    ensures Canonical(lines, crashType) == crashType + "|" + JoinBars(FirstFive(Tokens(lines)))
    ensures JoinBars([]) == ""
    ensures forall t :: JoinBars([t]) == t
    ensures forall t, ts :: ts != [] ==> JoinBars([t] + ts) == t + "|" + JoinBars(ts)
  {
    forall t, ts | ts != []
      ensures JoinBars([t] + ts) == t + "|" + JoinBars(ts)
    {
      assert ([t] + ts)[1..] == ts;
    }
  }
}
