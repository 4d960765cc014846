/**
 The canonical form of a stack trace in the fuzz reporter: one token per frame line, addresses
 rewritten to "0x?", the first five tokens joined.  Lines are given one by one; the digest that the
 reporter takes of the canonical string is not modelled.
 */
module StackCanon {
  import opened Common

  datatype Class = Digit | Space | Hex | Solid

  predicate IsHex(c: char) {
    '0' <= c <= '9' || 'a' <= c <= 'f' || 'A' <= c <= 'F'
  }

  predicate IsSpace(c: char) {
    c == ' ' || c == '\t' || c == '\n' || c == '\r' || c == '\U{0B}' || c == '\U{0C}'
  }

  predicate In(c: char, cls: Class) {
    match cls
    case Digit => '0' <= c <= '9'
    case Space => IsSpace(c)
    case Hex => IsHex(c)
    case Solid => !IsSpace(c)
  }

  /** Length of the longest prefix within a class. */
  function Span(s: string, cls: Class): (n: nat)
    ensures n <= |s|
    ensures n < |s| ==> !In(s[n], cls)
  {
    if s == "" || !In(s[0], cls) then 0 else Span(s[1..], cls) + 1
  }

  // ---------------------------------------------------------------- addresses

  /** `0[xX][0-9a-fA-F]+` matches at the start. */
  predicate AddressAt(s: string) {
    |s| >= 3 && s[0] == '0' && (s[1] == 'x' || s[1] == 'X') && IsHex(s[2])
  }

  /** Every address rewritten to "0x?", from the left. */
  function Mask(s: string): string
    decreases |s|
  {
    if s == "" then ""
    else if AddressAt(s) then "0x?" + Mask(s[2 + Span(s[2..], Hex)..])
    else [s[0]] + Mask(s[1..])
  }

  // ------------------------------------------------------------------- tokens

  datatype Frame = Frame(sym: string, mod: string)

  /** The sanitizer frame `#<digits> <address> in <symbol> [<module>]`, matched at the start. */
  function ParseFrame(line: string): Option<Frame> {
    if line == "" || line[0] != '#' then None
    else
      var d := Span(line[1..], Digit);
      var afterNumber := line[1..][d..];
      var s1 := Span(afterNumber, Space);
      if d == 0 || s1 == 0 then None else ParseAddress(afterNumber[s1..])
  }

  function ParseAddress(address: string): Option<Frame> {
    if !AddressAt(address) then None
    else ParseSymbol(address[2..][Span(address[2..], Hex)..])
  }

  function ParseSymbol(afterAddress: string): Option<Frame> {
    var s2 := Span(afterAddress, Space);
    var word := afterAddress[s2..];
    if s2 == 0 || |word| < 2 || word[..2] != "in" then None
    else
      var s3 := Span(word[2..], Space);
      var sym := word[2..][s3..];
      var n := Span(sym, Solid);
      if s3 == 0 || n == 0 then None
      else
        var rest := sym[n..];
        var mod := rest[Span(rest, Space)..];
        Some(Frame(sym[..n], mod[..Span(mod, Solid)]))
  }

  function StripLeft(s: string): string {
    s[Span(s, Space)..]
  }

  function StripRight(s: string): string {
    if s == "" || !IsSpace(s[|s| - 1]) then s else StripRight(s[..|s| - 1])
  }

  function Strip(s: string): string {
    StripRight(StripLeft(s))
  }

  /** Index of the first occurrence, or the length. */
  function IndexOf(s: string, sub: string): (i: nat)
    ensures i <= |s|
    ensures i < |s| ==> sub <= s[i..]
  {
    if s == "" || sub <= s then 0 else IndexOf(s[1..], sub) + 1
  }

  function Before(s: string, sub: string): string {
    s[..IndexOf(s, sub)]
  }

  /** The token of a stripped line; a blank token means that the line gives no frame. */
  function RawToken(line: string): string {
    var frame := ParseFrame(line);
    var i := IndexOf(line, " in ");
    if frame.Some? then
      if frame.value.mod == "" then frame.value.sym else frame.value.sym + "@" + frame.value.mod
    else if i < |line| then Strip(Before(line[i + 4..], "("))
    else if ' ' !in line then line
    else ""
  }

  function Token(rawLine: string): string {
    Mask(RawToken(Strip(rawLine)))
  }

  function MapLines(f: string -> string, lines: seq<string>): (ts: seq<string>)
    ensures |ts| == |lines|
    ensures forall i :: 0 <= i < |lines| ==> ts[i] == f(lines[i])
  {
    seq(|lines|, i requires 0 <= i < |lines| => f(lines[i]))
  }

  function NonBlank(ts: seq<string>): seq<string> {
    if ts == [] then [] else (if ts[0] == "" then [] else [ts[0]]) + NonBlank(ts[1..])
  }

  /** The non-blank tokens, in order. */
  function Tokens(lines: seq<string>): seq<string> {
    NonBlank(MapLines(Token, lines))
  }

  function FirstFive(tokens: seq<string>): seq<string> {
    if |tokens| <= 5 then tokens else tokens[..5]
  }

  function JoinBars(tokens: seq<string>): string {
    if |tokens| == 0 then "" else if |tokens| == 1 then tokens[0]
    else tokens[0] + "|" + JoinBars(tokens[1..])
  }

  function Canonical(lines: seq<string>, crashType: string): string {
    crashType + "|" + JoinBars(FirstFive(Tokens(lines)))
  }

  /** The loop that collects the frames and stops at five. */
  method CanonicalString(lines: seq<string>, crashType: string) returns (canonical: string)
    ensures canonical == Canonical(lines, crashType)
  {
    var frames := CollectFrames(lines);
    canonical := crashType + "|" + JoinBars(frames);
  }

  method CollectFrames(lines: seq<string>) returns (frames: seq<string>)
    ensures frames == FirstFive(Tokens(lines))
  {
    frames := [];
    var i := 0;
    ghost var ts := MapLines(Token, lines);
    CollectNothing(ts);
    while i < |lines|
      invariant Collecting(ts, frames, i)
    {
      CollectStep(ts, frames, i);
      var token := LineToken(lines, i);
      i := i + 1;
      if token != "" {
        frames := frames + [token];
      }
      if |frames| >= 5 {
        return;
      }
    }
  }

  /** The lines before `i` have given these frames, and there are fewer than five. */
  ghost predicate Collecting(ts: seq<string>, frames: seq<string>, i: nat) {
    && i <= |ts| && |frames| <= 4
    && NonBlank(ts) == frames + NonBlank(ts[i..])
    && (i == |ts| ==> FirstFive(NonBlank(ts)) == frames)
  }

  lemma CollectNothing(ts: seq<string>)
    ensures Collecting(ts, [], 0)
  {
    assert ts[0..] == ts;
  }

  lemma CollectStep(ts: seq<string>, frames: seq<string>, i: nat)
    requires Collecting(ts, frames, i) && i < |ts|
    ensures var more := if ts[i] == "" then frames else frames + [ts[i]];
            if |more| >= 5 then FirstFive(NonBlank(ts)) == more else Collecting(ts, more, i + 1)
  {
    NonBlankStep(frames, ts, i);
  }

  /** One turn of the loop: blank for a line that gives no frame. */
  method LineToken(lines: seq<string>, i: nat) returns (token: string)
    requires i < |lines|
    ensures token == MapLines(Token, lines)[i]
  {
    var line := Strip(lines[i]);
    if line == "" {
      return "";
    }
    token := Mask(RawToken(line));
  }

  lemma NonBlankStep(frames: seq<string>, ts: seq<string>, i: nat)
    requires i < |ts|
    ensures frames + NonBlank(ts[i..]) ==
            (if ts[i] == "" then frames else frames + [ts[i]]) + NonBlank(ts[i + 1..])
  {
    assert ts[i..][1..] == ts[i + 1..];
  }

  // ------------------------------------------------------ facts on addresses

  ghost predicate Masked(s: string) {
    forall i :: 0 <= i <= |s| ==> !AddressAt(s[i..])
  }

  lemma MaskedTail(c: char, s: string)
    requires Masked(s) && !AddressAt([c] + s)
    ensures Masked([c] + s)
  {
    var t := [c] + s;
    forall i | 0 <= i <= |t|
      ensures !AddressAt(t[i..])
    {
      if i == 0 {
        assert t[0..] == t;
      } else {
        assert t[i..] == s[i - 1..];
      }
    }
  }

  /** The rewritten text holds no address. */
  lemma {:induction false} MaskRemovesAddresses(s: string)
    ensures Masked(Mask(s))
    decreases |s|
  {
    if s == "" {
    } else if AddressAt(s) {
      var rest := Mask(s[2 + Span(s[2..], Hex)..]);
      MaskRemovesAddresses(s[2 + Span(s[2..], Hex)..]);
      MaskedTail('?', rest);
      MaskedTail('x', ['?'] + rest);
      MaskedTail('0', ['x'] + (['?'] + rest));
      assert "0x?" + rest == ['0'] + (['x'] + (['?'] + rest));
    } else {
      MaskRemovesAddresses(s[1..]);
      NoNewAddress(s);
      MaskedTail(s[0], Mask(s[1..]));
    }
  }

  lemma NoNewAddress(s: string)
    requires s != "" && !AddressAt(s)
    ensures !AddressAt([s[0]] + Mask(s[1..]))
  {
    var t := s[1..];
    if t != "" && !AddressAt(t) {
      var u := t[1..];
      assert Mask(t) == [t[0]] + Mask(u);
      assert u != "" ==> Mask(u)[0] == u[0] && u[0] == s[2];
      assert t[0] == s[1];
    }
  }

  /** The rewrite leaves text without addresses alone, so it is idempotent. */
  lemma {:induction false} MaskFixes(s: string)
    requires Masked(s)
    ensures Mask(s) == s
    decreases |s|
  {
    if s != "" {
      assert s[0..] == s;
      forall i | 0 <= i <= |s| - 1
        ensures !AddressAt(s[1..][i..])
      {
        assert s[1..][i..] == s[i + 1..];
      }
      MaskFixes(s[1..]);
    }
  }

  lemma MaskIdempotent(s: string)
    ensures Mask(Mask(s)) == Mask(s)
  {
    MaskRemovesAddresses(s);
    MaskFixes(Mask(s));
  }

  /** A character that is no part of any address. */
  predicate Neutral(c: char) {
    !IsHex(c) && c != 'x' && c != 'X'
  }

  /** A neutral character separates the rewrites on its two sides. */
  lemma {:induction false} MaskSplits(a: string, t: string)
    requires a == "" || Neutral(a[|a| - 1])
    ensures Mask(a + t) == Mask(a) + Mask(t)
    decreases |a|
  {
    if a == "" {
      assert a + t == t;
    } else {
      MaskFirst(a, t);
      MaskOnce(a);
      MaskSplits(a[MaskedFirst(a)..], t);
      Associates(Rewritten(a), Mask(a[MaskedFirst(a)..]), Mask(t));
    }
  }

  /** How many characters the first step of the rewrite takes. */
  function MaskedFirst(s: string): (n: nat)
    requires s != ""
    ensures 0 < n <= |s|
  {
    if AddressAt(s) then 2 + Span(s[2..], Hex) else 1
  }

  /** What they become. */
  function Rewritten(s: string): string
    requires s != ""
  {
    if AddressAt(s) then "0x?" else [s[0]]
  }

  lemma MaskOnce(s: string)
    requires s != ""
    ensures Mask(s) == Rewritten(s) + Mask(s[MaskedFirst(s)..])
  {
  }

  lemma Associates(a: string, b: string, c: string)
    ensures a + (b + c) == a + b + c
  {
  }

  lemma MaskFirst(a: string, t: string)
    requires a != "" && Neutral(a[|a| - 1])
    ensures var n := MaskedFirst(a);
            && (n == |a| || Neutral(a[n..][|a[n..]| - 1]))
            && Mask(a + t) == Rewritten(a) + Mask(a[n..] + t)
  {
    AddressInside(a, t);
    assert (a + t)[MaskedFirst(a)..] == a[MaskedFirst(a)..] + t;
  }

  /** An address that starts before a neutral character ends before it. */
  lemma AddressInside(a: string, t: string)
    requires a != "" && Neutral(a[|a| - 1])
    ensures AddressAt(a + t) <==> AddressAt(a)
    ensures AddressAt(a) ==> Span((a + t)[2..], Hex) == Span(a[2..], Hex) < |a| - 2
  {
    var n := |a|;
    assert forall i :: 0 <= i < n ==> (a + t)[i] == a[i];
    if AddressAt(a) {
      assert (a + t)[2..] == a[2..] + t;
      assert a[2..][n - 3] == a[n - 1];
      SpanStops(a[2..], t);
    }
  }

  lemma {:induction false} SpanStops(a: string, t: string)
    requires a != "" && Neutral(a[|a| - 1])
    ensures Span(a + t, Hex) == Span(a, Hex) < |a|
    decreases |a|
  {
    if IsHex(a[0]) {
      assert (a + t)[1..] == a[1..] + t;
      SpanStops(a[1..], t);
    }
  }

  /** An address after a neutral character is rewritten whatever it is, so that load addresses and
      offsets do not split equal tokens. */
  lemma MaskForgetsAddress(a: string, x: char, address: string, b: string)
    requires a == "" || Neutral(a[|a| - 1])
    requires (x == 'x' || x == 'X') && address != "" && All(address, Hex)
    requires b == "" || !IsHex(b[0])
    ensures Mask(a + ("0" + [x] + (address + b))) == Mask(a) + ("0x?" + Mask(b))
  {
    var t := "0" + [x] + (address + b);
    MaskSplits(a, t);
    assert t[2..] == address + b;
    SpanOver(address, b, Hex);
    assert t[2 + |address|..] == b;
  }

  // ------------------------------------------- what the canonical form ignores

  lemma {:induction false} NonBlankAppend(a: seq<string>, b: seq<string>)
    ensures NonBlank(a + b) == NonBlank(a) + NonBlank(b)
    decreases |a|
  {
    if a == [] {
      assert a + b == b;
    } else {
      assert (a + b)[1..] == a[1..] + b;
      NonBlankAppend(a[1..], b);
    }
  }

  /** Lines after the fifth frame do not change the form. */
  lemma LaterLinesIgnored(a: seq<string>, later: seq<string>, crashType: string)
    requires |Tokens(a)| >= 5
    ensures Canonical(a + later, crashType) == Canonical(a, crashType)
  {
    TokensAppend(a, later);
    FirstFiveStays(Tokens(a), Tokens(later));
  }

  lemma MapLinesAppend(f: string -> string, a: seq<string>, b: seq<string>)
    ensures MapLines(f, a + b) == MapLines(f, a) + MapLines(f, b)
  {
  }

  lemma TokensAppend(a: seq<string>, b: seq<string>)
    ensures Tokens(a + b) == Tokens(a) + Tokens(b)
  {
    MapLinesAppend(Token, a, b);
    NonBlankAppend(MapLines(Token, a), MapLines(Token, b));
  }

  lemma FirstFiveStays(ts: seq<string>, later: seq<string>)
    ensures |ts| >= 5 ==> FirstFive(ts + later) == FirstFive(ts)
  {
  }

  predicate All(s: string, cls: Class) {
    forall i :: 0 <= i < |s| ==> In(s[i], cls)
  }

  lemma {:induction false} SpanOver(a: string, b: string, cls: Class)
    requires All(a, cls) && (b == "" || !In(b[0], cls))
    ensures Span(a + b, cls) == |a|
    ensures (a + b)[|a|..] == b && (a + b)[..|a|] == a
    decreases |a|
  {
    if a == "" {
      assert a + b == b;
    } else {
      assert (a + b)[1..] == a[1..] + b;
      SpanOver(a[1..], b, cls);
    }
  }

  /** A sanitizer frame line: number, address, symbol and an optional module, with any spacing. */
  datatype Shown = Shown(number: string, gap1: string, x: char, address: string, gap2: string, gap3: string)

  ghost predicate ShownOk(f: Shown) {
    && f.number != "" && All(f.number, Digit)
    && f.gap1 != "" && All(f.gap1, Space)
    && (f.x == 'x' || f.x == 'X') && f.address != "" && All(f.address, Hex)
    && f.gap2 != "" && All(f.gap2, Space)
    && f.gap3 != "" && All(f.gap3, Space)
  }

  function SymbolPart(sym: string, gap: string, mod: string): string {
    sym + (gap + mod)
  }

  function ShowAddress(f: Shown, symbol: string): string {
    "0" + [f.x] + (f.address + (f.gap2 + ("in" + (f.gap3 + symbol))))
  }

  function Show(f: Shown, symbol: string): string {
    "#" + (f.number + (f.gap1 + ShowAddress(f, symbol)))
  }

  /** A frame line parses to its symbol and module, whatever its number, address and spacing. */
  lemma ShownParses(f: Shown, sym: string, gap: string, mod: string)
    requires ShownOk(f)
    requires sym != "" && All(sym, Solid) && All(gap, Space) && All(mod, Solid) && (mod != "" ==> gap != "")
    ensures ParseFrame(Show(f, SymbolPart(sym, gap, mod))) == Some(Frame(sym, mod))
  {
    var address := ShowAddress(f, SymbolPart(sym, gap, mod));
    NumberParses(f.number, f.gap1, address);
    AddressParses(f, sym, gap, mod);
  }

  lemma NumberParses(number: string, gap: string, address: string)
    requires number != "" && All(number, Digit) && gap != "" && All(gap, Space)
    requires address != "" && address[0] == '0'
    ensures ParseFrame("#" + (number + (gap + address))) == ParseAddress(address)
  {
    var line := "#" + (number + (gap + address));
    assert line[1..] == number + (gap + address);
    SpanOver(number, gap + address, Digit);
    SpanOver(gap, address, Space);
  }

  lemma AddressParses(f: Shown, sym: string, gap: string, mod: string)
    requires ShownOk(f)
    requires sym != "" && All(sym, Solid) && All(gap, Space) && All(mod, Solid) && (mod != "" ==> gap != "")
    ensures ParseAddress(ShowAddress(f, SymbolPart(sym, gap, mod))) == Some(Frame(sym, mod))
  {
    var after := f.gap2 + ("in" + (f.gap3 + SymbolPart(sym, gap, mod)));
    SkipsAddress(f.x, f.address, after);
    AfterAddressParses(f, sym, gap, mod);
  }

  lemma SkipsAddress(x: char, address: string, after: string)
    requires (x == 'x' || x == 'X') && address != "" && All(address, Hex)
    requires after == "" || !IsHex(after[0])
    ensures ParseAddress("0" + [x] + (address + after)) == ParseSymbol(after)
  {
    var line := "0" + [x] + (address + after);
    assert line[2..] == address + after;
    assert line[2] == address[0];
    assert AddressAt(line);
    SpanOver(address, after, Hex);
    assert line[2..][Span(line[2..], Hex)..] == after;
  }

  lemma AfterAddressParses(f: Shown, sym: string, gap: string, mod: string)
    requires ShownOk(f)
    requires sym != "" && All(sym, Solid) && All(gap, Space) && All(mod, Solid) && (mod != "" ==> gap != "")
    ensures ParseSymbol(f.gap2 + ("in" + (f.gap3 + SymbolPart(sym, gap, mod)))) == Some(Frame(sym, mod))
  {
    var symbol := SymbolPart(sym, gap, mod);
    var word := "in" + (f.gap3 + symbol);
    SpanOver(f.gap2, word, Space);
    assert word[..2] == "in" && word[2..] == f.gap3 + symbol;
    SpanOver(f.gap3, symbol, Space);
    SpanOver(sym, gap + mod, Solid);
    SpanOver(gap, mod, Space);
    SpanOver(mod, "", Solid);
    assert mod + "" == mod;
  }

  // ------------------------------------------------------------------ padding

  lemma {:induction false} StripRightPad(s: string, pad: string)
    requires All(pad, Space) && (s == "" || !IsSpace(s[|s| - 1]))
    ensures StripRight(s + pad) == s
    decreases |pad|
  {
    if pad == "" {
      assert s + pad == s;
    } else {
      var n := |pad| - 1;
      assert (s + pad)[..|s + pad| - 1] == s + pad[..n];
      StripRightPad(s, pad[..n]);
    }
  }

  /** Padding around a line that starts and ends with something else is stripped. */
  lemma StripPads(left: string, s: string, right: string)
    requires All(left, Space) && All(right, Space)
    requires s != "" && !IsSpace(s[0]) && !IsSpace(s[|s| - 1])
    ensures Strip(left + (s + right)) == s
  {
    SpanOver(left, s + right, Space);
    StripRightPad(s, right);
  }

  /** Main result on frames: the token of a frame line depends on its symbol and module alone. */
  lemma FrameToken(f: Shown, left: string, right: string, sym: string, gap: string, mod: string)
    requires ShownOk(f) && All(left, Space) && All(right, Space)
    requires sym != "" && All(sym, Solid) && All(mod, Solid)
    requires if mod == "" then gap == "" else gap != "" && All(gap, Space)
    ensures Token(left + (Show(f, SymbolPart(sym, gap, mod)) + right)) ==
            Mask(if mod == "" then sym else sym + "@" + mod)
  {
    var symbol := SymbolPart(sym, gap, mod);
    var line := Show(f, symbol);
    assert line[0] == '#';
    assert symbol != "" && line[|line| - 1] == symbol[|symbol| - 1];
    assert !IsSpace(symbol[|symbol| - 1]);
    StripPads(left, line, right);
    ShownParses(f, sym, gap, mod);
  }
}
