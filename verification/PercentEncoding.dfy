/** The percent-encoding stage of the payment signature: `encodeURIComponent`, then eight global
    replacements, then lower case. Characters are Unicode scalar values. */
module PercentEncoding {
  import opened Options

  type Byte = b: nat | b < 256

  // ---------------------------------------------------------------- UTF-8

  function Utf8(c: char): (r: seq<Byte>)
    ensures 1 <= |r| <= 4
    ensures forall b :: b in r ==> if c as int < 128 then b == c as int else 128 <= b
  {
    var n := c as int;
    if n < 0x80 then [n]
    else if n < 0x800 then [0xC0 + n / 64, 0x80 + n % 64]
    else if n < 0x1_0000 then [0xE0 + n / 4096, 0x80 + n / 64 % 64, 0x80 + n % 64]
    else [0xF0 + n / 262144, 0x80 + n / 4096 % 64, 0x80 + n / 64 % 64, 0x80 + n % 64]
  }

  /** The length of the sequence a lead byte announces. */
  function Announced(lead: Byte): nat {
    if lead < 0x80 then 1 else if lead < 0xC0 then 0 else if lead < 0xE0 then 2 else if lead < 0xF0 then 3 else 4
  }

  function Value(bs: seq<int>): int
    requires |bs| > 0
  {
    match |bs|
    case 1 => bs[0]
    case 2 => (bs[0] - 0xC0) * 64 + (bs[1] - 0x80)
    case 3 => (bs[0] - 0xE0) * 4096 + (bs[1] - 0x80) * 64 + (bs[2] - 0x80)
    case 4 => (bs[0] - 0xF0) * 262144 + (bs[1] - 0x80) * 4096 + (bs[2] - 0x80) * 64 + (bs[3] - 0x80)
    case _ => -1
  }

  predicate IsScalar(n: int) {
    0 <= n < 0xD800 || 0xE000 <= n < 0x11_0000
  }

  /** Accepts exactly the shortest forms. */
  function Utf8Decode(bs: seq<Byte>): Option<string> {
    if bs == [] then Some("")
    else
      var n := Announced(bs[0]);
      if n == 0 || n > |bs| || !IsScalar(Value(bs[..n])) || Utf8(Value(bs[..n]) as char) != bs[..n] then None
      else
        match Utf8Decode(bs[n..])
        case None => None
        case Some(rest) => Some([Value(bs[..n]) as char] + rest)
  }

  lemma Utf8Value(c: char)
    ensures Announced(Utf8(c)[0]) == |Utf8(c)| && Value(Utf8(c)) == c as int
  {
    Base64Digits(c as int);
    var bs := Utf8(c);
    if c as int < 0x80 {
      assert |bs| == 1;
    } else if c as int < 0x800 {
      assert |bs| == 2;
    } else if c as int < 0x1_0000 {
      assert |bs| == 3;
    } else {
      assert |bs| == 4;
    }
  }

  lemma Base64Digits(n: nat)
    ensures n == n / 64 * 64 + n % 64
    ensures n == n / 4096 * 4096 + n / 64 % 64 * 64 + n % 64
    ensures n == n / 262144 * 262144 + n / 4096 % 64 * 4096 + n / 64 % 64 * 64 + n % 64
  {
    var m := n / 64;
    var l := m / 64;
    assert m == l * 64 + m % 64;
    assert l == n / 4096 by { DivideTwice(n, 64); }
    assert l / 64 == n / 262144 by { DivideTwice(n, 4096); }
    assert l == l / 64 * 64 + l % 64;
  }

  lemma DivideTwice(n: nat, k: nat)
    requires k == 64 || k == 4096
    ensures n / (64 * k) == n / k / 64
  {
  }

  lemma Utf8DecodesFirst(c: char, bs: seq<Byte>)
    requires Utf8Decode(bs).Some?
    ensures Utf8Decode(Utf8(c) + bs) == Some([c] + Utf8Decode(bs).value)
  {
    Utf8Value(c);
    var all := Utf8(c) + bs;
    assert all[..|Utf8(c)|] == Utf8(c) && all[|Utf8(c)|..] == bs;
  }

  // ---------------------------------------------------------------- encodeURIComponent

  predicate Upper(c: char) { 'A' <= c <= 'Z' }

  predicate Alphanumeric(c: char) {
    Upper(c) || 'a' <= c <= 'z' || '0' <= c <= '9'
  }

  predicate Unreserved(c: char) {
    Alphanumeric(c) || c in "-_.!~*'()"
  }

  function HexDigit(d: nat): (c: char)
    requires d < 16
    ensures '0' <= c <= '9' || 'A' <= c <= 'F'
  {
    if d < 10 then '0' + d as char else 'A' + (d - 10) as char
  }

  function Percent(bs: seq<Byte>): string {
    if bs == [] then "" else ['%', HexDigit(bs[0] / 16), HexDigit(bs[0] % 16)] + Percent(bs[1..])
  }

  function EncodeChar(c: char): string {
    if Unreserved(c) then [c] else Percent(Utf8(c))
  }

  function EncodeURIComponent(s: string): string {
    if s == "" then "" else EncodeChar(s[0]) + EncodeURIComponent(s[1..])
  }

  /** `s.replace(/pattern/g, into)`, matching from left to right. */
  function ReplaceAll(s: string, pattern: string, into: string): string
    requires |pattern| > 0
  {
    if s == "" then ""
    else if pattern <= s then into + ReplaceAll(s[|pattern|..], pattern, into)
    else [s[0]] + ReplaceAll(s[1..], pattern, into)
  }

  function Rewrite(s: string): string {
    var s := ReplaceAll(s, "%20", "+");
    var s := ReplaceAll(s, "%2d", "-");
    var s := ReplaceAll(s, "%5f", "_");
    var s := ReplaceAll(s, "%2e", ".");
    var s := ReplaceAll(s, "%21", "!");
    var s := ReplaceAll(s, "%2a", "*");
    var s := ReplaceAll(s, "%28", "(");
    ReplaceAll(s, "%29", ")")
  }

  // ---------------------------------------------------------------- the one-pass encoder

  function OnePassChar(c: char): string {
    if c == ' ' then "+" else EncodeChar(c)
  }

  function OnePass(s: string): string {
    if s == "" then "" else OnePassChar(s[0]) + OnePass(s[1..])
  }

  // ---------------------------------------------------------------- escapes are whole

  /** A text cut into plain characters and whole escapes. */
  datatype Token = Plain(c: char) | Escape(hi: char, lo: char)

  predicate WellCut(ts: seq<Token>) {
    forall t :: t in ts ==> if t.Plain? then t.c != '%' else t.hi != '%' && t.lo != '%'
  }

  function RenderToken(t: Token): string {
    if t.Plain? then [t.c] else ['%', t.hi, t.lo]
  }

  function Render(ts: seq<Token>): string {
    if ts == [] then "" else RenderToken(ts[0]) + Render(ts[1..])
  }

  function Substitute(ts: seq<Token>, hi: char, lo: char, into: char): (r: seq<Token>)
    requires into != '%'
    ensures WellCut(ts) ==> WellCut(r)
  {
    if ts == [] then [] else [if ts[0] == Escape(hi, lo) then Plain(into) else ts[0]] + Substitute(ts[1..], hi, lo, into)
  }

  lemma StepsOver(s: string, pattern: string, into: string)
    requires s != "" && pattern != "" && !(pattern <= s)
    ensures ReplaceAll(s, pattern, into) == [s[0]] + ReplaceAll(s[1..], pattern, into)
  {
  }

  /** An escape that is not the pattern is stepped over whole: its digits start no match. */
  lemma StepsOverEscape(t: Token, rest: string, pattern: string, into: string)
    requires t.Escape? && t.hi != '%' && t.lo != '%'
    requires |pattern| == 3 && pattern[0] == '%' && pattern != RenderToken(t)
    ensures ReplaceAll(RenderToken(t) + rest, pattern, into) == RenderToken(t) + ReplaceAll(rest, pattern, into)
  {
    var s := RenderToken(t) + rest;
    assert s[..3] == RenderToken(t);
    assert s[1..] == [t.hi, t.lo] + rest && s[1..][1..] == [t.lo] + rest && s[1..][1..][1..] == rest;
    StepsOver(s, pattern, into);
    StepsOver(s[1..], pattern, into);
    StepsOver(s[1..][1..], pattern, into);
  }

  /** No match of an escape pattern straddles two tokens: a replacement acts token by token. */
  lemma {:induction false} ReplacementRespectsEscapes(ts: seq<Token>, hi: char, lo: char, into: char)
    requires WellCut(ts) && into != '%' && hi != '%' && lo != '%'
    ensures ReplaceAll(Render(ts), ['%', hi, lo], [into]) == Render(Substitute(ts, hi, lo, into))
  {
    if ts != [] {
      var t, rest, pattern := ts[0], Render(ts[1..]), ['%', hi, lo];
      ReplacementRespectsEscapes(ts[1..], hi, lo, into);
      var s := Render(ts);
      assert s == RenderToken(t) + rest;
      if t == Escape(hi, lo) {
        assert pattern <= s && s[3..] == rest;
      } else if t.Plain? {
        assert s[0] != '%' && s[1..] == rest;
      } else {
        StepsOverEscape(t, rest, pattern, [into]);
      }
    }
  }

  function PercentTokens(bs: seq<Byte>): (ts: seq<Token>)
    ensures WellCut(ts) && Render(ts) == Percent(bs)
    ensures forall t :: t in ts ==> exists b :: b in bs && t == Escape(HexDigit(b / 16), HexDigit(b % 16))
  {
    if bs == [] then [] else [Escape(HexDigit(bs[0] / 16), HexDigit(bs[0] % 16))] + PercentTokens(bs[1..])
  }

  function CharTokens(c: char): (ts: seq<Token>)
    ensures WellCut(ts) && Render(ts) == EncodeChar(c)
  {
    if Unreserved(c) then [Plain(c)] else PercentTokens(Utf8(c))
  }

  function Tokens(s: string): (ts: seq<Token>)
    ensures WellCut(ts)
  {
    if s == "" then [] else CharTokens(s[0]) + Tokens(s[1..])
  }

  lemma {:induction false} RenderAppends(ts: seq<Token>, us: seq<Token>)
    ensures Render(ts + us) == Render(ts) + Render(us)
  {
    if ts == [] {
      assert ts + us == us;
    } else {
      assert (ts + us)[1..] == ts[1..] + us;
      RenderAppends(ts[1..], us);
    }
  }

  lemma {:induction false} SubstituteAppends(ts: seq<Token>, us: seq<Token>, hi: char, lo: char, into: char)
    requires into != '%'
    ensures Substitute(ts + us, hi, lo, into) == Substitute(ts, hi, lo, into) + Substitute(us, hi, lo, into)
  {
    if ts == [] {
      assert ts + us == us;
    } else {
      assert (ts + us)[1..] == ts[1..] + us;
      SubstituteAppends(ts[1..], us, hi, lo, into);
    }
  }

  lemma {:induction false} EncodedIsTokens(s: string)
    ensures EncodeURIComponent(s) == Render(Tokens(s))
  {
    if s != "" {
      EncodedIsTokens(s[1..]);
      RenderAppends(CharTokens(s[0]), Tokens(s[1..]));
    }
  }

  // ---------------------------------------------------------------- which replacements ever apply

  /** An escape of `encodeURIComponent` spells, in upper-case digits, a byte that is no unreserved character. */
  predicate Spelled(t: Token) {
    t.Escape? ==> exists b: Byte :: t == Escape(HexDigit(b / 16), HexDigit(b % 16)) && (b < 128 ==> !Unreserved(b as char))
  }

  lemma {:induction false} TokensAreSpelled(s: string)
    ensures forall t :: t in Tokens(s) ==> Spelled(t)
  {
    if s != "" {
      TokensAreSpelled(s[1..]);
      forall t | t in CharTokens(s[0]) ensures Spelled(t) {
        if !Unreserved(s[0]) {
          var b :| b in Utf8(s[0]) && t == Escape(HexDigit(b / 16), HexDigit(b % 16));
        }
      }
    }
  }

  lemma {:induction false} SubstituteNothing(ts: seq<Token>, hi: char, lo: char, into: char)
    requires into != '%' && Escape(hi, lo) !in ts
    ensures Substitute(ts, hi, lo, into) == ts
  {
    if ts != [] {
      SubstituteNothing(ts[1..], hi, lo, into);
    }
  }

  /** Lower-case digits are never produced, and an unreserved character is never escaped. */
  lemma NeverSpelled(hi: char, lo: char)
    requires 'a' <= lo <= 'z' || (hi == '2' && lo in "189")
    ensures !Spelled(Escape(hi, lo))
  {
    forall b: Byte | hi == HexDigit(b / 16) && lo == HexDigit(b % 16) ensures b < 128 && Unreserved(b as char) {
      assert b / 16 == 2 && (b % 16 == 1 || b % 16 == 8 || b % 16 == 9);
    }
  }

  lemma Idle(ts: seq<Token>, hi: char, lo: char, into: char)
    requires WellCut(ts) && forall t :: t in ts ==> Spelled(t)
    requires 'a' <= lo <= 'z' || (hi == '2' && lo in "189")
    requires into != '%' && hi != '%'
    ensures ReplaceAll(Render(ts), ['%', hi, lo], [into]) == Render(ts)
  {
    NeverSpelled(hi, lo);
    ReplacementRespectsEscapes(ts, hi, lo, into);
    SubstituteNothing(ts, hi, lo, into);
  }

  lemma {:induction false} SpacesBecomePlus(s: string)
    ensures Render(Substitute(Tokens(s), '2', '0', '+')) == OnePass(s)
  {
    if s != "" {
      var first := CharTokens(s[0]);
      SpacesBecomePlus(s[1..]);
      SubstituteAppends(first, Tokens(s[1..]), '2', '0', '+');
      RenderAppends(Substitute(first, '2', '0', '+'), Substitute(Tokens(s[1..]), '2', '0', '+'));
      CharSpace(s[0]);
    }
  }

  lemma TwentySpellsSpace(b: Byte)
    ensures HexDigit(b / 16) == '2' && HexDigit(b % 16) == '0' <==> b == 0x20
  {
    assert b / 16 * 16 + b % 16 == b;
  }

  lemma OnlySpaceSpellsTwenty(c: char)
    requires c != ' '
    ensures Escape('2', '0') !in CharTokens(c)
  {
    forall t | t in CharTokens(c) ensures t != Escape('2', '0') {
      if !Unreserved(c) {
        var b :| b in Utf8(c) && t == Escape(HexDigit(b / 16), HexDigit(b % 16));
        TwentySpellsSpace(b);
      }
    }
  }

  lemma CharSpace(c: char)
    ensures Render(Substitute(CharTokens(c), '2', '0', '+')) == OnePassChar(c)
  {
    if c == ' ' {
      assert Utf8(c) == [0x20] && CharTokens(c) == [Escape('2', '0')];
    } else {
      OnlySpaceSpellsTwenty(c);
      SubstituteNothing(CharTokens(c), '2', '0', '+');
    }
  }

  lemma SubstituteKeepsSpelled(ts: seq<Token>, hi: char, lo: char, into: char)
    requires into != '%' && forall t :: t in ts ==> Spelled(t)
    ensures forall t :: t in Substitute(ts, hi, lo, into) ==> Spelled(t)
  {
  }

  /** The eight replacements amount to one: a space becomes a plus. The seven others never match. */
  lemma RewriteIsOnePass(s: string)
    ensures Rewrite(EncodeURIComponent(s)) == OnePass(s)
  {
    var ts := Substitute(Tokens(s), '2', '0', '+');
    EncodedIsTokens(s);
    TokensAreSpelled(s);
    SubstituteKeepsSpelled(Tokens(s), '2', '0', '+');
    ReplacementRespectsEscapes(Tokens(s), '2', '0', '+');
    SpacesBecomePlus(s);
    Idle(ts, '2', 'd', '-');
    Idle(ts, '5', 'f', '_');
    Idle(ts, '2', 'e', '.');
    Idle(ts, '2', '1', '!');
    Idle(ts, '2', 'a', '*');
    Idle(ts, '2', '8', '(');
    Idle(ts, '2', '9', ')');
  }

  // ---------------------------------------------------------------- decoding

  function HexValue(c: char): Option<nat> {
    if '0' <= c <= '9' then Some((c - '0') as nat)
    else if 'A' <= c <= 'F' then Some((c - 'A') as nat + 10)
    else if 'a' <= c <= 'f' then Some((c - 'a') as nat + 10)
    else None
  }

  /** Undoes percent escapes and '+', byte by byte. */
  function PercentDecode(s: string): Option<seq<Byte>> {
    if s == "" then Some([])
    else if s[0] == '%' then
      if |s| < 3 || HexValue(s[1]).None? || HexValue(s[2]).None? then None
      else
        match PercentDecode(s[3..])
        case None => None
        case Some(rest) => Some([HexValue(s[1]).value * 16 + HexValue(s[2]).value] + rest)
    else if s[0] as int >= 128 then None
    else
      match PercentDecode(s[1..])
      case None => None
      case Some(rest) => Some([if s[0] == '+' then 0x20 else s[0] as int] + rest)
  }

  function Decode(s: string): Option<string> {
    match PercentDecode(s)
    case None => None
    case Some(bs) => Utf8Decode(bs)
  }

  function Utf8All(s: string): seq<Byte> {
    if s == "" then [] else Utf8(s[0]) + Utf8All(s[1..])
  }

  lemma {:induction false} Utf8RoundTrip(s: string)
    ensures Utf8Decode(Utf8All(s)) == Some(s)
  {
    if s != "" {
      Utf8RoundTrip(s[1..]);
      Utf8DecodesFirst(s[0], Utf8All(s[1..]));
      assert [s[0]] + s[1..] == s;
    }
  }

  /** The lower case of ASCII letters; other characters stay. */
  function LowerChar(c: char): char {
    if Upper(c) then c + 32 as char else c
  }

  function Lower(s: string): (r: string)
    ensures |r| == |s|
    ensures forall i :: 0 <= i < |s| ==> r[i] == LowerChar(s[i])
  {
    seq(|s|, i requires 0 <= i < |s| => LowerChar(s[i]))
  }

  lemma LowerAppends(s: string, t: string)
    ensures Lower(s + t) == Lower(s) + Lower(t)
  {
  }

  lemma EscapeDecodes(s: string, b: Byte)
    requires |s| >= 3 && s[0] == '%'
    requires HexValue(s[1]) == Some(b / 16) && HexValue(s[2]) == Some(b % 16)
    requires PercentDecode(s[3..]).Some?
    ensures PercentDecode(s) == Some([b] + PercentDecode(s[3..]).value)
  {
    assert b / 16 * 16 + b % 16 == b;
  }

  /** Escapes decode to their bytes, whether or not they have been put in lower case. */
  lemma {:induction false} PercentDecodes(bs: seq<Byte>, s: string, lower: bool)
    requires PercentDecode(s).Some?
    ensures PercentDecode((if lower then Lower(Percent(bs)) else Percent(bs)) + s) == Some(bs + PercentDecode(s).value)
  {
    var p := if lower then Lower(Percent(bs)) else Percent(bs);
    if bs == [] {
      assert p + s == s;
      assert bs + PercentDecode(s).value == PercentDecode(s).value;
    } else {
      var rest := if lower then Lower(Percent(bs[1..])) else Percent(bs[1..]);
      PercentDecodes(bs[1..], s, lower);
      assert p[3..] == rest;
      DropOfConcat(p, s, 3);
      HexRoundTrip(bs[0] / 16);
      HexRoundTrip(bs[0] % 16);
      EscapeDecodes(p + s, bs[0]);
      HeadOfConcat(bs, PercentDecode(s).value);
    }
  }

  lemma DropOfConcat<T>(a: seq<T>, b: seq<T>, n: nat)
    requires n <= |a|
    ensures (a + b)[n..] == a[n..] + b
  {
  }

  lemma HeadOfConcat<T>(a: seq<T>, b: seq<T>)
    requires |a| > 0
    ensures [a[0]] + (a[1..] + b) == a + b
  {
  }

  lemma HexRoundTrip(d: nat)
    requires d < 16
    ensures HexValue(HexDigit(d)) == Some(d) == HexValue(LowerChar(HexDigit(d)))
  {
  }

  lemma OnePassCharDecodes(c: char, s: string)
    requires PercentDecode(s).Some?
    ensures PercentDecode(OnePassChar(c) + s) == Some(Utf8(c) + PercentDecode(s).value)
    ensures PercentDecode(Lower(OnePassChar(c)) + s) == Some(Utf8(LowerChar(c)) + PercentDecode(s).value)
  {
    if c == ' ' || Unreserved(c) {
      var p, q := OnePassChar(c) + s, Lower(OnePassChar(c)) + s;
      assert p[1..] == s && q[1..] == s;
    } else {
      PercentDecodes(Utf8(c), s, false);
      PercentDecodes(Utf8(c), s, true);
    }
  }

  lemma {:induction false} OnePassDecodes(s: string)
    ensures PercentDecode(OnePass(s)) == Some(Utf8All(s))
    ensures PercentDecode(Lower(OnePass(s))) == Some(Utf8All(Lower(s)))
  {
    if s != "" {
      OnePassDecodes(s[1..]);
      OnePassCharDecodes(s[0], OnePass(s[1..]));
      OnePassCharDecodes(s[0], Lower(OnePass(s[1..])));
      LowerAppends(OnePassChar(s[0]), OnePass(s[1..]));
      LowerHead(s);
    }
  }

  /** Decoding the rewritten text, before it is put in lower case, gives the input back. */
  lemma EncodingRoundTrip(s: string)
    ensures Decode(Rewrite(EncodeURIComponent(s))) == Some(s)
  {
    RewriteIsOnePass(s);
    OnePassDecodes(s);
    Utf8RoundTrip(s);
  }

  lemma LowerOnePassChar(c: char)
    ensures Lower(OnePassChar(LowerChar(c))) == Lower(OnePassChar(c))
  {
  }

  lemma LowerHead(s: string)
    requires s != ""
    ensures Lower(s) != "" && Lower(s)[0] == LowerChar(s[0]) && Lower(s)[1..] == Lower(s[1..])
  {
  }

  lemma {:induction false} LowerOnePass(s: string)
    ensures Lower(OnePass(Lower(s))) == Lower(OnePass(s))
  {
    if s != "" {
      LowerOnePass(s[1..]);
      LowerHead(s);
      LowerAppends(OnePassChar(s[0]), OnePass(s[1..]));
      LowerAppends(OnePassChar(LowerChar(s[0])), OnePass(Lower(s[1..])));
      LowerOnePassChar(s[0]);
    }
  }

  /** What is hashed tells two texts apart exactly when they differ by more than the case of ASCII letters. */
  lemma LowerCaseForgetsOnlyCase(s: string, t: string)
    ensures Lower(Rewrite(EncodeURIComponent(s))) == Lower(Rewrite(EncodeURIComponent(t))) <==> Lower(s) == Lower(t)
  {
    RewriteIsOnePass(s);
    RewriteIsOnePass(t);
    OnePassDecodes(s);
    OnePassDecodes(t);
    Utf8RoundTrip(Lower(s));
    Utf8RoundTrip(Lower(t));
    LowerOnePass(s);
    LowerOnePass(t);
  }
}
