/** What is hashed to sign payment parameters: the secrets around the lines in the order of their names, all in lower
    case, in an encoding that is spelled out here character by character. */
module EcpayText {
  import opened Options
  import opened Ordering
  import opened PercentEncoding
  import opened Ecpay

  // ---------------------------------------------------------------- the encoding of lower-case text

  /** Letters, digits and nine marks stand for themselves. */
  predicate Kept(c: char) {
    'a' <= c <= 'z' || '0' <= c <= '9' || c in "-_.!~*'()"
  }

  function LowerHex(d: nat): char
    requires d < 16
  {
    "0123456789abcdef"[d]
  }

  function Escaped(bs: seq<Byte>): string {
    if bs == [] then "" else ['%', LowerHex(bs[0] / 16), LowerHex(bs[0] % 16)] + Escaped(bs[1..])
  }

  /** A space is a plus, and any other character is the escapes of its UTF-8 bytes, with lower-case digits. */
  function Spelling(c: char): string {
    if Kept(c) then [c] else if c == ' ' then "+" else Escaped(Utf8(c))
  }

  function Spelled(s: string): string {
    if s == "" then "" else Spelling(s[0]) + Spelled(s[1..])
  }

  lemma {:induction false} EscapesInLowerCase(bs: seq<Byte>)
    ensures Lower(Percent(bs)) == Escaped(bs)
  {
    if bs != [] {
      EscapesInLowerCase(bs[1..]);
      var first := ['%', HexDigit(bs[0] / 16), HexDigit(bs[0] % 16)];
      LowerAppends(first, Percent(bs[1..]));
      DigitInLowerCase(bs[0] / 16);
      DigitInLowerCase(bs[0] % 16);
      assert Lower(first) == ['%', LowerHex(bs[0] / 16), LowerHex(bs[0] % 16)];
    }
  }

  lemma DigitInLowerCase(d: nat)
    requires d < 16
    ensures LowerChar(HexDigit(d)) == LowerHex(d)
  {
  }

  lemma CharacterInLowerCase(c: char)
    requires !Upper(c)
    ensures Lower(OnePassChar(c)) == Spelling(c)
  {
    if c != ' ' && !Kept(c) {
      EscapesInLowerCase(Utf8(c));
    }
  }

  lemma {:induction false} TextInLowerCase(s: string)
    requires forall c :: c in s ==> !Upper(c)
    ensures Lower(OnePass(s)) == Spelled(s)
  {
    if s != "" {
      TextInLowerCase(s[1..]);
      CharacterInLowerCase(s[0]);
      LowerAppends(OnePassChar(s[0]), OnePass(s[1..]));
    }
  }

  /** Encoding, eight replacements and then lower case come to spelling the text that is in lower case already. */
  lemma LowerCaseMayComeFirst(s: string)
    ensures Lower(Rewrite(EncodeURIComponent(s))) == Spelled(Lower(s))
  {
    RewriteIsOnePass(s);
    LowerOnePass(s);
    TextInLowerCase(Lower(s));
  }

  lemma DecodesInLowerCase(s: string)
    ensures Decode(Lower(Rewrite(EncodeURIComponent(s)))) == Some(Lower(s))
  {
    RewriteIsOnePass(s);
    OnePassDecodes(s);
    Utf8RoundTrip(Lower(s));
  }

  lemma {:induction false} EscapesAreSafe(bs: seq<Byte>)
    ensures forall c :: c in Escaped(bs) ==> Kept(c) || c == '%'
  {
    if bs != [] {
      EscapesAreSafe(bs[1..]);
    }
  }

  lemma {:induction false} SpellingIsSafe(s: string)
    ensures forall c :: c in Spelled(s) ==> Kept(c) || c == '+' || c == '%'
  {
    if s != "" {
      SpellingIsSafe(s[1..]);
      EscapesAreSafe(Utf8(s[0]));
    }
  }

  // ---------------------------------------------------------------- the lines in order

  function Relabelled<T, U>(s: seq<Keyed<T>>, f: T -> U): (r: seq<Keyed<U>>)
    ensures |r| == |s|
  {
    seq(|s|, i requires 0 <= i < |s| => Keyed(s[i].key, f(s[i].value)))
  }

  lemma RelabelledStarts<T, U>(x: Keyed<T>, s: seq<Keyed<T>>, f: T -> U)
    ensures Relabelled([x] + s, f) == [Keyed(x.key, f(x.value))] + Relabelled(s, f)
  {
  }

  lemma {:induction false} InsertRelabelled<T, U>(x: Keyed<T>, s: seq<Keyed<T>>, f: T -> U)
    ensures Insert(Keyed(x.key, f(x.value)), Relabelled(s, f)) == Relabelled(Insert(x, s), f)
  {
    var y, t := Keyed(x.key, f(x.value)), Relabelled(s, f);
    if |s| > 0 && Less(s[0].key, x.key) {
      InsertRelabelled(x, s[1..], f);
      assert t[1..] == Relabelled(s[1..], f);
      InsertPasses(x, s);
      InsertPasses(y, t);
      RelabelledStarts(s[0], Insert(x, s[1..]), f);
    } else {
      RelabelledStarts(x, s, f);
    }
  }

  lemma SortInserts<T>(s: seq<Keyed<T>>)
    requires |s| > 0
    ensures SortByKey(s) == Insert(s[0], SortByKey(s[1..]))
  {
  }

  /** Sorting looks at nothing but keys. */
  lemma {:induction false} SortRelabelled<T, U>(s: seq<Keyed<T>>, f: T -> U)
    ensures SortByKey(Relabelled(s, f)) == Relabelled(SortByKey(s), f)
  {
    if |s| > 0 {
      SortRelabelled(s[1..], f);
      assert Relabelled(s, f)[1..] == Relabelled(s[1..], f);
      InsertRelabelled(s[0], SortByKey(s[1..]), f);
      SortInserts(s);
      SortInserts(Relabelled(s, f));
    }
  }

  /** The properties under their lower-case names. */
  function ByName(params: seq<Entry>): (r: seq<Keyed<Entry>>)
    ensures |r| == |params|
  {
    seq(|params|, i requires 0 <= i < |params| => Keyed(Lower(params[i].name), params[i]))
  }

  /** `name=value`, where numbers are printed and strings stand as they are. */
  function LineText(signer: Signer, e: Entry): string {
    match e.value
    case Text(s) => e.name + "=" + s
    case Number(n) => e.name + "=" + (signer.decimal)(n)
  }

  function LineTexts(signer: Signer, order: seq<Keyed<Entry>>): (r: seq<string>)
    ensures |r| == |order|
  {
    seq(|order|, i requires 0 <= i < |order| => LineText(signer, order[i].value))
  }

  /** The properties in the order of their lower-case names, and those with one name as they came. */
  ghost predicate InNameOrder(order: seq<Keyed<Entry>>, params: seq<Entry>) {
    && multiset(order) == multiset(ByName(params)) && Sorted(order)
    && forall name :: OfKey(order, name) == OfKey(ByName(params), name)
  }

  lemma LinesInOrder(signer: Signer, params: seq<Entry>) returns (order: seq<Keyed<Entry>>)
    ensures InNameOrder(order, params)
    ensures SortedLines(signer, params) == LineTexts(signer, order)
  {
    var f := (e: Entry) => LineText(signer, e);
    order := SortByKey(ByName(params));
    SortSorts(ByName(params));
    forall name ensures OfKey(order, name) == OfKey(ByName(params), name) {
      SortIsStable(ByName(params), name);
    }
    assert Lines(signer, params) == Relabelled(ByName(params), f);
    SortRelabelled(ByName(params), f);
  }

  // ---------------------------------------------------------------- the signed text

  /** The secrets around the lines. */
  function SecretText(signer: Signer, lines: seq<string>): string {
    "HashKey=" + signer.hashKey + "&" + Join(lines) + "&HashIV=" + signer.hashIV
  }

  /** For all parameters: the signature is the hash of the secrets around the lines in the order of their names, in
      lower case and spelled as above. Decoding gives that lower-case text back. */
  lemma WhatIsSigned(signer: Signer, params: seq<Entry>) returns (order: seq<Keyed<Entry>>)
    ensures InNameOrder(order, params)
    ensures var t := Lower(SecretText(signer, LineTexts(signer, order)));
      && HashedText(signer, params) == Spelled(t)
      && Decode(HashedText(signer, params)) == Some(t)
      && CheckMacValue(signer, params) == (signer.sha256)(Spelled(t))
  {
    order := LinesInOrder(signer, params);
    LowerCaseMayComeFirst(Canonical(signer, params));
    DecodesInLowerCase(Canonical(signer, params));
  }

  /** Nothing else is ever hashed than lower-case letters, digits, the marks, `+` and `%`. */
  lemma HashedCharacters(signer: Signer, params: seq<Entry>)
    ensures forall c :: c in HashedText(signer, params) ==>
      'a' <= c <= 'z' || '0' <= c <= '9' || c in "-_.!~*'()+%"
  {
    LowerCaseMayComeFirst(Canonical(signer, params));
    SpellingIsSafe(Lower(Canonical(signer, params)));
  }
}
