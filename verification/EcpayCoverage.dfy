/** What an ECPay signature covers, up to the case of ASCII letters: the fields between ampersands of the sorted
    parameters. That is every parameter if none holds an ampersand; a value that does can read as two parameters. */
module EcpayCoverage {
  import opened Ecpay
  import opened Ordering
  import opened PercentEncoding

  // ---------------------------------------------------------------- a join can be split again

  ghost predicate Joinable(lines: seq<string>) {
    forall i :: 0 <= i < |lines| ==> lines[i] != "" && '&' !in lines[i]
  }

  lemma JoinStarts(lines: seq<string>)
    requires Joinable(lines) && lines != []
    ensures var j := Join(lines);
      && j != "" && lines[0] <= j
      && (|lines| == 1 ==> '&' !in j)
      && (|lines| > 1 ==> |j| > |lines[0]| && j[|lines[0]|] == '&' && j[|lines[0]| + 1..] == Join(lines[1..]))
  {
  }

  /** The first line ends at the first ampersand. */
  lemma SameFirstLine(s: seq<string>, t: seq<string>)
    requires Joinable(s) && Joinable(t) && s != [] && t != [] && Join(s) == Join(t)
    ensures s[0] == t[0] && (|s| == 1 <==> |t| == 1)
  {
    var j := Join(s);
    JoinStarts(s);
    JoinStarts(t);
    forall k | 0 <= k < |s[0]| ensures j[k] != '&' {
      assert j[k] == s[0][k] && s[0][k] in s[0];
    }
    forall k | 0 <= k < |t[0]| ensures j[k] != '&' {
      assert j[k] == t[0][k] && t[0][k] in t[0];
    }
    assert |s| > 1 ==> j[|s[0]|] in j;
    assert |t| > 1 ==> j[|t[0]|] in j;
    assert |s[0]| == |t[0]|;
    assert s[0] == j[..|s[0]|] && t[0] == j[..|t[0]|];
  }

  lemma {:induction false} JoinInjective(s: seq<string>, t: seq<string>)
    requires Joinable(s) && Joinable(t) && Join(s) == Join(t)
    ensures s == t
  {
    if s != [] {
      JoinStarts(s);
    }
    if t != [] {
      JoinStarts(t);
    }
    if s != [] && t != [] {
      SameFirstLine(s, t);
      if |s| > 1 {
        JoinInjective(s[1..], t[1..]);
        assert s == [s[0]] + s[1..] && t == [t[0]] + t[1..];
      }
    }
  }

  // ---------------------------------------------------------------- fields between ampersands

  function Split(s: string): (r: seq<string>)
    ensures |r| >= 1
  {
    if s == "" then [""]
    else if s[0] == '&' then [""] + Split(s[1..])
    else Grown(s[0], Split(s[1..]))
  }

  /** The same fields with one more character at the front. */
  function Grown(c: char, fields: seq<string>): (r: seq<string>)
    requires |fields| >= 1
    ensures |r| == |fields|
  {
    [[c] + fields[0]] + fields[1..]
  }

  lemma GrownAppends(c: char, s: seq<string>, t: seq<string>)
    requires |s| >= 1
    ensures Grown(c, s + t) == Grown(c, s) + t
  {
    assert (s + t)[1..] == s[1..] + t;
  }

  lemma TailOfJoined(a: string, b: string)
    requires a != ""
    ensures (a + "&" + b)[0] == a[0] && (a + "&" + b)[1..] == a[1..] + "&" + b
  {
  }

  lemma {:induction false} JoinOfSplit(s: string)
    ensures Join(Split(s)) == s
  {
    if s != "" {
      var r := Split(s[1..]);
      JoinOfSplit(s[1..]);
      assert s == [s[0]] + s[1..];
      if s[0] == '&' {
        assert Split(s)[1..] == r;
      } else {
        assert Split(s)[1..] == r[1..];
        assert |r| > 1 ==> [s[0]] + (r[0] + "&" + Join(r[1..])) == [s[0]] + r[0] + "&" + Join(r[1..]);
      }
    }
  }

  lemma {:induction false} SplitAtAmpersand(a: string, b: string)
    ensures Split(a + "&" + b) == Split(a) + Split(b)
  {
    if a == "" {
      assert (a + "&" + b)[1..] == b;
    } else {
      SplitAtAmpersand(a[1..], b);
      TailOfJoined(a, b);
      if a[0] != '&' {
        GrownAppends(a[0], Split(a[1..]), Split(b));
      }
    }
  }

  /** The fields of a list of lines, each line cut at its own ampersands. */
  function Fields(lines: seq<string>): seq<string> {
    if lines == [] then [""]
    else if |lines| == 1 then Split(lines[0])
    else Split(lines[0]) + Fields(lines[1..])
  }

  lemma {:induction false} SplitOfJoin(lines: seq<string>)
    ensures Split(Join(lines)) == Fields(lines)
  {
    if |lines| > 1 {
      SplitOfJoin(lines[1..]);
      SplitAtAmpersand(lines[0], Join(lines[1..]));
    }
  }

  // ---------------------------------------------------------------- lower case

  function LowerAll(lines: seq<string>): (r: seq<string>)
    ensures |r| == |lines|
    ensures forall i :: 0 <= i < |lines| ==> r[i] == Lower(lines[i])
  {
    seq(|lines|, i requires 0 <= i < |lines| => Lower(lines[i]))
  }

  lemma {:induction false} LowerJoin(lines: seq<string>)
    ensures Lower(Join(lines)) == Join(LowerAll(lines))
  {
    if |lines| > 1 {
      var rest := Join(lines[1..]);
      LowerJoin(lines[1..]);
      assert LowerAll(lines)[1..] == LowerAll(lines[1..]);
      LowerAppends(lines[0] + "&", rest);
      LowerAppends(lines[0], "&");
      assert Lower("&") == "&";
    }
  }

  lemma {:induction false} LowerSplit(s: string)
    ensures Split(Lower(s)) == LowerAll(Split(s))
  {
    if s != "" {
      LowerSplit(s[1..]);
      LowerHead(s);
      var r := Split(s[1..]);
      if s[0] != '&' {
        LowerAppends([s[0]], r[0]);
        assert Lower([s[0]]) == [LowerChar(s[0])];
      }
    }
  }

  lemma SameMiddle(before: string, s: string, t: string, after: string)
    requires Lower(before + s + after) == Lower(before + t + after)
    ensures Lower(s) == Lower(t)
  {
    var x, y := Lower(before + s + after), Lower(before + t + after);
    assert |s| == |t|;
    LowerAppends(before + s, after);
    LowerAppends(before, s);
    LowerAppends(before + t, after);
    LowerAppends(before, t);
    assert Lower(s) == x[|before|..|before| + |s|];
    assert Lower(t) == y[|before|..|before| + |t|];
  }

  // ---------------------------------------------------------------- names and values

  /** No ampersand anywhere and no equals sign in a name, so that the joined text can be read back. */
  ghost predicate Readable(signer: Signer, params: seq<Entry>) {
    forall i :: 0 <= i < |params| ==>
      '&' !in params[i].name && '=' !in params[i].name && '&' !in Show(signer, params[i].value)
  }

  lemma LineSplits(n: string, v: string, m: string, w: string)
    requires '=' !in n && '=' !in m
    requires Lower(n + "=" + v) == Lower(m + "=" + w)
    ensures Lower(n) == Lower(m) && Lower(v) == Lower(w)
  {
    var s, t := n + "=" + v, m + "=" + w;
    var l := Lower(s);
    assert l[|n|] == '=' && l[|m|] == '=';
    forall k | 0 <= k < |n| ensures l[k] != '=' {
      assert s[k] == n[k] && n[k] in n;
    }
    forall k | 0 <= k < |m| ensures l[k] != '=' {
      assert t[k] == m[k] && m[k] in m;
    }
    assert |n| == |m|;
    LowerAppends(n + "=", v);
    LowerAppends(n, "=");
    LowerAppends(m + "=", w);
    LowerAppends(m, "=");
    assert Lower(n) == l[..|n|] == Lower(m);
    assert Lower(v) == l[|n| + 1..] == Lower(w);
  }

  /** Every sorted line is the line of a parameter. */
  lemma LineComesFrom(signer: Signer, params: seq<Entry>, k: nat) returns (i: nat)
    requires k < |SortByKey(Lines(signer, params))|
    ensures k < |SortedLines(signer, params)| && i < |params|
    ensures SortedLines(signer, params)[k] == params[i].name + "=" + Show(signer, params[i].value)
  {
    i := SameElements(SortByKey(Lines(signer, params)), Lines(signer, params), k);
  }

  lemma LineGoesTo(signer: Signer, params: seq<Entry>, i: nat) returns (k: nat)
    requires i < |params|
    ensures k < |SortedLines(signer, params)|
    ensures SortedLines(signer, params)[k] == params[i].name + "=" + Show(signer, params[i].value)
  {
    k := SameElements(Lines(signer, params), SortByKey(Lines(signer, params)), i);
  }

  lemma SortedLinesJoinable(signer: Signer, params: seq<Entry>)
    requires Readable(signer, params)
    ensures Joinable(LowerAll(SortedLines(signer, params)))
  {
    var lines := SortedLines(signer, params);
    forall k | 0 <= k < |lines| ensures LowerAll(lines)[k] != "" && '&' !in LowerAll(lines)[k] {
      var i := LineComesFrom(signer, params, k);
      assert '&' !in lines[k];
      NoAmpersand(lines[k]);
    }
  }

  lemma NoAmpersand(s: string)
    requires '&' !in s
    ensures '&' !in Lower(s)
  {
  }

  /** Whatever is in one listing is in the other, name and value, up to the case of ASCII letters. */
  ghost predicate SameParameters(signer: Signer, p: seq<Entry>, q: seq<Entry>) {
    |p| == |q| && forall i :: 0 <= i < |p| ==> IsAmong(signer, p[i], q)
  }

  ghost predicate IsAmong(signer: Signer, e: Entry, q: seq<Entry>) {
    exists j :: 0 <= j < |q| && Lower(q[j].name) == Lower(e.name) &&
                Lower(Show(signer, q[j].value)) == Lower(Show(signer, e.value))
  }

  /** Different parameters sign alike only if one of the two lists cannot be read back from its joined text. */
  lemma SignatureCoversParameters(signer: Signer, p: seq<Entry>, q: seq<Entry>)
    ensures HashedText(signer, p) == HashedText(signer, q) ==>
      || (SameParameters(signer, p, q) && SameParameters(signer, q, p))
      || !Readable(signer, p) || !Readable(signer, q)
  {
    if HashedText(signer, p) == HashedText(signer, q) && Readable(signer, p) && Readable(signer, q) {
      forall i | 0 <= i < |p| ensures IsAmong(signer, p[i], q) {
        ParameterIsAmong(signer, p, q, i);
      }
      forall i | 0 <= i < |q| ensures IsAmong(signer, q[i], p) {
        ParameterIsAmong(signer, q, p, i);
      }
      SameLines(signer, p, q);
      assert |p| == |LowerAll(SortedLines(signer, p))| == |LowerAll(SortedLines(signer, q))| == |q|;
    }
  }

  lemma ParameterIsAmong(signer: Signer, p: seq<Entry>, q: seq<Entry>, i: nat)
    requires Readable(signer, p) && Readable(signer, q)
    requires HashedText(signer, p) == HashedText(signer, q)
    requires i < |p|
    ensures IsAmong(signer, p[i], q)
  {
    var s, t := SortedLines(signer, p), SortedLines(signer, q);
    SameLines(signer, p, q);
    var k := LineGoesTo(signer, p, i);
    assert Lower(s[k]) == LowerAll(s)[k] == LowerAll(t)[k] == Lower(t[k]);
    var j := LineComesFrom(signer, q, k);
    LineSplits(p[i].name, Show(signer, p[i].value), q[j].name, Show(signer, q[j].value));
  }

  lemma CanonicalParts(signer: Signer, params: seq<Entry>)
    ensures Canonical(signer, params) ==
      ("HashKey=" + signer.hashKey + "&") + Join(SortedLines(signer, params)) + ("&HashIV=" + signer.hashIV)
  {
    var head := "HashKey=" + signer.hashKey + "&" + Join(SortedLines(signer, params));
    Regroup(head, "&HashIV=", signer.hashIV);
  }

  lemma Regroup(a: string, b: string, c: string)
    ensures a + b + c == a + (b + c)
  {
  }

  lemma SameJoin(signer: Signer, p: seq<Entry>, q: seq<Entry>)
    requires HashedText(signer, p) == HashedText(signer, q)
    ensures Lower(Join(SortedLines(signer, p))) == Lower(Join(SortedLines(signer, q)))
  {
    LowerCaseForgetsOnlyCase(Canonical(signer, p), Canonical(signer, q));
    CanonicalParts(signer, p);
    CanonicalParts(signer, q);
    SameMiddle("HashKey=" + signer.hashKey + "&", Join(SortedLines(signer, p)), Join(SortedLines(signer, q)),
               "&HashIV=" + signer.hashIV);
  }

  lemma SameLines(signer: Signer, p: seq<Entry>, q: seq<Entry>)
    requires Readable(signer, p) && Readable(signer, q)
    requires HashedText(signer, p) == HashedText(signer, q)
    ensures LowerAll(SortedLines(signer, p)) == LowerAll(SortedLines(signer, q))
  {
    var s, t := SortedLines(signer, p), SortedLines(signer, q);
    SameJoin(signer, p, q);
    LowerJoin(s);
    LowerJoin(t);
    SortedLinesJoinable(signer, p);
    SortedLinesJoinable(signer, q);
    JoinInjective(LowerAll(s), LowerAll(t));
  }

  lemma SlicesOfLower(s: string, a: string, b: string, c: string)
    requires s == a + b + c
    ensures Lower(s)[|a|..|a| + |b|] == Lower(b)
  {
    LowerAppends(a + b, c);
    LowerAppends(a, b);
  }

  /** Secrets of the same lengths give the same signed text only if they agree up to case. */
  lemma SignatureCoversSecrets(signer: Signer, other: Signer, params: seq<Entry>)
    requires other.decimal == signer.decimal
    requires |other.hashKey| == |signer.hashKey| && |other.hashIV| == |signer.hashIV|
    requires HashedText(signer, params) == HashedText(other, params)
    ensures Lower(signer.hashKey) == Lower(other.hashKey) && Lower(signer.hashIV) == Lower(other.hashIV)
  {
    var s, t := Canonical(signer, params), Canonical(other, params);
    LowerCaseForgetsOnlyCase(s, t);
    SecretsIn(signer, params);
    SecretsIn(other, params);
    assert |s| == |Lower(s)| == |Lower(t)| == |t|;
  }

  lemma SecretsIn(signer: Signer, params: seq<Entry>)
    ensures var s := Canonical(signer, params); var n := |s| - |signer.hashIV|;
      && n >= 8 + |signer.hashKey|
      && Lower(s)[8..8 + |signer.hashKey|] == Lower(signer.hashKey)
      && Lower(s)[n..n + |signer.hashIV|] == Lower(signer.hashIV)
  {
    var s := Canonical(signer, params);
    var head := "HashKey=" + signer.hashKey + "&" + Join(SortedLines(signer, params)) + "&HashIV=";
    assert s == head + signer.hashIV + "";
    SlicesOfLower(s, head, signer.hashIV, "");
    assert s == "HashKey=" + signer.hashKey + s[8 + |signer.hashKey|..];
    SlicesOfLower(s, "HashKey=", signer.hashKey, s[8 + |signer.hashKey|..]);
  }

  // ---------------------------------------------------------------- exactly what is signed

  lemma SameJoinSameText(signer: Signer, p: seq<Entry>, q: seq<Entry>)
    requires Lower(Join(SortedLines(signer, p))) == Lower(Join(SortedLines(signer, q)))
    ensures HashedText(signer, p) == HashedText(signer, q)
  {
    var before, after := "HashKey=" + signer.hashKey + "&", "&HashIV=" + signer.hashIV;
    CanonicalParts(signer, p);
    CanonicalParts(signer, q);
    LowerAround(before, Join(SortedLines(signer, p)), after);
    LowerAround(before, Join(SortedLines(signer, q)), after);
    LowerCaseForgetsOnlyCase(Canonical(signer, p), Canonical(signer, q));
  }

  lemma LowerAround(before: string, s: string, after: string)
    ensures Lower(before + s + after) == Lower(before) + Lower(s) + Lower(after)
  {
    LowerAppends(before + s, after);
    LowerAppends(before, s);
  }

  lemma LoweredFields(signer: Signer, params: seq<Entry>)
    ensures Split(Lower(Join(SortedLines(signer, params)))) == LowerAll(Fields(SortedLines(signer, params)))
  {
    LowerSplit(Join(SortedLines(signer, params)));
    SplitOfJoin(SortedLines(signer, params));
  }

  /** For all parameters whatever: two objects give the same signed text exactly when the sorted lines of both fall
      into the same fields between ampersands, up to the case of ASCII letters. */
  lemma SignatureCoversFields(signer: Signer, p: seq<Entry>, q: seq<Entry>)
    ensures HashedText(signer, p) == HashedText(signer, q) <==>
      LowerAll(Fields(SortedLines(signer, p))) == LowerAll(Fields(SortedLines(signer, q)))
  {
    var s, t := Lower(Join(SortedLines(signer, p))), Lower(Join(SortedLines(signer, q)));
    LoweredFields(signer, p);
    LoweredFields(signer, q);
    if HashedText(signer, p) == HashedText(signer, q) {
      SameJoin(signer, p, q);
    }
    if Split(s) == Split(t) {
      JoinOfSplit(s);
      JoinOfSplit(t);
      SameJoinSameText(signer, p, q);
    }
  }

  lemma SortedPair(signer: Signer, a: Entry, b: Entry)
    requires !Less(Lower(b.name), Lower(a.name))
    ensures SortedLines(signer, [a, b]) == [Line(signer, a).value, Line(signer, b).value]
  {
    var x, y := Line(signer, a), Line(signer, b);
    assert Lines(signer, [a, b]) == [x, y] && [x, y][1..] == [y] && [y][1..] == [];
    assert SortByKey([y]) == [y];
    assert SortByKey([x, y]) == Insert(x, [y]) == [x, y];
  }

  /** An ampersand in a value reads as the end of the parameter: one parameter signs like two. */
  lemma AmpersandReadsAsTwo(signer: Signer, n: string, v: string, m: string, w: string)
    requires !Less(Lower(m), Lower(n))
    ensures CheckMacValue(signer, [Entry(n, Text(v + "&" + m + "=" + w))])
         == CheckMacValue(signer, [Entry(n, Text(v)), Entry(m, Text(w))])
  {
    var one, two := [Entry(n, Text(v + "&" + m + "=" + w))], [Entry(n, Text(v)), Entry(m, Text(w))];
    SortedPair(signer, two[0], two[1]);
    assert SortedLines(signer, one) == [n + "=" + (v + "&" + m + "=" + w)];
    var l, r := n + "=" + v, m + "=" + w;
    assert Join([l, r]) == l + "&" + r by {
      assert [l, r][1..] == [r];
    }
    assert n + "=" + (v + "&" + m + "=" + w) == l + "&" + r;
  }

  /** For instance, whatever the secrets. */
  lemma SignaturesCollide(signer: Signer)
    ensures CheckMacValue(signer, [Entry("A", Text("1&B=2"))])
         == CheckMacValue(signer, [Entry("A", Text("1")), Entry("B", Text("2"))])
  {
    LessAsymmetric(Lower("A"), Lower("B"));
    assert "1" + "&" + "B" + "=" + "2" == "1&B=2";
    AmpersandReadsAsTwo(signer, "A", "1", "B", "2");
  }
}
