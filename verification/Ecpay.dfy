/** Signing payment parameters, and checking the signature when they come back as strings in any order. */
module Ecpay {
  import opened Options
  import opened Ordering
  import opened PercentEncoding

  datatype Value = Text(text: string) | Number(number: real)

  /** One property of a JavaScript object; an object is the listing of its properties. */
  datatype Entry = Entry(name: string, value: Value)

  /** What a signature depends on: SHA-256 in upper-case hex, how numbers are printed, and the merchant's secrets. */
  datatype Signer = Signer(sha256: string -> string, decimal: real -> string, hashKey: string, hashIV: string)

  /** `${v}`, which for strings and numbers is `String(v)`. */
  function Show(signer: Signer, v: Value): string {
    match v
    case Text(s) => s
    case Number(n) => (signer.decimal)(n)
  }

  function Stringified(signer: Signer, params: seq<Entry>): (r: seq<Entry>)
    ensures |r| == |params|
  {
    seq(|params|, i requires 0 <= i < |params| => Entry(params[i].name, Text(Show(signer, params[i].value))))
  }

  // ---------------------------------------------------------------- generateCheckMacValue

  /** `key=value` under the lower-case key that decides its place. */
  function Line(signer: Signer, e: Entry): Keyed<string> {
    Keyed(Lower(e.name), e.name + "=" + Show(signer, e.value))
  }

  function Lines(signer: Signer, params: seq<Entry>): (r: seq<Keyed<string>>)
    ensures |r| == |params|
  {
    seq(|params|, i requires 0 <= i < |params| => Line(signer, params[i]))
  }

  function Texts(lines: seq<Keyed<string>>): (r: seq<string>)
    ensures |r| == |lines|
  {
    seq(|lines|, i requires 0 <= i < |lines| => lines[i].value)
  }

  /** `lines.join('&')` */
  function Join(lines: seq<string>): string {
    if lines == [] then ""
    else if |lines| == 1 then lines[0]
    else lines[0] + "&" + Join(lines[1..])
  }

  function SortedLines(signer: Signer, params: seq<Entry>): seq<string> {
    Texts(SortByKey(Lines(signer, params)))
  }

  function Canonical(signer: Signer, params: seq<Entry>): string {
    "HashKey=" + signer.hashKey + "&" + Join(SortedLines(signer, params)) + "&HashIV=" + signer.hashIV
  }

  function HashedText(signer: Signer, params: seq<Entry>): string {
    Lower(Rewrite(EncodeURIComponent(Canonical(signer, params))))
  }

  function CheckMacValue(signer: Signer, params: seq<Entry>): string {
    (signer.sha256)(HashedText(signer, params))
  }

  ghost predicate DistinctNames(params: seq<Entry>) {
    forall i, j :: 0 <= i < j < |params| ==> params[i].name != params[j].name
  }

  ghost predicate DistinctIgnoringCase(params: seq<Entry>) {
    forall i, j :: 0 <= i < j < |params| ==> Lower(params[i].name) != Lower(params[j].name)
  }

  function RemoveAt<T>(s: seq<T>, k: nat): (r: seq<T>)
    requires k < |s|
    ensures |r| == |s| - 1
  {
    s[..k] + s[k + 1..]
  }

  lemma TakenOut<T>(s: seq<T>, k: nat)
    requires k < |s|
    ensures multiset(s) == multiset(RemoveAt(s, k)) + multiset{s[k]}
  {
    assert s == s[..k] + [s[k]] + s[k + 1..];
  }

  lemma SameRemoved<T>(s: seq<T>, t: seq<T>, k: nat, j: nat)
    requires multiset(s) == multiset(t) && k < |s| && j < |t| && s[k] == t[j]
    ensures multiset(RemoveAt(s, k)) == multiset(RemoveAt(t, j))
  {
    TakenOut(s, k);
    TakenOut(t, j);
    Cancel(multiset(RemoveAt(s, k)), multiset(RemoveAt(t, j)), s[k]);
  }

  lemma Cancel<T>(a: multiset<T>, b: multiset<T>, x: T)
    requires a + multiset{x} == b + multiset{x}
    ensures a == b
  {
    assert a == (a + multiset{x}) - multiset{x};
    assert b == (b + multiset{x}) - multiset{x};
  }

  lemma LinesTakenOut(signer: Signer, params: seq<Entry>, k: nat)
    requires k < |params|
    ensures multiset(Lines(signer, params)) == multiset(Lines(signer, RemoveAt(params, k))) + multiset{Line(signer, params[k])}
  {
    var lines := Lines(signer, params);
    assert Lines(signer, RemoveAt(params, k)) == RemoveAt(lines, k);
    TakenOut(lines, k);
  }

  lemma {:induction false} LinesOfElements(signer: Signer, params: seq<Entry>, others: seq<Entry>)
    requires multiset(params) == multiset(others)
    ensures multiset(Lines(signer, params)) == multiset(Lines(signer, others))
    decreases |params|
  {
    if params == [] {
      assert |multiset(others)| == 0;
    } else {
      var j := SameElements(params, others, 0);
      SameRemoved(params, others, 0, j);
      LinesOfElements(signer, RemoveAt(params, 0), RemoveAt(others, j));
      LinesTakenOut(signer, params, 0);
      LinesTakenOut(signer, others, j);
    }
  }

  /** The signature does not depend on the order of the object's properties. */
  lemma SignatureIgnoresOrder(signer: Signer, params: seq<Entry>, others: seq<Entry>)
    requires DistinctIgnoringCase(params)
    requires multiset(params) == multiset(others)
    ensures CheckMacValue(signer, params) == CheckMacValue(signer, others)
  {
    LinesOfElements(signer, params, others);
    SortIgnoresArrivalOrder(Lines(signer, params), Lines(signer, others));
  }

  lemma SignatureIgnoresNumberType(signer: Signer, params: seq<Entry>)
    ensures CheckMacValue(signer, Stringified(signer, params)) == CheckMacValue(signer, params)
  {
    assert Lines(signer, Stringified(signer, params)) == Lines(signer, params);
  }

  // ---------------------------------------------------------------- the callback's check

  const MAC := "CheckMacValue"

  function Lookup(body: seq<Entry>, name: string): Option<Value> {
    if body == [] then None
    else if body[0].name == name then Some(body[0].value)
    else Lookup(body[1..], name)
  }

  /** The object after `delete body[name]`. */
  function Without(body: seq<Entry>, name: string): seq<Entry> {
    if body == [] then []
    else if body[0].name == name then Without(body[1..], name)
    else [body[0]] + Without(body[1..], name)
  }

  predicate CallbackAccepts(signer: Signer, body: seq<Entry>) {
    Lookup(body, MAC) == Some(Text(CheckMacValue(signer, Without(body, MAC))))
  }

  lemma WithoutKeepsOthers(body: seq<Entry>, params: seq<Entry>, name: string, v: Value)
    requires DistinctNames(body)
    requires multiset(body) == multiset(params) + multiset{Entry(name, v)}
    ensures multiset(Without(body, name)) == multiset(params)
    ensures Lookup(body, name) == Some(v)
  {
    var e := Entry(name, v);
    assert e in multiset(body);
    var k :| 0 <= k < |body| && body[k] == e;
    WithoutSplits(body, k);
    TakenOut(body, k);
    Cancel(multiset(Without(body, name)), multiset(params), e);
  }

  lemma {:induction false} WithoutSplits(body: seq<Entry>, k: nat)
    requires DistinctNames(body) && k < |body|
    ensures Without(body, body[k].name) == RemoveAt(body, k)
    ensures Lookup(body, body[k].name) == Some(body[k].value)
  {
    var name := body[k].name;
    if k == 0 {
      WithoutNothing(body[1..], name);
    } else {
      WithoutSplits(body[1..], k - 1);
      assert body[1..][..k - 1] == body[1..k] && body[1..][k..] == body[k + 1..];
      assert [body[0]] + body[1..k] == body[..k];
    }
  }

  lemma {:induction false} WithoutNothing(body: seq<Entry>, name: string)
    requires forall i :: 0 <= i < |body| ==> body[i].name != name
    ensures Without(body, name) == body
  {
    if body != [] {
      WithoutNothing(body[1..], name);
    }
  }

  /** `body` carries the parameters as strings, and `mac` as their signature, in some order. */
  ghost predicate Carries(signer: Signer, body: seq<Entry>, params: seq<Entry>, mac: string) {
    && DistinctNames(body)
    && multiset(body) == multiset(Stringified(signer, params)) + multiset{Entry(MAC, Text(mac))}
  }

  /** A body is accepted exactly when the value it carries is the signature of its parameters. */
  lemma AcceptedIffSigned(signer: Signer, params: seq<Entry>, body: seq<Entry>, mac: string)
    requires DistinctIgnoringCase(params)
    requires Carries(signer, body, params, mac)
    ensures CallbackAccepts(signer, body) <==> mac == CheckMacValue(signer, params)
  {
    var strings := Stringified(signer, params);
    WithoutKeepsOthers(body, strings, MAC, Text(mac));
    SignatureIgnoresOrder(signer, strings, Without(body, MAC));
    SignatureIgnoresNumberType(signer, params);
  }

  // ---------------------------------------------------------------- the payment form

  /** The form data is a string map; a body lists it when it has each field once. */
  ghost predicate Lists(body: seq<Entry>, form: map<string, string>) {
    && DistinctNames(body)
    && (forall i :: 0 <= i < |body| ==> body[i].name in form && body[i].value == Text(form[body[i].name]))
    && (forall name :: name in form ==> Entry(name, Text(form[name])) in body)
  }

  /** Two listings of one map are permutations of each other. */
  lemma ListingsPermute(s: seq<Entry>, t: seq<Entry>, form: map<string, string>)
    requires Lists(s, form) && Lists(t, form)
    ensures multiset(s) == multiset(t)
  {
    ListedOnce(s);
    ListedOnce(t);
    forall e: Entry ensures multiset(s)[e] == multiset(t)[e] {
      assert (e in s) == (e.name in form && e.value == Text(form[e.name])) == (e in t);
    }
  }

  lemma {:induction false} ListedOnce(s: seq<Entry>)
    requires DistinctNames(s)
    ensures forall e :: multiset(s)[e] == if e in s then 1 else 0
  {
    if s != [] {
      assert s == [s[0]] + s[1..];
      ListedOnce(s[1..]);
      assert s[0] !in s[1..];
    }
  }

  /** The merchant's settings, of which the signer holds the secrets. */
  datatype Merchant = Merchant(id: string, returnUrl: string, apiUrl: string, signer: Signer)

  function OrderParams(m: Merchant, tradeNo: string, tradeDate: string, amount: real, clientUrl: string): seq<Entry> {
    [ Entry("MerchantID", Text(m.id)),
      Entry("MerchantTradeNo", Text(tradeNo)),
      Entry("MerchantTradeDate", Text(tradeDate)),
      Entry("PaymentType", Text("aio")),
      Entry("TotalAmount", Number(amount)),
      Entry("TradeDesc", Text("BlockTic Ticket Preauthorization")),
      Entry("ItemName", Text("BlockTic \U{7968}\U{5238}\U{9810}\U{6388}\U{6B0A}")),
      Entry("ReturnURL", Text(m.returnUrl)),
      Entry("ClientBackURL", Text(clientUrl)),
      Entry("ChoosePayment", Text("Credit")),
      Entry("EncryptType", Number(1.0)) ]
  }

  /** Names of equal length differ in their first or second letter, whatever the case. */
  predicate ToldApart(a: string, b: string) {
    |a| != |b| || (|a| >= 2 && |b| >= 2 && (LowerChar(a[0]) != LowerChar(b[0]) || LowerChar(a[1]) != LowerChar(b[1])))
  }

  lemma ToldApartDiffer(a: string, b: string)
    requires ToldApart(a, b)
    ensures Lower(a) != Lower(b)
  {
  }

  const ORDER_NAMES: seq<string> :=
    [ "MerchantID", "MerchantTradeNo", "MerchantTradeDate", "PaymentType", "TotalAmount", "TradeDesc", "ItemName",
      "ReturnURL", "ClientBackURL", "ChoosePayment", "EncryptType" ]

  lemma OrderNamesApart(i: nat, j: nat)
    requires i < j < |ORDER_NAMES|
    ensures ToldApart(ORDER_NAMES[i], ORDER_NAMES[j])
  {
  }

  lemma OrderParamNames(m: Merchant, tradeNo: string, tradeDate: string, amount: real, clientUrl: string)
    ensures var params := OrderParams(m, tradeNo, tradeDate, amount, clientUrl);
      |params| == |ORDER_NAMES| && forall i :: 0 <= i < |params| ==> params[i].name == ORDER_NAMES[i]
  {
  }

  lemma OrderParamsDistinct(m: Merchant, tradeNo: string, tradeDate: string, amount: real, clientUrl: string)
    ensures DistinctIgnoringCase(OrderParams(m, tradeNo, tradeDate, amount, clientUrl))
  {
    var params := OrderParams(m, tradeNo, tradeDate, amount, clientUrl);
    OrderParamNames(m, tradeNo, tradeDate, amount, clientUrl);
    forall i, j | 0 <= i < j < |params| ensures Lower(params[i].name) != Lower(params[j].name) {
      OrderNamesApart(i, j);
      ToldApartDiffer(ORDER_NAMES[i], ORDER_NAMES[j]);
    }
  }

  lemma OrderParamsUnsigned(m: Merchant, tradeNo: string, tradeDate: string, amount: real, clientUrl: string)
    ensures forall e :: e in OrderParams(m, tradeNo, tradeDate, amount, clientUrl) ==> e.name != MAC && e.name != "_action"
  {
    var params := OrderParams(m, tradeNo, tradeDate, amount, clientUrl);
    OrderParamNames(m, tradeNo, tradeDate, amount, clientUrl);
    forall i | 0 <= i < |params| ensures params[i].name != MAC && params[i].name != "_action" {
      OrderNameUnsigned(i);
    }
  }

  lemma OrderNameUnsigned(i: nat)
    requires i < |ORDER_NAMES|
    ensures ORDER_NAMES[i] != MAC && ORDER_NAMES[i] != "_action"
  {
    var name := ORDER_NAMES[i];
    assert |name| >= 8 && name[0] != '_' && (|name| != |MAC| || name[2] != MAC[2]);
  }

  /** The loop that turns every value into a string. */
  method Stringify(signer: Signer, params: seq<Entry>) returns (formData: map<string, string>)
    requires DistinctNames(params)
    ensures Lists(Stringified(signer, params), formData)
  {
    ghost var strings := Stringified(signer, params);
    formData := map[];
    for i := 0 to |params|
      invariant Lists(strings[..i], formData)
    {
      ghost var before := formData;
      formData := formData[params[i].name := Show(signer, params[i].value)];
      ListsExtends(strings[..i], before, strings[i]);
      assert strings[..i + 1] == strings[..i] + [strings[i]];
    }
    assert strings[..|params|] == strings;
  }

  lemma ListsExtends(s: seq<Entry>, form: map<string, string>, e: Entry)
    requires Lists(s, form) && e.value.Text?
    requires forall i :: 0 <= i < |s| ==> s[i].name != e.name
    ensures Lists(s + [e], form[e.name := e.value.text])
  {
    var longer, more := s + [e], form[e.name := e.value.text];
    forall name | name in more ensures Entry(name, Text(more[name])) in longer {
      if name == e.name {
        assert longer[|s|] == e;
      } else {
        assert Entry(name, Text(form[name])) in s;
      }
    }
  }

  function Signed(signer: Signer, params: seq<Entry>): seq<Entry> {
    params + [Entry(MAC, Text(CheckMacValue(signer, params)))]
  }

  /** Whatever order the fields of a signed form come back in, the check passes. */
  lemma SignedFormIsAccepted(signer: Signer, params: seq<Entry>, form: map<string, string>, body: seq<Entry>)
    requires DistinctIgnoringCase(params) && forall e :: e in params ==> e.name != MAC
    requires Lists(Stringified(signer, Signed(signer, params)), form)
    requires Lists(body, form)
    ensures CallbackAccepts(signer, body)
  {
    var strings, mac := Stringified(signer, params), CheckMacValue(signer, params);
    assert Stringified(signer, Signed(signer, params)) == strings + [Entry(MAC, Text(mac))];
    ListingsPermute(body, strings + [Entry(MAC, Text(mac))], form);
    AcceptedIffSigned(signer, params, body, mac);
  }

  predicate Holds(form: map<string, string>, name: string, value: string) {
    name in form && form[name] == value
  }

  lemma FieldHolds(signer: Signer, params: seq<Entry>, fields: map<string, string>, i: nat)
    requires Lists(Stringified(signer, params), fields) && i < |params|
    ensures Holds(fields, params[i].name, Show(signer, params[i].value))
  {
    assert Stringified(signer, params)[i] == Entry(params[i].name, Text(Show(signer, params[i].value)));
  }

  lemma SignedFieldHolds(signer: Signer, params: seq<Entry>, fields: map<string, string>, i: nat, name: string, v: Value)
    requires Lists(Stringified(signer, Signed(signer, params)), fields)
    requires i < |params| && params[i] == Entry(name, v)
    ensures Holds(fields, name, Show(signer, v))
  {
    assert Signed(signer, params)[i] == params[i];
    FieldHolds(signer, Signed(signer, params), fields, i);
  }

  /** The fields that the order itself decides. */
  predicate OrderHeld(form: map<string, string>, m: Merchant, tradeNo: string, tradeDate: string, amount: string, clientUrl: string) {
    && Holds(form, "MerchantID", m.id) && Holds(form, "MerchantTradeNo", tradeNo)
    && Holds(form, "MerchantTradeDate", tradeDate) && Holds(form, "TotalAmount", amount)
    && Holds(form, "ReturnURL", m.returnUrl) && Holds(form, "ClientBackURL", clientUrl)
  }

  /** The fields that are the same for every order. */
  predicate ConstantsHeld(form: map<string, string>, one: string) {
    && Holds(form, "PaymentType", "aio") && Holds(form, "TradeDesc", "BlockTic Ticket Preauthorization")
    && Holds(form, "ItemName", "BlockTic \U{7968}\U{5238}\U{9810}\U{6388}\U{6B0A}")
    && Holds(form, "ChoosePayment", "Credit") && Holds(form, "EncryptType", one)
  }

  lemma PaymentFields(m: Merchant, tradeNo: string, tradeDate: string, amount: real, clientUrl: string,
                      fields: map<string, string>)
    requires Lists(Stringified(m.signer, Signed(m.signer, OrderParams(m, tradeNo, tradeDate, amount, clientUrl))), fields)
    ensures Holds(fields, "TotalAmount", (m.signer.decimal)(amount))
    ensures Holds(fields, "ReturnURL", m.returnUrl) && Holds(fields, "ClientBackURL", clientUrl)
  {
    var params := OrderParams(m, tradeNo, tradeDate, amount, clientUrl);
    SignedFieldHolds(m.signer, params, fields, 4, "TotalAmount", Number(amount));
    SignedFieldHolds(m.signer, params, fields, 7, "ReturnURL", Text(m.returnUrl));
    SignedFieldHolds(m.signer, params, fields, 8, "ClientBackURL", Text(clientUrl));
  }

  lemma NumberFields(m: Merchant, tradeNo: string, tradeDate: string, amount: real, clientUrl: string,
                     fields: map<string, string>)
    requires Lists(Stringified(m.signer, Signed(m.signer, OrderParams(m, tradeNo, tradeDate, amount, clientUrl))), fields)
    ensures Holds(fields, "MerchantID", m.id) && Holds(fields, "MerchantTradeNo", tradeNo)
    ensures Holds(fields, "MerchantTradeDate", tradeDate)
  {
    var params := OrderParams(m, tradeNo, tradeDate, amount, clientUrl);
    SignedFieldHolds(m.signer, params, fields, 0, "MerchantID", Text(m.id));
    SignedFieldHolds(m.signer, params, fields, 1, "MerchantTradeNo", Text(tradeNo));
    SignedFieldHolds(m.signer, params, fields, 2, "MerchantTradeDate", Text(tradeDate));
  }

  lemma OrderFields(m: Merchant, tradeNo: string, tradeDate: string, amount: real, clientUrl: string,
                    fields: map<string, string>)
    requires Lists(Stringified(m.signer, Signed(m.signer, OrderParams(m, tradeNo, tradeDate, amount, clientUrl))), fields)
    ensures OrderHeld(fields, m, tradeNo, tradeDate, (m.signer.decimal)(amount), clientUrl)
  {
    NumberFields(m, tradeNo, tradeDate, amount, clientUrl, fields);
    PaymentFields(m, tradeNo, tradeDate, amount, clientUrl, fields);
  }

  lemma ConstantFields(m: Merchant, tradeNo: string, tradeDate: string, amount: real, clientUrl: string,
                       fields: map<string, string>)
    requires Lists(Stringified(m.signer, Signed(m.signer, OrderParams(m, tradeNo, tradeDate, amount, clientUrl))), fields)
    ensures ConstantsHeld(fields, (m.signer.decimal)(1.0))
  {
    var params := OrderParams(m, tradeNo, tradeDate, amount, clientUrl);
    var name := "BlockTic \U{7968}\U{5238}\U{9810}\U{6388}\U{6B0A}";
    SignedFieldHolds(m.signer, params, fields, 3, "PaymentType", Text("aio"));
    SignedFieldHolds(m.signer, params, fields, 5, "TradeDesc", Text("BlockTic Ticket Preauthorization"));
    SignedFieldHolds(m.signer, params, fields, 6, "ItemName", Text(name));
    SignedFieldHolds(m.signer, params, fields, 9, "ChoosePayment", Text("Credit"));
    SignedFieldHolds(m.signer, params, fields, 10, "EncryptType", Number(1.0));
  }

  lemma SignatureField(signer: Signer, params: seq<Entry>, fields: map<string, string>)
    requires Lists(Stringified(signer, Signed(signer, params)), fields)
    ensures Holds(fields, MAC, CheckMacValue(signer, params))
  {
    assert Signed(signer, params)[|params|] == Entry(MAC, Text(CheckMacValue(signer, params)));
    FieldHolds(signer, Signed(signer, params), fields, |params|);
  }

  lemma WithAction(m: Merchant, tradeNo: string, tradeDate: string, amount: string, clientUrl: string, one: string,
                   mac: string, fields: map<string, string>, action: string)
    requires OrderHeld(fields, m, tradeNo, tradeDate, amount, clientUrl) && ConstantsHeld(fields, one)
    requires Holds(fields, MAC, mac) && "_action" !in fields
    ensures var form := fields["_action" := action];
      form - {"_action"} == fields && OrderHeld(form, m, tradeNo, tradeDate, amount, clientUrl) && ConstantsHeld(form, one) && Holds(form, MAC, mac)
  {
  }

  /** The form holds the eleven parameters as strings and their signature; without `_action` it passes the check. */
  method BuildEcpayFormData(m: Merchant, tradeNo: string, tradeDate: string, amount: real, clientUrl: string)
    returns (formData: map<string, string>)
    ensures var params := OrderParams(m, tradeNo, tradeDate, amount, clientUrl);
      && "_action" in formData && formData["_action"] == m.apiUrl + "/Cashier/AioCheckOut/V5"
      && Lists(Stringified(m.signer, Signed(m.signer, params)), formData - {"_action"})
    ensures forall body :: Lists(body, formData - {"_action"}) ==> CallbackAccepts(m.signer, body)
    ensures OrderHeld(formData, m, tradeNo, tradeDate, (m.signer.decimal)(amount), clientUrl)
    ensures ConstantsHeld(formData, (m.signer.decimal)(1.0))
    ensures Holds(formData, MAC, CheckMacValue(m.signer, OrderParams(m, tradeNo, tradeDate, amount, clientUrl)))
  {
    var params := OrderParams(m, tradeNo, tradeDate, amount, clientUrl);
    OrderParamsDistinct(m, tradeNo, tradeDate, amount, clientUrl);
    OrderParamsUnsigned(m, tradeNo, tradeDate, amount, clientUrl);
    SignedDistinct(m.signer, params);
    var fields := Stringify(m.signer, Signed(m.signer, params));
    FormIsRight(m, tradeNo, tradeDate, amount, clientUrl, fields);
    formData := fields["_action" := m.apiUrl + "/Cashier/AioCheckOut/V5"];
  }

  lemma FormIsRight(m: Merchant, tradeNo: string, tradeDate: string, amount: real, clientUrl: string,
                    fields: map<string, string>)
    requires Lists(Stringified(m.signer, Signed(m.signer, OrderParams(m, tradeNo, tradeDate, amount, clientUrl))), fields)
    ensures var form := fields["_action" := m.apiUrl + "/Cashier/AioCheckOut/V5"];
      && form - {"_action"} == fields
      && OrderHeld(form, m, tradeNo, tradeDate, (m.signer.decimal)(amount), clientUrl)
      && ConstantsHeld(form, (m.signer.decimal)(1.0))
      && Holds(form, MAC, CheckMacValue(m.signer, OrderParams(m, tradeNo, tradeDate, amount, clientUrl)))
      && forall body :: Lists(body, fields) ==> CallbackAccepts(m.signer, body)
  {
    var params, action := OrderParams(m, tradeNo, tradeDate, amount, clientUrl), m.apiUrl + "/Cashier/AioCheckOut/V5";
    OrderParamsDistinct(m, tradeNo, tradeDate, amount, clientUrl);
    OrderParamsUnsigned(m, tradeNo, tradeDate, amount, clientUrl);
    ListingsAccepted(m.signer, params, fields);
    OrderFields(m, tradeNo, tradeDate, amount, clientUrl, fields);
    ConstantFields(m, tradeNo, tradeDate, amount, clientUrl, fields);
    WithAction(m, tradeNo, tradeDate, (m.signer.decimal)(amount), clientUrl, (m.signer.decimal)(1.0),
               CheckMacValue(m.signer, params), fields, action);
  }

  lemma ListingsAccepted(signer: Signer, params: seq<Entry>, fields: map<string, string>)
    requires Lists(Stringified(signer, Signed(signer, params)), fields)
    requires DistinctIgnoringCase(params) && forall e :: e in params ==> e.name != MAC && e.name != "_action"
    ensures "_action" !in fields && Holds(fields, MAC, CheckMacValue(signer, params))
    ensures forall body :: Lists(body, fields) ==> CallbackAccepts(signer, body)
  {
    ActionIsNew(signer, params, fields);
    SignatureField(signer, params, fields);
    forall body | Lists(body, fields) ensures CallbackAccepts(signer, body) {
      SignedFormIsAccepted(signer, params, fields, body);
    }
  }

  lemma SignedDistinct(signer: Signer, params: seq<Entry>)
    requires DistinctIgnoringCase(params) && forall e :: e in params ==> e.name != MAC
    ensures DistinctNames(Signed(signer, params))
  {
    forall i, j | 0 <= i < j < |Signed(signer, params)|
      ensures Signed(signer, params)[i].name != Signed(signer, params)[j].name
    {
      assert params[i] in params;
    }
  }

  lemma ActionIsNew(signer: Signer, params: seq<Entry>, fields: map<string, string>)
    requires Lists(Stringified(signer, Signed(signer, params)), fields)
    requires forall e :: e in params ==> e.name != "_action"
    ensures "_action" !in fields
  {
    var signed, strings := Signed(signer, params), Stringified(signer, Signed(signer, params));
    forall i | 0 <= i < |strings| ensures strings[i].name != "_action" {
      assert signed[i] in params || signed[i].name == MAC;
    }
  }
}
