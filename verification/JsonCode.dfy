/** A prefix-free code for JSON values, from which the toy libraries are made. */
module JsonCode {
  import opened Wrappers
  import opened Bytes
  import opened DidDocument
  import BTree

  function Unary(n: nat): (b: bytes)
    ensures |b| == n + 1
  {
    if n == 0 then [0] else [1] + Unary(n - 1)
  }

  lemma {:induction false} UnaryCancel(m: nat, n: nat, r: bytes, s: bytes)
    requires Unary(m) + r == Unary(n) + s
    ensures m == n && r == s
  {
    assert (Unary(m) + r)[0] == Unary(m)[0] && (Unary(n) + s)[0] == Unary(n)[0];
    if m == 0 || n == 0 {
      assert (Unary(m) + r)[1..] == r && (Unary(n) + s)[1..] == s;
    } else {
      assert (Unary(m) + r)[1..] == Unary(m - 1) + r && (Unary(n) + s)[1..] == Unary(n - 1) + s;
      UnaryCancel(m - 1, n - 1, r, s);
    }
  }

  function Chars(s: string): bytes {
    if s == "" then [] else Unary(s[0] as nat) + Chars(s[1..])
  }

  lemma {:induction false} CharsCancel(s: string, t: string, r: bytes, q: bytes)
    requires |s| == |t| && Chars(s) + r == Chars(t) + q
    ensures s == t && r == q
  {
    if s == "" {
      assert Chars(s) + r == r && Chars(t) + q == q;
    } else {
      assert Chars(s) + r == Unary(s[0] as nat) + (Chars(s[1..]) + r);
      assert Chars(t) + q == Unary(t[0] as nat) + (Chars(t[1..]) + q);
      UnaryCancel(s[0] as nat, t[0] as nat, Chars(s[1..]) + r, Chars(t[1..]) + q);
      CharsCancel(s[1..], t[1..], r, q);
      assert s == [s[0]] + s[1..] && t == [t[0]] + t[1..];
    }
  }

  function CodeText(s: string): bytes {
    Unary(|s|) + Chars(s)
  }

  lemma TextCancel(s: string, t: string, r: bytes, q: bytes)
    requires CodeText(s) + r == CodeText(t) + q
    ensures s == t && r == q
  {
    assert CodeText(s) + r == Unary(|s|) + (Chars(s) + r) && CodeText(t) + q == Unary(|t|) + (Chars(t) + q);
    UnaryCancel(|s|, |t|, Chars(s) + r, Chars(t) + q);
    CharsCancel(s, t, r, q);
  }

  function Tag(j: Json): byte {
    match j
    case JNull => 0
    case JBool(b) => if b then 1 else 2
    case JNumber(n) => if n >= 0 then 3 else 4
    case JString(_) => 5
    case JArray(_) => 6
    case JObject(_) => 7
  }

  function Code(j: Json): (b: bytes)
    ensures b != []
    decreases j, 2, 0
  {
    [Tag(j)] + Content(j)
  }

  function Content(j: Json): bytes
    decreases j, 1, 0
  {
    match j
    case JNull => []
    case JBool(_) => []
    case JNumber(n) => Unary(if n >= 0 then n else -n)
    case JString(s) => CodeText(s)
    case JArray(items) => Unary(|items|) + Items(j, 0)
    case JObject(members) => var names := BTree.InOrder(members.Keys); Unary(|names|) + Fields(j, names)
  }

  function Items(j: Json, i: nat): bytes
    requires j.JArray? && i <= |j.items|
    decreases j, 0, |j.items| - i
  {
    if i == |j.items| then [] else Code(j.items[i]) + Items(j, i + 1)
  }

  function Fields(j: Json, names: seq<string>): bytes
    requires j.JObject? && forall n <- names :: n in j.members
    decreases j, 0, |names|
  {
    if names == [] then [] else CodeText(names[0]) + (Code(j.members[names[0]]) + Fields(j, names[1..]))
  }

  /** No code is the beginning of another. */
  lemma {:induction false} CodeCancel(j: Json, k: Json, r: bytes, s: bytes)
    requires Code(j) + r == Code(k) + s
    ensures j == k && r == s
    decreases j, 3, 0
  {
    hide Content;
    assert Code(j) + r == [Tag(j)] + (Content(j) + r) && Code(k) + s == [Tag(k)] + (Content(k) + s);
    assert ([Tag(j)] + (Content(j) + r))[1..] == Content(j) + r && ([Tag(k)] + (Content(k) + s))[1..] == Content(k) + s;
    assert Tag(j) == ([Tag(j)] + (Content(j) + r))[0] == Tag(k);
    ContentCancel(j, k, r, s);
  }

  lemma {:induction false} ContentCancel(j: Json, k: Json, r: bytes, s: bytes)
    requires Tag(j) == Tag(k) && Content(j) + r == Content(k) + s
    ensures j == k && r == s
    decreases j, 2, 0
  {
    match j
    case JNull => assert Content(j) + r == r && Content(k) + s == s;
    case JBool(_) => assert Content(j) + r == r && Content(k) + s == s;
    case JNumber(m) => UnaryCancel(if m >= 0 then m else -m, if k.n >= 0 then k.n else -k.n, r, s);
    case JString(t) => TextCancel(t, k.s, r, s);
    case JArray(_) => ArrayCancel(j, k, r, s);
    case JObject(_) => ObjectCancel(j, k, r, s);
  }

  lemma {:induction false} ArrayCancel(j: Json, k: Json, r: bytes, s: bytes)
    requires j.JArray? && k.JArray? && Content(j) + r == Content(k) + s
    ensures j == k && r == s
    decreases j, 1, 0
  {
    hide Items;
    var x, y := Items(j, 0), Items(k, 0);
    assert Content(j) + r == Unary(|j.items|) + (x + r) && Content(k) + s == Unary(|k.items|) + (y + s);
    hide Content;
    UnaryCancel(|j.items|, |k.items|, x + r, y + s);
    ItemsCancel(j, k, 0, r, s);
    assert j.items[0..] == j.items && k.items[0..] == k.items;
  }

  lemma {:induction false} ObjectCancel(j: Json, k: Json, r: bytes, s: bytes)
    requires j.JObject? && k.JObject? && Content(j) + r == Content(k) + s
    ensures j == k && r == s
    decreases j, 1, 0
  {
    hide Fields;
    var names, other := BTree.InOrder(j.members.Keys), BTree.InOrder(k.members.Keys);
    hide BTree.InOrder;
    var x, y := Fields(j, names), Fields(k, other);
    assert Content(j) + r == Unary(|names|) + (x + r) && Content(k) + s == Unary(|other|) + (y + s);
    hide Content;
    UnaryCancel(|names|, |other|, x + r, y + s);
    FieldsCancel(j, k, names, other, r, s);
    SameMembers(j.members, k.members, names);
  }

  lemma SameMembers(m: map<string, Json>, n: map<string, Json>, names: seq<string>)
    requires forall k :: k in names <==> k in m.Keys
    requires forall k :: k in names <==> k in n.Keys
    requires forall k <- names :: k in m && k in n && m[k] == n[k]
    ensures m == n
  {
  }

  lemma {:induction false} ItemsCancel(j: Json, k: Json, i: nat, r: bytes, s: bytes)
    requires j.JArray? && k.JArray? && |j.items| == |k.items| && i <= |j.items|
    requires Items(j, i) + r == Items(k, i) + s
    ensures j.items[i..] == k.items[i..] && r == s
    decreases j, 0, |j.items| - i
  {
    hide Code;
    if i == |j.items| {
      assert Items(j, i) + r == r && Items(k, i) + s == s;
    } else {
      assert Items(j, i) + r == Code(j.items[i]) + (Items(j, i + 1) + r);
      assert Items(k, i) + s == Code(k.items[i]) + (Items(k, i + 1) + s);
      CodeCancel(j.items[i], k.items[i], Items(j, i + 1) + r, Items(k, i + 1) + s);
      ItemsCancel(j, k, i + 1, r, s);
      assert j.items[i..] == [j.items[i]] + j.items[i + 1..] && k.items[i..] == [k.items[i]] + k.items[i + 1..];
    }
  }

  lemma {:induction false} FieldsCancel(j: Json, k: Json, names: seq<string>, other: seq<string>, r: bytes, s: bytes)
    requires j.JObject? && k.JObject? && |names| == |other|
    requires (forall n <- names :: n in j.members) && (forall n <- other :: n in k.members)
    requires Fields(j, names) + r == Fields(k, other) + s
    ensures names == other && r == s && forall n <- names :: j.members[n] == k.members[n]
    decreases j, 0, |names|
  {
    hide Code, CodeText;
    if names == [] {
      assert Fields(j, names) + r == r && Fields(k, other) + s == s;
    } else {
      var v, w := Code(j.members[names[0]]), Code(k.members[other[0]]);
      var x, y := Fields(j, names[1..]), Fields(k, other[1..]);
      assert Fields(j, names) + r == CodeText(names[0]) + (v + (x + r));
      assert Fields(k, other) + s == CodeText(other[0]) + (w + (y + s));
      TextCancel(names[0], other[0], v + (x + r), w + (y + s));
      CodeCancel(j.members[names[0]], k.members[other[0]], x + r, y + s);
      FieldsCancel(j, k, names[1..], other[1..], r, s);
      assert names == [names[0]] + names[1..] && other == [other[0]] + other[1..];
    }
  }

  lemma CodeInjective(j: Json, k: Json)
    requires Code(j) == Code(k)
    ensures j == k
  {
    hide Code;
    assert Code(j) + [] == Code(k) + [];
    CodeCancel(j, k, [], []);
  }

  ghost function Decoded(b: bytes): Option<Json> {
    if exists j :: Code(j) == b then Some(var j :| Code(j) == b; j) else None
  }

  lemma DecodedCode(j: Json)
    ensures Decoded(Code(j)) == Some(j)
  {
    hide Code;
    var k := Decoded(Code(j)).value;
    assert Code(k) == Code(j);
    CodeInjective(j, k);
  }
}
