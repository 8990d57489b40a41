/**
 Frames on the wire (internal/proto/codec.go): the verbs, the search that decides whether the type
 field must still be stamped, and what the other end makes of the line.
 */
module Codec {
  import opened Base
  import opened Json

  const CORE_VERBS := {
    "hello", "welcome", "auth_request", "auth_challenge", "auth_response", "auth_ok",
    "auth_err", "join", "part", "msg", "presence", "ping", "pong", "error"}
  const SUBSCRIPTION_VERBS := {
    "subscription_create", "subscription_list", "subscription_get",
    "subscription_update", "subscription_delete", "subscription_ok",
    "subscription_list_ok", "subscription_deleted"}
  const CHANNEL_VERBS := {
    "chathistory", "chathistory_ok", "members", "members_ok", "chanop_pause_bot",
    "chanop_resume_bot", "chanop_ok"}

  predicate IsVerb(t: string) {
    t in CORE_VERBS || t in SUBSCRIPTION_VERBS || t in CHANNEL_VERBS
  }

  /** Not empty, and printed as it is. */
  predicate Plain(w: string) {
    w != "" && forall c :: c in w ==> 'a' <= c <= 'z' || c == '_'
  }

  /** What a verb is made of. */
  type Verb = w: string | Plain(w) witness "ping"

  /** Every verb of the protocol is such a word. */
  lemma VerbsPlain(v: string)
    requires IsVerb(v)
    ensures Plain(v)
  {
    if v in CORE_VERBS {
      CoreVerbsPlain(v);
    } else if v in SUBSCRIPTION_VERBS {
      SubscriptionVerbsPlain(v);
    }
  }

  lemma SubscriptionVerbsPlain(v: string)
    requires v in SUBSCRIPTION_VERBS
    ensures Plain(v)
  {
  }

  lemma CoreVerbsPlain(v: string)
    requires v in CORE_VERBS
    ensures Plain(v)
  {
  }

  /** frameForType: each frame struct stands for its own verb; None is ErrUnknownType. */
  function FrameForType(t: string): Option<Verb> {
    if IsVerb(t) then (VerbsPlain(t); Some(t)) else None
  }

  // The search

  predicate At(haystack: string, needle: string, i: nat) {
    i + |needle| <= |haystack| && haystack[i..i + |needle|] == needle
  }

  ghost predicate Occurs(haystack: string, needle: string) {
    exists i: nat :: At(haystack, needle, i)
  }

  /** bytesContains. */
  method BytesContains(haystack: string, needle: string) returns (found: bool)
    ensures found <==> Occurs(haystack, needle)
  {
    if |needle| == 0 {
      assert At(haystack, needle, 0);
      return true;
    }
    if |haystack| < |needle| {
      return false;
    }
    for i := 0 to |haystack| - |needle| + 1
      invariant forall k: nat :: k < i ==> !At(haystack, needle, k)
    {
      var j := 0;
      while j < |needle| && haystack[i + j] == needle[j]
        invariant 0 <= j <= |needle|
        invariant forall l :: 0 <= l < j ==> haystack[i + l] == needle[l]
      {
        j := j + 1;
      }
      if j == |needle| {
        assert At(haystack, needle, i);
        return true;
      }
      assert haystack[i..i + |needle|][j] != needle[j];
    }
    return false;
  }

  /** "type":"verb" with its quotes. */
  function Needle(verb: string): string {
    "\"type\":\"" + verb + "\""
  }

  /** The printed key ends in "type" with its quotes, so the needle may start inside it. */
  predicate KeyHit(key: string) {
    var q := Quote(key);
    |q| >= 6 && q[|q| - 6..] == "\"type\""
  }

  /** Such a key, a colon and the verb come first. */
  predicate HitAt(ts: Tokens, verb: string) {
    && ts.Then? && ts.head.Str? && KeyHit(ts.head.s)
    && ts.tail.Then? && ts.tail.head == Punct(':')
    && ts.tail.tail.Then? && ts.tail.tail.head == Str(verb)
  }

  predicate TokenHit(ts: Tokens, verb: string) {
    ts.Then? && (HitAt(ts, verb) || TokenHit(ts.tail, verb))
  }

  /** Where the quotes of a printed string are. */
  lemma QuoteShape(s: string)
    ensures var q := Quote(s);
      && |q| >= 2 && q[0] == '"' && q[|q| - 1] == '"'
      && forall k :: 0 < k < |q| - 1 && q[k] == '"' ==> q[k - 1] == '\\'
  {
    EscapedQuotes(s);
    var q, e := Quote(s), Escape(s);
    forall k | 0 < k < |q| - 1 && q[k] == '"' ensures q[k - 1] == '\\' {
      assert q[k] == e[k - 1] && q[k - 1] == e[k - 2];
    }
  }

  /** A match that starts inside a printed string ends that string right after its fifth character. */
  lemma KeyEnd(q: string, x: string, i: nat)
    requires |q| >= 2 && q[|q| - 1] == '"'
    requires forall k :: 0 < k < |q| - 1 && q[k] == '"' ==> q[k - 1] == '\\'
    requires i < |q| && "\"type\"" <= (q + x)[i..]
    requires x == [] || IsPunct(x[0])
    ensures i + 6 == |q|
  {
    var m, all := |q| - 1, q + x;
    var part := all[i..];
    assert part[1] == 't' && part[2] == 'y' && part[3] == 'p' && part[4] == 'e' && part[5] == '"';
    assert all[i + 1] == 't' && all[i + 2] == 'y' && all[i + 3] == 'p' && all[i + 4] == 'e' && all[i + 5] == '"';
    assert all[m] == '"';
    assert m + 1 < |all| ==> IsPunct(all[m + 1]);
  }

  lemma KeyEndOf(key: string, x: string, i: nat)
    requires i < |Quote(key)| && "\"type\"" <= (Quote(key) + x)[i..]
    requires x == [] || IsPunct(x[0])
    ensures KeyHit(key) && i + 6 == |Quote(key)|
  {
    var q := Quote(key);
    QuoteShape(key);
    KeyEnd(q, x, i);
    assert q[i..] == (q + x)[i..][..6];
  }

  lemma PlainWithin(w: string, all: string)
    requires Plain(w) && "\"" + w + "\"" <= all
    ensures forall k :: 0 < k <= |w| ==> all[k] != '"' && all[k] != '\\'
  {
    forall k | 0 < k <= |w| ensures all[k] != '"' && all[k] != '\\' {
      assert all[k] == ("\"" + w + "\"")[k] == w[k - 1] && w[k - 1] in w;
    }
  }

  lemma FirstQuote(all: string, m: nat, n: nat)
    requires 0 < m < |all| && 1 < n < |all| && all[m] == '"' && all[n] == '"'
    requires forall k :: 0 < k < m && all[k] == '"' ==> all[k - 1] == '\\'
    requires forall k :: 0 < k < n ==> all[k] != '"' && all[k] != '\\'
    ensures m == n
  {
    assert all[n - 1] != '\\';
  }

  /** A printed string that begins with a plain word in quotes is that word. */
  lemma WordEnd(s: string, y: string, w: string)
    requires Plain(w)
    requires "\"" + w + "\"" <= Quote(s) + y
    ensures s == w
  {
    var q, n := Quote(s), |w| + 1;
    var m, all := |q| - 1, q + y;
    QuoteShape(s);
    assert forall k :: 0 < k < m && all[k] == '"' ==> all[k - 1] == '\\';
    assert all[m] == '"' && all[n] == '"';
    PlainWithin(w, all);
    FirstQuote(all, m, n);
    assert w == ("\"" + w + "\"")[1..n] == all[1..n];
    assert Escape(s) == q[1..m] == all[1..m];
    PlainEscape(s);
  }

  lemma QuotesAreInStrings(t: Token, i: nat)
    requires i < |TokenText(t)| && TokenText(t)[i] == '"'
    ensures t.Str?
  {
  }

  lemma NeedleParts(verb: string)
    ensures Needle(verb) == "\"type\"" + (":" + ("\"" + verb + "\""))
  {
  }

  lemma MatchEndsKey(ts: Tokens, i: nat)
    requires Separated(ts) && ts.Then?
    requires i < |TokenText(ts.head)| && "\"type\"" <= TextOf(ts)[i..]
    ensures ts.head.Str? && KeyHit(ts.head.s) && i + 6 == |TokenText(ts.head)|
  {
    assert TextOf(ts)[i] == TextOf(ts)[i..][0] == '"';
    QuotesAreInStrings(ts.head, i);
    AfterWord(ts);
    KeyEndOf(ts.head.s, TextOf(ts.tail), i);
  }

  lemma NeedlePrefix(text: string, verb: string, i: nat)
    requires At(text, Needle(verb), i)
    ensures "\"type\"" <= text[i..]
  {
    NeedleParts(verb);
    assert text[i..][..|Needle(verb)|] == Needle(verb);
  }

  /** A match that starts in the first token is a hit of the first three. */
  lemma MatchIsHit(ts: Tokens, verb: string, i: nat)
    requires Separated(ts) && ts.Then? && Plain(verb)
    requires i < |TokenText(ts.head)| && At(TextOf(ts), Needle(verb), i)
    ensures HitAt(ts, verb)
  {
    var text := TextOf(ts);
    NeedlePrefix(text, verb, i);
    MatchEndsKey(ts, i);
    assert TextOf(ts.tail) == text[i + 6..];
    ValueFollows(ts.tail, verb, text, i);
  }

  lemma NeedleRest(text: string, verb: string, i: nat)
    requires At(text, Needle(verb), i)
    ensures ":" + ("\"" + verb + "\"") <= text[i + 6..]
  {
    NeedleParts(verb);
    var rest := ":" + ("\"" + verb + "\"");
    assert rest == Needle(verb)[6..] == text[i..i + |Needle(verb)|][6..];
  }

  lemma ValueFollows(ts: Tokens, verb: string, text: string, i: nat)
    requires Plain(verb) && i + 6 <= |text| && TextOf(ts) == text[i + 6..]
    requires At(text, Needle(verb), i)
    ensures ts.Then? && ts.head == Punct(':') && ts.tail.Then? && ts.tail.head == Str(verb)
  {
    NeedleRest(text, verb, i);
    var rest := ":" + ("\"" + verb + "\"");
    assert TextOf(ts)[0] == rest[0] == ':';
    FirstChar(ts.head);
    assert TextOf(ts.tail) == TextOf(ts)[1..];
    assert "\"" + verb + "\"" == rest[1..];
    WordFollows(ts.tail, verb);
  }

  lemma WordFollows(ts: Tokens, verb: string)
    requires Plain(verb) && "\"" + verb + "\"" <= TextOf(ts)
    ensures ts.Then? && ts.head == Str(verb)
  {
    assert TextOf(ts)[0] == '"';
    FirstChar(ts.head);
    WordEnd(ts.head.s, TextOf(ts.tail), verb);
  }

  lemma VerbThenRest(ts: Tokens, verb: string)
    requires ts.Then? && ts.head == Punct(':') && ts.tail.Then? && ts.tail.head == Str(verb) && Plain(verb)
    ensures TextOf(ts) == ":" + (("\"" + verb + "\"") + TextOf(ts.tail.tail))
  {
    PlainPrints(verb);
  }

  lemma HitIsMatch(ts: Tokens, verb: string)
    requires HitAt(ts, verb) && Plain(verb)
    ensures At(TextOf(ts), Needle(verb), |Quote(ts.head.s)| - 6)
  {
    var q := Quote(ts.head.s);
    var a := q[..|q| - 6];
    VerbThenRest(ts.tail, verb);
    NeedleParts(verb);
    assert q == a + "\"type\"";
    NeedleInside(a, "\"type\"", ":", "\"" + verb + "\"", TextOf(ts.tail.tail.tail));
    assert TextOf(ts) == q + TextOf(ts.tail);
  }

  lemma NeedleInside(a: string, b: string, c: string, d: string, z: string)
    ensures At((a + b) + (c + (d + z)), b + (c + d), |a|)
  {
  }

  lemma {:induction false} PlainPrints(w: string)
    requires forall c :: c in w ==> 'a' <= c <= 'z' || c == '_'
    ensures Escape(w) == w
  {
    if w != [] {
      assert forall c :: c in w[1..] ==> c in w;
      PlainPrints(w[1..]);
      assert w[0] in w && !Special(w[0]);
      assert Escape(w) == [w[0]] + w[1..];
    }
  }

  lemma Shift(a: string, b: string, needle: string, i: nat)
    ensures At(a + b, needle, |a| + i) <==> At(b, needle, i)
  {
    if i + |needle| <= |b| {
      assert (a + b)[|a| + i..|a| + i + |needle|] == b[i..i + |needle|];
    }
  }

  /** The needle occurs in the text exactly when some key, colon and value are a hit. */
  lemma {:induction false} SearchTokens(ts: Tokens, verb: string)
    requires Separated(ts) && Plain(verb)
    ensures Occurs(TextOf(ts), Needle(verb)) <==> TokenHit(ts, verb)
  {
    if ts.Then? {
      var a, b := TokenText(ts.head), TextOf(ts.tail);
      SearchTokens(ts.tail, verb);
      if i: nat :| At(TextOf(ts), Needle(verb), i) {
        if i < |a| {
          MatchIsHit(ts, verb, i);
        } else {
          Shift(a, b, Needle(verb), i - |a|);
        }
      }
      if HitAt(ts, verb) {
        HitIsMatch(ts, verb);
      } else if i: nat :| At(b, Needle(verb), i) {
        Shift(a, b, Needle(verb), i);
      }
    }
  }

  predicate MemberHit(m: Member, verb: string) {
    KeyHit(m.key) && m.value == Text(verb)
  }

  /** Somewhere inside v a member looks like the type field. */
  predicate Has(v: Value, verb: string) {
    match v
    case Text(_) => false
    case Atom(_) => false
    case Array(items) => ItemsHave(items, verb)
    case Object(ms) => MembersHave(ms, verb)
  }

  predicate ItemsHave(items: seq<Value>, verb: string) {
    items != [] && (Has(items[0], verb) || ItemsHave(items[1..], verb))
  }

  predicate MembersHave(ms: seq<Member>, verb: string) {
    ms != [] && (MemberHit(ms[0], verb) || Has(ms[0].value, verb) || MembersHave(ms[1..], verb))
  }

  lemma {:induction false} ValueHits(v: Value, rest: Tokens, verb: string)
    requires Closes(rest)
    ensures TokenHit(ValueTokens(v, rest), verb) <==> Has(v, verb) || TokenHit(rest, verb)
  {
    match v
    case Text(_) =>
    case Atom(_) =>
    case Array(items) => ItemsHit(items, Then(Punct(']'), rest), verb);
    case Object(ms) => MembersHit(ms, Then(Punct('}'), rest), verb);
  }

  lemma {:induction false} ItemsHit(items: seq<Value>, rest: Tokens, verb: string)
    requires Closes(rest)
    ensures TokenHit(ItemTokens(items, rest), verb) <==> ItemsHave(items, verb) || TokenHit(rest, verb)
  {
    if |items| == 1 {
      ValueHits(items[0], rest, verb);
    } else if |items| > 1 {
      ItemsHit(items[1..], rest, verb);
      ValueHits(items[0], Then(Punct(','), ItemTokens(items[1..], rest)), verb);
    }
  }

  /** A member is a hit exactly when its key is and its whole value is the verb. */
  lemma {:induction false} MemberHits(m: Member, rest: Tokens, verb: string)
    requires Closes(rest)
    ensures TokenHit(Then(Str(m.key), Then(Punct(':'), ValueTokens(m.value, rest))), verb)
      <==> MemberHit(m, verb) || Has(m.value, verb) || TokenHit(rest, verb)
  {
    ValueHits(m.value, rest, verb);
  }

  lemma {:induction false} MembersHit(ms: seq<Member>, rest: Tokens, verb: string)
    requires Closes(rest)
    ensures TokenHit(MemberTokens(ms, rest), verb) <==> MembersHave(ms, verb) || TokenHit(rest, verb)
  {
    if |ms| == 1 {
      MemberHits(ms[0], rest, verb);
    } else if |ms| > 1 {
      MembersHit(ms[1..], rest, verb);
      MemberHits(ms[0], Then(Punct(','), MemberTokens(ms[1..], rest)), verb);
    }
  }

  /** containsType answers whether any member anywhere in the value looks like the wanted type field. */
  lemma SearchValue(v: Value, verb: string)
    requires Plain(verb)
    ensures Occurs(Print(v), Needle(verb)) <==> Has(v, verb)
  {
    ValueSeparated(v, End);
    ValueHits(v, End, verb);
    SearchTokens(ValueTokens(v, End), verb);
  }

  /** A key without quotes is a hit only if it is "type". */
  lemma {:induction false} QuoteFree(s: string)
    requires '"' !in s
    ensures '"' !in Escape(s)
  {
    if s != [] {
      assert forall c :: c in s[1..] ==> c in s;
      QuoteFree(s[1..]);
      assert s[0] in s;
      assert '"' !in EscapeChar(s[0]);
    }
  }

  lemma KeyHitIff(key: string)
    requires '"' !in key
    ensures KeyHit(key) <==> key == "type"
  {
    QuoteFree(key);
    var q, e := Quote(key), Escape(key);
    if KeyHit(key) {
      var i := |q| - 6;
      assert q[i] == q[i..][0] == '"';
      assert i == 0;
      assert e == q[1..5] == q[i..][1..5] == "type";
      PlainEscape(key);
    } else if key == "type" {
      PlainPrints(key);
    }
  }

  // Encoding

  /**
   A frame: its verb, the Type field as its maker left it, and its other fields. The fields a frame
   struct has are named once each, without quotes, and never "type"; raw JSON may be among the values.
   */
  datatype Frame = Frame(verb: Verb, typeField: string, fields: seq<Member>)

  predicate Fields(ms: seq<Member>) {
    && (forall i :: 0 <= i < |ms| ==> ms[i].key != "type" && '"' !in ms[i].key)
    && (forall i, j :: 0 <= i < j < |ms| ==> ms[i].key != ms[j].key)
  }

  function Whole(f: Frame): seq<Member> {
    [Member("type", Text(f.typeField))] + f.fields
  }

  lemma {:induction false} WholeHas(f: Frame)
    ensures MembersHave(Whole(f), f.verb) <==> f.typeField == f.verb || MembersHave(f.fields, f.verb)
  {
    KeyHitIff("type");
    assert Whole(f)[1..] == f.fields;
  }

  /** Members in the key order of a printed map: a new key goes to its place, a known one is replaced. */
  function Put(ms: seq<Member>, key: string, v: Value): seq<Member> {
    if ms == [] then [Member(key, v)]
    else
      var n := |ms| - 1;
      if ms[n].key == key then ms[..n] + [Member(key, v)]
      else if Less(key, ms[n].key) then Put(ms[..n], key, v) + [ms[n]]
      else ms + [Member(key, v)]
  }

  /** A value that went through a map[string]any: every object sorted by key, the last of equal keys kept. */
  function Normal(v: Value): Value {
    match v
    case Text(_) => v
    case Atom(_) => v
    case Array(items) => Array(NormalItems(items))
    case Object(ms) => Object(Collected(ms))
  }

  function NormalItems(items: seq<Value>): seq<Value> {
    if items == [] then [] else [Normal(items[0])] + NormalItems(items[1..])
  }

  function Collected(ms: seq<Member>): seq<Member> {
    if ms == [] then [] else Put(Collected(ms[..|ms| - 1]), ms[|ms| - 1].key, Normal(ms[|ms| - 1].value))
  }

  /** What the receiver reads for a key: its last occurrence counts. */
  function Lookup(ms: seq<Member>, key: string): Option<Value> {
    if ms == [] then None
    else if ms[|ms| - 1].key == key then Some(ms[|ms| - 1].value)
    else Lookup(ms[..|ms| - 1], key)
  }

  // What the receiver can tell apart

  /** No later member has the same key. */
  predicate IsLast(ms: seq<Member>, i: nat)
    requires i < |ms|
  {
    forall j :: i < j < |ms| ==> ms[j].key != ms[i].key
  }

  /**
   The receiver reads the same from both: equal texts and atoms, arrays of the same length that are the
   same item by item, and objects that have the same keys with, last occurrences counting, the same values.
   */
  ghost predicate Same(v: Value, w: Value)
    decreases v
  {
    match v
    case Text(s) => w == Text(s)
    case Atom(t) => w == Atom(t)
    case Array(items) =>
      w.Array? && |w.items| == |items| && forall i :: 0 <= i < |items| ==> Same(items[i], w.items[i])
    case Object(ms) =>
      && w.Object?
      && (forall i :: 0 <= i < |ms| && IsLast(ms, i) ==>
            exists j :: 0 <= j < |w.members| && IsLast(w.members, j) && w.members[j].key == ms[i].key
                        && Same(ms[i].value, w.members[j].value))
      && (forall j :: 0 <= j < |w.members| ==> exists i :: 0 <= i < |ms| && ms[i].key == w.members[j].key)
  }

  ghost predicate SameField(v: Option<Value>, w: Option<Value>) {
    if v.Some? then w.Some? && Same(v.value, w.value) else w.None?
  }

  lemma {:induction false} LookupLast(ms: seq<Member>, i: nat)
    requires i < |ms| && IsLast(ms, i)
    ensures Lookup(ms, ms[i].key) == Some(ms[i].value)
  {
    var n := |ms| - 1;
    if i < n {
      assert ms[n].key != ms[i].key;
      LookupLast(ms[..n], i);
    }
  }

  lemma {:induction false} LastOf(ms: seq<Member>, key: string) returns (i: nat)
    requires Lookup(ms, key).Some?
    ensures i < |ms| && IsLast(ms, i) && ms[i].key == key && Lookup(ms, key) == Some(ms[i].value)
  {
    i := |ms| - 1;
    if ms[i].key != key {
      var j := LastOf(ms[..i], key);
      assert IsLast(ms, j) by {
        forall l | j < l < |ms| ensures ms[l].key != ms[j].key { if l < i { assert ms[..i][l] == ms[l]; } }
      }
      i := j;
    }
  }

  lemma {:induction false} LookupFound(ms: seq<Member>, i: nat)
    requires i < |ms|
    ensures Lookup(ms, ms[i].key).Some?
  {
    if i < |ms| - 1 { LookupFound(ms[..|ms| - 1], i); }
  }

  lemma {:induction false} SameSelf(v: Value)
    ensures Same(v, v)
  {
    match v
    case Text(_) =>
    case Atom(_) =>
    case Array(items) => forall i | 0 <= i < |items| ensures Same(items[i], items[i]) { SameSelf(items[i]); }
    case Object(ms) => forall i | 0 <= i < |ms| ensures Same(ms[i].value, ms[i].value) { SameSelf(ms[i].value); }
  }

  lemma {:induction false} NormalItem(items: seq<Value>, i: nat)
    requires i < |items|
    ensures |NormalItems(items)| == |items| && NormalItems(items)[i] == Normal(items[i])
  {
    if |items| > 1 { NormalItem(items[1..], if i > 0 then i - 1 else 0); }
  }

  /** Going through a map leaves a value the same for its receiver. */
  lemma {:induction false} NormalSame(v: Value)
    ensures Same(v, Normal(v))
  {
    match v
    case Text(_) =>
    case Atom(_) =>
    case Array(items) =>
      if items != [] { NormalItem(items, 0); }
      forall i | 0 <= i < |items| ensures Same(items[i], NormalItems(items)[i]) {
        NormalItem(items, i);
        NormalSame(items[i]);
      }
    case Object(ms) =>
      forall i | 0 <= i < |ms| ensures Same(ms[i].value, Normal(ms[i].value)) { NormalSame(ms[i].value); }
      CollectedSame(ms);
  }

  lemma CollectedSame(ms: seq<Member>)
    requires forall i :: 0 <= i < |ms| ==> Same(ms[i].value, Normal(ms[i].value))
    ensures Same(Object(ms), Object(Collected(ms)))
  {
    var out := Collected(ms);
    forall i | 0 <= i < |ms| && IsLast(ms, i)
      ensures exists j :: 0 <= j < |out| && IsLast(out, j) && out[j].key == ms[i].key && Same(ms[i].value, out[j].value)
    {
      LookupLast(ms, i);
      CollectedLookup(ms, ms[i].key);
      var j := LastOf(out, ms[i].key);
    }
    forall j | 0 <= j < |out| ensures exists i :: 0 <= i < |ms| && ms[i].key == out[j].key {
      LookupFound(out, j);
      CollectedLookup(ms, out[j].key);
      var i := LastOf(ms, out[j].key);
    }
  }

  /** A printed map has its keys in ascending order, each once. */
  ghost predicate Ascending(ms: seq<Member>) {
    forall i, j :: 0 <= i < j < |ms| ==> Less(ms[i].key, ms[j].key)
  }

  lemma {:induction false} PutHas(ms: seq<Member>, key: string, v: Value, m: Member)
    ensures m in Put(ms, key, v) ==> m.key == key || m in ms
  {
    if ms != [] {
      PutHas(ms[..|ms| - 1], key, v, m);
      assert ms == ms[..|ms| - 1] + [ms[|ms| - 1]];
    }
  }

  lemma SnocAscending(ms: seq<Member>, m: Member)
    requires Ascending(ms) && forall x :: x in ms ==> Less(x.key, m.key)
    ensures Ascending(ms + [m])
  {
  }

  lemma {:induction false} PutAscending(ms: seq<Member>, key: string, v: Value)
    requires Ascending(ms)
    ensures Ascending(Put(ms, key, v))
  {
    if ms != [] {
      var n := |ms| - 1;
      var front, last := ms[..n], ms[n];
      forall x | x in front ensures Less(x.key, last.key) {
        var i :| 0 <= i < n && front[i] == x;
        assert ms[i] == x;
      }
      LessTotal(key, last.key);
      if last.key == key {
        SnocAscending(front, Member(key, v));
      } else if Less(key, last.key) {
        PutAscending(front, key, v);
        forall x | x in Put(front, key, v) ensures Less(x.key, last.key) { PutHas(front, key, v, x); }
        SnocAscending(Put(front, key, v), last);
      } else {
        forall x | x in ms ensures Less(x.key, key) {
          if x != last { assert x in front by { assert ms == front + [last]; } LessTransitive(x.key, last.key, key); }
        }
        SnocAscending(ms, Member(key, v));
      }
    }
  }

  lemma {:induction false} CollectedAscending(ms: seq<Member>)
    ensures Ascending(Collected(ms))
  {
    if ms != [] {
      var n := |ms| - 1;
      CollectedAscending(ms[..n]);
      PutAscending(Collected(ms[..n]), ms[n].key, Normal(ms[n].value));
    }
  }

  /** The object that marshalWithType prints. */
  function Stamped(f: Frame): Value {
    if MembersHave(Whole(f), f.verb) then Object(Whole(f))
    else Object(Put(Collected(Whole(f)), "type", Text(f.verb)))
  }

  lemma {:induction false} PutLookup(ms: seq<Member>, key: string, v: Value, k: string)
    ensures Lookup(Put(ms, key, v), k) == if k == key then Some(v) else Lookup(ms, k)
  {
    if ms != [] {
      var n := |ms| - 1;
      PutLookup(ms[..n], key, v, k);
      var out := Put(ms, key, v);
      assert ms[n].key == key ==> out[..n] == ms[..n];
      assert out[|out| - 1].key != key ==> out[..|out| - 1] == Put(ms[..n], key, v);
      assert ms[n].key != key && out[|out| - 1].key == key ==> out[..|out| - 1] == ms;
    }
  }

  function MapNormal(v: Option<Value>): Option<Value> {
    if v.None? then None else Some(Normal(v.value))
  }

  lemma {:induction false} CollectedLookup(ms: seq<Member>, k: string)
    ensures Lookup(Collected(ms), k) == MapNormal(Lookup(ms, k))
  {
    if ms != [] {
      var n := |ms| - 1;
      CollectedLookup(ms[..n], k);
      PutLookup(Collected(ms[..n]), ms[n].key, Normal(ms[n].value), k);
    }
  }

  lemma {:induction false} LookupFields(ms: seq<Member>, first: Member, k: string)
    requires forall i :: 0 <= i < |ms| ==> ms[i].key != first.key
    ensures Lookup([first] + ms, k) == if k == first.key then Some(first.value) else Lookup(ms, k)
  {
    if ms != [] {
      LookupFields(ms[..|ms| - 1], first, k);
      assert ([first] + ms)[..|ms|] == [first] + ms[..|ms| - 1];
    } else {
      assert ([first] + ms)[..0] == ms;
    }
  }

  function TypeOf(o: Value): Option<string> {
    match o
    case Object(ms) =>
      (match Lookup(ms, "type")
       case Some(Text(t)) => Some(t)
       case _ => None)
    case _ => None
  }

  /**
   The encoder sends the right type exactly when the type field was right already or no member nested
   in the other fields looks like it; when one does, the type field goes out as it was.
   */
  lemma {:induction false} StampedTypeIff(f: Frame)
    requires Fields(f.fields)
    ensures TypeOf(Stamped(f)) == Some(f.verb) <==> f.typeField == f.verb || !MembersHave(f.fields, f.verb)
    ensures MembersHave(f.fields, f.verb) ==> TypeOf(Stamped(f)) == Some(f.typeField)
  {
    var all := Whole(f);
    WholeHas(f);
    if MembersHave(all, f.verb) {
      LookupFields(f.fields, all[0], "type");
    } else {
      PutLookup(Collected(all), "type", Text(f.verb), "type");
    }
  }

  /** What the receiver reads for every other field is the same as what the frame has. */
  lemma {:induction false} StampedKeepsFields(f: Frame, k: string)
    requires Fields(f.fields) && k != "type"
    ensures Stamped(f).Object?
    ensures SameField(Lookup(f.fields, k), Lookup(Stamped(f).members, k))
  {
    LookupFields(f.fields, Whole(f)[0], k);
    PutLookup(Collected(Whole(f)), "type", Text(f.verb), k);
    CollectedLookup(Whole(f), k);
    if Lookup(f.fields, k).Some? {
      NormalSame(Lookup(f.fields, k).value);
      SameSelf(Lookup(f.fields, k).value);
    }
  }

  /** An object printed anew has its keys in ascending order, each once. */
  lemma StampedInOrder(f: Frame)
    ensures MembersHave(Whole(f), f.verb) || Ascending(Stamped(f).members)
  {
    CollectedAscending(Whole(f));
    PutAscending(Collected(Whole(f)), "type", Text(f.verb));
  }

  /**
   marshalWithType: what is printed is an object that has every field of the frame, the same for its
   receiver, and the verb as its type unless raw JSON in the fields looks like it.
   */
  method {:induction false} MarshalWithType(f: Frame) returns (raw: string)
    ensures raw == Print(Stamped(f))
    ensures Fields(f.fields) ==> exists ms ::
      && raw == Print(Object(ms))
      && (forall k :: k != "type" ==> SameField(Lookup(f.fields, k), Lookup(ms, k)))
      && (Lookup(ms, "type") == Some(Text(f.verb)) <==> f.typeField == f.verb || !MembersHave(f.fields, f.verb))
  {
    raw := Print(Object(Whole(f)));
    var found := BytesContains(raw, Needle(f.verb));
    SearchValue(Object(Whole(f)), f.verb);
    if !found {
      var asMap := Put(Collected(Whole(f)), "type", Text(f.verb));
      raw := Print(Object(asMap));
    }
    if Fields(f.fields) {
      StampedTypeIff(f);
      forall k | k != "type" ensures SameField(Lookup(f.fields, k), Lookup(Stamped(f).members, k)) { StampedKeepsFields(f, k); }
      assert raw == Print(Object(Stamped(f).members));
    }
  }

  /** No key in the value contains a quote or is "type", at any depth. */
  predicate Clean(v: Value) {
    match v
    case Text(_) => true
    case Atom(_) => true
    case Array(items) => CleanItems(items)
    case Object(ms) => CleanMembers(ms)
  }

  predicate CleanItems(items: seq<Value>) {
    items == [] || (Clean(items[0]) && CleanItems(items[1..]))
  }

  predicate CleanMembers(ms: seq<Member>) {
    ms == [] ||
    ('"' !in ms[0].key && ms[0].key != "type" && Clean(ms[0].value) && CleanMembers(ms[1..]))
  }

  lemma {:induction false} CleanHasNone(v: Value, verb: string)
    requires Clean(v)
    ensures !Has(v, verb)
  {
    match v
    case Text(_) =>
    case Atom(_) =>
    case Array(items) => CleanItemsHaveNone(items, verb);
    case Object(ms) => CleanMembersHaveNone(ms, verb);
  }

  lemma {:induction false} CleanItemsHaveNone(items: seq<Value>, verb: string)
    requires CleanItems(items)
    ensures !ItemsHave(items, verb)
  {
    if items != [] {
      CleanHasNone(items[0], verb);
      CleanItemsHaveNone(items[1..], verb);
    }
  }

  lemma {:induction false} CleanMembersHaveNone(ms: seq<Member>, verb: string)
    requires CleanMembers(ms)
    ensures !MembersHave(ms, verb)
  {
    if ms != [] {
      KeyHitIff(ms[0].key);
      CleanHasNone(ms[0].value, verb);
      CleanMembersHaveNone(ms[1..], verb);
    }
  }

  /**
   For a frame without raw JSON the search is exact, whatever text its fields hold: the needle occurs
   in the printed frame if and only if the type field is the verb.
   */
  lemma {:induction false} SearchExact(f: Frame)
    requires CleanMembers(f.fields)
    ensures Occurs(Print(Object(Whole(f))), Needle(f.verb)) <==> f.typeField == f.verb
  {
    SearchValue(Object(Whole(f)), f.verb);
    CleanMembersHaveNone(f.fields, f.verb);
    WholeHas(f);
  }

  /** A reply that shows a subscription with this match rule, made without its type. */
  function ReplyShowing(verb: Verb, rule: Value): Frame {
    Frame(verb, "", [Member("subscription", Object([Member("match", rule)]))])
  }

  lemma RuleWithType(verb: Verb)
    ensures Has(Object([Member("type", Text(verb))]), verb)
  {
    KeyHitIff("type");
  }

  lemma ReplyFields(verb: Verb, rule: Value)
    ensures Fields(ReplyShowing(verb, rule).fields)
  {
  }

  lemma RuleInside(verb: Verb, rule: Value)
    requires Has(rule, verb)
    ensures MembersHave(ReplyShowing(verb, rule).fields, verb)
  {
    assert Has(Object([Member("match", rule)]), verb);
  }

  /** When the rule has a type of its own that is the verb, the reply goes out without a type. */
  lemma RawJsonHidesType(verb: Verb)
    ensures var f := ReplyShowing(verb, Object([Member("type", Text(verb))]));
      Fields(f.fields) && TypeOf(Stamped(f)) == Some("")
  {
    var rule := Object([Member("type", Text(verb))]);
    RuleWithType(verb);
    RuleInside(verb, rule);
    ReplyFields(verb, rule);
    StampedTypeIff(ReplyShowing(verb, rule));
  }

  // The line

  const MAX_FRAME_SIZE := 64 * 1024

  function Width(c: char): nat {
    if c < '\U{80}' then 1 else if c < '\U{800}' then 2 else if c < '\U{10000}' then 3 else 4
  }

  /** Length in bytes, as UTF-8. */
  function Size(s: string): nat {
    if s == [] then 0 else Width(s[0]) + Size(s[1..])
  }

  function Encoded(f: Frame): Option<string> {
    var line := Print(Stamped(f));
    if Size(line) > MAX_FRAME_SIZE then None else Some(line + "\n")
  }

  /** What the scanner makes of the stream: the first line and what comes after it. */
  function ReadLine(stream: string): Option<(string, string)> {
    if stream == [] then None
    else if stream[0] == '\n' then Some(("", stream[1..]))
    else
      match ReadLine(stream[1..])
      case None => None
      case Some((line, rest)) => Some(([stream[0]] + line, rest))
  }

  datatype Decoding = TooLarge | NotAFrame | UnknownType | Decoded(verb: Verb, members: seq<Member>)

  /**
   Decode of one line. The scanner's buffer has to hold the line and its newline; an object without a
   type has the type "".
   */
  ghost function Decode(line: string): Decoding {
    if Size(line) >= MAX_FRAME_SIZE then TooLarge
    else if o: Value :| Print(o) == line then
      if !o.Object? then NotAFrame
      else
        match FrameForType(if TypeOf(o).Some? then TypeOf(o).value else "")
        case None => UnknownType
        case Some(verb) => Decoded(verb, o.members)
    else NotAFrame
  }

  lemma {:induction false} ReadsOneLine(line: string, rest: string)
    requires '\n' !in line
    ensures ReadLine(line + "\n" + rest) == Some((line, rest))
  {
    var stream := line + "\n" + rest;
    if line == [] {
      assert stream[0] == '\n' && stream[1..] == rest;
    } else {
      assert stream[0] == line[0] && line[0] in line;
      assert stream[1..] == line[1..] + "\n" + rest;
      assert forall c :: c in line[1..] ==> c in line;
      ReadsOneLine(line[1..], rest);
      assert line == [line[0]] + line[1..];
    }
  }

  /** An encoded frame is one line of the stream it is written to, and the next frame follows it. */
  lemma {:induction false} EncodedIsOneLine(f: Frame, rest: string)
    requires Encoded(f).Some?
    ensures ReadLine(Encoded(f).value + rest) == Some((Print(Stamped(f)), rest))
  {
    NoControls(ValueTokens(Stamped(f), End));
    ReadsOneLine(Print(Stamped(f)), rest);
  }

  /** An object's line decodes to that object. */
  lemma {:induction false} DecodesPrinted(o: Value)
    requires o.Object? && Size(Print(o)) < MAX_FRAME_SIZE
    ensures var t := FrameForType(if TypeOf(o).Some? then TypeOf(o).value else "");
      Decode(Print(o)) == if t.None? then UnknownType else Decoded(t.value, o.members)
  {
    forall v: Value | Print(v) == Print(o) ensures v == o { PrintInjective(v, o); }
  }

  /**
   The other end takes an encoded frame for the frame it is, with the members that were printed, if and
   only if its line is shorter than MaxFrameSize and its type was right; the encoder also lets a line of
   exactly MaxFrameSize through, which the decoder refuses.
   */
  lemma {:induction false} DecodesAsEncodedIff(f: Frame)
    requires IsVerb(f.verb) && Fields(f.fields)
    ensures var line := Print(Stamped(f));
      Decode(line) == Decoded(f.verb, Stamped(f).members) <==>
        Size(line) < MAX_FRAME_SIZE && (f.typeField == f.verb || !MembersHave(f.fields, f.verb))
  {
    StampedTypeIff(f);
    if Size(Print(Stamped(f))) < MAX_FRAME_SIZE { DecodesPrinted(Stamped(f)); }
  }

  /** For frames without raw JSON the size is all that matters. */
  lemma {:induction false} CleanFramesDecode(f: Frame)
    requires IsVerb(f.verb) && Fields(f.fields) && CleanMembers(f.fields)
    ensures var line := Print(Stamped(f));
      Decode(line) == Decoded(f.verb, Stamped(f).members) <==> Size(line) < MAX_FRAME_SIZE
  {
    CleanMembersHaveNone(f.fields, f.verb);
    DecodesAsEncodedIff(f);
  }

  /**
   Encode and EncodeBytes; None is ErrFrameTooLarge. What is written is one line of at most
   MaxFrameSize bytes. A frame without raw JSON decodes from a shorter one to its own verb, with every
   field the same.
   */
  method {:induction false} Encode(f: Frame) returns (bytes: Option<string>)
    ensures bytes.None? <==> Size(Print(Stamped(f))) > MAX_FRAME_SIZE
    ensures bytes.Some? ==>
      && |bytes.value| > 0 && bytes.value[|bytes.value| - 1] == '\n'
      && var line := bytes.value[..|bytes.value| - 1];
         && '\n' !in line && Size(line) <= MAX_FRAME_SIZE
         && (IsVerb(f.verb) && Fields(f.fields) && CleanMembers(f.fields) && Size(line) < MAX_FRAME_SIZE ==>
               && Decode(line).Decoded? && Decode(line).verb == f.verb
               && Lookup(Decode(line).members, "type") == Some(Text(f.verb))
               && forall k :: k != "type" ==> SameField(Lookup(f.fields, k), Lookup(Decode(line).members, k)))
  {
    var stamped := MarshalWithType(f);
    if Size(stamped) > MAX_FRAME_SIZE {
      return None;
    }
    NoControls(ValueTokens(Stamped(f), End));
    if IsVerb(f.verb) && Fields(f.fields) && CleanMembers(f.fields) {
      CleanFramesDecode(f);
      CleanMembersHaveNone(f.fields, f.verb);
      StampedTypeIff(f);
      forall k | k != "type" ensures SameField(Lookup(f.fields, k), Lookup(Stamped(f).members, k)) { StampedKeepsFields(f, k); }
    }
    bytes := Some(stamped + "\n");
    assert bytes.value[..|bytes.value| - 1] == stamped;
  }

  // A line of exactly MaxFrameSize bytes

  lemma {:induction false} AsciiSize(s: string)
    requires forall c :: c in s ==> c < '\U{80}'
    ensures Size(s) == |s|
  {
    if s != [] {
      assert s[0] in s;
      forall c | c in s[1..] ensures c < '\U{80}' { assert c in s; }
      AsciiSize(s[1..]);
    }
  }

  lemma {:induction false} SizeConcat(a: string, b: string)
    ensures Size(a + b) == Size(a) + Size(b)
  {
    if a == [] {
      assert a + b == b;
    } else {
      SizeConcat(a[1..], b);
      assert (a + b)[1..] == a[1..] + b;
    }
  }

  /** A ping whose token is k letters long. */
  function PaddedPing(k: nat): Frame {
    Frame("ping", "ping", [Member("token", Text(seq(k, _ => 'a')))])
  }

  lemma PaddedFields(k: nat)
    ensures Fields(PaddedPing(k).fields) && CleanMembers(PaddedPing(k).fields)
  {
    var ms := PaddedPing(k).fields;
    assert ms[1..] == [] && CleanMembers(ms[1..]);
  }

  lemma TokenSize(t: Token, ts: Tokens)
    ensures Size(TextOf(Then(t, ts))) == Size(TokenText(t)) + Size(TextOf(ts))
    ensures t.Punct? ==> Size(TokenText(t)) == 1
  {
    SizeConcat(TokenText(t), TextOf(ts));
    if t.Punct? { AsciiSize([t.c]); }
  }

  lemma WordSize(w: string)
    requires forall c :: c in w ==> 'a' <= c <= 'z' || c == '_'
    ensures Size(TokenText(Str(w))) == |w| + 2
  {
    PlainPrints(w);
    AsciiSize(Quote(w));
  }

  /** A member whose value is a word, and what follows it. */
  lemma MemberSize(key: string, w: string, ts: Tokens)
    requires forall c :: c in key || c in w ==> 'a' <= c <= 'z' || c == '_'
    ensures Size(TextOf(Then(Str(key), Then(Punct(':'), ValueTokens(Text(w), ts)))))
      == |key| + |w| + 5 + Size(TextOf(ts))
  {
    TokenSize(Str(w), ts);
    TokenSize(Punct(':'), Then(Str(w), ts));
    TokenSize(Str(key), Then(Punct(':'), Then(Str(w), ts)));
    WordSize(key);
    WordSize(w);
  }

  lemma TwoMembers(a: Member, b: Member, rest: Tokens)
    ensures MemberTokens([a, b], rest) ==
      Then(Str(a.key), Then(Punct(':'), ValueTokens(a.value, Then(Punct(','),
        Then(Str(b.key), Then(Punct(':'), ValueTokens(b.value, rest)))))))
  {
    assert [a, b][1..] == [b];
  }

  /** The size of an object of two members that are words. */
  lemma TwoWordsSize(k: string, v: string, l: string, w: string)
    requires forall c :: c in k || c in v || c in l || c in w ==> 'a' <= c <= 'z' || c == '_'
    ensures Size(Print(Object([Member(k, Text(v)), Member(l, Text(w))]))) == |k| + |v| + |l| + |w| + 13
  {
    var a, b := Member(k, Text(v)), Member(l, Text(w));
    var end := Then(Punct('}'), End);
    TwoMembers(a, b, end);
    TokenSize(Punct('}'), End);
    MemberSize(l, w, end);
    var second := Then(Str(l), Then(Punct(':'), ValueTokens(Text(w), end)));
    TokenSize(Punct(','), second);
    MemberSize(k, v, Then(Punct(','), second));
    TokenSize(Punct('{'), MemberTokens([a, b], end));
  }

  lemma PaddedSize(k: nat)
    ensures Size(Print(Stamped(PaddedPing(k)))) == k + 26
  {
    var f, pad := PaddedPing(k), seq(k, _ => 'a');
    WholeHas(f);
    TwoWordsSize("type", "ping", "token", pad);
    assert Whole(f) == [Member("type", Text("ping")), Member("token", Text(pad))];
  }

  /** A frame without raw JSON that the encoder lets through and the decoder refuses. */
  lemma LargestFrameRefused()
    ensures var f := PaddedPing(65_536 - 26);
      && Size(Print(Stamped(f))) == 65_536 && IsVerb(f.verb) && Fields(f.fields) && CleanMembers(f.fields)
      && Encoded(f).Some? && Decode(Print(Stamped(f))) == TooLarge
  {
    PaddedFields(MAX_FRAME_SIZE - 26);
    PaddedSize(MAX_FRAME_SIZE - 26);
  }
}
