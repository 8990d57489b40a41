/**
 Go's JSON printer as far as the frame encoder depends on it: values as trees, their tokens, their
 text. Strings are sequences of code points, escaped as encoding/json escapes them (section 7 of
 RFC 8259, and < > & and the two line separators besides).
 */
module Json {
  import opened Base

  predicate LitChar(c: char) {
    '0' <= c <= '9' || 'a' <= c <= 'z' || c == 'E' || c == '+' || c == '-' || c == '.'
  }

  /** A number, true, false or null. */
  type Literal = t: string | t != "" && forall c :: c in t ==> LitChar(c) witness "null"

  datatype Value =
    | Text(s: string)
    | Atom(t: Literal)
    | Array(items: seq<Value>)
    | Object(members: seq<Member>)

  datatype Member = Member(key: string, value: Value)

  predicate IsPunct(c: char) { c in "{}[],:" }

  type PunctChar = c: char | IsPunct(c) witness ','

  datatype Token = Punct(c: PunctChar) | Str(s: string) | Lit(t: Literal)

  datatype Tokens = End | Then(head: Token, tail: Tokens)

  // Strings

  function HexDigit(n: nat): (c: char)
    requires n < 16
    ensures c >= '0'
  {
    if n < 10 then '0' + n as char else 'a' + (n - 10) as char
  }

  /** Characters that are not printed as they are. */
  predicate Special(c: char) {
    c < ' ' || c in "\"\\<>&\U{2028}\U{2029}"
  }

  /** The letter of a two-character escape, if there is one. */
  function ShortEscape(c: char): Option<char> {
    if c == '"' || c == '\\' then Some(c)
    else if c == '\U{8}' then Some('b')
    else if c == '\t' then Some('t')
    else if c == '\n' then Some('n')
    else if c == '\U{C}' then Some('f')
    else if c == '\r' then Some('r')
    else None
  }

  function Hex2(n: nat): string
    requires n < 0x100
  {
    [HexDigit(n / 16), HexDigit(n % 16)]
  }

  function Hex4(n: nat): string
    requires n < 0x10000
  {
    Hex2(n / 0x100) + Hex2(n % 0x100)
  }

  function EscapeChar(c: char): string {
    if !Special(c) then [c]
    else if ShortEscape(c).Some? then ['\\', ShortEscape(c).value]
    else ['\\', 'u'] + Hex4(c as nat)
  }

  function Escape(s: string): string {
    if s == [] then [] else EscapeChar(s[0]) + Escape(s[1..])
  }

  function Quote(s: string): string {
    "\"" + Escape(s) + "\""
  }

  lemma EscapeCharShape(c: char)
    ensures var e := EscapeChar(c);
      (e == [c] || (|e| > 1 && e[0] == '\\')) && Inner(e)
  {
  }

  /** Every quote follows a backslash, and there is no control character. */
  ghost predicate Inner(e: string) {
    && (forall i :: 0 <= i < |e| && e[i] == '"' ==> i > 0 && e[i - 1] == '\\')
    && (forall i :: 0 <= i < |e| ==> e[i] >= ' ')
  }

  lemma InnerConcat(a: string, b: string)
    requires Inner(a) && Inner(b)
    ensures Inner(a + b)
  {
  }

  lemma {:induction false} EscapedQuotes(s: string)
    ensures Inner(Escape(s))
  {
    if s != [] {
      EscapeCharShape(s[0]);
      EscapedQuotes(s[1..]);
      InnerConcat(EscapeChar(s[0]), Escape(s[1..]));
    }
  }

  lemma EscapeHead(s: string)
    requires s != []
    ensures if Special(s[0]) then Escape(s) != [] && Escape(s)[0] == '\\'
            else Escape(s) == [s[0]] + Escape(s[1..])
  {
    EscapeCharShape(s[0]);
  }

  /** Text whose printed form has no backslash is printed as it is. */
  lemma {:induction false} PlainEscape(s: string)
    ensures '\\' !in Escape(s) ==> Escape(s) == s
  {
    if s != [] {
      EscapeHead(s);
      PlainEscape(s[1..]);
    }
  }

  lemma Hex2Injective(m: nat, n: nat)
    requires m < 0x100 && n < 0x100 && Hex2(m) == Hex2(n)
    ensures m == n
  {
    assert Hex2(m)[0] == Hex2(n)[0] && Hex2(m)[1] == Hex2(n)[1];
  }

  lemma Hex4Injective(m: nat, n: nat)
    requires m < 0x10000 && n < 0x10000 && Hex4(m) == Hex4(n)
    ensures m == n
  {
    assert Hex2(m / 0x100) == Hex4(m)[..2] == Hex4(n)[..2] == Hex2(n / 0x100);
    assert Hex2(m % 0x100) == Hex4(m)[2..] == Hex4(n)[2..] == Hex2(n % 0x100);
    Hex2Injective(m / 0x100, n / 0x100);
    Hex2Injective(m % 0x100, n % 0x100);
  }

  /** The escapes of single characters are a prefix code. */
  lemma EscapeCharPrefixFree(c: char, x: string, d: char, y: string)
    requires EscapeChar(c) + x == EscapeChar(d) + y
    ensures c == d && x == y
  {
    var e, f := EscapeChar(c), EscapeChar(d);
    var all := e + x;
    EscapeCharShape(c);
    EscapeCharShape(d);
    assert e[0] == all[0] == f[0];
    if |e| > 1 {
      assert e[1] == all[1] == f[1];
    }
    assert |e| == |f|;
    assert e == all[..|e|] == f;
    assert x == all[|e|..] && y == (f + y)[|f|..];
    if |e| == 6 {
      assert Hex4(c as nat) == e[2..] == f[2..] == Hex4(d as nat);
      Hex4Injective(c as nat, d as nat);
    }
  }

  lemma EscapeFirst(s: string)
    requires s != []
    ensures Escape(s) != [] && Escape(s)[0] != '"'
  {
    EscapeCharShape(s[0]);
    assert Escape(s)[0] == EscapeChar(s[0])[0];
  }

  lemma Regroup(a: string, b: string, c: string, x: string)
    ensures (a + b) + c + x == a + (b + c + x)
  {
  }

  lemma EscapeStep(s: string, x: string)
    requires s != []
    ensures Escape(s) + "\"" + x == EscapeChar(s[0]) + (Escape(s[1..]) + "\"" + x)
  {
    Regroup(EscapeChar(s[0]), Escape(s[1..]), "\"", x);
  }

  lemma EscapeNotEnded(s: string, x: string)
    requires s != []
    ensures (Escape(s) + "\"" + x)[0] != '"'
  {
    EscapeFirst(s);
  }

  /** A printed string ends where it ends, whatever follows. */
  lemma {:induction false} EscapePrefixFree(s: string, x: string, t: string, y: string)
    requires Escape(s) + "\"" + x == Escape(t) + "\"" + y
    ensures s == t && x == y
  {
    if s != [] {
      EscapeStep(s, x);
      EscapeNotEnded(s, x);
    }
    if t != [] {
      EscapeStep(t, y);
      EscapeNotEnded(t, y);
    }
    if s == [] {
      assert (Escape(s) + "\"" + x)[0] == '"';
      assert x == (Escape(s) + "\"" + x)[1..] && y == (Escape(t) + "\"" + y)[1..];
    } else {
      assert t != [] by { assert ([] + "\"" + y)[0] == '"'; }
      EscapeCharPrefixFree(s[0], Escape(s[1..]) + "\"" + x, t[0], Escape(t[1..]) + "\"" + y);
      EscapePrefixFree(s[1..], x, t[1..], y);
      assert s == [s[0]] + s[1..] && t == [t[0]] + t[1..];
    }
  }

  lemma QuotePrefixFree(s: string, x: string, t: string, y: string)
    requires Quote(s) + x == Quote(t) + y
    ensures s == t && x == y
  {
    assert Escape(s) + "\"" + x == (Quote(s) + x)[1..];
    assert Escape(t) + "\"" + y == (Quote(t) + y)[1..];
    EscapePrefixFree(s, x, t, y);
  }

  // Reading a printed string back, as section 7 of RFC 8259 says

  function HexValue(c: char): Option<nat> {
    if '0' <= c <= '9' then Some((c - '0') as nat)
    else if 'a' <= c <= 'f' then Some((c - 'a') as nat + 10)
    else if 'A' <= c <= 'F' then Some((c - 'A') as nat + 10)
    else None
  }

  /** Four hexadecimal digits as a code point outside the surrogates. */
  function CodePoint(h: string): Option<char>
    requires |h| == 4
  {
    if HexValue(h[0]).None? || HexValue(h[1]).None? || HexValue(h[2]).None? || HexValue(h[3]).None? then None
    else
      var n := HexValue(h[0]).value * 4096 + HexValue(h[1]).value * 256 + HexValue(h[2]).value * 16 + HexValue(h[3]).value;
      if n < 0xD800 then Some(n as char) else None
  }

  function Prepend(c: char, rest: Option<string>): Option<string> {
    if rest.None? then None else Some([c] + rest.value)
  }

  /** What stands between the quotes; None if it is no JSON string. */
  function Unescape(s: string): Option<string> {
    if s == [] then Some([])
    else if s[0] == '"' || s[0] < ' ' then None
    else if s[0] != '\\' then Prepend(s[0], Unescape(s[1..]))
    else if |s| < 2 then None
    else if s[1] == '"' || s[1] == '\\' || s[1] == '/' then Prepend(s[1], Unescape(s[2..]))
    else if s[1] == 'b' then Prepend(8 as char, Unescape(s[2..]))
    else if s[1] == 'f' then Prepend(12 as char, Unescape(s[2..]))
    else if s[1] == 'n' then Prepend(10 as char, Unescape(s[2..]))
    else if s[1] == 'r' then Prepend(13 as char, Unescape(s[2..]))
    else if s[1] == 't' then Prepend(9 as char, Unescape(s[2..]))
    else if s[1] == 'u' && |s| >= 6 && CodePoint(s[2..6]).Some? then Prepend(CodePoint(s[2..6]).value, Unescape(s[6..]))
    else None
  }

  lemma HexReads(n: nat)
    requires n < 16
    ensures HexValue(HexDigit(n)) == Some(n)
  {
  }

  lemma Hex4Reads(c: char)
    requires Special(c)
    ensures CodePoint(Hex4(c as nat)) == Some(c)
  {
    var n := c as nat;
    HexReads(n / 0x100 / 16);
    HexReads(n / 0x100 % 16);
    HexReads(n % 0x100 / 16);
    HexReads(n % 0x100 % 16);
    assert n == n / 0x100 / 16 * 4096 + n / 0x100 % 16 * 256 + n % 0x100 / 16 * 16 + n % 0x100 % 16;
  }

  lemma ShortReads(c: char, e: char, rest: string)
    requires ShortEscape(c) == Some(e)
    ensures Unescape(['\\', e] + rest) == Prepend(c, Unescape(rest))
  {
    assert (['\\', e] + rest)[2..] == rest;
  }

  lemma LongReads(c: char, rest: string)
    requires Special(c)
    ensures Unescape(['\\', 'u'] + Hex4(c as nat) + rest) == Prepend(c, Unescape(rest))
  {
    var s := ['\\', 'u'] + Hex4(c as nat) + rest;
    assert s[2..6] == Hex4(c as nat) && s[6..] == rest;
    Hex4Reads(c);
  }

  lemma CharReads(c: char, rest: string)
    ensures Unescape(EscapeChar(c) + rest) == Prepend(c, Unescape(rest))
  {
    if !Special(c) {
      assert ([c] + rest)[1..] == rest;
    } else if ShortEscape(c).Some? {
      ShortReads(c, ShortEscape(c).value, rest);
    } else {
      LongReads(c, rest);
    }
  }

  /** Every printed string reads back as what it was. */
  lemma {:induction false} StringReadsBack(s: string)
    ensures Unescape(Escape(s)) == Some(s)
  {
    if s != [] {
      StringReadsBack(s[1..]);
      CharReads(s[0], Escape(s[1..]));
      assert s == [s[0]] + s[1..];
    }
  }

  // Tokens

  /** The tokens of v with those of whatever follows it. */
  function ValueTokens(v: Value, rest: Tokens): (ts: Tokens)
    ensures ts.Then?
  {
    match v
    case Text(s) => Then(Str(s), rest)
    case Atom(t) => Then(Lit(t), rest)
    case Array(items) => Then(Punct('['), ItemTokens(items, Then(Punct(']'), rest)))
    case Object(ms) => Then(Punct('{'), MemberTokens(ms, Then(Punct('}'), rest)))
  }

  function ItemTokens(items: seq<Value>, rest: Tokens): Tokens {
    if items == [] then rest
    else ValueTokens(items[0], if |items| == 1 then rest else Then(Punct(','), ItemTokens(items[1..], rest)))
  }

  function MemberTokens(ms: seq<Member>, rest: Tokens): Tokens {
    if ms == [] then rest
    else
      var tail := if |ms| == 1 then rest else Then(Punct(','), MemberTokens(ms[1..], rest));
      Then(Str(ms[0].key), Then(Punct(':'), ValueTokens(ms[0].value, tail)))
  }

  function TokenText(t: Token): (s: string)
    ensures s != []
  {
    match t
    case Punct(c) => [c]
    case Str(s) => Quote(s)
    case Lit(l) => l
  }

  function TextOf(ts: Tokens): string {
    match ts
    case End => []
    case Then(t, rest) => TokenText(t) + TextOf(rest)
  }

  /** What json.Marshal prints. */
  function Print(v: Value): string {
    TextOf(ValueTokens(v, End))
  }

  predicate Closes(ts: Tokens) {
    ts.End? || (ts.head.Punct? && ts.head.c != ':')
  }

  /** Strings and literals are set apart by punctuation. */
  predicate Separated(ts: Tokens) {
    ts.Then? ==> (ts.head.Punct? || ts.tail.End? || ts.tail.head.Punct?) && Separated(ts.tail)
  }

  lemma {:induction false} ValueSeparated(v: Value, rest: Tokens)
    requires Separated(rest) && Closes(rest)
    ensures Separated(ValueTokens(v, rest))
  {
    match v
    case Text(_) =>
    case Atom(_) =>
    case Array(items) => ItemsSeparated(items, Then(Punct(']'), rest));
    case Object(ms) => MembersSeparated(ms, Then(Punct('}'), rest));
  }

  lemma {:induction false} ItemsSeparated(items: seq<Value>, rest: Tokens)
    requires Separated(rest) && Closes(rest)
    ensures Separated(ItemTokens(items, rest))
  {
    if |items| == 1 {
      ValueSeparated(items[0], rest);
    } else if |items| > 1 {
      ItemsSeparated(items[1..], rest);
      ValueSeparated(items[0], Then(Punct(','), ItemTokens(items[1..], rest)));
    }
  }

  lemma {:induction false} MembersSeparated(ms: seq<Member>, rest: Tokens)
    requires Separated(rest) && Closes(rest)
    ensures Separated(MemberTokens(ms, rest))
  {
    if |ms| == 1 {
      ValueSeparated(ms[0].value, rest);
    } else if |ms| > 1 {
      MembersSeparated(ms[1..], rest);
      ValueSeparated(ms[0].value, Then(Punct(','), MemberTokens(ms[1..], rest)));
    }
  }

  // Printing is injective

  /** What follows a string or literal is nothing, or starts with punctuation. */
  lemma AfterWord(ts: Tokens)
    requires Separated(ts) && ts.Then? && !ts.head.Punct?
    ensures TextOf(ts.tail) == [] || IsPunct(TextOf(ts.tail)[0])
  {
  }

  lemma RunCutShort(a: string, x: string, b: string, y: string)
    requires a + x == b + y && |a| < |b|
    requires x == [] || IsPunct(x[0])
    ensures exists c :: c in b && !LitChar(c)
  {
    assert b[|a|] == (b + y)[|a|] == (a + x)[|a|] == x[0];
    assert b[|a|] in b;
  }

  lemma LiteralRun(a: string, x: string, b: string, y: string)
    requires a + x == b + y
    requires forall c :: c in a || c in b ==> LitChar(c)
    requires x == [] || IsPunct(x[0])
    requires y == [] || IsPunct(y[0])
    ensures a == b && x == y
  {
    if |a| < |b| {
      RunCutShort(a, x, b, y);
    } else if |b| < |a| {
      RunCutShort(b, y, a, x);
    }
    assert a == (a + x)[..|a|] && b == (b + y)[..|b|] && x == (a + x)[|a|..] && y == (b + y)[|b|..];
  }

  /** The first character of a token tells what kind it is. */
  lemma FirstChar(t: Token)
    ensures var c := TokenText(t)[0];
      (t.Str? <==> c == '"') && (t.Lit? <==> LitChar(c)) && (t.Punct? <==> IsPunct(c))
  {
    if t.Lit? { assert t.t[0] in t.t; }
  }

  lemma FirstToken(s: Tokens, t: Tokens)
    requires Separated(s) && Separated(t) && s.Then? && t.Then? && TextOf(s) == TextOf(t)
    ensures s.head == t.head && TextOf(s.tail) == TextOf(t.tail)
  {
    var x, y := TextOf(s.tail), TextOf(t.tail);
    FirstChar(s.head);
    FirstChar(t.head);
    assert TextOf(s)[0] == TokenText(s.head)[0] && TextOf(t)[0] == TokenText(t.head)[0];
    match s.head
    case Str(a) => QuotePrefixFree(a, x, t.head.s, y);
    case Lit(a) =>
      AfterWord(s);
      AfterWord(t);
      LiteralRun(a, x, t.head.t, y);
    case Punct(_) => assert x == TextOf(s)[1..] && y == TextOf(t)[1..];
  }

  /** Text can be cut into separated tokens in one way only. */
  lemma {:induction false} TokensUnique(s: Tokens, t: Tokens)
    requires Separated(s) && Separated(t) && TextOf(s) == TextOf(t)
    ensures s == t
  {
    if s.Then? && t.Then? {
      FirstToken(s, t);
      TokensUnique(s.tail, t.tail);
    }
  }

  lemma {:induction false} ValueUnique(v: Value, x: Tokens, w: Value, y: Tokens)
    requires ValueTokens(v, x) == ValueTokens(w, y)
    ensures v == w && x == y
  {
    match v
    case Text(_) =>
    case Atom(_) =>
    case Array(items) => ItemsUnique(items, x, w.items, y);
    case Object(ms) => MembersUnique(ms, x, w.members, y);
  }

  /** No value starts with a closing bracket. */
  lemma ValueStart(v: Value, rest: Tokens)
    ensures var t := ValueTokens(v, rest).head; t.Punct? ==> t.c == '{' || t.c == '['
  {
  }

  lemma {:induction false} ItemsUnique(s: seq<Value>, x: Tokens, t: seq<Value>, y: Tokens)
    requires ItemTokens(s, Then(Punct(']'), x)) == ItemTokens(t, Then(Punct(']'), y))
    ensures s == t && x == y
  {
    var u, w := Then(Punct(']'), x), Then(Punct(']'), y);
    var m := if |s| <= 1 then u else Then(Punct(','), ItemTokens(s[1..], u));
    var n := if |t| <= 1 then w else Then(Punct(','), ItemTokens(t[1..], w));
    if s != [] { ValueStart(s[0], m); }
    if t != [] { ValueStart(t[0], n); }
    if s != [] && t != [] {
      ValueUnique(s[0], m, t[0], n);
      if |s| > 1 { ItemsUnique(s[1..], x, t[1..], y); }
      assert s == [s[0]] + s[1..] && t == [t[0]] + t[1..];
    }
  }

  lemma {:induction false} MembersUnique(s: seq<Member>, x: Tokens, t: seq<Member>, y: Tokens)
    requires MemberTokens(s, Then(Punct('}'), x)) == MemberTokens(t, Then(Punct('}'), y))
    ensures s == t && x == y
  {
    var u, w := Then(Punct('}'), x), Then(Punct('}'), y);
    if s != [] && t != [] {
      var m := if |s| == 1 then u else Then(Punct(','), MemberTokens(s[1..], u));
      var n := if |t| == 1 then w else Then(Punct(','), MemberTokens(t[1..], w));
      ValueUnique(s[0].value, m, t[0].value, n);
      if |s| > 1 { MembersUnique(s[1..], x, t[1..], y); }
      assert s == [s[0]] + s[1..] && t == [t[0]] + t[1..];
    }
  }

  /** No two values print alike, so a line has one meaning. */
  lemma PrintInjective(v: Value, w: Value)
    requires Print(v) == Print(w)
    ensures v == w
  {
    ValueSeparated(v, End);
    ValueSeparated(w, End);
    TokensUnique(ValueTokens(v, End), ValueTokens(w, End));
    ValueUnique(v, End, w, End);
  }

  /** A printed value is one line. */
  lemma {:induction false} NoControls(ts: Tokens)
    ensures forall c :: c in TextOf(ts) ==> c >= ' '
  {
    if ts.Then? {
      NoControls(ts.tail);
      if ts.head.Str? {
        EscapedQuotes(ts.head.s);
        assert forall c :: c in Escape(ts.head.s) ==> c >= ' ';
      }
      assert forall c :: c in TokenText(ts.head) ==> c >= ' ';
    }
  }

  lemma ThenText(t: Token, ts: Tokens)
    ensures TextOf(Then(t, ts)) == TokenText(t) + TextOf(ts)
  {
  }

  /** The punctuation: an object of a string and an array of two literals, as it is printed. */
  lemma PrintsPunctuation(k: string, s: string, l: string, a: Literal, b: Literal)
    ensures Print(Object([Member(k, Text(s)), Member(l, Array([Atom(a), Atom(b)]))]))
      == "{" + (Quote(k) + (":" + (Quote(s) + ("," + (Quote(l) + (":" + ("[" + (a + ("," + (b + ("]" + "}")))))))))))
  {
    var tail := Then(Punct(']'), Then(Punct('}'), End));
    ArrayTokens(a, b, tail);
    var t4 := Then(Punct('['), Then(Lit(a), Then(Punct(','), Then(Lit(b), tail))));
    var t3 := Then(Str(l), Then(Punct(':'), t4));
    ObjectTokens(k, s, l, Array([Atom(a), Atom(b)]));
    ArrayText(a, b);
    ThenText(Punct(':'), t4);
    ThenText(Str(l), Then(Punct(':'), t4));
    ThenText(Punct(','), t3);
    ThenText(Str(s), Then(Punct(','), t3));
    ThenText(Punct(':'), Then(Str(s), Then(Punct(','), t3)));
    ThenText(Str(k), Then(Punct(':'), Then(Str(s), Then(Punct(','), t3))));
  }

  lemma ArrayTokens(a: Literal, b: Literal, tail: Tokens)
    requires tail.Then?
    ensures ItemTokens([Atom(a), Atom(b)], tail) == Then(Lit(a), Then(Punct(','), Then(Lit(b), tail)))
  {
    assert [Atom(a), Atom(b)][1..] == [Atom(b)];
    assert ItemTokens([Atom(b)], tail) == ValueTokens(Atom(b), tail);
    assert ItemTokens([Atom(a), Atom(b)], tail) == ValueTokens(Atom(a), Then(Punct(','), ItemTokens([Atom(b)], tail)));
  }

  lemma ObjectTokens(k: string, s: string, l: string, v: Value)
    ensures ValueTokens(Object([Member(k, Text(s)), Member(l, v)]), End)
      == Then(Punct('{'), Then(Str(k), Then(Punct(':'), Then(Str(s), Then(Punct(','),
           Then(Str(l), Then(Punct(':'), ValueTokens(v, Then(Punct('}'), End)))))))))
  {
    var ms := [Member(k, Text(s)), Member(l, v)];
    var rest := Then(Punct('}'), End);
    assert ms[1..] == [Member(l, v)];
    assert MemberTokens([Member(l, v)], rest) == Then(Str(l), Then(Punct(':'), ValueTokens(v, rest)));
    assert MemberTokens(ms, rest) == Then(Str(k), Then(Punct(':'),
      ValueTokens(Text(s), Then(Punct(','), MemberTokens([Member(l, v)], rest)))));
  }

  lemma ArrayText(a: Literal, b: Literal)
    ensures TextOf(Then(Punct('['), Then(Lit(a), Then(Punct(','), Then(Lit(b), Then(Punct(']'), Then(Punct('}'), End)))))))
      == "[" + (a + ("," + (b + ("]" + "}"))))
  {
    assert TextOf(End) == [];
    ThenText(Punct('}'), End);
    ThenText(Punct(']'), Then(Punct('}'), End));
    ThenText(Lit(b), Then(Punct(']'), Then(Punct('}'), End)));
    ThenText(Punct(','), Then(Lit(b), Then(Punct(']'), Then(Punct('}'), End))));
  }
}
