/**
 The PRM-Signature header of a delivery (internal/webhook/payload.go).

 Strings are sequences of code points, which TrimSpace decodes from the bytes. The keyed hash is a parameter.
 */
module Signature {
  import opened Base

  newtype byte = x: int | 0 <= x < 256

  datatype Signature = Signature(t: int, v: string)

  type Mac = (string, string) -> seq<byte>

  // strconv.FormatInt and ParseInt, base 10 and 64 bits

  predicate Digit(c: char) { '0' <= c <= '9' }

  /** Decimal, without leading zeros. */
  function Digits(n: nat): (s: string)
    ensures s != [] && (|s| == 1 <==> n < 10) && (s[0] == '0' <==> n == 0)
    ensures forall c :: c in s ==> Digit(c)
  {
    (if n < 10 then [] else Digits(n / 10)) + ['0' + (n % 10) as char]
  }

  function DigitValue(c: char): nat
    requires Digit(c)
  {
    (c - '0') as nat
  }

  function Value(s: string): nat
    requires forall c :: c in s ==> Digit(c)
  {
    if s == [] then 0
    else
      assert s[|s| - 1] in s;
      Value(s[..|s| - 1]) * 10 + DigitValue(s[|s| - 1])
  }

  function FormatInt(n: int): string {
    if n < 0 then "-" + Digits(-n) else Digits(n)
  }

  /** ParseUint without its range check. */
  function ParseDigits(s: string): Option<nat> {
    if s == [] || exists c :: c in s && !Digit(c) then None else Some(Value(s))
  }

  function ParseInt(s: string): Option<int> {
    if s == [] then None
    else
      var n := ParseDigits(if s[0] == '-' || s[0] == '+' then s[1..] else s);
      if n.None? then None
      else InRange(if s[0] == '-' then -(n.value as int) else n.value)
  }

  function InRange(n: int): Option<int> {
    if MIN_INT64 <= n <= MAX_INT64 then Some(n) else None
  }

  lemma {:induction false} ValueOfDigits(n: nat)
    ensures Value(Digits(n)) == n
  {
    if n >= 10 {
      ValueOfDigits(n / 10);
      ValueSnoc(Digits(n / 10), n % 10);
    } else {
      ValueSnoc([], n);
      assert Digits(n) == [] + ['0' + n as char];
    }
  }

  lemma ValueSnoc(s: string, k: nat)
    requires k < 10 && forall c :: c in s ==> Digit(c)
    ensures Value(s + ['0' + k as char]) == Value(s) * 10 + k
  {
    assert (s + ['0' + k as char])[..|s|] == s;
  }

  lemma ParseDigitsOf(n: nat)
    ensures ParseDigits(Digits(n)) == Some(n)
    ensures Digit(Digits(n)[0])
  {
    ValueOfDigits(n);
    assert Digits(n)[0] in Digits(n);
  }

  lemma ParseNegative(digits: string, n: nat)
    requires ParseDigits(digits) == Some(n)
    ensures ParseInt("-" + digits) == InRange(-(n as int))
  {
    assert ("-" + digits)[1..] == digits;
  }

  lemma ParseUnsigned(digits: string, n: nat)
    requires ParseDigits(digits) == Some(n) && Digit(digits[0])
    ensures ParseInt(digits) == InRange(n)
  {
  }

  /** Every 64-bit integer survives printing and parsing, the smallest one included. */
  lemma ParseFormat(n: int)
    requires MIN_INT64 <= n <= MAX_INT64
    ensures ParseInt(FormatInt(n)) == Some(n)
  {
    var m: nat := if n < 0 then -n else n;
    var d := Digits(m);
    ParseDigitsOf(m);
    ParseNegative(d, m);
    ParseUnsigned(d, m);
    assert InRange(n) == Some(n);
  }

  /** A plus sign is read as well. */
  lemma ParsePlus(n: nat)
    requires n <= MAX_INT64
    ensures ParseInt("+" + FormatInt(n)) == Some(n)
  {
    ParseDigitsOf(n);
    ParsePositive(Digits(n), n);
  }

  lemma ParsePositive(digits: string, n: nat)
    requires ParseDigits(digits) == Some(n)
    ensures ParseInt("+" + digits) == InRange(n)
  {
    assert ("+" + digits)[1..] == digits;
  }

  // strings.Split and strings.TrimSpace

  /** The parts between commas; there is always at least one. */
  function Split(s: string): (parts: seq<string>)
    ensures parts != []
  {
    if s == [] then [[]]
    else
      var rest := Split(s[1..]);
      if s[0] == ',' then [[]] + rest else [[s[0]] + rest[0]] + rest[1..]
  }

  lemma {:induction false} SplitWhole(s: string)
    requires ',' !in s
    ensures Split(s) == [s]
  {
    if s != [] {
      SplitWhole(s[1..]);
      assert s[0] in s && s == [s[0]] + s[1..];
    }
  }

  lemma {:induction false} SplitAtComma(a: string, b: string)
    ensures Split(a + "," + b) == Split(a) + Split(b)
  {
    var s := a + "," + b;
    if a == [] {
      assert s[1..] == b;
    } else {
      SplitAtComma(a[1..], b);
      assert s[1..] == a[1..] + "," + b;
      FirstChar(s, a, Split(a[1..]), Split(b));
    }
  }

  lemma FirstChar(s: string, a: string, p: seq<string>, q: seq<string>)
    requires s != [] && a != [] && s[0] == a[0]
    requires Split(a[1..]) == p && Split(s[1..]) == p + q
    ensures Split(s) == Split(a) + q
  {
    assert (p + q)[0] == p[0] && (p + q)[1..] == p[1..] + q;
    if a[0] == ',' {
      assert [[]] + (p + q) == ([[]] + p) + q;
    } else {
      JoinFirst([a[0]] + p[0], p[1..], q);
    }
  }

  lemma JoinFirst(x: string, p: seq<string>, q: seq<string>)
    ensures [x] + (p + q) == ([x] + p) + q
  {
  }

  lemma {:induction false} PartsHaveNoComma(s: string, i: nat)
    requires i < |Split(s)|
    ensures ',' !in Split(s)[i]
  {
    if s != [] {
      if i > 0 {
        PartsHaveNoComma(s[1..], if s[0] == ',' then i - 1 else i);
      } else if s[0] != ',' {
        PartsHaveNoComma(s[1..], 0);
      }
    }
  }

  /** unicode.IsSpace. */
  predicate Blank(c: char) {
    || '\t' <= c <= '\r' || c == ' ' || c == '\U{85}' || c == '\U{A0}' || c == '\U{1680}'
    || '\U{2000}' <= c <= '\U{200A}' || c == '\U{2028}' || c == '\U{2029}' || c == '\U{202F}'
    || c == '\U{205F}' || c == '\U{3000}'
  }

  function TrimLeft(s: string): string {
    if s != [] && Blank(s[0]) then TrimLeft(s[1..]) else s
  }

  function TrimRight(s: string): (t: string)
    ensures t <= s && (t != [] ==> !Blank(t[|t| - 1]))
  {
    if s != [] && Blank(s[|s| - 1]) then TrimRight(s[..|s| - 1]) else s
  }

  function TrimSpace(s: string): string {
    TrimRight(TrimLeft(s))
  }

  /** A prefix that ends in a visible character survives trimming on the right. */
  lemma {:induction false} TrimRightAfter(p: string, s: string)
    requires p != [] && !Blank(p[|p| - 1])
    ensures TrimRight(p + s) == p + TrimRight(s)
  {
    if s == [] {
      assert p + s == p;
    } else if Blank(s[|s| - 1]) {
      TrimRightAfter(p, s[..|s| - 1]);
      assert (p + s)[..|p + s| - 1] == p + s[..|s| - 1];
    }
  }

  /** Trimming takes away the blanks on both sides and nothing else. */
  lemma {:induction false} TrimmedAway(a: string, s: string, b: string)
    requires s != [] && !Blank(s[0]) && !Blank(s[|s| - 1])
    requires forall c :: c in a || c in b ==> Blank(c)
    ensures TrimSpace(a + s + b) == s
  {
    if a != [] {
      assert (a + s + b)[1..] == a[1..] + s + b && a[0] in a;
      TrimmedAway(a[1..], s, b);
    } else {
      assert a + s + b == s + b;
      TrimRightAfter(s, b);
      AllTrimmed(b);
    }
  }

  lemma {:induction false} AllTrimmed(b: string)
    requires forall c :: c in b ==> Blank(c)
    ensures TrimRight(b) == []
  {
    if b != [] { AllTrimmed(b[..|b| - 1]); }
  }

  // The header

  function Header(s: Signature): string {
    "t=" + FormatInt(s.t) + ",v1=" + s.v
  }

  predicate HasPrefix(s: string, p: string) {
    p <= s
  }

  /** What follows p in the last part that begins with it once trimmed; "" if none does. */
  function LastField(parts: seq<string>, p: string): string {
    if parts == [] then ""
    else
      var part := TrimSpace(parts[|parts| - 1]);
      if HasPrefix(part, p) then part[|p|..] else LastField(parts[..|parts| - 1], p)
  }

  function Parsed(h: string): Option<Signature> {
    var t, v := LastField(Split(h), "t="), LastField(Split(h), "v1=");
    if t == "" || v == "" || ParseInt(t).None? then None else Some(Signature(ParseInt(t).value, v))
  }

  /** parseSignatureHeader: one pass over the parts, later fields overwriting earlier ones. */
  method ParseSignatureHeader(h: string) returns (r: Option<Signature>)
    ensures r == Parsed(h)
  {
    var parts := Split(h);
    var t, v := "", "";
    for i := 0 to |parts|
      invariant t == LastField(parts[..i], "t=") && v == LastField(parts[..i], "v1=")
    {
      assert parts[..i + 1][..i] == parts[..i];
      var part := TrimSpace(parts[i]);
      if HasPrefix(part, "t=") {
        assert part[0] == 't';
        t := part[2..];
      } else if HasPrefix(part, "v1=") {
        v := part[3..];
      }
    }
    assert parts[..|parts|] == parts;
    if t == "" || v == "" {
      return None;
    }
    var n := ParseInt(t);
    if n.None? {
      return None;
    }
    return Some(Signature(n.value, v));
  }

  /** The digest survives the header: it is not empty, has no comma and does not end in a blank. */
  predicate Clean(v: string) {
    v != "" && ',' !in v && !Blank(v[|v| - 1])
  }

  lemma HeaderParts(s: Signature)
    ensures Split(Header(s)) == ["t=" + FormatInt(s.t)] + Split("v1=" + s.v)
    ensures ',' !in s.v ==> Split("v1=" + s.v) == ["v1=" + s.v]
  {
    var a, b := "t=" + FormatInt(s.t), "v1=" + s.v;
    assert Header(s) == a + "," + b;
    assert forall c :: c in FormatInt(s.t) ==> c == '-' || Digit(c);
    SplitAtComma(a, b);
    SplitWhole(a);
    if ',' !in s.v { SplitWhole(b); }
  }

  lemma {:induction false} FieldFromParts(parts: seq<string>, p: string)
    requires LastField(parts, p) != ""
    ensures exists i :: 0 <= i < |parts| && HasPrefix(TrimSpace(parts[i]), p)
                        && LastField(parts, p) == TrimSpace(parts[i])[|p|..]
  {
    if parts != [] {
      var n := |parts| - 1;
      if !HasPrefix(TrimSpace(parts[n]), p) {
        FieldFromParts(parts[..n], p);
        var i :| 0 <= i < n && HasPrefix(TrimSpace(parts[..n][i]), p)
                 && LastField(parts[..n], p) == TrimSpace(parts[..n][i])[|p|..];
        assert parts[..n][i] == parts[i];
      }
    }
  }

  lemma {:induction false} TrimLeftKeeps(s: string)
    ensures forall c :: c in TrimLeft(s) ==> c in s
  {
    if s != [] { TrimLeftKeeps(s[1..]); }
  }

  /** A parsed digest is always clean. */
  lemma ParsedIsClean(h: string)
    requires Parsed(h).Some?
    ensures Clean(Parsed(h).value.v)
  {
    var parts := Split(h);
    FieldFromParts(parts, "v1=");
    var i :| 0 <= i < |parts| && HasPrefix(TrimSpace(parts[i]), "v1=")
             && LastField(parts, "v1=") == TrimSpace(parts[i])[3..];
    PartsHaveNoComma(h, i);
    TrimmedIsClean(parts[i], 3);
  }

  lemma TrimmedIsClean(part: string, n: nat)
    requires ',' !in part && n < |TrimSpace(part)|
    ensures Clean(TrimSpace(part)[n..])
  {
    TrimLeftKeeps(part);
    var t := TrimSpace(part);
    assert t[n..][|t| - n - 1] == t[|t| - 1];
    assert forall c :: c in t[n..] ==> c in t;
    assert forall c :: c in t ==> c in TrimLeft(part);
  }

  lemma TrimmedStamp(t: int)
    ensures TrimSpace("t=" + FormatInt(t)) == "t=" + FormatInt(t)
  {
    var s := "t=" + FormatInt(t);
    assert s[0] == 't' && Digit(s[|s| - 1]);
  }

  lemma TrimmedDigest(v: string)
    ensures TrimSpace("v1=" + v) == "v1=" + TrimRight(v)
  {
    assert ("v1=" + v)[0] == 'v';
    TrimRightAfter("v1=", v);
  }

  lemma FieldsOfHeader(s: Signature)
    requires ',' !in s.v
    ensures LastField(Split(Header(s)), "t=") == FormatInt(s.t)
    ensures LastField(Split(Header(s)), "v1=") == TrimRight(s.v)
  {
    HeaderParts(s);
    TrimmedStamp(s.t);
    TrimmedDigest(s.v);
    var p, q := "t=" + FormatInt(s.t), "v1=" + s.v;
    assert [p] + [q] == [p, q] && [p, q][..1] == [p];
    var q' := "v1=" + TrimRight(s.v);
    assert q'[0] == 'v' && !HasPrefix(q', "t=");
    assert p[2..] == FormatInt(s.t) && q'[3..] == TrimRight(s.v);
    assert LastField([p], "t=") == FormatInt(s.t);
  }

  /**
   Printing and parsing give the signature back, for every 64-bit timestamp, exactly when its
   digest is not empty, has no comma and does not end in a blank.
   */
  lemma HeaderRoundTrip(s: Signature)
    requires MIN_INT64 <= s.t <= MAX_INT64
    ensures Parsed(Header(s)) == Some(s) <==> Clean(s.v)
  {
    if Clean(s.v) {
      FieldsOfHeader(s);
      ParseFormat(s.t);
    } else if Parsed(Header(s)) == Some(s) {
      ParsedIsClean(Header(s));
    }
  }

  /** Of two digests in a header the later one counts, whatever comes before it. */
  lemma LaterDigestWins(h: string, v: string)
    requires Clean(v)
    ensures LastField(Split(h + ",v1=" + v), "v1=") == v
    ensures LastField(Split(h + ",v1=" + v), "t=") == LastField(Split(h), "t=")
  {
    var part := "v1=" + v;
    assert h + ",v1=" + v == h + "," + part;
    SplitAtComma(h, part);
    assert ',' !in part;
    SplitWhole(part);
    TrimmedDigest(v);
    assert part[0] == 'v' && part[3..] == v && TrimSpace(part) == part;
    assert (Split(h) + [part])[..|Split(h)|] == Split(h);
  }

  // Signing

  function HexDigit(n: nat): char
    requires n < 16
  {
    "0123456789abcdef"[n]
  }

  function Hex(d: seq<byte>): (s: string)
    ensures |s| == 2 * |d|
    ensures forall c :: c in s ==> Digit(c) || 'a' <= c <= 'f'
  {
    if d == [] then [] else [HexDigit(d[0] as nat / 16), HexDigit(d[0] as nat % 16)] + Hex(d[1..])
  }

  /** Two lower-case digits per byte, the high one first. */
  lemma {:induction false} HexAt(d: seq<byte>, i: nat)
    requires i < |d|
    ensures Hex(d)[2 * i] == "0123456789abcdef"[d[i] as nat / 16]
    ensures Hex(d)[2 * i + 1] == "0123456789abcdef"[d[i] as nat % 16]
  {
    if i > 0 {
      HexAt(d[1..], i - 1);
      assert Hex(d)[2..] == Hex(d[1..]);
    }
  }

  lemma {:induction false} HexInjective(d: seq<byte>, e: seq<byte>)
    requires Hex(d) == Hex(e)
    ensures d == e
  {
    assert |d| == |e|;
    if d != [] {
      var s := Hex(d);
      assert s[2..] == Hex(d[1..]) == Hex(e[1..]);
      HexInjective(d[1..], e[1..]);
      HexDigitInjective(d[0] as nat / 16, e[0] as nat / 16);
      HexDigitInjective(d[0] as nat % 16, e[0] as nat % 16);
      assert d == [d[0]] + d[1..] && e == [e[0]] + e[1..];
    }
  }

  lemma HexDigitInjective(m: nat, n: nat)
    requires m < 16 && n < 16 && HexDigit(m) == HexDigit(n)
    ensures m == n
  {
  }

  /** The bytes the hash is taken of. */
  function SignedText(body: string, t: int): string {
    FormatInt(t) + "." + body
  }

  function Sign(mac: Mac, body: string, secret: string, t: int): Signature {
    Signature(t, Hex(mac(secret, SignedText(body, t))))
  }

  predicate Verify(mac: Mac, header: string, body: string, secret: string) {
    var s := Parsed(header);
    s.Some? && Sign(mac, body, secret, s.value.t).v == s.value.v
  }

  /** Every signed delivery verifies: the hash only has to have at least one byte of output. */
  lemma VerifyAcceptsSigned(mac: Mac, body: string, secret: string, t: int)
    requires MIN_INT64 <= t <= MAX_INT64
    requires mac(secret, FormatInt(t) + "." + body) != []
    ensures Header(Sign(mac, body, secret, t)) == "t=" + FormatInt(t) + ",v1=" + Hex(mac(secret, FormatInt(t) + "." + body))
    ensures Verify(mac, "t=" + FormatInt(t) + ",v1=" + Hex(mac(secret, FormatInt(t) + "." + body)), body, secret)
  {
    var s := Sign(mac, body, secret, t);
    assert s.v[|s.v| - 1] in s.v;
    HeaderRoundTrip(s);
  }

  /** Nothing else verifies: the digest in the header must be the hash of this timestamp and body. */
  lemma VerifiesIff(mac: Mac, s: Signature, digest: seq<byte>, body: string, secret: string)
    requires MIN_INT64 <= s.t <= MAX_INT64 && digest != [] && s.v == Hex(digest)
    ensures Verify(mac, Header(s), body, secret) <==> digest == mac(secret, FormatInt(s.t) + "." + body)
  {
    assert s.v[|s.v| - 1] in s.v;
    HeaderRoundTrip(s);
    if Verify(mac, Header(s), body, secret) {
      HexInjective(digest, mac(secret, SignedText(body, s.t)));
    }
  }

  /**
   Any header string is judged by its last t and its last v1 field, whatever else it holds: it verifies
   if and only if they are a 64-bit timestamp and the hash for it.
   */
  lemma VerifiesAnyIff(mac: Mac, header: string, body: string, secret: string)
    requires forall t :: mac(secret, SignedText(body, t)) != []
    ensures Verify(mac, header, body, secret) <==>
      exists t :: MIN_INT64 <= t <= MAX_INT64
        && ParseInt(LastField(Split(header), "t=")) == Some(t)
        && LastField(Split(header), "v1=") == Hex(mac(secret, FormatInt(t) + "." + body))
  {
    var stamp, digest := LastField(Split(header), "t="), LastField(Split(header), "v1=");
    var n := ParseInt(stamp);
    ParsedInRange(stamp);
    if n.Some? {
      HexNotEmpty(mac(secret, SignedText(body, n.value)));
    }
  }

  lemma ParsedInRange(s: string)
    ensures ParseInt(s).Some? ==> s != "" && MIN_INT64 <= ParseInt(s).value <= MAX_INT64
  {
  }

  lemma HexNotEmpty(d: seq<byte>)
    requires d != []
    ensures Hex(d) != ""
  {
    assert |Hex(d)| == 2 * |d|;
  }

  /** No two (timestamp, body) pairs are signed as the same text, so a digest commits to both. */
  lemma SignedTextInjective(t: int, body: string, t': int, body': string)
    requires MIN_INT64 <= t <= MAX_INT64 && MIN_INT64 <= t' <= MAX_INT64
    requires FormatInt(t) + "." + body == FormatInt(t') + "." + body'
    ensures t == t' && body == body'
  {
    FormattedWithoutDot(t);
    FormattedWithoutDot(t');
    UpToDot(FormatInt(t), body, FormatInt(t'), body');
    ParseFormat(t);
    ParseFormat(t');
  }

  lemma FormattedWithoutDot(t: int)
    ensures '.' !in FormatInt(t)
  {
  }

  lemma {:induction false} UpToDot(a: string, x: string, b: string, y: string)
    requires '.' !in a && '.' !in b && a + "." + x == b + "." + y
    ensures a == b && x == y
  {
    var s := a + "." + x;
    assert s[|a|] == '.' && s[|b|] == '.';
    assert |a| == |b|;
    assert a == s[..|a|] && b == s[..|a|] && x == s[|a| + 1..] && y == s[|a| + 1..];
  }
}
