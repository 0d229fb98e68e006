/** Splitting, prefix and replacement operations of the standard library, as far as
    the SCRAM messages use them. */
module Fields {
  import opened Text

  /** `s.split(c)`. */
  function Split<T(==)>(s: seq<T>, c: T): (parts: seq<seq<T>>)
    ensures parts != []
  {
    if s == [] then [[]]
    else
      var rest := Split(s[1..], c);
      if s[0] == c then [[]] + rest else [[s[0]] + rest[0]] + rest[1..]
  }

  lemma {:induction false} SplitAtFirst<T>(a: seq<T>, c: T, b: seq<T>)
    requires c !in a
    ensures Split(a + [c] + b, c) == [a] + Split(b, c)
  {
    var s := a + [c] + b;
    if a == [] {
      assert s[1..] == b;
    } else {
      assert s[1..] == a[1..] + [c] + b;
      SplitAtFirst(a[1..], c, b);
      assert a == [a[0]] + a[1..];
    }
  }

  lemma {:induction false} SplitWhole<T>(a: seq<T>, c: T)
    requires c !in a
    ensures Split(a, c) == [a]
  {
    if a != [] {
      SplitWhole(a[1..], c);
      assert a == [a[0]] + a[1..];
    }
  }

  /** The first piece, and what is left to split behind it. */
  lemma {:induction false} SplitFirst<T>(s: seq<T>, c: T) returns (a: seq<T>, b: seq<T>)
    ensures c in s <==> |Split(s, c)| > 1
    ensures c !in a && a == Split(s, c)[0]
    ensures c in s ==> s == a + [c] + b && Split(s, c) == [a] + Split(b, c)
    ensures c !in s ==> s == a
  {
    if s == [] {
      a, b := [], [];
    } else if s[0] == c {
      a, b := [], s[1..];
      assert s == [] + [c] + b;
    } else {
      assert s == [s[0]] + s[1..];
      var a', b' := SplitFirst(s[1..], c);
      a, b := [s[0]] + a', b';
      if c in s {
        assert s == a + [c] + b;
        SplitAtFirst(a, c, b);
      } else {
        SplitWhole(s, c);
      }
    }
  }

  /** `s.split_once(c)`. */
  function SplitOnce(s: string, c: char): Option<(string, string)> {
    if s == "" then None
    else if s[0] == c then Some(("", s[1..]))
    else
      match SplitOnce(s[1..], c)
      case None => None
      case Some((a, b)) => Some(([s[0]] + a, b))
  }

  lemma {:induction false} SplitOnceAtFirst(a: string, c: char, b: string)
    requires c !in a
    ensures SplitOnce(a + [c] + b, c) == Some((a, b))
  {
    var s := a + [c] + b;
    if a == "" {
      assert s[1..] == b;
    } else {
      assert s[1..] == a[1..] + [c] + b;
      SplitOnceAtFirst(a[1..], c, b);
      assert a == [a[0]] + a[1..];
    }
  }

  lemma {:induction false} SplitOnceMeans(s: string, c: char)
    ensures SplitOnce(s, c).None? <==> c !in s
    ensures SplitOnce(s, c).Some? ==> var (a, b) := SplitOnce(s, c).value; c !in a && s == a + [c] + b
  {
    if s != "" {
      SplitOnceMeans(s[1..], c);
      assert s == [s[0]] + s[1..];
    }
  }

  /** `s.rsplit_once(pat)`: around the last occurrence that ends at or before `end`. */
  function RSplitOnce(s: string, pat: string, end: nat): Option<(string, string)>
    requires end <= |s|
    decreases end
  {
    if end < |pat| then None
    else if s[end - |pat|..end] == pat then Some((s[..end - |pat|], s[end..]))
    else if end == 0 then None
    else RSplitOnce(s, pat, end - 1)
  }

  lemma {:induction false} RSplitAtLast(a: string, pat: string, b: string, end: nat)
    requires |pat| > 0 && pat[0] !in pat[1..] && pat[0] !in b
    requires |a| + |pat| <= end <= |a| + |pat| + |b|
    ensures RSplitOnce(a + pat + b, pat, end) == Some((a, b))
    decreases end
  {
    var s := a + pat + b;
    if end == |a| + |pat| {
      assert s[end - |pat|..end] == pat && s[..end - |pat|] == a && s[end..] == b;
    } else {
      var i := end - |pat|;
      assert s[i] in pat[1..] + b by {
        assert s[i] == (pat[1..] + b)[i - |a| - 1];
      }
      assert s[i..end][0] == s[i];
      RSplitAtLast(a, pat, b, end - 1);
    }
  }

  lemma {:induction false} RSplitMeans(s: string, pat: string, end: nat)
    requires end <= |s| && RSplitOnce(s, pat, end).Some?
    ensures var (a, b) := RSplitOnce(s, pat, end).value; s == a + pat + b
    decreases end
  {
    if s[end - |pat|..end] == pat {
      assert s == s[..end - |pat|] + s[end - |pat|..end] + s[end..];
    } else {
      RSplitMeans(s, pat, end - 1);
    }
  }

  /** `s.strip_prefix(p)`. */
  function StripPrefix(s: string, p: string): Option<string> {
    if p <= s then Some(s[|p|..]) else None
  }

  /** `s.replace(pat, with)`: left to right, without overlap. */
  function Replace(s: string, pat: string, with: string): string
    requires pat != ""
    decreases |s|
  {
    if s == "" then ""
    else if pat <= s then with + Replace(s[|pat|..], pat, with)
    else [s[0]] + Replace(s[1..], pat, with)
  }
}

/** SCRAM (RFC 5802, RFC 7677), server side, with the client of the RFC to talk to.
    The hash functions, UTF-8 and base64 are parameters with stated laws. */
module Scram {
  import opened Text
  import opened Numerals
  import opened Fields

  type Bytes = seq<bv8>

  datatype Hash = Sha256 | Sha512

  function HashLen(hash: Hash): nat {
    if hash == Sha256 then 32 else 64
  }

  datatype Crypto = Crypto(
    hmac: (Hash, Bytes, Bytes) -> Bytes,
    h: (Hash, Bytes) -> Bytes,
    hi: (Hash, Bytes, Bytes, nat) -> Bytes,
    utf8: string -> Bytes,
    enc: Bytes -> string,
    dec: string -> Option<Bytes>)

  /** Digests have their length, base64 decodes what it encoded and has no comma,
      UTF-8 is injective. */
  ghost predicate Laws(c: Crypto) {
    && (forall hash, key, msg :: |c.hmac(hash, key, msg)| == if hash == Sha256 then 32 else 64)
    && (forall b :: c.dec(c.enc(b)) == Some(b))
    && (forall b :: ',' !in c.enc(b))
    && (forall s, t :: c.utf8(s) == c.utf8(t) ==> s == t)
  }

  function Xor(a: Bytes, b: Bytes): (r: Bytes)
    ensures |r| == if |a| <= |b| then |a| else |b|
  {
    seq(if |a| <= |b| then |a| else |b|, i requires 0 <= i < |a| && i < |b| => a[i] ^ b[i])
  }

  lemma XorCancels(a: Bytes, b: Bytes)
    requires |a| == |b|
    ensures Xor(Xor(a, b), b) == a
  {
    forall i | 0 <= i < |a| ensures Xor(Xor(a, b), b)[i] == a[i] {
      BitCancels(a[i], b[i]);
    }
  }

  lemma BitCancels(x: bv8, y: bv8)
    ensures (x ^ y) ^ y == x
  {
  }

  // ----- Decimal numbers ---------------------------------------------------------

  const U32_MAX: nat := 0xFFFF_FFFF

  predicate Digits(s: string) {
    forall c <- s :: '0' <= c <= '9'
  }

  /** `u32::from_str`: decimal digits, an optional leading plus, no overflow. */
  function ParseU32(s: string): Option<nat> {
    var d := if s != "" && s[0] == '+' then s[1..] else s;
    if d == "" || !Digits(d) then None
    else
      var n := Value(d, 10);
      if 0 <= n <= U32_MAX then Some(n) else None
  }

  /** `digits`, perhaps behind a plus, is a decimal numeral of `n`. */
  ghost predicate Spells(s: string, digits: string, n: nat) {
    && (s == digits || s == "+" + digits) && digits != "" && Value(digits, 10) == n
    && forall i :: 0 <= i < |digits| ==> digits[i] in "0123456789"
  }

  /** Exactly the decimal numerals of numbers below 2^32 are read, for those numbers. */
  lemma ParseU32Iff(s: string, n: nat)
    ensures ParseU32(s) == Some(n) <==> n < 0x1_0000_0000 && exists digits :: Spells(s, digits, n)
  {
    hide Value;
    if ParseU32(s) == Some(n) {
      var d := if s[0] == '+' then s[1..] else s;
      assert s[0] == '+' ==> s == "+" + d;
      forall i | 0 <= i < |d| ensures d[i] in "0123456789" {
        assert d[i] in d;
        DecimalDigit(d[i]);
      }
      assert Spells(s, d, n);
    }
    if digits :| Spells(s, digits, n) {
      forall c | c in digits ensures '0' <= c <= '9' {
        DecimalDigit(c);
      }
      assert digits[0] in "0123456789";
      DecimalDigit(digits[0]);
      assert s == "+" + digits ==> s[1..] == digits;
    }
  }

  lemma DecimalDigit(c: char)
    ensures c in "0123456789" <==> '0' <= c <= '9'
  {
  }

  lemma ParsePrinted(n: nat)
    requires n <= U32_MAX
    ensures ParseU32(Numeral(n, 10)) == Some(n)
    ensures ',' !in Numeral(n, 10) && '=' !in Numeral(n, 10)
  {
    NumeralDigits(n, 10);
    ValueOfNumeral(n, 10);
    assert Numeral(n, 10)[0] in Numeral(n, 10);
  }

  // ----- The stored verifier --------------------------------------------------------

  datatype Verifier = Verifier(iterations: nat, salt: Bytes, storedKey: Bytes, serverKey: Bytes)

  datatype Slots = Slots(iterations: Option<nat>, salt: Option<Bytes>, storedKey: Option<Bytes>, serverKey: Option<Bytes>)

  const EMPTY_SLOTS := Slots(None, None, None, None)

  /** One `k=v` part; `None` ends the parse. */
  function TakePart(c: Crypto, slots: Slots, part: string): Option<Slots> {
    match SplitOnce(part, '=')
    case None => None
    case Some((k, v)) =>
      if k == "v" then (if v == "1" then Some(slots) else None)
      else if k == "i" then Some(slots.(iterations := ParseU32(v)))
      else if k == "s" then Some(slots.(salt := c.dec(v)))
      else if k == "sk" then Some(slots.(storedKey := c.dec(v)))
      else if k == "sv" then Some(slots.(serverKey := c.dec(v)))
      else Some(slots)
  }

  function TakeParts(c: Crypto, slots: Slots, parts: seq<string>): Option<Slots>
    decreases |parts|
  {
    if parts == [] then Some(slots)
    else
      match TakePart(c, slots, parts[0])
      case None => None
      case Some(s) => TakeParts(c, s, parts[1..])
  }

  function Complete(slots: Slots): Option<Verifier> {
    if slots.iterations.Some? && slots.salt.Some? && slots.storedKey.Some? && slots.serverKey.Some?
    then Some(Verifier(slots.iterations.value, slots.salt.value, slots.storedKey.value, slots.serverKey.value))
    else None
  }

  function VerifierOf(c: Crypto, encoded: string): Option<Verifier> {
    match TakeParts(c, EMPTY_SLOTS, Split(encoded, ','))
    case None => None
    case Some(slots) => Complete(slots)
  }

  method ParseVerifier(c: Crypto, encoded: string) returns (v: Option<Verifier>)
    ensures v == VerifierOf(c, encoded)
  {
    var slots := EMPTY_SLOTS;
    var parts := Split(encoded, ',');
    for i := 0 to |parts|
      invariant TakeParts(c, EMPTY_SLOTS, parts) == TakeParts(c, slots, parts[i..])
    {
      assert parts[i..][0] == parts[i] && parts[i..][1..] == parts[i + 1..];
      match TakePart(c, slots, parts[i]) {
        case None => return None;
        case Some(s) => slots := s;
      }
    }
    return Complete(slots);
  }

  function Salted(c: Crypto, hash: Hash, password: string, salt: Bytes, iterations: nat): Bytes {
    c.hi(hash, c.utf8(password), salt, iterations)
  }

  function ClientKey(c: Crypto, hash: Hash, salted: Bytes): Bytes {
    c.hmac(hash, salted, c.utf8("Client Key"))
  }

  function ServerKey(c: Crypto, hash: Hash, salted: Bytes): Bytes {
    c.hmac(hash, salted, c.utf8("Server Key"))
  }

  function Encode(c: Crypto, v: Verifier): string {
    "v=1,i=" + Numeral(v.iterations, 10) + ",s=" + c.enc(v.salt)
    + ",sk=" + c.enc(v.storedKey) + ",sv=" + c.enc(v.serverKey)
  }

  function Fresh(c: Crypto, hash: Hash, password: string, iterations: nat, salt: Bytes): Verifier {
    var salted := Salted(c, hash, password, salt, iterations);
    Verifier(iterations, salt, c.h(hash, ClientKey(c, hash, salted)), ServerKey(c, hash, salted))
  }

  predicate Portable(b64: string) {
    '+' !in b64 && '/' !in b64
  }

  /** `make_verifier`, drawing salts until one is portable; the randomness is the
      sequence of draws. */
  method MakeVerifier(c: Crypto, hash: Hash, password: string, iterations: nat, draws: seq<Bytes>)
    returns (encoded: string, salt: Bytes)
    requires exists d :: d in draws && '+' !in c.enc(d) && '/' !in c.enc(d)
    ensures encoded == Encode(c, Fresh(c, hash, password, iterations, salt))
    ensures exists i :: 0 <= i < |draws| && draws[i] == salt
                        && '+' !in c.enc(salt) && '/' !in c.enc(salt)
                        && forall j :: 0 <= j < i ==> '+' in c.enc(draws[j]) || '/' in c.enc(draws[j])
  {
    var i := 0;
    while !Portable(c.enc(draws[i]))
      invariant 0 <= i < |draws|
      invariant forall j :: 0 <= j < i ==> '+' in c.enc(draws[j]) || '/' in c.enc(draws[j])
      decreases |draws| - i
    {
      i := i + 1;
    }
    salt := draws[i];
    encoded := Encode(c, Fresh(c, hash, password, iterations, salt));
  }

  lemma PartReads(c: Crypto, slots: Slots, k: string, v: string)
    requires '=' !in k
    ensures SplitOnce(k + "=" + v, '=') == Some((k, v))
  {
    SplitOnceAtFirst(k, '=', v);
  }

  /** Parsing undoes encoding, for every verifier with a 32-bit iteration count. */
  lemma ParseUndoesEncode(c: Crypto, v: Verifier)
    requires Laws(c) && v.iterations <= U32_MAX
    ensures VerifierOf(c, Encode(c, v)) == Some(v)
  {
    var i, s, sk, sv := Numeral(v.iterations, 10), c.enc(v.salt), c.enc(v.storedKey), c.enc(v.serverKey);
    ParsePrinted(v.iterations);
    var parts := ["v" + "=" + "1", "i" + "=" + i, "s" + "=" + s, "sk" + "=" + sk, "sv" + "=" + sv];
    EncodedParts(c, v);
    assert "v" + "=" + "1" == "v=1" && "i" + "=" == "i=" && "s" + "=" == "s=" && "sk" + "=" == "sk=" && "sv" + "=" == "sv=";
    assert parts == ["v=1", "i=" + i, "s=" + s, "sk=" + sk, "sv=" + sv];
    PartReads(c, EMPTY_SLOTS, "v", "1");
    PartReads(c, EMPTY_SLOTS, "i", i);
    PartReads(c, EMPTY_SLOTS, "s", s);
    PartReads(c, EMPTY_SLOTS, "sk", sk);
    PartReads(c, EMPTY_SLOTS, "sv", sv);
    var s1 := EMPTY_SLOTS.(iterations := Some(v.iterations));
    var s2 := s1.(salt := Some(v.salt));
    var s3 := s2.(storedKey := Some(v.storedKey));
    var s4 := s3.(serverKey := Some(v.serverKey));
    assert TakePart(c, EMPTY_SLOTS, parts[0]) == Some(EMPTY_SLOTS);
    assert TakePart(c, EMPTY_SLOTS, parts[1]) == Some(s1);
    assert TakePart(c, s1, parts[2]) == Some(s2);
    assert TakePart(c, s2, parts[3]) == Some(s3);
    assert TakePart(c, s3, parts[4]) == Some(s4);
    FiveParts(c, parts, EMPTY_SLOTS, EMPTY_SLOTS, s1, s2, s3, s4);
  }

  lemma FiveParts(c: Crypto, parts: seq<string>, s0: Slots, s1: Slots, s2: Slots, s3: Slots, s4: Slots, s5: Slots)
    requires |parts| == 5
    requires TakePart(c, s0, parts[0]) == Some(s1) && TakePart(c, s1, parts[1]) == Some(s2)
    requires TakePart(c, s2, parts[2]) == Some(s3) && TakePart(c, s3, parts[3]) == Some(s4)
    requires TakePart(c, s4, parts[4]) == Some(s5)
    ensures TakeParts(c, s0, parts) == Some(s5)
  {
    assert parts[1..][1..] == parts[2..] && parts[2..][1..] == parts[3..] && parts[3..][1..] == parts[4..];
    assert parts[4..][1..] == [];
    assert TakeParts(c, s4, parts[4..]) == TakeParts(c, s5, []);
    assert TakeParts(c, s3, parts[3..]) == TakeParts(c, s4, parts[4..]);
    assert TakeParts(c, s2, parts[2..]) == TakeParts(c, s3, parts[3..]);
    assert TakeParts(c, s1, parts[1..]) == TakeParts(c, s2, parts[2..]);
  }

  /** What the last part starting with `key` says, if any does. */
  function LastText(parts: seq<string>, key: string): Option<string> {
    if parts == [] then None
    else if key <= parts[|parts| - 1] then Some(parts[|parts| - 1][|key|..])
    else LastText(parts[..|parts| - 1], key)
  }

  function NumberIn(parts: seq<string>, key: string): Option<nat> {
    match LastText(parts, key) case None => None case Some(t) => ParseU32(t)
  }

  function BytesIn(c: Crypto, parts: seq<string>, key: string): Option<Bytes> {
    match LastText(parts, key) case None => None case Some(t) => c.dec(t)
  }

  /** Every part assigns something, and a version, where given, is 1. */
  ghost predicate Assigned(parts: seq<string>) {
    forall p <- parts :: '=' in p && ("v=" <= p ==> p == "v=1")
  }

  lemma {:induction false} TakePartsSnoc(c: Crypto, slots: Slots, parts: seq<string>, p: string)
    ensures TakeParts(c, slots, parts + [p]) ==
            match TakeParts(c, slots, parts) case None => None case Some(s) => TakePart(c, s, p)
    decreases |parts|
  {
    hide TakePart;
    if parts == [] {
      assert parts + [p] == [p] && [p][1..] == [];
    } else {
      assert (parts + [p])[1..] == parts[1..] + [p];
      if TakePart(c, slots, parts[0]).Some? {
        TakePartsSnoc(c, TakePart(c, slots, parts[0]).value, parts[1..], p);
      }
    }
  }

  /** A part starts with the keys it assigns and no other. */
  lemma KeyStarts(p: string, k: string, v: string)
    requires p == k + ['='] + v && '=' !in k
    ensures forall key :: '=' !in key ==> (key + "=" <= p <==> key == k)
    ensures p[|k| + 1..] == v
  {
    hide SplitOnce;
    SplitOnceAtFirst(k, '=', v);
    forall key | '=' !in key ensures key + "=" <= p ==> key == k {
      if key + "=" <= p {
        assert p == key + ['='] + p[|key| + 1..];
        SplitOnceAtFirst(key, '=', p[|key| + 1..]);
      }
    }
  }

  /** One part moves the slots as the texts it starts or does not start with say. */
  lemma PartSays(c: Crypto, slots: Slots, p: string)
    ensures TakePart(c, slots, p).Some? <==> '=' in p && ("v=" <= p ==> p == "v=1")
    ensures TakePart(c, slots, p).Some? ==>
              TakePart(c, slots, p).value ==
              Slots(if "i=" <= p then ParseU32(p[2..]) else slots.iterations,
                    if "s=" <= p then c.dec(p[2..]) else slots.salt,
                    if "sk=" <= p then c.dec(p[3..]) else slots.storedKey,
                    if "sv=" <= p then c.dec(p[3..]) else slots.serverKey)
  {
    hide ParseU32, SplitOnce;
    SplitOnceMeans(p, '=');
    if SplitOnce(p, '=').Some? {
      var (k, v) := SplitOnce(p, '=').value;
      KeyStarts(p, k, v);
      assert "v" + "=" == "v=" && "i" + "=" == "i=" && "s" + "=" == "s=" && "sk" + "=" == "sk=" && "sv" + "=" == "sv=";
    }
  }

  lemma {:induction false} PartsSay(c: Crypto, parts: seq<string>)
    ensures TakeParts(c, EMPTY_SLOTS, parts) ==
            if Assigned(parts)
            then Some(Slots(NumberIn(parts, "i="), BytesIn(c, parts, "s="), BytesIn(c, parts, "sk="), BytesIn(c, parts, "sv=")))
            else None
  {
    hide TakePart, TakeParts, ParseU32;
    if parts == [] {
      assert TakeParts(c, EMPTY_SLOTS, []) == Some(EMPTY_SLOTS) by { NoParts(c); }
    } else {
      var front, p := parts[..|parts| - 1], parts[|parts| - 1];
      assert parts == front + [p];
      PartsSay(c, front);
      TakePartsSnoc(c, EMPTY_SLOTS, front, p);
      assert Assigned(parts) <==> Assigned(front) && '=' in p && ("v=" <= p ==> p == "v=1");
      if Assigned(front) {
        PartSays(c, TakeParts(c, EMPTY_SLOTS, front).value, p);
      }
    }
  }

  lemma NoParts(c: Crypto)
    ensures TakeParts(c, EMPTY_SLOTS, []) == Some(EMPTY_SLOTS)
  {
  }

  /** Exactly these strings are verifiers: comma-separated assignments of version 1, whose
      last iteration count, salt, stored key and server key can be read; and those are
      what the verifier holds. */
  lemma VerifierIff(c: Crypto, encoded: string, v: Verifier)
    ensures VerifierOf(c, encoded) == Some(v) <==>
            var parts := Split(encoded, ',');
            && Assigned(parts) && NumberIn(parts, "i=") == Some(v.iterations) && BytesIn(c, parts, "s=") == Some(v.salt)
            && BytesIn(c, parts, "sk=") == Some(v.storedKey) && BytesIn(c, parts, "sv=") == Some(v.serverKey)
    ensures VerifierOk(c, encoded) <==>
            VerifierOf(c, encoded).Some? && 1000 <= VerifierOf(c, encoded).value.iterations <= 5_000_000
  {
    hide Split, TakeParts, Assigned, NumberIn, BytesIn;
    PartsSay(c, Split(encoded, ','));
  }

  function Commas(a: string, b: string, c: string, d: string, e: string): string {
    a + [','] + (b + [','] + (c + [','] + (d + [','] + e)))
  }

  lemma FiveFields(a: string, b: string, c: string, d: string, e: string)
    requires ',' !in a && ',' !in b && ',' !in c && ',' !in d && ',' !in e
    ensures Split(Commas(a, b, c, d, e), ',') == [a, b, c, d, e]
  {
    hide Split;
    SplitAtFirst(a, ',', b + [','] + (c + [','] + (d + [','] + e)));
    SplitAtFirst(b, ',', c + [','] + (d + [','] + e));
    SplitAtFirst(c, ',', d + [','] + e);
    SplitAtFirst(d, ',', e);
    SplitWhole(e, ',');
  }

  lemma FiveKeys(i: string, s: string, sk: string, sv: string)
    ensures Commas("v=1", "i=" + i, "s=" + s, "sk=" + sk, "sv=" + sv)
            == "v=1,i=" + i + ",s=" + s + ",sk=" + sk + ",sv=" + sv
  {
  }

  lemma EncodedParts(c: Crypto, v: Verifier)
    requires Laws(c) && v.iterations <= U32_MAX
    ensures Split(Encode(c, v), ',') ==
            ["v=1", "i=" + Numeral(v.iterations, 10), "s=" + c.enc(v.salt), "sk=" + c.enc(v.storedKey),
                "sv=" + c.enc(v.serverKey)]
  {
    hide Numeral;
    var i, s, sk, sv := Numeral(v.iterations, 10), c.enc(v.salt), c.enc(v.storedKey), c.enc(v.serverKey);
    ParsePrinted(v.iterations);
    FiveFields("v=1", "i=" + i, "s=" + s, "sk=" + sk, "sv=" + sv);
    FiveKeys(i, s, sk, sv);
  }

  /** `verify_plain`. */
  function VerifyPlain(c: Crypto, hash: Hash, encoded: string, password: string): bool {
    match VerifierOf(c, encoded)
    case None => false
    case Some(v) => c.h(hash, ClientKey(c, hash, Salted(c, hash, password, v.salt, v.iterations))) == v.storedKey
  }

  const MAX_VERIFIER_ITERATIONS: nat := 5_000_000

  function VerifierOk(c: Crypto, encoded: string): bool {
    match VerifierOf(c, encoded)
    case None => false
    case Some(v) => 1000 <= v.iterations <= MAX_VERIFIER_ITERATIONS
  }

  /** A verifier made here is one the services would take from outside exactly when its
      iteration count is within the limits. */
  lemma MadeVerifierOkIff(c: Crypto, hash: Hash, password: string, iterations: nat, salt: Bytes)
    requires Laws(c) && iterations <= U32_MAX
    ensures VerifierOk(c, Encode(c, Fresh(c, hash, password, iterations, salt)))
            <==> 1000 <= iterations <= 5_000_000
  {
    hide Encode, VerifierOf;
    ParseUndoesEncode(c, Fresh(c, hash, password, iterations, salt));
  }

  // ----- The exchange, server side ---------------------------------------------------

  datatype ClientFirst = ClientFirst(username: string, gs2Header: string, clientFirstBare: string, cnonce: string)

  function Unescape(name: string): string {
    Replace(Replace(name, "=2C", ","), "=3D", "=")
  }

  /** `parse_client_first`: `<cbflag>,<authzid>,n=<user>,r=<cnonce>`. */
  function ParseClientFirst(msg: string): Option<ClientFirst> {
    match SplitOnce(msg, ',')
    case None => None
    case Some((cbflag, rest)) =>
      match SplitOnce(rest, ',')
      case None => None
      case Some((authzid, bare)) =>
        if "p" <= cbflag then None
        else
          var fields := Split(bare, ',');
          if |fields| < 2 then None
          else
            var user, cnonce := StripPrefix(fields[0], "n="), StripPrefix(fields[1], "r=");
            if user.None? || cnonce.None? then None
            else Some(ClientFirst(Unescape(user.value), cbflag + "," + authzid + ",", bare, cnonce.value))
  }

  /** `server_first`, with the server's random nonce as an argument. */
  function ServerFirst(c: Crypto, cnonce: string, v: Verifier, snonce: string): (string, string) {
    var full := cnonce + snonce;
    ("r=" + full + ",s=" + c.enc(v.salt) + ",i=" + Numeral(v.iterations, 10), full)
  }

  /** The last `c=` and `r=` fields of a client-final message. */
  function LastFields(fields: seq<string>): (Option<string>, Option<string>) {
    if fields == [] then (None, None)
    else
      var (cbind, rnonce) := LastFields(fields[..|fields| - 1]);
      var f := fields[|fields| - 1];
      if StripPrefix(f, "c=").Some? then (StripPrefix(f, "c="), rnonce)
      else if StripPrefix(f, "r=").Some? then (cbind, StripPrefix(f, "r="))
      else (cbind, rnonce)
  }

  /** What the server holds while it waits for client-final. */
  datatype Exchange = Exchange(verifier: Verifier, clientFirstBare: string, serverFirst: string, gs2Header: string,
      nonce: string)

  function AuthMessage(x: Exchange, withoutProof: string): string {
    x.clientFirstBare + "," + x.serverFirst + "," + withoutProof
  }

  function Verdict(c: Crypto, hash: Hash, x: Exchange, final: string): Option<string> {
    match RSplitOnce(final, ",p=", |final|)
    case None => None
    case Some((withoutProof, proofB64)) =>
      var proof := c.dec(proofB64);
      var (cbind, rnonce) := LastFields(Split(withoutProof, ','));
      if proof.None? || rnonce.None? || rnonce.value != x.nonce || cbind.None? then None
      else if c.dec(cbind.value) != Some(c.utf8(x.gs2Header)) then None
      else
        var message := c.utf8(AuthMessage(x, withoutProof));
        var signature := c.hmac(hash, x.verifier.storedKey, message);
        if |proof.value| != |signature| || c.h(hash, Xor(proof.value, signature)) != x.verifier.storedKey then None
        else Some("v=" + c.enc(c.hmac(hash, x.verifier.serverKey, message)))
  }

  method VerifyFinal(c: Crypto, hash: Hash, x: Exchange, final: string) returns (serverFinal: Option<string>)
    ensures serverFinal == Verdict(c, hash, x, final)
  {
    var split := RSplitOnce(final, ",p=", |final|);
    if split.None? {
      return None;
    }
    var (withoutProof, proofB64) := split.value;
    var proof := c.dec(proofB64);
    if proof.None? {
      return None;
    }
    var cbind: Option<string>, rnonce: Option<string> := None, None;
    var fields := Split(withoutProof, ',');
    for i := 0 to |fields|
      invariant (cbind, rnonce) == LastFields(fields[..i])
    {
      assert fields[..i + 1][..i] == fields[..i];
      if StripPrefix(fields[i], "c=").Some? {
        cbind := StripPrefix(fields[i], "c=");
      } else if StripPrefix(fields[i], "r=").Some? {
        rnonce := StripPrefix(fields[i], "r=");
      }
    }
    assert fields[..|fields|] == fields;
    if rnonce.None? || rnonce.value != x.nonce {
      return None;
    }
    if cbind.None? || c.dec(cbind.value) != Some(c.utf8(x.gs2Header)) {
      return None;
    }
    var message := c.utf8(AuthMessage(x, withoutProof));
    var signature := c.hmac(hash, x.verifier.storedKey, message);
    if |proof.value| != |signature| {
      return None;
    }
    var clientKey := Xor(proof.value, signature);
    if c.h(hash, clientKey) != x.verifier.storedKey {
      return None;
    }
    return Some("v=" + c.enc(c.hmac(hash, x.verifier.serverKey, message)));
  }

  // ----- The client of RFC 5802 -----------------------------------------------------

  /** `saslname`: a comma is sent as =2C and an equals sign as =3D. */
  function Escape(name: string): string {
    if name == "" then ""
    else (if name[0] == ',' then "=2C" else if name[0] == '=' then "=3D" else [name[0]]) + Escape(name[1..])
  }

  function ClientFirstBare(user: string, cnonce: string): string {
    "n=" + Escape(user) + ",r=" + cnonce
  }

  function Gs2(cbflag: string, authzid: string): string {
    cbflag + "," + authzid + ","
  }

  function ClientFinal(cbind: string, nonce: string, proofB64: string): string {
    "c=" + cbind + ",r=" + nonce + ",p=" + proofB64
  }

  /** What the client reads in server-first: nonce, salt, iteration count. */
  function ReadServerFirst(c: Crypto, msg: string): Option<(string, Bytes, nat)> {
    var fields := Split(msg, ',');
    if |fields| != 3 then None
    else
      var r, s, i := StripPrefix(fields[0], "r="), StripPrefix(fields[1], "s="), StripPrefix(fields[2], "i=");
      if r.None? || s.None? || i.None? then None
      else if c.dec(s.value).None? || ParseU32(i.value).None? then None
      else Some((r.value, c.dec(s.value).value, ParseU32(i.value).value))
  }

  /** The client-final of a client that holds `password`, built from the messages it sent
      and the one it received; `None` when it cannot read that one. */
  function HonestFinal(c: Crypto, hash: Hash, password: string, gs2: string, bare: string, serverFirst: string)
    : Option<string>
  {
    match ReadServerFirst(c, serverFirst)
    case None => None
    case Some((nonce, salt, iterations)) =>
      var signed := "c=" + c.enc(c.utf8(gs2)) + ",r=" + nonce;
      var message := c.utf8(bare + "," + serverFirst + "," + signed);
      var key := c.hmac(hash, c.hi(hash, c.utf8(password), salt, iterations), c.utf8("Client Key"));
      Some(signed + ",p=" + c.enc(Xor(key, c.hmac(hash, c.h(hash, key), message))))
  }

  /** The server-final such a client expects. */
  function Expected(c: Crypto, hash: Hash, password: string, gs2: string, bare: string, serverFirst: string)
    : Option<string>
  {
    match ReadServerFirst(c, serverFirst)
    case None => None
    case Some((nonce, salt, iterations)) =>
      var message := c.utf8(bare + "," + serverFirst + "," + "c=" + c.enc(c.utf8(gs2)) + ",r=" + nonce);
      var key := c.hmac(hash, c.hi(hash, c.utf8(password), salt, iterations), c.utf8("Server Key"));
      Some("v=" + c.enc(c.hmac(hash, key, message)))
  }

  // ----- The parsers undo the builders ----------------------------------------------

  function HalfEscape(name: string): string {
    if name == "" then ""
    else (if name[0] == '=' then "=3D" else [name[0]]) + HalfEscape(name[1..])
  }

  lemma ReplaceHit(pat: string, with: string, rest: string)
    requires pat != ""
    ensures Replace(pat + rest, pat, with) == with + Replace(rest, pat, with)
  {
    assert (pat + rest)[|pat|..] == rest;
  }

  lemma ReplaceMiss(x: char, rest: string, pat: string, with: string)
    requires pat != "" && x != pat[0]
    ensures Replace([x] + rest, pat, with) == [x] + Replace(rest, pat, with)
  {
    assert ([x] + rest)[1..] == rest && ([x] + rest)[0] == x;
  }

  lemma {:induction false} CommasFirst(name: string)
    ensures Replace(Escape(name), "=2C", ",") == HalfEscape(name)
  {
    if name != "" {
      var rest := Escape(name[1..]);
      CommasFirst(name[1..]);
      if name[0] == ',' {
        ReplaceHit("=2C", ",", rest);
      } else if name[0] == '=' {
        ReplaceMissEquals(rest);
      } else {
        ReplaceMiss(name[0], rest, "=2C", ",");
      }
    }
  }

  /** An escaped equals sign is not taken for an escaped comma. */
  lemma ReplaceMissEquals(rest: string)
    ensures Replace("=3D" + rest, "=2C", ",") == "=3D" + Replace(rest, "=2C", ",")
  {
    var s := "=3D" + rest;
    assert s[1] == '3' && !("=2C" <= s);
    assert s[1..] == "3D" + rest && s[1..][1..] == "D" + rest && s[1..][1..][1..] == rest;
    assert Replace(s, "=2C", ",") == ['='] + Replace("3D" + rest, "=2C", ",");
    assert "3D" + rest == ['3'] + ("D" + rest);
    ReplaceMiss('3', "D" + rest, "=2C", ",");
    ReplaceMiss('D', rest, "=2C", ",");
  }

  lemma {:induction false} ThenEquals(name: string)
    ensures Replace(HalfEscape(name), "=3D", "=") == name
  {
    if name != "" {
      var rest := HalfEscape(name[1..]);
      ThenEquals(name[1..]);
      assert name == [name[0]] + name[1..];
      if name[0] == '=' {
        ReplaceHit("=3D", "=", rest);
      } else {
        ReplaceMiss(name[0], rest, "=3D", "=");
      }
    }
  }

  /** Every user name survives escaping and unescaping, commas and equals signs included. */
  lemma UnescapeUndoesEscape(name: string)
    ensures Unescape(Escape(name)) == name
  {
    CommasFirst(name);
    ThenEquals(name);
  }

  lemma {:induction false} EscapeHasNoComma(name: string)
    ensures ',' !in Escape(name)
  {
    if name != "" {
      EscapeHasNoComma(name[1..]);
    }
  }

  lemma PrefixStrips(p: string, x: string)
    ensures StripPrefix(p + x, p) == Some(x)
  {
  }

  /** `ParseClientFirst` reads back what a client sends. */
  lemma ParseUndoesClientFirst(cbflag: string, authzid: string, user: string, cnonce: string)
    requires ',' !in cbflag && !("p" <= cbflag) && ',' !in authzid && ',' !in cnonce
    ensures ParseClientFirst(Gs2(cbflag, authzid) + ClientFirstBare(user, cnonce))
            == Some(ClientFirst(user, Gs2(cbflag, authzid), ClientFirstBare(user, cnonce), cnonce))
  {
    hide Escape, Unescape, Split, SplitOnce, StripPrefix;
    var bare := ClientFirstBare(user, cnonce);
    var msg := Gs2(cbflag, authzid) + bare;
    assert msg == cbflag + [','] + (authzid + [','] + bare);
    SplitOnceAtFirst(cbflag, ',', authzid + [','] + bare);
    SplitOnceAtFirst(authzid, ',', bare);
    EscapeHasNoComma(user);
    var n, r := "n=" + Escape(user), "r=" + cnonce;
    assert bare == n + [','] + r;
    SplitAtFirst(n, ',', r);
    SplitWhole(r, ',');
    PrefixStrips("n=", Escape(user));
    PrefixStrips("r=", cnonce);
    UnescapeUndoesEscape(user);
  }

  /** A client-first message without channel binding: header, user name, nonce, and perhaps
      more fields. */
  ghost predicate FirstShape(msg: string, cbflag: string, authzid: string, name: string, cnonce: string, more: string) {
    && ',' !in cbflag && ',' !in authzid && ',' !in name && ',' !in cnonce
    && !("p" <= cbflag) && (more != "" ==> more[0] == ',')
    && msg == cbflag + "," + authzid + "," + ("n=" + name + ",r=" + cnonce + more)
  }

  lemma ShapeParses(msg: string, cbflag: string, authzid: string, name: string, cnonce: string, more: string)
    requires FirstShape(msg, cbflag, authzid, name, cnonce, more)
    ensures ParseClientFirst(msg) ==
            Some(ClientFirst(Unescape(name), cbflag + "," + authzid + ",", "n=" + name + ",r=" + cnonce + more, cnonce))
  {
    hide Unescape, Split, SplitOnce, StripPrefix;
    var n, r, bare := "n=" + name, "r=" + cnonce, "n=" + name + ",r=" + cnonce + more;
    assert msg == cbflag + [','] + (authzid + [','] + bare);
    SplitOnceAtFirst(cbflag, ',', authzid + [','] + bare);
    SplitOnceAtFirst(authzid, ',', bare);
    assert bare == n + [','] + (r + more);
    SplitAtFirst(n, ',', r + more);
    if more == "" {
      assert r + more == r;
      SplitWhole(r, ',');
    } else {
      assert r + more == r + [','] + more[1..];
      SplitAtFirst(r, ',', more[1..]);
    }
    PrefixStrips("n=", name);
    PrefixStrips("r=", cnonce);
  }

  lemma TwoFieldsHaveShape(cbflag: string, authzid: string, bare: string) returns (name: string, cnonce: string, more: string)
    requires ',' !in cbflag && ',' !in authzid && !("p" <= cbflag)
    requires var fields := Split(bare, ',');
             |fields| >= 2 && StripPrefix(fields[0], "n=").Some? && StripPrefix(fields[1], "r=").Some?
    ensures FirstShape(cbflag + "," + authzid + "," + bare, cbflag, authzid, name, cnonce, more)
  {
    hide Split;
    var n, rest := SplitFirst(bare, ',');
    var r, others := SplitFirst(rest, ',');
    more := if ',' in rest then [','] + others else "";
    StripMeans(n, "n=");
    StripMeans(r, "r=");
    name, cnonce := StripPrefix(n, "n=").value, StripPrefix(r, "r=").value;
    assert n == "n=" + name && r == "r=" + cnonce && rest == r + more;
    assert bare == n + [','] + rest;
    assert bare == "n=" + name + ",r=" + cnonce + more;
  }

  /** Exactly the messages of that shape are taken, whatever else is sent: in particular
      none that asks for channel binding. */
  lemma ClientFirstIff(msg: string)
    ensures ParseClientFirst(msg).Some? <==>
            exists cbflag, authzid, name, cnonce, more :: FirstShape(msg, cbflag, authzid, name, cnonce, more)
    ensures forall cbflag, authzid, name, cnonce, more :: FirstShape(msg, cbflag, authzid, name, cnonce, more) ==>
              ParseClientFirst(msg) == Some(ClientFirst(Unescape(name), cbflag + "," + authzid + ",",
                                                        "n=" + name + ",r=" + cnonce + more, cnonce))
  {
    hide FirstShape, Unescape, Split, SplitOnce;
    forall cbflag, authzid, name, cnonce, more | FirstShape(msg, cbflag, authzid, name, cnonce, more)
      ensures ParseClientFirst(msg) == Some(ClientFirst(Unescape(name), cbflag + "," + authzid + ",",
                                                        "n=" + name + ",r=" + cnonce + more, cnonce))
    {
      ShapeParses(msg, cbflag, authzid, name, cnonce, more);
    }
    if ParseClientFirst(msg).Some? {
      SplitOnceMeans(msg, ',');
      var (cbflag, rest) := SplitOnce(msg, ',').value;
      SplitOnceMeans(rest, ',');
      var (authzid, bare) := SplitOnce(rest, ',').value;
      var name, cnonce, more := TwoFieldsHaveShape(cbflag, authzid, bare);
      assert msg == cbflag + "," + authzid + "," + bare;
    }
  }

  /** The client reads back what `ServerFirst` sends. */
  lemma ClientReadsServerFirst(c: Crypto, cnonce: string, v: Verifier, snonce: string)
    requires Laws(c) && ',' !in cnonce && ',' !in snonce && v.iterations <= U32_MAX
    ensures ReadServerFirst(c, ServerFirst(c, cnonce, v, snonce).0) == Some((cnonce + snonce, v.salt, v.iterations))
  {
    var full := cnonce + snonce;
    var r, s, i := "r=" + full, "s=" + c.enc(v.salt), "i=" + Numeral(v.iterations, 10);
    ParsePrinted(v.iterations);
    assert ServerFirst(c, cnonce, v, snonce).0 == r + [','] + (s + [','] + i);
    SplitAtFirst(r, ',', s + [','] + i);
    SplitAtFirst(s, ',', i);
    SplitWhole(i, ',');
    PrefixStrips("r=", full);
    PrefixStrips("s=", c.enc(v.salt));
    PrefixStrips("i=", Numeral(v.iterations, 10));
  }

  function WithoutProof(cbind: string, nonce: string): string {
    "c=" + cbind + ",r=" + nonce
  }

  lemma FinalFields(cbind: string, nonce: string)
    requires ',' !in cbind && ',' !in nonce
    ensures LastFields(Split(WithoutProof(cbind, nonce), ',')) == (Some(cbind), Some(nonce))
  {
    var f, g := "c=" + cbind, "r=" + nonce;
    assert WithoutProof(cbind, nonce) == f + [','] + g;
    SplitAtFirst(f, ',', g);
    SplitWhole(g, ',');
    assert [f, g][..1] == [f] && [f][..0] == [];
    assert LastFields([f]) == (Some(cbind), None) by {
      PrefixStrips("c=", cbind);
      assert LastFields([]) == (None, None);
    }
    PrefixStrips("r=", nonce);
    assert g[0] == 'r' && StripPrefix(g, "c=") == None;
  }

  lemma FinalSplits(cbind: string, nonce: string, proofB64: string)
    requires ',' !in proofB64
    ensures var final := ClientFinal(cbind, nonce, proofB64);
            RSplitOnce(final, ",p=", |final|) == Some((WithoutProof(cbind, nonce), proofB64))
  {
    var final := ClientFinal(cbind, nonce, proofB64);
    assert final == WithoutProof(cbind, nonce) + ",p=" + proofB64;
    RSplitAtLast(WithoutProof(cbind, nonce), ",p=", proofB64, |final|);
  }

  /** Acceptance is of this exchange: a client-final naming header `gs2` and nonce `nonce`
      is accepted if and only if both are the ones of this exchange and the proof
      unmasks to a preimage of the stored key; the answer is the server's signature. */
  lemma FinalAcceptedIff(c: Crypto, hash: Hash, x: Exchange, gs2: string, nonce: string, proof: Bytes)
    requires Laws(c) && ',' !in nonce
    ensures var signed := "c=" + c.enc(c.utf8(gs2)) + ",r=" + nonce;
            var message := c.utf8(x.clientFirstBare + "," + x.serverFirst + "," + signed);
            var verdict := Verdict(c, hash, x, ClientFinal(c.enc(c.utf8(gs2)), nonce, c.enc(proof)));
            && (verdict.Some? <==>
                  && nonce == x.nonce && gs2 == x.gs2Header && |proof| == HashLen(hash)
                  && c.h(hash, Xor(proof, c.hmac(hash, x.verifier.storedKey, message))) == x.verifier.storedKey)
            && (verdict.Some? ==> verdict.value == "v=" + c.enc(c.hmac(hash, x.verifier.serverKey, message)))
  {
    var cbind := c.enc(c.utf8(gs2));
    FinalSplits(cbind, nonce, c.enc(proof));
    FinalFields(cbind, nonce);
    assert c.utf8(gs2) == c.utf8(x.gs2Header) <==> gs2 == x.gs2Header;
  }

  /** `v` is what the last field starting with `key` says. */
  ghost predicate LastSays(fields: seq<string>, key: string, v: string) {
    exists i :: 0 <= i < |fields| && fields[i] == key + v
                && forall j :: i < j < |fields| ==> !(key <= fields[j])
  }

  lemma StripMeans(s: string, key: string)
    ensures StripPrefix(s, key).Some? <==> key <= s
    ensures key <= s ==> s == key + StripPrefix(s, key).value
  {
  }

  lemma LastSaysLonger(front: seq<string>, f: string, key: string, v: string)
    requires LastSays(front, key, v) && !(key <= f)
    ensures LastSays(front + [f], key, v)
  {
    var i :| 0 <= i < |front| && front[i] == key + v && forall j :: i < j < |front| ==> !(key <= front[j]);
    assert (front + [f])[i] == key + v;
  }

  lemma LastSaysNow(front: seq<string>, f: string, key: string, v: string)
    requires f == key + v
    ensures LastSays(front + [f], key, v)
  {
    assert (front + [f])[|front|] == f;
  }

  /** The fields read are the last `c=` and the last `r=`. */
  lemma {:induction false} LastFieldsSay(fields: seq<string>)
    ensures LastFields(fields).0.Some? ==> LastSays(fields, "c=", LastFields(fields).0.value)
    ensures LastFields(fields).1.Some? ==> LastSays(fields, "r=", LastFields(fields).1.value)
  {
    hide LastSays, StripPrefix;
    if fields != [] {
      var front, f := fields[..|fields| - 1], fields[|fields| - 1];
      assert fields == front + [f];
      LastFieldsSay(front);
      StripMeans(f, "c=");
      StripMeans(f, "r=");
      FirstLetter(f);
      if "c=" <= f {
        LastSaysNow(front, f, "c=", StripPrefix(f, "c=").value);
        if LastFields(front).1.Some? {
          LastSaysLonger(front, f, "r=", LastFields(front).1.value);
        }
      } else if "r=" <= f {
        LastSaysNow(front, f, "r=", StripPrefix(f, "r=").value);
        if LastFields(front).0.Some? {
          LastSaysLonger(front, f, "c=", LastFields(front).0.value);
        }
      } else {
        if LastFields(front).0.Some? {
          LastSaysLonger(front, f, "c=", LastFields(front).0.value);
        }
        if LastFields(front).1.Some? {
          LastSaysLonger(front, f, "r=", LastFields(front).1.value);
        }
      }
    }
  }

  lemma FirstLetter(f: string)
    ensures "c=" <= f ==> f != "" && f[0] == 'c'
    ensures "r=" <= f ==> f != "" && f[0] == 'r'
  {
  }

  /** Whatever string is accepted: it ends in a proof of the hash's length that unmasks,
      over the exchange so far and all before the proof, to a key hashing to the stored
      one; its last `r=` is the nonce of this exchange and its last `c=` the header the
      client opened with; and the answer is the server's signature of the same. */
  lemma AcceptedMeans(c: Crypto, hash: Hash, x: Exchange, final: string) returns (signed: string, proof: Bytes)
    requires Laws(c) && Verdict(c, hash, x, final).Some?
    ensures exists b64 :: final == signed + ",p=" + b64 && c.dec(b64) == Some(proof)
    ensures LastSays(Split(signed, ','), "r=", x.nonce)
    ensures exists cbind :: LastSays(Split(signed, ','), "c=", cbind) && c.dec(cbind) == Some(c.utf8(x.gs2Header))
    ensures var message := c.utf8(x.clientFirstBare + "," + x.serverFirst + "," + signed);
            && |proof| == HashLen(hash)
            && c.h(hash, Xor(proof, c.hmac(hash, x.verifier.storedKey, message))) == x.verifier.storedKey
            && Verdict(c, hash, x, final) == Some("v=" + c.enc(c.hmac(hash, x.verifier.serverKey, message)))
  {
    hide RSplitOnce, LastFields, LastSays, Split, Xor;
    var (w, b64) := RSplitOnce(final, ",p=", |final|).value;
    signed, proof := w, c.dec(b64).value;
    RSplitMeans(final, ",p=", |final|);
    LastFieldsSay(Split(w, ','));
  }

  // ----- The exchange as a whole -------------------------------------------------------

  /** The server's state after it answered client-first. */
  function Begin(c: Crypto, cf: ClientFirst, v: Verifier, snonce: string): Exchange {
    var (first, full) := ServerFirst(c, cf.cnonce, v, snonce);
    Exchange(v, cf.clientFirstBare, first, cf.gs2Header, full)
  }

  lemma {:induction false} ParsedCountFits(c: Crypto, slots: Slots, parts: seq<string>)
    requires slots.iterations.Some? ==> slots.iterations.value <= U32_MAX
    requires TakeParts(c, slots, parts).Some?
    ensures var n := TakeParts(c, slots, parts).value.iterations; n.Some? ==> n.value <= U32_MAX
    decreases |parts|
  {
    if parts != [] {
      ParsedCountFits(c, TakePart(c, slots, parts[0]).value, parts[1..]);
    }
  }

  /** An honest client is always accepted: whenever the plaintext check would accept the
      password on the same stored verifier, so does the exchange, whatever the user
      name, the authorization identity and the nonces. */
  lemma HonestClientAccepted(c: Crypto, hash: Hash, encoded: string, password: string, cbflag: string,
                             authzid: string, user: string, cnonce: string, snonce: string)
    requires Laws(c) && VerifyPlain(c, hash, encoded, password)
    requires ',' !in cbflag && !("p" <= cbflag) && ',' !in authzid && ',' !in cnonce && ',' !in snonce
    ensures var v := VerifierOf(c, encoded).value;
            var bare := ClientFirstBare(user, cnonce);
            var cf := ParseClientFirst(Gs2(cbflag, authzid) + bare);
            && cf.Some? && cf.value.username == user
            && var x := Begin(c, cf.value, v, snonce);
               var final := HonestFinal(c, hash, password, Gs2(cbflag, authzid), bare, x.serverFirst);
               var signed := "c=" + c.enc(c.utf8(Gs2(cbflag, authzid))) + ",r=" + (cnonce + snonce);
               var message := c.utf8(bare + "," + x.serverFirst + "," + signed);
               && final.Some?
               && Verdict(c, hash, x, final.value) == Some("v=" + c.enc(c.hmac(hash, v.serverKey, message)))
  {
    hide Verdict, HonestFinal, ParseClientFirst, ClientFirstBare, VerifierOf, ClientKey;
    var v := VerifierOf(c, encoded).value;
    var gs2, bare := Gs2(cbflag, authzid), ClientFirstBare(user, cnonce);
    CountFits(c, encoded);
    ParseUndoesClientFirst(cbflag, authzid, user, cnonce);
    var x := Begin(c, ParseClientFirst(gs2 + bare).value, v, snonce);
    HonestProofAccepted(c, hash, x, password, cnonce, snonce);
  }

  lemma CountFits(c: Crypto, encoded: string)
    requires VerifierOf(c, encoded).Some?
    ensures VerifierOf(c, encoded).value.iterations <= U32_MAX
  {
    ParsedCountFits(c, EMPTY_SLOTS, Split(encoded, ','));
  }

  lemma HonestProofAccepted(c: Crypto, hash: Hash, x: Exchange, password: string, cnonce: string, snonce: string)
    requires Laws(c) && ',' !in cnonce && ',' !in snonce && x.nonce == cnonce + snonce
    requires x.verifier.iterations <= U32_MAX && x.serverFirst == ServerFirst(c, cnonce, x.verifier, snonce).0
    requires c.h(hash, ClientKey(c, hash, Salted(c, hash, password, x.verifier.salt,
            x.verifier.iterations))) == x.verifier.storedKey
    ensures var final := HonestFinal(c, hash, password, x.gs2Header, x.clientFirstBare, x.serverFirst);
            var signed := "c=" + c.enc(c.utf8(x.gs2Header)) + ",r=" + x.nonce;
            var message := c.utf8(x.clientFirstBare + "," + x.serverFirst + "," + signed);
            && final.Some?
            && Verdict(c, hash, x, final.value) == Some("v=" + c.enc(c.hmac(hash, x.verifier.serverKey, message)))
  {
    hide Verdict, ServerFirst, ReadServerFirst, Xor;
    ClientReadsServerFirst(c, cnonce, x.verifier, snonce);
    var signed := "c=" + c.enc(c.utf8(x.gs2Header)) + ",r=" + x.nonce;
    var message := c.utf8(x.clientFirstBare + "," + x.serverFirst + "," + signed);
    var key := ClientKey(c, hash, Salted(c, hash, password, x.verifier.salt, x.verifier.iterations));
    var mask := c.hmac(hash, x.verifier.storedKey, message);
    XorCancels(key, mask);
    FinalAcceptedIff(c, hash, x, x.gs2Header, x.nonce, Xor(key, mask));
    assert ClientFinal(c.enc(c.utf8(x.gs2Header)), x.nonce, c.enc(Xor(key, mask))) == signed + ",p=" + c.enc(Xor(key, mask));
  }

  /** Registration to login: the password a verifier was made for passes the plaintext
      check and the exchange, and the server's answer is the signature the client
      expects, so the client too knows whom it talks to. */
  lemma RegisteredPasswordLogsIn(c: Crypto, hash: Hash, password: string, iterations: nat, salt: Bytes,
                                 gs2: string, bare: string, cnonce: string, snonce: string, user: string)
    requires Laws(c) && iterations <= U32_MAX && ',' !in cnonce && ',' !in snonce
    ensures var encoded := Encode(c, Fresh(c, hash, password, iterations, salt));
            && VerifyPlain(c, hash, encoded, password)
            && var x := Begin(c, ClientFirst(user, gs2, bare, cnonce), VerifierOf(c, encoded).value, snonce);
               var final := HonestFinal(c, hash, password, gs2, bare, x.serverFirst);
               && final.Some? && Expected(c, hash, password, gs2, bare, x.serverFirst).Some?
               && Verdict(c, hash, x, final.value) == Expected(c, hash, password, gs2, bare, x.serverFirst)
  {
    hide Verdict, HonestFinal, ReadServerFirst, Encode, VerifierOf;
    var v := Fresh(c, hash, password, iterations, salt);
    ParseUndoesEncode(c, v);
    ClientReadsServerFirst(c, cnonce, v, snonce);
    var x := Begin(c, ClientFirst(user, gs2, bare, cnonce), v, snonce);
    HonestProofAccepted(c, hash, x, password, cnonce, snonce);
    assert bare + "," + x.serverFirst + "," + "c=" + c.enc(c.utf8(gs2)) + ",r=" + x.nonce
        == bare + "," + x.serverFirst + "," + ("c=" + c.enc(c.utf8(gs2)) + ",r=" + x.nonce);
  }

  /** The masked message, xored with the mask again, is the other operand. */
  lemma XorUndone(p: Bytes, a: Bytes)
    requires |p| == |a|
    ensures Xor(p, Xor(p, a)) == a
  {
    forall i | 0 <= i < |a| ensures Xor(p, Xor(p, a))[i] == a[i] {
      BitUndone(p[i], a[i]);
    }
  }

  lemma BitUndone(x: bv8, y: bv8)
    ensures x ^ (x ^ y) == y
  {
  }

  lemma XorDiffers(p: Bytes, a: Bytes, b: Bytes)
    requires |p| == |a| == |b| && Xor(p, a) == Xor(p, b)
    ensures a == b
  {
    hide Xor;
    XorUndone(p, a);
    XorUndone(p, b);
  }

  /** One client-final accepted in two exchanges on the same verifier belongs to the same
      nonce, header and server-first; and were the client-first messages different, the
      two messages signed would be a collision of the keyed hash, or what the proof
      unmasks to one of the hash. */
  lemma AcceptanceBinds(c: Crypto, hash: Hash, v: Verifier, cf: ClientFirst, snonce: string, cf': ClientFirst,
                        snonce': string, final: string) returns (signed: string, proof: Bytes)
    requires Laws(c)
    requires Verdict(c, hash, Begin(c, cf, v, snonce), final).Some? && Verdict(c, hash, Begin(c, cf', v, snonce'), final).Some?
    ensures exists b64 :: final == signed + ",p=" + b64 && c.dec(b64) == Some(proof)
    ensures cf.gs2Header == cf'.gs2Header && cf.cnonce + snonce == cf'.cnonce + snonce'
    ensures var first := ServerFirst(c, cf.cnonce, v, snonce).0;
            && first == ServerFirst(c, cf'.cnonce, v, snonce').0
            && (cf.clientFirstBare != cf'.clientFirstBare ==>
                  var m := c.utf8(cf.clientFirstBare + "," + first + "," + signed);
                  var m' := c.utf8(cf'.clientFirstBare + "," + first + "," + signed);
                  var mask, mask' := c.hmac(hash, v.storedKey, m), c.hmac(hash, v.storedKey, m');
                  && m != m'
                  && (|| mask == mask'
                      || (Xor(proof, mask) != Xor(proof, mask')
                          && c.h(hash, Xor(proof, mask)) == c.h(hash, Xor(proof, mask')))))
  {
    hide RSplitOnce, LastFields, Split, Xor, Numeral;
    var x, x' := Begin(c, cf, v, snonce), Begin(c, cf', v, snonce');
    var (w, b64) := RSplitOnce(final, ",p=", |final|).value;
    signed, proof := w, c.dec(b64).value;
    RSplitMeans(final, ",p=", |final|);
    assert x.serverFirst == x'.serverFirst;
    if cf.clientFirstBare != cf'.clientFirstBare {
      var tail := "," + x.serverFirst + "," + signed;
      if cf.clientFirstBare + tail == cf'.clientFirstBare + tail {
        SuffixCancels(cf.clientFirstBare, cf'.clientFirstBare, tail);
      }
      assert cf.clientFirstBare + "," + x.serverFirst + "," + signed == cf.clientFirstBare + tail;
      assert cf'.clientFirstBare + "," + x.serverFirst + "," + signed == cf'.clientFirstBare + tail;
      var mask := c.hmac(hash, v.storedKey, c.utf8(cf.clientFirstBare + tail));
      var mask' := c.hmac(hash, v.storedKey, c.utf8(cf'.clientFirstBare + tail));
      if Xor(proof, mask) == Xor(proof, mask') {
        XorDiffers(proof, mask, mask');
      }
    }
  }

  lemma SuffixCancels(a: string, b: string, tail: string)
    requires a + tail == b + tail
    ensures a == b
  {
    assert |a + tail| == |b + tail|;
    assert a == (a + tail)[..|a|] && b == (b + tail)[..|a|];
  }
}
