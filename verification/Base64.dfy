/**
 The hand-written base64 codec, which server/upm-server/src/util.rs and
 crates/upm-core/src/ratchet.rs both contain (section 4 of RFC 4648).

 Here is what the codec computes, on numbers; Base64Loops has the source's loops.
 */
module Base64 {
  import opened Wrappers

  type Byte = x: int | 0 <= x < 256

  const UPPER := "ABCDEFGHIJKLMNOPQRSTUVWXYZ"
  const LOWER := "abcdefghijklmnopqrstuvwxyz"
  const DIGITS := "0123456789"
  const ALPHABET: string := UPPER + LOWER + DIGITS + "+/"

  function Symbol(i: int): char
    requires 0 <= i < 64
  {
    if i < 26 then ('A' as int + i) as char
    else if i < 52 then ('a' as int + (i - 26)) as char
    else if i < 62 then ('0' as int + (i - 52)) as char
    else if i == 62 then '+' else '/'
  }

  /** The table the source indexes. */
  lemma SymbolIsTabulated(i: int)
    requires 0 <= i < 64
    ensures |ALPHABET| == 64 && ALPHABET[i] == Symbol(i)
  {
    if i < 26 {
      assert ALPHABET[i] == UPPER[i];
    } else if i < 52 {
      assert ALPHABET[i] == LOWER[i - 26];
    } else if i < 62 {
      assert ALPHABET[i] == DIGITS[i - 52];
    }
  }

  function Value(c: char): Option<int> {
    if 'A' <= c <= 'Z' then Some(c as int - 'A' as int)
    else if 'a' <= c <= 'z' then Some(c as int - 'a' as int + 26)
    else if '0' <= c <= '9' then Some(c as int - '0' as int + 52)
    else if c == '+' then Some(62)
    else if c == '/' then Some(63)
    else None
  }

  lemma SymbolValue(i: int)
    requires 0 <= i < 64
    ensures Value(Symbol(i)) == Some(i)
    ensures Symbol(i) != '='
  {
  }

  function Min(a: nat, b: nat): nat {
    if a < b then a else b
  }

  // ---- encoding ---------------------------------------------------------------

  predicate IsChunk(b: seq<Byte>) {
    1 <= |b| <= 3
  }

  /** The 24 bits of a chunk, missing bytes as zeros. */
  function Group(b: seq<Byte>): (n: int)
    requires IsChunk(b)
    ensures 0 <= n < 0x100_0000
  {
    var b0: int, b1: int, b2: int := b[0], if |b| > 1 then b[1] else 0, if |b| > 2 then b[2] else 0;
    b0 * 0x1_0000 + b1 * 0x100 + b2
  }

  function EncodeChunk(b: seq<Byte>): string
    requires IsChunk(b)
  {
    var n := Group(b);
    [Symbol(n / 0x4_0000 % 64), Symbol(n / 0x1000 % 64),
     if |b| > 1 then Symbol(n / 0x40 % 64) else '=',
     if |b| > 2 then Symbol(n % 64) else '=']
  }

  function Encode(data: seq<Byte>): string {
    if data == [] then "" else EncodeChunk(data[..Min(3, |data|)]) + Encode(data[Min(3, |data|)..])
  }

  lemma EncodeFrom(data: seq<Byte>, i: nat)
    requires i < |data|
    ensures var m := Min(3, |data| - i);
            Encode(data[i..]) == EncodeChunk(data[i..i + m]) + Encode(data[i + m..])
  {
    hide EncodeChunk;
    var m := Min(3, |data| - i);
    assert data[i..][..m] == data[i..i + m] && data[i..][m..] == data[i + m..];
  }

  // ---- decoding -------------------------------------------------------------------

  function Clean(input: string): string {
    if input == "" then "" else (if input[0] == '=' then "" else [input[0]]) + Clean(input[1..])
  }

  predicate InAlphabet(s: string) {
    forall c :: c in s ==> Value(c).Some?
  }

  /** The bits of up to four symbols, the first one highest. */
  function Bits(s: string): int
    requires 1 <= |s| <= 4 && InAlphabet(s)
  {
    Value(s[0]).value * 0x4_0000 + (if |s| > 1 then Value(s[1]).value * 0x1000 else 0)
    + (if |s| > 2 then Value(s[2]).value * 0x40 else 0) + (if |s| > 3 then Value(s[3]).value else 0)
  }

  function DecodeChunk(s: string): seq<Byte>
    requires 1 <= |s| <= 4 && InAlphabet(s)
  {
    var n := Bits(s);
    [n / 0x1_0000 % 256] + (if |s| > 2 then [n / 0x100 % 256] else []) + (if |s| > 3 then [n % 256] else [])
  }

  function DecodeClean(s: string): seq<Byte>
    requires InAlphabet(s)
  {
    if s == "" then [] else DecodeChunk(s[..Min(4, |s|)]) + DecodeClean(s[Min(4, |s|)..])
  }

  function Decode(input: string): Option<seq<Byte>> {
    if InAlphabet(Clean(input)) then Some(DecodeClean(Clean(input))) else None
  }

  lemma DecodeFrom(s: string, i: nat)
    requires i < |s| && InAlphabet(s)
    ensures var m := Min(4, |s| - i);
            && InAlphabet(s[i..]) && InAlphabet(s[i..i + m]) && InAlphabet(s[i + m..])
            && DecodeClean(s[i..]) == DecodeChunk(s[i..i + m]) + DecodeClean(s[i + m..])
  {
    hide DecodeChunk, Value;
    var m := Min(4, |s| - i);
    assert s[i..][..m] == s[i..i + m] && s[i..][m..] == s[i + m..];
  }

  // ---- the codec -------------------------------------------------------------------

  /** The four symbol positions carry the group's bits, six each. */
  lemma GroupFields(n: int)
    requires 0 <= n < 0x100_0000
    ensures n / 0x4_0000 % 64 * 0x4_0000 + n / 0x1000 % 64 * 0x1000 + n / 0x40 % 64 * 0x40 + n % 64 == n
  {
    var p := n / 0x40;
    var q := p / 0x40;
    assert n / 0x1000 == q && n / 0x4_0000 == q / 0x40;
  }

  lemma GroupBytes(b0: Byte, b1: Byte, b2: Byte)
    ensures var n: int := (b0 as int) * 0x1_0000 + (b1 as int) * 0x100 + b2 as int;
            n / 0x1_0000 % 256 == b0 && n / 0x100 % 256 == b1 && n % 256 == b2
  {
  }

  lemma CleanChunk(b: seq<Byte>)
    requires IsChunk(b)
    ensures Clean(EncodeChunk(b)) == EncodeChunk(b)[..|b| + 1]
    ensures InAlphabet(EncodeChunk(b)[..|b| + 1])
  {
    var n, e := Group(b), EncodeChunk(b);
    SymbolValue(n / 0x4_0000 % 64);
    SymbolValue(n / 0x1000 % 64);
    SymbolValue(n / 0x40 % 64);
    SymbolValue(n % 64);
    CleanFour(e[0], e[1], e[2], e[3]);
  }

  lemma CleanFront(c: char, s: string)
    ensures Clean([c] + s) == (if c == '=' then "" else [c]) + Clean(s)
  {
  }

  lemma CleanFour(a: char, b: char, c: char, d: char)
    requires a != '=' && b != '='
    ensures Clean([a, b, c, d]) == [a, b] + (if c == '=' then [] else [c]) + (if d == '=' then [] else [d])
  {
    CleanFront(a, [b, c, d]);
    CleanFront(b, [c, d]);
    CleanFront(c, [d]);
    CleanFront(d, "");
    assert [a, b, c, d] == [a] + [b, c, d] && [b, c, d] == [b] + [c, d] && [c, d] == [c] + [d] && [d] == [d] + "";
  }

  lemma BitsOfSymbols(i: int, j: int, k: int, l: int, len: nat)
    requires 0 <= i < 64 && 0 <= j < 64 && 0 <= k < 64 && 0 <= l < 64 && 2 <= len <= 4
    requires len < 4 ==> l == 0
    requires len < 3 ==> k == 0
    ensures var s := [Symbol(i), Symbol(j), Symbol(k), Symbol(l)][..len];
            InAlphabet(s) && Bits(s) == i * 0x4_0000 + j * 0x1000 + k * 0x40 + l
  {
    SymbolValue(i);
    SymbolValue(j);
    SymbolValue(k);
    SymbolValue(l);
  }

  lemma ChunkRoundTrip(b: seq<Byte>)
    requires IsChunk(b)
    ensures var s := Clean(EncodeChunk(b));
            |s| == |b| + 1 && InAlphabet(s) && DecodeChunk(s) == b
    ensures |EncodeChunk(b)| == 4
  {
    hide Symbol, Value;
    var n := Group(b);
    var i, j, k, l := n / 0x4_0000 % 64, n / 0x1000 % 64, n / 0x40 % 64, n % 64;
    CleanChunk(b);
    BitsOfSymbols(i, j, k, l, |b| + 1);
    assert EncodeChunk(b)[..|b| + 1] == [Symbol(i), Symbol(j), Symbol(k), Symbol(l)][..|b| + 1];
    GroupFields(n);
    GroupBytes(b[0], if |b| > 1 then b[1] else 0, if |b| > 2 then b[2] else 0);
  }

  lemma {:induction false} CleanConcat(a: string, b: string)
    ensures Clean(a + b) == Clean(a) + Clean(b)
  {
    if a == "" {
      assert a + b == b;
    } else {
      assert (a + b)[1..] == a[1..] + b;
      CleanConcat(a[1..], b);
    }
  }

  lemma DecodePrefix(s: string, t: string)
    requires InAlphabet(s) && InAlphabet(t) && 1 <= |s| <= 4 && (|s| == 4 || t == "")
    ensures InAlphabet(s + t) && DecodeClean(s + t) == DecodeChunk(s) + DecodeClean(t)
  {
  }

  lemma {:induction false} CleanRoundTrip(x: seq<Byte>)
    ensures InAlphabet(Clean(Encode(x))) && DecodeClean(Clean(Encode(x))) == x
    ensures |Encode(x)| == (|x| + 2) / 3 * 4
  {
    hide EncodeChunk, DecodeChunk;
    if x != [] {
      var head, rest := x[..Min(3, |x|)], x[Min(3, |x|)..];
      ChunkRoundTrip(head);
      CleanRoundTrip(rest);
      CleanConcat(EncodeChunk(head), Encode(rest));
      DecodePrefix(Clean(EncodeChunk(head)), Clean(Encode(rest)));
    }
  }

  /** Every byte sequence survives the codec, in four characters for every three bytes begun. */
  lemma RoundTrip(x: seq<Byte>)
    ensures Decode(Encode(x)) == Some(x)
    ensures |Encode(x)| == (|x| + 2) / 3 * 4
  {
    CleanRoundTrip(x);
  }

  function DecodeFixed(n: nat, input: string): Option<seq<Byte>> {
    match Decode(input)
    case None => None
    case Some(bytes) => if |bytes| == n then Some(bytes) else None
  }

  /** A fixed-length field accepts an encoding exactly when it has that length, and returns the bytes. */
  lemma FixedRoundTrip(n: nat, x: seq<Byte>)
    ensures DecodeFixed(n, Encode(x)) == if |x| == n then Some(x) else None
  {
    RoundTrip(x);
  }

  /** Decoding is lenient: padding may stand anywhere, and nothing else outside the alphabet is let in. */
  lemma {:induction false} DecodableIff(input: string)
    ensures Decode(input).Some? <==> forall c :: c in input ==> c == '=' || Value(c).Some?
    ensures forall c :: c in Clean(input) <==> c in input && c != '='
  {
    if input != "" {
      DecodableIff(input[1..]);
      assert input == [input[0]] + input[1..];
    }
  }

  lemma FourDigits(a: int, b: int, c: int, d: int)
    requires 0 <= a < 64 && 0 <= b < 64 && 0 <= c < 64 && 0 <= d < 64
    ensures var n := a * 0x4_0000 + b * 0x1000 + c * 0x40 + d;
            a == n / 0x4_0000 % 64 && b == n / 0x1000 % 64 && c == n / 0x40 % 64 && d == n % 64
  {
  }

  lemma OneChunk(b: seq<Byte>, i: int, j: int, k: int, l: int)
    requires IsChunk(b) && 0 <= i < 64 && 0 <= j < 64 && 0 <= k < 64 && 0 <= l < 64
    requires Group(b) == i * 0x4_0000 + j * 0x1000 + k * 0x40 + l
    ensures Encode(b) == [Symbol(i), Symbol(j), if |b| > 1 then Symbol(k) else '=', if |b| > 2 then Symbol(l) else '=']
  {
    hide *;
    EncodedAlone(b);
    ChunkSymbols(b, i, j, k, l);
  }

  lemma EncodedAlone(b: seq<Byte>)
    requires IsChunk(b)
    ensures Encode(b) == EncodeChunk(b)
  {
    hide EncodeChunk;
    assert b[..|b|] == b && b[|b|..] == [];
  }

  lemma ChunkSymbols(b: seq<Byte>, i: int, j: int, k: int, l: int)
    requires IsChunk(b) && 0 <= i < 64 && 0 <= j < 64 && 0 <= k < 64 && 0 <= l < 64
    requires Group(b) == i * 0x4_0000 + j * 0x1000 + k * 0x40 + l
    ensures EncodeChunk(b)
         == [Symbol(i), Symbol(j), if |b| > 1 then Symbol(k) else '=', if |b| > 2 then Symbol(l) else '=']
  {
    hide Symbol, Group;
    FourDigits(i, j, k, l);
  }

  /** Test vectors of section 10 of RFC 4648: the encodings of "f", "fo", "foo" and "bar". */
  lemma KnownEncodings()
    ensures Encode([0x66]) == "Zg==" && Encode([0x66, 0x6F]) == "Zm8="
    ensures Encode([0x66, 0x6F, 0x6F]) == "Zm9v" && Encode([0x62, 0x61, 0x72]) == "YmFy"
  {
    hide Encode;
    OneChunk([0x66], 25, 32, 0, 0);
    OneChunk([0x66, 0x6F], 25, 38, 60, 0);
    OneChunk([0x66, 0x6F, 0x6F], 25, 38, 61, 47);
    OneChunk([0x62, 0x61, 0x72], 24, 38, 5, 50);
  }
}
