/**
 The loops of the base64 codec (server/upm-server/src/util.rs:26-79): they work on 32-bit words
 with shifts, masks and `|`, and are proved to compute the functions of Base64.
 */
module Base64Loops {
  import opened Wrappers
  import opened Base64

  // ---- words of 32 bits --------------------------------------------------------

  function Num(w: bv32): int {
    w as int
  }

  function Widened(b: bv8): bv32 {
    b as bv32
  }

  /** The machine byte of this value, counted up from zero. */
  function AsByte(b: Byte): bv8 {
    if b == 0 then 0 else AsByte(b - 1) + 1
  }

  function Word(b: Byte): bv32 {
    Widened(AsByte(b))
  }

  function Six(w: bv32): bv32 {
    w & 0x3F
  }

  function Eight(w: bv32): bv32 {
    w & 0xFF
  }

  predicate Fits(n: bv32) {
    n & 0xFF_FFFF == n
  }

  function Sextet(n: bv32, shift: bv5): bv32 {
    Six(n >> shift)
  }

  /** What the cast of `n >> shift` to a byte keeps. */
  function Octet(n: bv32, shift: bv5): bv32 {
    Eight(n >> shift)
  }

  function OfSextets(a: bv32, b: bv32, c: bv32, d: bv32): bv32 {
    (Six(a) << 18) | (Six(b) << 12) | (Six(c) << 6) | Six(d)
  }

  function OfOctets(a: bv32, b: bv32, c: bv32): bv32 {
    (Eight(a) << 16) | (Eight(b) << 8) | Eight(c)
  }

  /** Fields joined by `|` do not overlap: the word is their weighted sum. */
  lemma SixBitFields(a: bv32, b: bv32, c: bv32, d: bv32)
    ensures Num(((a & 0x3F) << 18) | ((b & 0x3F) << 12) | ((c & 0x3F) << 6) | (d & 0x3F))
         == Num(a & 0x3F) * 0x4_0000 + Num(b & 0x3F) * 0x1000 + Num(c & 0x3F) * 0x40 + Num(d & 0x3F)
  {
  }

  lemma EightBitFields(a: bv32, b: bv32, c: bv32)
    ensures Num(((a & 0xFF) << 16) | ((b & 0xFF) << 8) | (c & 0xFF))
         == Num(a & 0xFF) * 0x1_0000 + Num(b & 0xFF) * 0x100 + Num(c & 0xFF)
  {
  }

  lemma SextetsAdd(a: bv32, b: bv32, c: bv32, d: bv32)
    ensures Num(OfSextets(a, b, c, d))
         == Num(Six(a)) * 0x4_0000 + Num(Six(b)) * 0x1000 + Num(Six(c)) * 0x40 + Num(Six(d))
  {
    hide Num;
    SixBitFields(a, b, c, d);
  }

  lemma SextetsFit(a: bv32, b: bv32, c: bv32, d: bv32)
    ensures Fits(OfSextets(a, b, c, d))
  {
  }

  lemma OctetsAdd(a: bv32, b: bv32, c: bv32)
    ensures Num(OfOctets(a, b, c)) == Num(Eight(a)) * 0x1_0000 + Num(Eight(b)) * 0x100 + Num(Eight(c))
  {
    hide Num;
    EightBitFields(a, b, c);
  }

  lemma OctetsFit(a: bv32, b: bv32, c: bv32)
    ensures Fits(OfOctets(a, b, c))
  {
  }

  lemma SextetsOf(n: bv32)
    requires Fits(n)
    ensures n == OfSextets(Sextet(n, 18), Sextet(n, 12), Sextet(n, 6), Sextet(n, 0))
    ensures forall shift :: Six(Sextet(n, shift)) == Sextet(n, shift)
  {
  }

  lemma OctetsOf(n: bv32)
    requires Fits(n)
    ensures n == OfOctets(Octet(n, 16), Octet(n, 8), Octet(n, 0))
    ensures forall shift :: Eight(Octet(n, shift)) == Octet(n, shift)
  {
  }

  lemma Masked(w: bv32)
    ensures 0 <= Num(Six(w)) < 0x40 && 0 <= Num(Eight(w)) < 0x100
  {
  }

  /** The encoder's masked shifts are the base-64 digits of the group. */
  lemma SextetsAreDigits(n: bv32)
    requires Fits(n)
    ensures Num(Sextet(n, 18)) == Num(n) / 0x4_0000 % 64 && Num(Sextet(n, 12)) == Num(n) / 0x1000 % 64
    ensures Num(Sextet(n, 6)) == Num(n) / 0x40 % 64 && Num(Sextet(n, 0)) == Num(n) % 64
  {
    hide *;
    SextetsOf(n);
    var a, b, c, d := Sextet(n, 18), Sextet(n, 12), Sextet(n, 6), Sextet(n, 0);
    SextetsAdd(a, b, c, d);
    Masked(a);
    Masked(b);
    Masked(c);
    Masked(d);
    FourDigits(Num(a), Num(b), Num(c), Num(d));
  }

  /** The decoder's truncated shifts are the base-256 digits of the group. */
  lemma OctetsAreDigits(n: bv32)
    requires Fits(n)
    ensures Num(Octet(n, 16)) == Num(n) / 0x1_0000 % 256 && Num(Octet(n, 8)) == Num(n) / 0x100 % 256
    ensures Num(Octet(n, 0)) == Num(n) % 256
  {
    hide *;
    OctetsOf(n);
    var a, b, c := Octet(n, 16), Octet(n, 8), Octet(n, 0);
    OctetsAdd(a, b, c);
    Masked(a);
    Masked(b);
    Masked(c);
    GroupBytes(Num(a), Num(b), Num(c));
  }

  lemma WordIs(b: Byte)
    ensures Num(Word(b)) == b
  {
    hide Num, Widened, AsByte;
    ByteIs(b);
  }

  lemma {:induction false} ByteIs(b: Byte)
    ensures Num(Widened(AsByte(b))) == b
  {
    hide Num, Widened;
    if b == 0 {
      NothingIsZero();
    } else {
      ByteIs(b - 1);
      OneMore(AsByte(b - 1));
    }
  }

  lemma NothingIsZero()
    ensures Num(Widened(0)) == 0
  {
  }

  lemma OneMore(x: bv8)
    requires Num(Widened(x)) < 255
    ensures Num(Widened(x + 1)) == Num(Widened(x)) + 1
  {
  }

  lemma WordFits(b: Byte)
    ensures Eight(Word(b)) == Word(b) && (b < 64 ==> Six(Word(b)) == Word(b))
  {
    WordIs(b);
    hide AsByte;
    SmallByte(AsByte(b));
  }

  lemma SmallByte(x: bv8)
    ensures Eight(Widened(x)) == Widened(x) && (Num(Widened(x)) < 64 ==> Six(Widened(x)) == Widened(x))
  {
  }

  // ---- encoding ---------------------------------------------------------------

  function Tabulated(n: bv32, shift: bv5): (c: char)
    ensures 0 <= Num(Sextet(n, shift)) < 64 && c == Symbol(Num(Sextet(n, shift)))
  {
    Masked(n >> shift);
    SymbolIsTabulated(Num(Sextet(n, shift)));
    ALPHABET[Num(Sextet(n, shift))]
  }

  /** The three bytes of a chunk as the encoder joins them. */
  function Joined(b0: Byte, b1: Byte, b2: Byte): bv32 {
    (Word(b0) << 16) | (Word(b1) << 8) | Word(b2)
  }

  lemma JoinedOctets(x: bv32, y: bv32, z: bv32)
    ensures (Eight(x) << 16) | (Eight(y) << 8) | Eight(z) == OfOctets(x, y, z)
  {
  }

  lemma JoinedIs(b0: Byte, b1: Byte, b2: Byte)
    ensures Joined(b0, b1, b2) == OfOctets(Word(b0), Word(b1), Word(b2))
  {
    hide Word;
    WordFits(b0);
    WordFits(b1);
    WordFits(b2);
    JoinedOctets(Word(b0), Word(b1), Word(b2));
  }

  lemma JoinedGroup(b0: Byte, b1: Byte, b2: Byte)
    ensures Fits(Joined(b0, b1, b2))
    ensures Num(Joined(b0, b1, b2)) == (b0 as int) * 0x1_0000 + (b1 as int) * 0x100 + b2 as int
  {
    hide *;
    JoinedIs(b0, b1, b2);
    WordIs(b0);
    WordIs(b1);
    WordIs(b2);
    WordFits(b0);
    WordFits(b1);
    WordFits(b2);
    OctetsAdd(Word(b0), Word(b1), Word(b2));
    OctetsFit(Word(b0), Word(b1), Word(b2));
  }

  lemma EncodeEmpty()
    ensures Encode([]) == ""
  {
  }

  method EncodeBuffer(data: seq<Byte>) returns (out: string)
    ensures out == Encode(data)
  {
    hide EncodeChunk, Encode, Tabulated;
    out := "";
    EncodeEmpty();
    assert data[0..] == data;
    var i := 0;
    while i < |data|
      invariant 0 <= i <= |data|
      invariant out + Encode(data[i..]) == Encode(data)
    {
      var chunk := data[i..i + Min(3, |data| - i)];
      EncodeFrom(data, i);
      var s := PushChunk(out, chunk);
      assert s + Encode(data[i + |chunk|..]) == out + (EncodeChunk(chunk) + Encode(data[i + |chunk|..]));
      out := s;
      i := i + |chunk|;
    }
    assert data[i..] == [];
  }

  lemma TabulatedDigits(n: bv32)
    requires Fits(n)
    ensures Tabulated(n, 18) == Symbol(Num(n) / 0x4_0000 % 64) && Tabulated(n, 12) == Symbol(Num(n) / 0x1000 % 64)
    ensures Tabulated(n, 6) == Symbol(Num(n) / 0x40 % 64) && Tabulated(n, 0) == Symbol(Num(n) % 64)
  {
    hide *;
    SextetsAreDigits(n);
  }

  /** The four characters of a chunk, as the loop looks them up. */
  lemma TabulatedChunk(chunk: seq<Byte>, b1: Byte, b2: Byte)
    requires IsChunk(chunk)
    requires b1 == (if |chunk| > 1 then chunk[1] else 0) && b2 == (if |chunk| > 2 then chunk[2] else 0)
    ensures var n := Joined(chunk[0], b1, b2);
            EncodeChunk(chunk)
            == [Tabulated(n, 18)] + [Tabulated(n, 12)] + [if |chunk| > 1 then Tabulated(n, 6) else '=']
               + [if |chunk| > 2 then Tabulated(n, 0) else '=']
  {
    hide Num, Joined, Symbol, Tabulated, Fits;
    JoinedGroup(chunk[0], b1, b2);
    TabulatedDigits(Joined(chunk[0], b1, b2));
    assert Num(Joined(chunk[0], b1, b2)) == Group(chunk);
  }

  /** The loop body: the chunk's four characters, taken from the table and pushed one by one. */
  method PushChunk(before: string, chunk: seq<Byte>) returns (out: string)
    requires IsChunk(chunk)
    ensures out == before + EncodeChunk(chunk)
  {
    hide EncodeChunk, Joined, Tabulated;
    var b1, b2 := if |chunk| > 1 then chunk[1] else 0, if |chunk| > 2 then chunk[2] else 0;
    var n := Joined(chunk[0], b1, b2);
    TabulatedChunk(chunk, b1, b2);
    out := before + [Tabulated(n, 18)];
    out := out + [Tabulated(n, 12)];
    out := out + [if |chunk| > 1 then Tabulated(n, 6) else '='];
    out := out + [if |chunk| > 2 then Tabulated(n, 0) else '='];
  }

  // ---- decoding -------------------------------------------------------------------

  method CleanBuffer(input: string) returns (clean: string)
    ensures clean == Clean(input)
  {
    clean := "";
    for k := 0 to |input|
      invariant clean + Clean(input[k..]) == Clean(input)
    {
      assert input[k..][0] == input[k] && input[k..][1..] == input[k + 1..];
      if input[k] != '=' {
        clean := clean + [input[k]];
      }
    }
  }

  method DecodeBuffer(input: string) returns (r: Option<seq<Byte>>)
    ensures r == Decode(input)
  {
    var clean := CleanBuffer(input);
    for k := 0 to |clean|
      invariant forall j :: 0 <= j < k ==> Value(clean[j]).Some?
    {
      if Value(clean[k]).None? {
        assert clean[k] in clean;
        return None;
      }
    }
    var out := DecodeSymbols(clean);
    r := Some(out);
  }

  method DecodeSymbols(clean: string) returns (out: seq<Byte>)
    requires InAlphabet(clean)
    ensures out == DecodeClean(clean)
  {
    hide DecodeChunk, InAlphabet;
    out := [];
    var i := 0;
    while i < |clean|
      invariant 0 <= i <= |clean|
      invariant InAlphabet(clean[i..])
      invariant out + DecodeClean(clean[i..]) == DecodeClean(clean)
    {
      var chunk := clean[i..i + Min(4, |clean| - i)];
      DecodeFrom(clean, i);
      var s := PushBytes(out, chunk);
      assert s + DecodeClean(clean[i + |chunk|..]) == out + (DecodeChunk(chunk) + DecodeClean(clean[i + |chunk|..]));
      out := s;
      i := i + |chunk|;
    }
  }

  /** The word of symbol `i`, once the first `j` have been read. */
  function Read(s: string, j: nat, i: nat): bv32
    requires j <= |s| && InAlphabet(s)
  {
    if i < j then Word(Value(s[i]).value) else 0
  }

  function Gathered(s: string, j: nat): bv32
    requires j <= |s| && InAlphabet(s)
  {
    OfSextets(Read(s, j, 0), Read(s, j, 1), Read(s, j, 2), Read(s, j, 3))
  }

  /** The decoder's or-assignment of symbol `i`. */
  function OrInto(n: bv32, w: bv32, i: nat): bv32
    requires i < 4
  {
    n | (w << (18 - 6 * i))
  }

  lemma NothingGathered()
    ensures OfSextets(0, 0, 0, 0) == 0
  {
  }

  lemma OrFirst(a: bv32)
    ensures OrInto(OfSextets(0, 0, 0, 0), Six(a), 0) == OfSextets(a, 0, 0, 0)
  {
  }

  lemma OrSecond(a: bv32, b: bv32)
    ensures OrInto(OfSextets(a, 0, 0, 0), Six(b), 1) == OfSextets(a, b, 0, 0)
  {
  }

  lemma OrThird(a: bv32, b: bv32, c: bv32)
    ensures OrInto(OfSextets(a, b, 0, 0), Six(c), 2) == OfSextets(a, b, c, 0)
  {
  }

  lemma OrFourth(a: bv32, b: bv32, c: bv32, d: bv32)
    ensures OrInto(OfSextets(a, b, c, 0), Six(d), 3) == OfSextets(a, b, c, d)
  {
  }

  lemma ReadFits(s: string, j: nat, i: nat)
    requires j <= |s| && InAlphabet(s)
    ensures Six(Read(s, j, i)) == Read(s, j, i)
    ensures Num(Read(s, j, i)) == if i < j then Value(s[i]).value else 0
  {
    hide Num, Word;
    if i < j {
      WordIs(Value(s[i]).value);
      WordFits(Value(s[i]).value);
    } else {
      Zero();
    }
  }

  lemma Zero()
    ensures Num(0) == 0
  {
  }

  /** Or-ing the next symbol in puts it in its own place. */
  lemma OrNext(s: string, j: nat)
    requires j < |s| <= 4 && InAlphabet(s)
    ensures OrInto(Gathered(s, j), Word(Value(s[j]).value), j) == Gathered(s, j + 1)
  {
    hide Word, OfSextets, OrInto, Six;
    var a, b, c, d := Read(s, j + 1, 0), Read(s, j + 1, 1), Read(s, j + 1, 2), Read(s, j + 1, 3);
    ReadFits(s, j + 1, j);
    match j
    case 0 => OrFirst(a);
    case 1 => OrSecond(a, b);
    case 2 => OrThird(a, b, c);
    case 3 => OrFourth(a, b, c, d);
  }

  /** The or-ed symbols are the number that they spell. */
  lemma GatheredBits(s: string)
    requires 1 <= |s| <= 4 && InAlphabet(s)
    ensures Num(Gathered(s, |s|)) == Bits(s)
  {
    hide Num, Word, OfSextets, Read;
    var m := |s|;
    ReadFits(s, m, 0);
    ReadFits(s, m, 1);
    ReadFits(s, m, 2);
    ReadFits(s, m, 3);
    SextetsAdd(Read(s, m, 0), Read(s, m, 1), Read(s, m, 2), Read(s, m, 3));
  }

  /** The loop body: the symbols of a chunk are or-ed into one word and its bytes pushed. */
  method PushBytes(before: seq<Byte>, chunk: string) returns (out: seq<Byte>)
    requires 1 <= |chunk| <= 4 && InAlphabet(chunk)
    ensures out == before + DecodeChunk(chunk)
  {
    hide Num, Word, Octet, OfSextets, OrInto, Fits;
    NothingGathered();
    var n: bv32 := 0;
    for j := 0 to |chunk|
      invariant n == Gathered(chunk, j)
    {
      assert chunk[j] in chunk;
      OrNext(chunk, j);
      n := OrInto(n, Word(Value(chunk[j]).value), j);
    }
    GatheredBits(chunk);
    SextetsFit(Read(chunk, |chunk|, 0), Read(chunk, |chunk|, 1), Read(chunk, |chunk|, 2), Read(chunk, |chunk|, 3));
    OctetsAreDigits(n);
    out := before + [Num(Octet(n, 16))];
    if |chunk| > 2 {
      out := out + [Num(Octet(n, 8))];
    }
    if |chunk| > 3 {
      out := out + [Num(Octet(n, 0))];
    }
  }
}
