/**
 The Blowfish cipher as functions: Feistel rounds, key schedule, block modes. The tables are values,
 so every law holds for any P-array and any S-boxes.
 */
module BlowfishSpec {
  import opened Common

  /** The 18 subkeys, and the four S-boxes of 256 words laid out one after the other. */
  datatype Tables = Tables(p: seq<bv32>, s: seq<bv32>)

  ghost predicate Shaped(t: Tables) { |t.p| == 18 && |t.s| == 1024 }

  /** The `k`-th byte of a word, the most significant first (`w.byte0` .. `w.byte3`). */
  function Byte0(x: bv32): bv8 { (x >> 24) as bv8 }
  function Byte1(x: bv32): bv8 { ((x >> 16) & 0xFF) as bv8 }
  function Byte2(x: bv32): bv8 { ((x >> 8) & 0xFF) as bv8 }
  function Byte3(x: bv32): bv8 { (x & 0xFF) as bv8 }

  function Word(a: bv8, b: bv8, c: bv8, d: bv8): bv32 {
    ((a as bv32) << 24) | ((b as bv32) << 16) | ((c as bv32) << 8) | (d as bv32)
  }

  lemma WordOfBytes(x: bv32)
    ensures Word(Byte0(x), Byte1(x), Byte2(x), Byte3(x)) == x
  {
  }

  lemma BytesOfWord(a: bv8, b: bv8, c: bv8, d: bv8)
    ensures Byte0(Word(a, b, c, d)) == a && Byte1(Word(a, b, c, d)) == b
    ensures Byte2(Word(a, b, c, d)) == c && Byte3(Word(a, b, c, d)) == d
  {
  }

  function Xor(a: bv32, b: bv32): bv32 { a ^ b }

  function Plus(a: bv32, b: bv32): bv32 { a + b }

  /** How `bf_F` combines the four entries. */
  function Combine(a: bv32, b: bv32, c: bv32, d: bv32): bv32 { Plus(Xor(Plus(a, b), c), d) }

  /** `bf_F`. */
  function F(t: Tables, x: bv32): bv32
    requires Shaped(t)
  {
    Combine(t.s[Byte0(x) as int], t.s[256 + Byte1(x) as int], t.s[512 + Byte2(x) as int], t.s[768 + Byte3(x) as int])
  }

  lemma XorTwice(a: bv32, b: bv32)
    ensures Xor(Xor(a, b), b) == a
  {
  }

  /** The two halves of a block. */
  datatype Halves = Halves(l: bv32, r: bv32)

  /** Round `n`: odd rounds change the right half, even rounds the left half. */
  function Round(t: Tables, n: nat, h: Halves): Halves
    requires Shaped(t) && 1 <= n <= 16
  {
    if n % 2 == 1 then h.(r := Xor(h.r, Xor(F(t, h.l), t.p[n]))) else h.(l := Xor(h.l, Xor(F(t, h.r), t.p[n])))
  }

  /** Rounds 1 to `n`. */
  function Up(t: Tables, n: nat, h: Halves): Halves
    requires Shaped(t) && n <= 16
  {
    if n == 0 then h else Round(t, n, Up(t, n - 1, h))
  }

  /** Rounds `n` down to 1. */
  function Down(t: Tables, n: nat, h: Halves): Halves
    requires Shaped(t) && n <= 16
  {
    if n == 0 then h else Down(t, n - 1, Round(t, n, h))
  }

  function Encipher(t: Tables, h: Halves): Halves
    requires Shaped(t)
  {
    var u := Up(t, 16, h.(l := Xor(h.l, t.p[0])));
    Halves(Xor(u.r, t.p[17]), u.l)
  }

  /** The rounds in reverse order on the swapped halves. */
  function Decipher(t: Tables, h: Halves): Halves
    requires Shaped(t)
  {
    var u := Down(t, 16, Halves(h.r, Xor(h.l, t.p[17])));
    Halves(Xor(u.l, t.p[0]), u.r)
  }

  /** A round undoes itself, whatever the round function. */
  lemma RoundTwice(t: Tables, n: nat, h: Halves)
    requires Shaped(t) && 1 <= n <= 16
    ensures Round(t, n, Round(t, n, h)) == h
  {
    hide F, Xor;
    if n % 2 == 1 { XorTwice(h.r, Xor(F(t, h.l), t.p[n])); } else { XorTwice(h.l, Xor(F(t, h.r), t.p[n])); }
  }

  lemma {:induction false} DownUndoesUp(t: Tables, n: nat, h: Halves)
    requires Shaped(t) && n <= 16
    ensures Down(t, n, Up(t, n, h)) == h
  {
    hide Round;
    if n > 0 {
      RoundTwice(t, n, Up(t, n - 1, h));
      DownUndoesUp(t, n - 1, h);
    }
  }

  lemma {:induction false} UpUndoesDown(t: Tables, n: nat, h: Halves)
    requires Shaped(t) && n <= 16
    ensures Up(t, n, Down(t, n, h)) == h
  {
    hide Round;
    if n > 0 {
      UpUndoesDown(t, n - 1, Round(t, n, h));
      RoundTwice(t, n, h);
    }
  }

  /** Decipher and encipher are inverse to each other, for every P-array and all S-boxes. */
  lemma DecipherEncipher(t: Tables, h: Halves)
    requires Shaped(t)
    ensures Decipher(t, Encipher(t, h)) == h
    ensures Encipher(t, Decipher(t, h)) == h
  {
    hide Up, Down, Xor;
    var h0 := h.(l := Xor(h.l, t.p[0]));
    var u := Up(t, 16, h0);
    XorTwice(u.r, t.p[17]);
    DownUndoesUp(t, 16, h0);
    XorTwice(h.l, t.p[0]);
    var g0 := Halves(h.r, Xor(h.l, t.p[17]));
    var v := Down(t, 16, g0);
    XorTwice(v.l, t.p[0]);
    UpUndoesDown(t, 16, g0);
    XorTwice(h.l, t.p[17]);
  }

  // ---------- Key schedule ----------

  /** The key read cyclically, four bytes at a time. */
  function KeyWord(key: seq<bv8>, i: nat): bv32
    requires |key| > 0
  {
    Word(key[(4 * i) % |key|], key[(4 * i + 1) % |key|], key[(4 * i + 2) % |key|], key[(4 * i + 3) % |key|])
  }

  function MixKey(p: seq<bv32>, key: seq<bv8>): (r: seq<bv32>)
    requires |key| > 0
    ensures |r| == |p|
  {
    seq(|p|, i requires 0 <= i < |p| => Xor(p[i], KeyWord(key, i)))
  }

  /** From `i` on, the subkeys are replaced by the running encipherment, two at a time. */
  function FillP(t: Tables, i: nat, h: Halves): (r: (Tables, Halves))
    requires Shaped(t) && i <= 18 && i % 2 == 0
    ensures Shaped(r.0)
    decreases 18 - i
  {
    if i == 18 then (t, h)
    else
      var h' := Encipher(t, h);
      FillP(t.(p := t.p[i := h'.l][i + 1 := h'.r]), i + 2, h')
  }

  function FillS(t: Tables, i: nat, h: Halves): (r: (Tables, Halves))
    requires Shaped(t) && i <= 1024 && i % 2 == 0
    ensures Shaped(r.0)
    decreases 1024 - i
  {
    if i == 1024 then (t, h)
    else
      var h' := Encipher(t, h);
      FillS(t.(s := t.s[i := h'.l][i + 1 := h'.r]), i + 2, h')
  }

  /** The tables a key produces from the initial tables: nothing else enters. */
  function Schedule(init: Tables, key: seq<bv8>): (t: Tables)
    requires Shaped(init) && |key| > 0
    ensures Shaped(t)
  {
    var p := FillP(init.(p := MixKey(init.p, key)), 0, Halves(0, 0));
    FillS(p.0, 0, p.1).0
  }

  // ---------- Blocks and modes ----------

  datatype Mode = ECB | CBC

  type Block = b: seq<bv8> | |b| == 8 witness [0, 0, 0, 0, 0, 0, 0, 0]

  const ZERO_BLOCK: Block := [0, 0, 0, 0, 0, 0, 0, 0]

  function Load(b: Block): Halves {
    Halves(Word(b[0], b[1], b[2], b[3]), Word(b[4], b[5], b[6], b[7]))
  }

  function Store(h: Halves): Block {
    [Byte0(h.l), Byte1(h.l), Byte2(h.l), Byte3(h.l), Byte0(h.r), Byte1(h.r), Byte2(h.r), Byte3(h.r)]
  }

  lemma LoadStore(h: Halves)
    ensures Load(Store(h)) == h
  {
    hide Word, Byte0, Byte1, Byte2, Byte3;
    WordOfBytes(h.l);
    WordOfBytes(h.r);
  }

  lemma StoreLoad(b: Block)
    ensures Store(Load(b)) == b
  {
    hide Word, Byte0, Byte1, Byte2, Byte3;
    BytesOfWord(b[0], b[1], b[2], b[3]);
    BytesOfWord(b[4], b[5], b[6], b[7]);
  }

  function EncBlock(t: Tables, b: Block): Block
    requires Shaped(t)
  {
    Store(Encipher(t, Load(b)))
  }

  function DecBlock(t: Tables, b: Block): Block
    requires Shaped(t)
  {
    Store(Decipher(t, Load(b)))
  }

  lemma DecEncBlock(t: Tables, b: Block)
    requires Shaped(t)
    ensures DecBlock(t, EncBlock(t, b)) == b
  {
    hide Load, Store, Encipher, Decipher;
    LoadStore(Encipher(t, Load(b)));
    DecipherEncipher(t, Load(b));
    StoreLoad(b);
  }

  function XorByte(x: bv8, y: bv8): bv8 { x ^ y }

  lemma XorByteTwice(x: bv8, y: bv8)
    ensures XorByte(XorByte(x, y), y) == x
  {
  }

  function XorBlock(a: Block, b: Block): Block {
    [XorByte(a[0], b[0]), XorByte(a[1], b[1]), XorByte(a[2], b[2]), XorByte(a[3], b[3]),
     XorByte(a[4], b[4]), XorByte(a[5], b[5]), XorByte(a[6], b[6]), XorByte(a[7], b[7])]
  }

  lemma XorBlockTwice(a: Block, b: Block)
    ensures XorBlock(XorBlock(a, b), b) == a
  {
    hide XorByte;
    XorByteTwice(a[0], b[0]); XorByteTwice(a[1], b[1]); XorByteTwice(a[2], b[2]); XorByteTwice(a[3], b[3]);
    XorByteTwice(a[4], b[4]); XorByteTwice(a[5], b[5]); XorByteTwice(a[6], b[6]); XorByteTwice(a[7], b[7]);
  }

  /** What the mode does to a plain block before it is enciphered, given the previous cipher block. */
  function Chain(mode: Mode, b: Block, prev: Block): Block {
    if mode == CBC then XorBlock(b, prev) else b
  }

  function EncBlocks(t: Tables, mode: Mode, x: seq<bv8>, prev: Block): (y: seq<bv8>)
    requires Shaped(t) && |x| % 8 == 0
    ensures |y| == |x|
    decreases |x|
  {
    if x == [] then []
    else
      var c := EncBlock(t, Chain(mode, x[..8], prev));
      c + EncBlocks(t, mode, x[8..], c)
  }

  function DecBlocks(t: Tables, mode: Mode, y: seq<bv8>, prev: Block): (x: seq<bv8>)
    requires Shaped(t) && |y| % 8 == 0
    ensures |x| == |y|
    decreases |y|
  {
    if y == [] then []
    else Chain(mode, DecBlock(t, y[..8]), prev) + DecBlocks(t, mode, y[8..], y[..8])
  }

  lemma EncDecBlock(t: Tables, b: Block)
    requires Shaped(t)
    ensures EncBlock(t, DecBlock(t, b)) == b
  {
    hide Load, Store, Encipher, Decipher;
    LoadStore(Decipher(t, Load(b)));
    DecipherEncipher(t, Load(b));
    StoreLoad(b);
  }

  /** Deciphering block by block undoes enciphering block by block, in both modes and from any chain value. */
  lemma {:induction false} DecEncBlocks(t: Tables, mode: Mode, x: seq<bv8>, prev: Block)
    requires Shaped(t) && |x| % 8 == 0
    ensures DecBlocks(t, mode, EncBlocks(t, mode, x, prev), prev) == x
    decreases |x|
  {
    hide EncBlock, DecBlock, XorBlock;
    if x != [] {
      var b := x[..8];
      var c := EncBlock(t, Chain(mode, b, prev));
      var y := EncBlocks(t, mode, x, prev);
      assert y[..8] == c && y[8..] == EncBlocks(t, mode, x[8..], c);
      DecEncBlock(t, Chain(mode, b, prev));
      XorBlockTwice(b, prev);
      DecEncBlocks(t, mode, x[8..], c);
      assert x == b + x[8..];
    }
  }

  /** And the other way round: every sequence of whole blocks is the encipherment of exactly one other. */
  lemma {:induction false} EncDecBlocks(t: Tables, mode: Mode, y: seq<bv8>, prev: Block)
    requires Shaped(t) && |y| % 8 == 0
    ensures EncBlocks(t, mode, DecBlocks(t, mode, y, prev), prev) == y
    decreases |y|
  {
    hide EncBlock, DecBlock, XorBlock;
    if y != [] {
      var c := y[..8];
      var b := Chain(mode, DecBlock(t, c), prev);
      var x := DecBlocks(t, mode, y, prev);
      assert x[..8] == b && x[8..] == DecBlocks(t, mode, y[8..], c);
      XorBlockTwice(DecBlock(t, c), prev);
      EncDecBlock(t, c);
      EncDecBlocks(t, mode, y[8..], c);
      assert y == c + y[8..];
    }
  }

  // ---------- Padding ----------

  /** The least multiple of 8 that is not below `m`. */
  function RoundUp(m: nat): (r: nat)
    ensures m <= r < m + 8 && r % 8 == 0
    ensures m % 8 == 0 ==> r == m
  {
    (m / 8 + (if m % 8 != 0 then 1 else 0)) * 8
  }

  /** `GetOutputLength`, in 32-bit unsigned arithmetic. */
  function OutputLength(mode: Mode, n: nat): (r: nat)
    requires n < TWO32
    ensures r % 8 == 0 && r < TWO32
  {
    var m := if mode == CBC then (n + 1) % TWO32 else n;
    RoundUp(m) % TWO32
  }

  /** Lengths whose padded length fits in 32 bits. */
  predicate Fits(mode: Mode, n: nat) { (if mode == CBC then n + 1 else n) <= TWO32 - 8 }

  /** The length is the least multiple of 8 that leaves room, exactly when that multiple fits in 32 bits. */
  lemma OutputLengthFits(mode: Mode, n: nat)
    requires n < TWO32
    ensures var need := if mode == CBC then n + 1 else n;
            var r := OutputLength(mode, n);
            (need <= r < need + 8) <==> Fits(mode, n)
    ensures Fits(mode, n) ==> OutputLength(mode, n) == RoundUp(if mode == CBC then n + 1 else n)
  {
    hide RoundUp;
  }

  /** The largest lengths wrap around to zero. */
  lemma OutputLengthWraps()
    ensures OutputLength(CBC, TWO32 - 1) == 0 && OutputLength(ECB, TWO32 - 7) == 0
  {
  }

  /** Lengths whose number of bytes in whole blocks fits in 32 bits. */
  predicate Decodable(n: nat) { RoundUp(n) <= TWO32 - 8 }

  /** The block counter of `Decode` after `k` turns, in 32-bit unsigned arithmetic. */
  function Counter(k: nat): nat { 8 * k % TWO32 }

  lemma CounterAligned(k: nat)
    ensures Counter(k) <= TWO32 - 8
  {
    var q := 8 * k / TWO32;
    assert Counter(k) == 8 * (k - q * (TWO32 / 8));
  }

  /** The loop of `Decode` ends exactly for those lengths: past them its counter wraps around for ever. */
  lemma DecodeLengthFits(n: nat)
    requires n < TWO32
    ensures (exists k: nat :: n <= Counter(k)) <==> Decodable(n)
  {
    if Decodable(n) {
      assert n <= Counter(RoundUp(n) / 8);
    }
    forall k: nat ensures Counter(k) <= TWO32 - 8 { CounterAligned(k); }
  }

  /** A length on which the loop does not end. */
  lemma DecodeNeverEnds()
    ensures forall k: nat :: Counter(k) < TWO32 - 7
  {
    DecodeLengthFits(TWO32 - 7);
  }

  function Repeat(k: nat, v: bv8): (r: seq<bv8>)
    ensures |r| == k && forall i :: 0 <= i < k ==> r[i] == v
  {
    seq(k, _ => v)
  }

  function PadByte(mode: Mode, k: nat): bv8
    requires k <= 8
  {
    if mode == CBC then k as bv8 else 0
  }

  /** The plain text filled up to whole blocks: with zeros, or with the padding length itself (RFC 5652, section 6.3). */
  function Padded(mode: Mode, x: seq<bv8>): (r: seq<bv8>)
    requires Fits(mode, |x|)
    ensures |r| == OutputLength(mode, |x|) && x <= r
  {
    OutputLengthFits(mode, |x|);
    var k := OutputLength(mode, |x|) - |x|;
    x + Repeat(k, PadByte(mode, k))
  }

  /** What `Decode` makes of the deciphered bytes in CBC mode: the length it returns. */
  function UnpaddedLength(out: seq<bv8>): (n: nat)
    requires |out| > 0
    ensures n <= |out|
  {
    var k := out[|out| - 1] as int;
    if k == 0 then |out|
    else if k <= 8 && k <= |out| && out[|out| - k] as int == k then |out| - k
    else |out|
  }

  lemma SmallByte(k: nat)
    requires k <= 8
    ensures (k as bv8) as int == k
  {
  }

  /** In CBC mode the padding is recognised and exactly the plain text and its length come back. */
  lemma UnpadPadded(x: seq<bv8>)
    requires Fits(CBC, |x|)
    ensures var r := Padded(CBC, x); |r| > 0 && UnpaddedLength(r) == |x| && r[..|x|] == x && r[|r| - 1] != 0
  {
    OutputLengthFits(CBC, |x|);
    var r := Padded(CBC, x);
    var k := |r| - |x|;
    SmallByte(k);
    assert r[|r| - 1] == k as bv8 && r[|r| - k] == k as bv8;
  }

  /** Padding, enciphering and deciphering again gives the padded text back, and in CBC mode the text itself. */
  lemma ModeRoundTrip(t: Tables, mode: Mode, x: seq<bv8>)
    requires Shaped(t) && Fits(mode, |x|)
    ensures var out := DecBlocks(t, mode, EncBlocks(t, mode, Padded(mode, x), ZERO_BLOCK), ZERO_BLOCK);
            && out == Padded(mode, x)
            && out[..|x|] == x
            && (mode == CBC ==> UnpaddedLength(out) == |x|)
  {
    hide EncBlocks, DecBlocks, UnpaddedLength;
    DecEncBlocks(t, mode, Padded(mode, x), ZERO_BLOCK);
    if mode == CBC { UnpadPadded(x); }
  }
}
