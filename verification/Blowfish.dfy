/** `CBlowFish`: tables and buffers updated in place. */
module Blowfish {
  import opened Common
  import opened BlowfishSpec
  import opened BlowfishLaws

  /** Eight bytes of a buffer. */
  function BlockAt(a: seq<bv8>, i: nat): Block
    requires i + 8 <= |a|
  {
    a[i..i + 8]
  }

  /** The buffer with eight bytes replaced. */
  function Splice(a: seq<bv8>, i: nat, b: Block): (r: seq<bv8>)
    requires i + 8 <= |a|
    ensures |r| == |a| && BlockAt(r, i) == b
  {
    a[..i] + b + a[i + 8..]
  }

  lemma SpliceTwice(a: seq<bv8>, i: nat, b: Block, c: Block)
    requires i + 8 <= |a|
    ensures Splice(Splice(a, i, b), i, c) == Splice(a, i, c)
  {
  }

  method WriteBlock(a: array<bv8>, i: nat, b: Block)
    requires i + 8 <= a.Length
    modifies a
    ensures a[..] == Splice(old(a[..]), i, b)
  {
    forall k | 0 <= k < 8 { a[i + k] := b[k]; }
  }

  /** `memcpy`. */
  method Copy(dst: array<bv8>, src: array<bv8>, n: nat)
    requires n <= src.Length && n <= dst.Length && dst != src
    modifies dst
    ensures dst[..] == src[..n] + old(dst[n..])
  {
    for i := 0 to n
      invariant dst[..i] == src[..i] && dst[i..] == old(dst[i..])
    {
      dst[i] := src[i];
      assert dst[..i + 1] == dst[..i] + [dst[i]];
      assert src[..i + 1] == src[..i] + [src[i]];
      assert old(dst[i..])[1..] == old(dst[i + 1..]);
      assert dst[i..][1..] == dst[i + 1..];
    }
    assert dst[..] == dst[..n] + dst[n..];
  }

  /** `memset`. */
  method Fill(dst: array<bv8>, from: nat, to: nat, v: bv8)
    requires from <= to <= dst.Length
    modifies dst
    ensures dst[..] == old(dst[..from]) + Repeat(to - from, v) + old(dst[to..])
  {
    for i := from to to
      invariant dst[..from] == old(dst[..from])
      invariant forall k :: from <= k < i ==> dst[k] == v
      invariant dst[i..] == old(dst[i..])
    {
      dst[i] := v;
      assert old(dst[i..])[1..] == old(dst[i + 1..]);
      assert dst[i..][1..] == dst[i + 1..];
    }
    assert dst[..] == dst[..from] + dst[from..to] + dst[to..];
  }

  // ---------- The loops over the blocks ----------

  /** Blocks before `i` are enciphered, the rest of the buffer is as it was. */
  ghost predicate Encoding(t: Tables, mode: Mode, all: seq<bv8>, n: nat, s: seq<bv8>, i: nat, prev: Block) {
    && Shaped(t) && n % 8 == 0 && i % 8 == 0 && i <= n <= |all|
    && |s| == |all| && s[i..] == all[i..]
    && s[..i] + EncBlocks(t, mode, all[i..n], prev) == EncBlocks(t, mode, all[..n], ZERO_BLOCK)
  }

  ghost predicate Decoding(t: Tables, mode: Mode, all: seq<bv8>, n: nat, s: seq<bv8>, i: nat, prev: Block) {
    && Shaped(t) && n % 8 == 0 && i % 8 == 0 && i <= n <= |all|
    && |s| == |all| && s[i..] == all[i..]
    && s[..i] + DecBlocks(t, mode, all[i..n], prev) == DecBlocks(t, mode, all[..n], ZERO_BLOCK)
  }

  lemma EncodingStarts(t: Tables, mode: Mode, all: seq<bv8>, n: nat)
    requires Shaped(t) && n % 8 == 0 && n <= |all|
    ensures Encoding(t, mode, all, n, all, 0, ZERO_BLOCK)
  {
    hide EncBlocks;
    assert all[0..n] == all[..n];
  }

  lemma DecodingStarts(t: Tables, mode: Mode, all: seq<bv8>, n: nat)
    requires Shaped(t) && n % 8 == 0 && n <= |all|
    ensures Decoding(t, mode, all, n, all, 0, ZERO_BLOCK)
  {
    hide DecBlocks;
    assert all[0..n] == all[..n];
  }

  lemma FirstBlock(t: Tables, mode: Mode, x: seq<bv8>, prev: Block)
    requires Shaped(t) && |x| % 8 == 0 && |x| > 0
    ensures var c := EncBlock(t, Chain(mode, BlockAt(x, 0), prev));
            EncBlocks(t, mode, x, prev) == c + EncBlocks(t, mode, x[8..], c)
  {
    hide EncBlock, Chain;
  }

  lemma FirstCipherBlock(t: Tables, mode: Mode, y: seq<bv8>, prev: Block)
    requires Shaped(t) && |y| % 8 == 0 && |y| > 0
    ensures DecBlocks(t, mode, y, prev)
            == Chain(mode, DecBlock(t, BlockAt(y, 0)), prev) + DecBlocks(t, mode, y[8..], BlockAt(y, 0))
  {
    hide DecBlock, Chain;
  }

  lemma Regroup(a: seq<bv8>, b: seq<bv8>, c: seq<bv8>)
    ensures a + (b + c) == a + b + c
  {
  }

  lemma SameBlock(s: seq<bv8>, all: seq<bv8>, n: nat, i: nat)
    requires |s| == |all| && i + 8 <= n <= |all| && s[i..] == all[i..]
    ensures BlockAt(s, i) == BlockAt(all[i..n], 0)
  {
    assert s[i..][..8] == s[i..i + 8];
  }

  lemma TailAfterBlock(s: seq<bv8>, all: seq<bv8>, n: nat, i: nat)
    requires |s| == |all| && i + 8 <= n <= |all| && s[i..] == all[i..]
    ensures s[i + 8..] == all[i + 8..] && all[i..n][8..] == all[i + 8..n]
  {
    assert s[i..][8..] == s[i + 8..] && all[i..][8..] == all[i + 8..];
  }

  lemma SpliceParts(s: seq<bv8>, i: nat, b: Block)
    requires i + 8 <= |s|
    ensures Splice(s, i, b)[..i + 8] == s[..i] + b && Splice(s, i, b)[i + 8..] == s[i + 8..]
  {
  }

  lemma {:induction false} EncodingStep(
    t: Tables, mode: Mode, all: seq<bv8>, n: nat, s: seq<bv8>, i: nat, prev: Block, c: Block)
    requires i + 8 <= n
    requires Encoding(t, mode, all, n, s, i, prev) && c == EncBlock(t, Chain(mode, BlockAt(s, i), prev))
    ensures Encoding(t, mode, all, n, Splice(s, i, c), i + 8, c)
  {
    hide EncBlocks, EncBlock, Chain, Splice, BlockAt;
    var rest := all[i..n];
    SameBlock(s, all, n, i);
    FirstBlock(t, mode, rest, prev);
    SpliceParts(s, i, c);
    TailAfterBlock(s, all, n, i);
    var more := EncBlocks(t, mode, rest[8..], c);
    Regroup(s[..i], c, more);
  }

  lemma {:induction false} DecodingStep(
    t: Tables, mode: Mode, all: seq<bv8>, n: nat, s: seq<bv8>, i: nat, prev: Block, c: Block, d: Block)
    requires i + 8 <= n
    requires Decoding(t, mode, all, n, s, i, prev) && c == BlockAt(s, i) && d == Chain(mode, DecBlock(t, c), prev)
    ensures Decoding(t, mode, all, n, Splice(s, i, d), i + 8, c)
  {
    hide DecBlocks, DecBlock, Chain, Splice, BlockAt;
    var rest := all[i..n];
    SameBlock(s, all, n, i);
    FirstCipherBlock(t, mode, rest, prev);
    SpliceParts(s, i, d);
    TailAfterBlock(s, all, n, i);
    var more := DecBlocks(t, mode, rest[8..], c);
    Regroup(s[..i], d, more);
  }

  lemma NoBlocks(t: Tables, mode: Mode, prev: Block)
    requires Shaped(t)
    ensures EncBlocks(t, mode, [], prev) == [] && DecBlocks(t, mode, [], prev) == []
  {
  }

  lemma EncodingEnds(t: Tables, mode: Mode, all: seq<bv8>, n: nat, s: seq<bv8>, prev: Block)
    requires Shaped(t) && n % 8 == 0 && n <= |all| && Encoding(t, mode, all, n, s, n, prev)
    ensures s == EncBlocks(t, mode, all[..n], ZERO_BLOCK) + all[n..]
  {
    NoBlocks(t, mode, prev);
    assert all[n..n] == [] && s == s[..n] + s[n..];
  }

  lemma DecodingEnds(t: Tables, mode: Mode, all: seq<bv8>, n: nat, s: seq<bv8>, prev: Block)
    requires Shaped(t) && n % 8 == 0 && n <= |all| && Decoding(t, mode, all, n, s, n, prev)
    ensures s == DecBlocks(t, mode, all[..n], ZERO_BLOCK) + all[n..]
  {
    NoBlocks(t, mode, prev);
    assert all[n..n] == [] && s == s[..n] + s[n..];
  }

  lemma MulAtLeast(d: int, n: nat)
    requires d >= 1
    ensures d * n >= n
  {
    assert d * n == (d - 1) * n + n;
    assert (d - 1) * n >= 0;
  }

  /** Quotient and remainder are unique. */
  lemma Remainder(a: nat, q: int, r: nat, n: nat)
    requires n > 0 && r < n && a == q * n + r
    ensures a % n == r
  {
    var d := a / n - q;
    assert d * n == r - a % n by { assert a == (a / n) * n + a % n; }
    if d >= 1 { MulAtLeast(d, n); }
    if d <= -1 { MulAtLeast(-d, n); }
    assert d == 0;
  }

  lemma CyclicIndex(a: nat, b: nat, n: nat)
    requires n > 0
    ensures (a % n + b) % n == (a + b) % n
  {
    var c := a % n + b;
    var q := a / n + c / n;
    assert a + b == q * n + c % n by {
      assert a == (a / n) * n + a % n;
      assert c == (c / n) * n + c % n;
      assert q * n == (a / n) * n + (c / n) * n;
    }
    Remainder(a + b, q, c % n, n);
  }

  lemma NoRounds(t: Tables, h: Halves)
    requires Shaped(t)
    ensures Up(t, 0, h) == h && Down(t, 0, h) == h
  {
  }

  /** Two rounds of the encipherment, as the pair of assignments computes them. */
  lemma EvenUp(t: Tables, n: nat, h: Halves)
    requires Shaped(t) && 2 <= n <= 16 && n % 2 == 0
    ensures var u := Up(t, n - 2, h);
            var r := Xor(u.r, Xor(F(t, u.l), t.p[n - 1]));
            Up(t, n, h) == Halves(Xor(u.l, Xor(F(t, r), t.p[n])), r)
  {
    hide F, Xor;
    assert Up(t, n, h) == Round(t, n, Up(t, n - 1, h));
  }

  /** Two rounds of the decipherment; its halves are named the other way round. */
  lemma EvenDown(t: Tables, n: nat, h: Halves)
    requires Shaped(t) && 2 <= n <= 16 && n % 2 == 0
    ensures var l := Xor(h.l, Xor(F(t, h.r), t.p[n]));
            Down(t, n, h) == Down(t, n - 2, Halves(l, Xor(h.r, Xor(F(t, l), t.p[n - 1]))))
  {
    hide F, Xor;
    assert Down(t, n, h) == Down(t, n - 1, Round(t, n, h));
  }

  /** Two entries of the S-boxes at a time. */
  lemma BoxesStep(t: Tables, k: nat, h: Halves)
    requires Shaped(t) && k < 1024 && k % 2 == 0
    ensures var e := Encipher(t, h); FillS(t, k, h) == FillS(t.(s := t.s[k := e.l][k + 1 := e.r]), k + 2, e)
  {
    hide Encipher;
  }

  lemma BoxesEnd(t: Tables, h: Halves)
    requires Shaped(t)
    ensures FillS(t, 1024, h) == (t, h)
  {
  }

  // ---------- The object ----------

  class CBlowFish {
    const init: Tables
    const pArray: array<bv32>
    const sBoxes: array<bv32>
    var mode: Mode

    ghost predicate Valid()
    {
      Shaped(init) && pArray.Length == 18 && sBoxes.Length == 1024 && pArray != sBoxes
    }

    function T(): Tables
      reads pArray, sBoxes
    {
      Tables(pArray[..], sBoxes[..])
    }

    /** `init` stands for the constant digit tables `bf_P` and `bf_S`. */
    constructor (init: Tables)
      requires Shaped(init)
      ensures Valid() && this.init == init && fresh(pArray) && fresh(sBoxes)
    {
      this.init := init;
      pArray := new bv32[18];
      sBoxes := new bv32[1024];
      mode := ECB;
    }

    /** `ROUND(Xr, Xl, odd); ROUND(Xl, Xr, even);` with the tables of the object. */
    method TwoRounds(l: bv32, r: bv32, odd: nat, even: nat) returns (l': bv32, r': bv32)
      requires Valid() && 1 <= odd <= 16 && 1 <= even <= 16
      ensures r' == Xor(r, Xor(F(T(), l), T().p[odd]))
      ensures l' == Xor(l, Xor(F(T(), r'), T().p[even]))
    {
      r' := Xor(r, Xor(F(T(), l), pArray[odd]));
      l' := Xor(l, Xor(F(T(), r'), pArray[even]));
    }

    /** Rounds `n - 1` and `n` of the encipherment of `h`. */
    method RoundsUp(l: bv32, r: bv32, n: nat, ghost h: Halves) returns (l': bv32, r': bv32)
      requires Valid() && 2 <= n <= 16 && n % 2 == 0 && Halves(l, r) == Up(T(), n - 2, h)
      ensures Halves(l', r') == Up(T(), n, h)
    {
      hide F, Xor, Up;
      l', r' := TwoRounds(l, r, n - 1, n);
      EvenUp(T(), n, h);
    }

    /** Rounds `n` and `n - 1` of a decipherment; its halves are named the other way round. */
    method RoundsDown(l: bv32, r: bv32, n: nat) returns (l': bv32, r': bv32)
      requires Valid() && 2 <= n <= 16 && n % 2 == 0
      ensures Down(T(), n - 2, Halves(r', l')) == Down(T(), n, Halves(r, l))
    {
      hide F, Xor, Down;
      l', r' := TwoRounds(l, r, n, n - 1);
      EvenDown(T(), n, Halves(r, l));
    }

    method BlowfishEncipher(l: bv32, r: bv32) returns (l': bv32, r': bv32)
      requires Valid()
      ensures Halves(l', r') == Encipher(T(), Halves(l, r))
    {
      hide F, Xor, Up;
      var xl, xr := Xor(l, pArray[0]), r;
      ghost var h := Halves(xl, xr);
      NoRounds(T(), h);
      xl, xr := RoundsUp(xl, xr, 2, h);
      xl, xr := RoundsUp(xl, xr, 4, h);
      xl, xr := RoundsUp(xl, xr, 6, h);
      xl, xr := RoundsUp(xl, xr, 8, h);
      xl, xr := RoundsUp(xl, xr, 10, h);
      xl, xr := RoundsUp(xl, xr, 12, h);
      xl, xr := RoundsUp(xl, xr, 14, h);
      xl, xr := RoundsUp(xl, xr, 16, h);
      xr := Xor(xr, pArray[17]);
      r' := xl;
      l' := xr;
    }

    method BlowfishDecipher(l: bv32, r: bv32) returns (l': bv32, r': bv32)
      requires Valid()
      ensures Halves(l', r') == Decipher(T(), Halves(l, r))
    {
      hide F, Xor, Down;
      var xl, xr := Xor(l, pArray[17]), r;
      xl, xr := RoundsDown(xl, xr, 16);
      xl, xr := RoundsDown(xl, xr, 14);
      xl, xr := RoundsDown(xl, xr, 12);
      xl, xr := RoundsDown(xl, xr, 10);
      xl, xr := RoundsDown(xl, xr, 8);
      xl, xr := RoundsDown(xl, xr, 6);
      xl, xr := RoundsDown(xl, xr, 4);
      xl, xr := RoundsDown(xl, xr, 2);
      NoRounds(T(), Halves(xr, xl));
      xr := Xor(xr, pArray[0]);
      l' := xr;
      r' := xl;
    }

    /** The loop over the subkeys. */
    method FillSubkeys() returns (l: bv32, r: bv32)
      requires Valid()
      modifies pArray
      ensures (T(), Halves(l, r)) == FillP(old(T()), 0, Halves(0, 0))
    {
      hide Encipher;
      l, r := 0, 0;
      var i := 0;
      while i < 18
        invariant i % 2 == 0 && 0 <= i <= 18
        invariant FillP(T(), i, Halves(l, r)) == FillP(old(T()), 0, Halves(0, 0))
      {
        ghost var t := T();
        l, r := BlowfishEncipher(l, r);
        pArray[i] := l;
        pArray[i + 1] := r;
        assert T() == t.(p := t.p[i := l][i + 1 := r]);
        i := i + 2;
      }
    }

    method LoadInit()
      requires Valid()
      modifies pArray, sBoxes
      ensures T() == init
    {
      for i := 0 to 18
        invariant pArray[..i] == init.p[..i]
      {
        pArray[i] := init.p[i];
        assert pArray[..i + 1] == pArray[..i] + [pArray[i]];
      }
      for i := 0 to 1024
        invariant pArray[..] == init.p && sBoxes[..i] == init.s[..i]
      {
        sBoxes[i] := init.s[i];
        assert sBoxes[..i + 1] == sBoxes[..i] + [sBoxes[i]];
      }
    }

    /** The key is read cyclically by a running index. */
    method AddKey(key: array<bv8>)
      requires Valid() && key.Length > 0
      modifies pArray
      ensures T() == old(T()).(p := MixKey(old(T()).p, key[..]))
      ensures forall i :: 0 <= i < 18 ==> MixedWith(old(pArray[i]), pArray[i], key[..], i)
    {
      hide Xor, Word, MixedWith;
      ghost var k := key[..];
      var n := key.Length;
      var j := 0;
      for i := 0 to 18
        invariant j == (4 * i) % n
        invariant forall m :: 0 <= m < i ==> pArray[m] == Xor(old(pArray[m]), KeyWord(k, m))
        invariant forall m :: i <= m < 18 ==> pArray[m] == old(pArray[m])
      {
        var w := Word(key[j], key[(j + 1) % n], key[(j + 2) % n], key[(j + 3) % n]);
        CyclicIndex(4 * i, 1, n);
        CyclicIndex(4 * i, 2, n);
        CyclicIndex(4 * i, 3, n);
        CyclicIndex(4 * i, 4, n);
        assert w == KeyWord(k, i);
        pArray[i] := Xor(pArray[i], w);
        j := (j + 4) % n;
      }
      assert pArray[..] == MixKey(old(pArray[..]), k);
      forall i | 0 <= i < 18 ensures MixedWith(old(pArray[i]), pArray[i], k, i) {
        MixedBytes(old(pArray[..]), k, i);
      }
    }

    method StorePair(k: nat, l: bv32, r: bv32)
      requires Valid() && k + 1 < 1024
      modifies sBoxes
      ensures T() == old(T()).(s := old(T()).s[k := l][k + 1 := r])
    {
      sBoxes[k] := l;
      sBoxes[k + 1] := r;
    }

    /** The nested loops over the S-boxes. */
    method FillBoxes(l0: bv32, r0: bv32)
      requires Valid()
      modifies sBoxes
      ensures T() == FillS(old(T()), 0, Halves(l0, r0)).0
    {
      hide Encipher, FillS;
      var l, r := l0, r0;
      for i := 0 to 4
        invariant FillS(T(), 256 * i, Halves(l, r)) == FillS(old(T()), 0, Halves(l0, r0))
      {
        var j := 0;
        while j < 256
          invariant j % 2 == 0 && 0 <= j <= 256
          invariant FillS(T(), 256 * i + j, Halves(l, r)) == FillS(old(T()), 0, Halves(l0, r0))
        {
          var k := 256 * i + j;
          BoxesStep(T(), k, Halves(l, r));
          l, r := BlowfishEncipher(l, r);
          StorePair(k, l, r);
          j := j + 2;
        }
      }
      BoxesEnd(T(), Halves(l, r));
    }

    /** `Initialize`: whatever the tables held before, they now hold the schedule of the key. */
    method Initialize(key: array<bv8>, mode: Mode)
      requires Valid() && key.Length > 0
      modifies this, pArray, sBoxes
      ensures Valid() && this.mode == mode
      ensures T() == Schedule(init, key[..])
    {
      this.mode := mode;
      LoadInit();
      AddKey(key);
      hide Encipher, MixKey, FillS, FillP;
      var l, r := FillSubkeys();
      FillBoxes(l, r);
    }

    method GetOutputLength(n: nat) returns (r: nat)
      requires n < TWO32
      ensures r == OutputLength(mode, n)
    {
      var m := if mode == CBC then (n + 1) % TWO32 else n;
      r := (m / 8 + (if m % 8 != 0 then 1 else 0)) * 8 % TWO32;
    }

    /** One block in place: byte order changed, enciphered, byte order changed back. */
    method EncipherAt(buffer: array<bv8>, i: nat)
      requires Valid() && i + 8 <= buffer.Length
      modifies buffer
      ensures buffer[..] == Splice(old(buffer[..]), i, EncBlock(T(), BlockAt(old(buffer[..]), i)))
    {
      hide Encipher, Load, Store;
      var h := Load(BlockAt(buffer[..], i));
      var l, r := BlowfishEncipher(h.l, h.r);
      WriteBlock(buffer, i, Store(Halves(l, r)));
    }

    method DecipherAt(buffer: array<bv8>, i: nat)
      requires Valid() && i + 8 <= buffer.Length
      modifies buffer
      ensures buffer[..] == Splice(old(buffer[..]), i, DecBlock(T(), BlockAt(old(buffer[..]), i)))
    {
      hide Decipher, Load, Store;
      var h := Load(BlockAt(buffer[..], i));
      var l, r := BlowfishDecipher(h.l, h.r);
      WriteBlock(buffer, i, Store(Halves(l, r)));
    }

    /** The body of the loop of `Encode`; returns the new chain value. */
    method EncodeBlock(buffer: array<bv8>, i: nat, prev: Block) returns (c: Block)
      requires Valid() && i + 8 <= buffer.Length
      modifies buffer
      ensures c == EncBlock(T(), Chain(mode, BlockAt(old(buffer[..]), i), prev))
      ensures buffer[..] == Splice(old(buffer[..]), i, c)
    {
      hide EncBlock, XorBlock;
      ghost var s := buffer[..];
      ghost var b := Chain(mode, BlockAt(s, i), prev);
      if mode == CBC {
        WriteBlock(buffer, i, XorBlock(BlockAt(buffer[..], i), prev));
      }
      assert BlockAt(buffer[..], i) == b;
      EncipherAt(buffer, i);
      c := BlockAt(buffer[..], i);
      SpliceTwice(s, i, b, c);
    }

    /** The body of the loop of `Decode`; the chain value is the cipher block just read. */
    method DecodeBlock(buffer: array<bv8>, i: nat, prev: Block) returns (c: Block)
      requires Valid() && i + 8 <= buffer.Length
      modifies buffer
      ensures c == BlockAt(old(buffer[..]), i)
      ensures buffer[..] == Splice(old(buffer[..]), i, Chain(mode, DecBlock(T(), c), prev))
    {
      hide DecBlock, XorBlock;
      ghost var s := buffer[..];
      c := BlockAt(buffer[..], i);
      DecipherAt(buffer, i);
      if mode == CBC {
        WriteBlock(buffer, i, XorBlock(BlockAt(buffer[..], i), prev));
        SpliceTwice(s, i, DecBlock(T(), c), XorBlock(DecBlock(T(), c), prev));
      }
    }

    /** The loop of `Encode`: block after block in place. */
    method EncodeLoop(output: array<bv8>, n: nat)
      requires Valid() && n % 8 == 0 && n <= output.Length
      modifies output
      ensures output[..] == EncBlocks(T(), mode, old(output[..n]), ZERO_BLOCK) + old(output[n..])
    {
      hide EncBlocks, EncBlock, Chain, Splice;
      ghost var all := output[..];
      var prev := ZERO_BLOCK;
      var i := 0;
      EncodingStarts(T(), mode, all, n);
      while i < n
        invariant i % 8 == 0 && 0 <= i <= n && output.Length == |all|
        invariant Encoding(T(), mode, all, n, output[..], i, prev)
      {
        ghost var s := output[..];
        ghost var was := prev;
        prev := EncodeBlock(output, i, prev);
        EncodingStep(T(), mode, all, n, s, i, was, prev);
        i := i + 8;
      }
      EncodingEnds(T(), mode, all, n, output[..], prev);
    }

    /** The copy and the padding at the start of `Encode`. */
    method Pad(input: array<bv8>, output: array<bv8>, size: nat) returns (outSize: nat)
      requires Fits(mode, size) && size <= input.Length && OutputLength(mode, size) <= output.Length
      modifies output
      ensures outSize == OutputLength(mode, size) && size <= outSize
      ensures output[..outSize] == Padded(mode, old(input[..size]))
      ensures output[outSize..] == old(output[outSize..])
    {
      OutputLengthFits(mode, size);
      ghost var x := input[..size];
      if input != output { Copy(output, input, size); }
      assert output[..size] == x;
      outSize := GetOutputLength(size);
      var k := outSize - size;
      Fill(output, size, outSize, PadByte(mode, k));
      assert output[..outSize] == x + Repeat(k, PadByte(mode, k));
    }

    /** `Encode`, for separate buffers and for one buffer encoded in place. */
    method Encode(input: array<bv8>, output: array<bv8>, size: nat) returns (outSize: nat)
      requires Valid() && Fits(mode, size) && size <= input.Length
      requires OutputLength(mode, size) <= output.Length
      modifies output
      ensures outSize == OutputLength(mode, size)
      ensures output[..outSize] == EncBlocks(T(), mode, Padded(mode, old(input[..size])), ZERO_BLOCK)
      ensures output[outSize..] == old(output[outSize..])
    {
      outSize := Pad(input, output, size);
      hide EncBlocks, Padded, OutputLength;
      EncodeLoop(output, outSize);
    }

    /** The loop of `Decode`. */
    method DecodeLoop(output: array<bv8>, size: nat) returns (n: nat)
      requires Valid() && Decodable(size) && RoundUp(size) <= output.Length
      modifies output
      ensures n == RoundUp(size)
      ensures output[..] == DecBlocks(T(), mode, old(output[..n]), ZERO_BLOCK) + old(output[n..])
    {
      hide DecBlocks, DecBlock, Chain, Splice, RoundUp;
      ghost var all := output[..];
      ghost var m := RoundUp(size);
      var prev := ZERO_BLOCK;
      n := 0;
      DecodingStarts(T(), mode, all, m);
      while n < size
        invariant n % 8 == 0 && 0 <= n <= m && output.Length == |all|
        invariant Decoding(T(), mode, all, m, output[..], n, prev)
      {
        ghost var s := output[..];
        ghost var was := prev;
        prev := DecodeBlock(output, n, prev);
        DecodingStep(T(), mode, all, m, s, n, was, prev, Chain(mode, DecBlock(T(), prev), was));
        n := (n + 8) % TWO32;
      }
      DecodingEnds(T(), mode, all, m, output[..], prev);
    }

    /** The end of `Decode` in CBC mode. */
    method DropPadding(output: array<bv8>, m: nat) returns (n: nat)
      requires 8 <= m <= output.Length && (m == output.Length ==> output[m - 1] != 0)
      modifies output
      ensures n == UnpaddedLength(old(output[..m])) && output[..n] == old(output[..n])
    {
      n := m;
      var k := output[n - 1] as int;
      if k <= 8 && output[n - k] as int == k {
        n := n - k;
        output[n] := 0;
      }
    }

    /**
     `Decode`. In CBC mode the last byte tells how much is padding; a zero there makes the source look
     one byte behind the blocks, which must then exist.
     */
    method Decode(input: array<bv8>, output: array<bv8>, size: nat) returns (n: nat)
      requires Valid() && Decodable(size) && size <= input.Length && RoundUp(size) <= output.Length
      requires mode == CBC ==> size > 0
      requires mode == CBC && RoundUp(size) == output.Length ==>
                 var y := input[..size] + output[size..RoundUp(size)];
                 DecBlocks(T(), CBC, y, ZERO_BLOCK)[RoundUp(size) - 1] != 0
      modifies output
      ensures var m := RoundUp(size);
              var x := DecBlocks(T(), mode, old(input[..size] + output[size..m]), ZERO_BLOCK);
              && n == (if mode == CBC then UnpaddedLength(x) else m)
              && output[..n] == x[..n]
    {
      hide DecBlocks, RoundUp, UnpaddedLength;
      ghost var m := RoundUp(size);
      ghost var y := input[..size] + output[size..m];
      if input != output { Copy(output, input, size); }
      assert output[..m] == y;
      n := DecodeLoop(output, size);
      ghost var x := DecBlocks(T(), mode, y, ZERO_BLOCK);
      assert output[..m] == x;
      if mode == CBC { n := DropPadding(output, n); }
    }

    /** A buffer encoded and decoded again in place: CBC gives the text and its length, ECB the padded text. */
    method EncodeAndDecode(buffer: array<bv8>, size: nat) returns (n: nat)
      requires Valid() && Fits(mode, size) && size <= buffer.Length && OutputLength(mode, size) <= buffer.Length
      modifies buffer
      ensures n == (if mode == CBC then size else OutputLength(mode, size))
      ensures buffer[..n] == Padded(mode, old(buffer[..size]))[..n] && buffer[..size] == old(buffer[..size])
    {
      hide EncBlocks, DecBlocks, UnpaddedLength, Padded, OutputLength, RoundUp;
      ghost var x := buffer[..size];
      OutputLengthFits(mode, size);
      ModeRoundTrip(T(), mode, x);
      var m := Encode(buffer, buffer, size);
      if mode == CBC { UnpadPadded(x); }
      assert buffer[..m] + buffer[m..m] == buffer[..m];
      n := Decode(buffer, buffer, m);
    }
  }
}
