/**
 What the definitions of the cipher mean, said without them: the textbook form of the rounds, how the
 round function depends on each S-box, which key bytes go where, how the tables chain, and what the two
 modes do to each block.
 */
module BlowfishLaws {
  import opened Common
  import opened BlowfishSpec

  // ---------- Words ----------

  /** A word is its bytes, the most significant first. */
  lemma WordValue(a: bv8, b: bv8, c: bv8, d: bv8)
    ensures Word(a, b, c, d)
            == (a as bv32) * 0x1000000 + (b as bv32) * 0x10000 + (c as bv32) * 0x100 + (d as bv32)
  {
  }

  // Equations of word arithmetic, first on the operators and then on their names.

  function Minus(a: bv32, b: bv32): bv32 { a - b }

  lemma SumDifference(y: bv32, d: bv32, e: bv32)
    ensures Minus(y + d, y + e) == Minus(d, e) && Minus(y + d, d) == y
  {
  }

  lemma PlusDifference(y: bv32, d: bv32, e: bv32)
    ensures Minus(Plus(y, d), Plus(y, e)) == Minus(d, e) && Minus(Plus(y, d), d) == y
  {
    hide Minus;
    SumDifference(y, d, e);
  }

  lemma PlusCommutes(a: bv32, b: bv32)
    ensures Plus(a, b) == Plus(b, a)
  {
  }

  lemma XorCommutes(a: bv32, b: bv32)
    ensures Xor(a, b) == Xor(b, a)
  {
  }

  lemma XorRegroups(a: bv32, b: bv32, c: bv32)
    ensures Xor(a, Xor(b, c)) == Xor(Xor(a, b), c)
  {
  }

  lemma XorReorders(a: bv32, b: bv32, c: bv32)
    ensures Xor(a, Xor(b, c)) == Xor(Xor(b, a), c)
  {
    hide Xor;
    XorRegroups(a, b, c);
    XorCommutes(a, b);
  }

  lemma XorDifference(y: bv32, d: bv32, e: bv32)
    ensures Xor(Xor(y, d), Xor(y, e)) == Xor(d, e)
  {
    hide Xor;
    XorCommutes(y, d);
    XorRegroups(d, y, Xor(y, e));
    XorCommutes(y, Xor(y, e));
    XorCommutes(y, e);
    XorTwice(e, y);
  }

  // ---------- The rounds ----------

  /** Round `n` as the algorithm was published: mix in a subkey, apply the round function, swap. */
  function PublishedRound(t: Tables, n: nat, g: Halves): Halves
    requires Shaped(t) && 1 <= n <= 16
  {
    var l := Xor(g.l, t.p[n - 1]);
    Halves(Xor(F(t, l), g.r), l)
  }

  function Published(t: Tables, n: nat, h: Halves): Halves
    requires Shaped(t) && n <= 16
  {
    if n == 0 then h else PublishedRound(t, n, Published(t, n - 1, h))
  }

  /** Where the rounds of the source are by then: not swapped, and one subkey ahead. */
  function Ahead(t: Tables, n: nat, g: Halves): Halves
    requires Shaped(t) && n <= 16
  {
    if n % 2 == 0 then Halves(Xor(g.l, t.p[n]), g.r) else Halves(g.r, Xor(g.l, t.p[n]))
  }

  lemma RoundIsPublished(t: Tables, n: nat, g: Halves)
    requires Shaped(t) && 1 <= n <= 16
    ensures Round(t, n, Ahead(t, n - 1, g)) == Ahead(t, n, PublishedRound(t, n, g))
  {
    hide F, Xor;
    XorReorders(g.r, F(t, Xor(g.l, t.p[n - 1])), t.p[n]);
  }

  lemma {:induction false} RoundsArePublished(t: Tables, n: nat, h: Halves)
    requires Shaped(t) && n <= 16
    ensures Up(t, n, h.(l := Xor(h.l, t.p[0]))) == Ahead(t, n, Published(t, n, h))
  {
    hide F, Xor, Round, PublishedRound;
    if n > 0 {
      hide Ahead;
      RoundsArePublished(t, n - 1, h);
      RoundIsPublished(t, n, Published(t, n - 1, h));
    }
  }

  /** Enciphering is sixteen published rounds, the last swap undone, and the last two subkeys mixed in. */
  lemma EncipherIsPublished(t: Tables, h: Halves)
    requires Shaped(t)
    ensures var g := Published(t, 16, h); Encipher(t, h) == Halves(Xor(g.r, t.p[17]), Xor(g.l, t.p[16]))
  {
    hide Up, Published, Xor;
    RoundsArePublished(t, 16, h);
  }

  // ---------- The round function ----------

  /** The two tables agree except in one of the four boxes. */
  ghost predicate AgreeOutside(t: Tables, u: Tables, box: nat) {
    Shaped(t) && Shaped(u) && forall i :: 0 <= i < 1024 && !(256 * box <= i < 256 * box + 256) ==> t.s[i] == u.s[i]
  }

  lemma EntriesOf(t: Tables, a: bv8, b: bv8, c: bv8, d: bv8)
    requires Shaped(t)
    ensures F(t, Word(a, b, c, d))
            == Combine(t.s[a as int], t.s[256 + b as int], t.s[512 + c as int], t.s[768 + d as int])
  {
    hide Word, Byte0, Byte1, Byte2, Byte3, Combine;
    BytesOfWord(a, b, c, d);
  }

  /** How the result answers to a change of one entry, the other three fixed. */
  lemma Entry3(a: bv32, b: bv32, c: bv32, d: bv32, d': bv32)
    ensures Minus(Combine(a, b, c, d), Combine(a, b, c, d')) == Minus(d, d')
  {
    hide Minus, Plus, Xor;
    PlusDifference(Xor(Plus(a, b), c), d, d');
  }

  lemma Entry2(a: bv32, b: bv32, c: bv32, c': bv32, d: bv32)
    ensures Xor(Minus(Combine(a, b, c, d), d), Minus(Combine(a, b, c', d), d)) == Xor(c, c')
  {
    hide Minus, Plus, Xor;
    PlusDifference(Xor(Plus(a, b), c), d, d);
    PlusDifference(Xor(Plus(a, b), c'), d, d);
    XorDifference(Plus(a, b), c, c');
  }

  lemma WithoutEntries23(a: bv32, b: bv32, c: bv32, d: bv32)
    ensures Xor(Minus(Combine(a, b, c, d), d), c) == Plus(a, b)
  {
    hide Minus, Plus, Xor;
    PlusDifference(Xor(Plus(a, b), c), d, d);
    XorTwice(Plus(a, b), c);
  }

  lemma Entry1(a: bv32, b: bv32, b': bv32, c: bv32, d: bv32)
    ensures Minus(Xor(Minus(Combine(a, b, c, d), d), c), Xor(Minus(Combine(a, b', c, d), d), c)) == Minus(b, b')
  {
    hide Minus, Combine, Plus, Xor;
    WithoutEntries23(a, b, c, d);
    WithoutEntries23(a, b', c, d);
    PlusDifference(a, b, b');
  }

  lemma Entry0(a: bv32, a': bv32, b: bv32, c: bv32, d: bv32)
    ensures Minus(Xor(Minus(Combine(a, b, c, d), d), c), Xor(Minus(Combine(a', b, c, d), d), c)) == Minus(a, a')
  {
    hide Minus, Combine, Plus, Xor;
    WithoutEntries23(a, b, c, d);
    WithoutEntries23(a', b, c, d);
    PlusCommutes(a, b);
    PlusCommutes(a', b);
    PlusDifference(b, a, a');
  }

  lemma NoEntries()
    ensures Combine(0, 0, 0, 0) == 0
  {
  }

  /** Box 3 is added, at the lowest byte. */
  lemma Box3(t: Tables, u: Tables, a: bv8, b: bv8, c: bv8, d: bv8)
    requires AgreeOutside(t, u, 3)
    ensures Minus(F(t, Word(a, b, c, d)), F(u, Word(a, b, c, d))) == Minus(t.s[768 + d as int], u.s[768 + d as int])
  {
    hide F, Word, Combine, Minus;
    EntriesOf(t, a, b, c, d);
    EntriesOf(u, a, b, c, d);
    Entry3(t.s[a as int], t.s[256 + b as int], t.s[512 + c as int], t.s[768 + d as int], u.s[768 + d as int]);
  }

  /** The result without the entry of box 3. */
  function Without3(t: Tables, a: bv8, b: bv8, c: bv8, d: bv8): bv32
    requires Shaped(t)
  {
    Minus(F(t, Word(a, b, c, d)), t.s[768 + d as int])
  }

  /** Box 2 is mixed in before, at the second lowest byte. */
  lemma Box2(t: Tables, u: Tables, a: bv8, b: bv8, c: bv8, d: bv8)
    requires AgreeOutside(t, u, 2)
    ensures Xor(Without3(t, a, b, c, d), Without3(u, a, b, c, d)) == Xor(t.s[512 + c as int], u.s[512 + c as int])
  {
    hide F, Word, Combine, Minus, Xor;
    EntriesOf(t, a, b, c, d);
    EntriesOf(u, a, b, c, d);
    Entry2(t.s[a as int], t.s[256 + b as int], t.s[512 + c as int], u.s[512 + c as int], t.s[768 + d as int]);
  }

  /** The result without the entries of boxes 3 and 2. */
  function Without23(t: Tables, a: bv8, b: bv8, c: bv8, d: bv8): bv32
    requires Shaped(t)
  {
    Xor(Without3(t, a, b, c, d), t.s[512 + c as int])
  }

  /** Box 1 is added before that, at the second highest byte. */
  lemma Box1(t: Tables, u: Tables, a: bv8, b: bv8, c: bv8, d: bv8)
    requires AgreeOutside(t, u, 1)
    ensures Minus(Without23(t, a, b, c, d), Without23(u, a, b, c, d))
            == Minus(t.s[256 + b as int], u.s[256 + b as int])
  {
    hide F, Word, Combine, Minus, Xor;
    EntriesOf(t, a, b, c, d);
    EntriesOf(u, a, b, c, d);
    Entry1(t.s[a as int], t.s[256 + b as int], u.s[256 + b as int], t.s[512 + c as int], t.s[768 + d as int]);
  }

  /** And so is box 0, at the highest byte. */
  lemma Box0(t: Tables, u: Tables, a: bv8, b: bv8, c: bv8, d: bv8)
    requires AgreeOutside(t, u, 0)
    ensures Minus(Without23(t, a, b, c, d), Without23(u, a, b, c, d)) == Minus(t.s[a as int], u.s[a as int])
  {
    hide F, Word, Combine, Minus, Xor;
    EntriesOf(t, a, b, c, d);
    EntriesOf(u, a, b, c, d);
    Entry0(t.s[a as int], u.s[a as int], t.s[256 + b as int], t.s[512 + c as int], t.s[768 + d as int]);
  }

  /** Boxes of zeros give zero. */
  lemma EmptyBoxes(t: Tables, a: bv8, b: bv8, c: bv8, d: bv8)
    requires Shaped(t) && forall i :: 0 <= i < 1024 ==> t.s[i] == 0
    ensures F(t, Word(a, b, c, d)) == 0
  {
    hide F, Word, Combine;
    EntriesOf(t, a, b, c, d);
    NoEntries();
  }

  // ---------- The key ----------

  lemma MixedAway(x: bv32, y: bv32)
    ensures Xor(x, y) ^ x == y
  {
  }

  /** The two words differ, byte by byte, by the key bytes number `4 * i` and following, counted around. */
  ghost predicate MixedWith(before: bv32, after: bv32, key: seq<bv8>, i: nat)
    requires |key| > 0
  {
    var w, n := after ^ before, |key|;
    && Byte0(w) == key[(4 * i) % n] && Byte1(w) == key[(4 * i + 1) % n]
    && Byte2(w) == key[(4 * i + 2) % n] && Byte3(w) == key[(4 * i + 3) % n]
  }

  /** Mixing changes byte `k` of subkey `i` by the key byte number `4 * i + k`. */
  lemma MixedBytes(p: seq<bv32>, key: seq<bv8>, i: nat)
    requires |key| > 0 && i < |p|
    ensures MixedWith(p[i], MixKey(p, key)[i], key, i)
  {
    hide Xor, Word, Byte0, Byte1, Byte2, Byte3;
    var n := |key|;
    MixedAway(p[i], KeyWord(key, i));
    BytesOfWord(key[(4 * i) % n], key[(4 * i + 1) % n], key[(4 * i + 2) % n], key[(4 * i + 3) % n]);
  }

  /** The key byte that byte `m` of the subkeys is mixed with. */
  function KeyByte(key: seq<bv8>, m: nat): bv8
    requires |key| > 0
  {
    key[m % |key|]
  }

  lemma OwnByte(key: seq<bv8>, m: nat)
    requires m < |key|
    ensures KeyByte(key, m) == key[m]
  {
    assert m % |key| == m;
  }

  lemma {:induction false} SameSubkeySameBytes(p: seq<bv32>, a: seq<bv8>, b: seq<bv8>, m: nat)
    requires |p| == 18 && |a| > 0 && |b| > 0 && MixKey(p, a) == MixKey(p, b) && m < 72
    ensures KeyByte(a, m) == KeyByte(b, m)
  {
    hide MixKey, Byte0, Byte1, Byte2, Byte3;
    var i := m / 4;
    MixedBytes(p, a, i);
    MixedBytes(p, b, i);
    assert m == 4 * i || m == 4 * i + 1 || m == 4 * i + 2 || m == 4 * i + 3;
  }

  /** Two keys give the same mixed subkeys exactly when they agree, read around, in the first 72 bytes. */
  lemma {:induction false} MixedSubkeys(p: seq<bv32>, a: seq<bv8>, b: seq<bv8>)
    requires |p| == 18 && |a| > 0 && |b| > 0
    ensures MixKey(p, a) == MixKey(p, b) <==> forall m: nat :: m < 72 ==> KeyByte(a, m) == KeyByte(b, m)
  {
    if MixKey(p, a) == MixKey(p, b) {
      forall m: nat | m < 72 ensures KeyByte(a, m) == KeyByte(b, m) { SameSubkeySameBytes(p, a, b, m); }
    }
    if forall m: nat :: m < 72 ==> KeyByte(a, m) == KeyByte(b, m) {
      hide Word, Xor;
      forall i | 0 <= i < 18 ensures MixKey(p, a)[i] == MixKey(p, b)[i] {
        assert KeyByte(a, 4 * i) == KeyByte(b, 4 * i) && KeyByte(a, 4 * i + 1) == KeyByte(b, 4 * i + 1);
        assert KeyByte(a, 4 * i + 2) == KeyByte(b, 4 * i + 2) && KeyByte(a, 4 * i + 3) == KeyByte(b, 4 * i + 3);
      }
    }
  }

  /** So different keys of one length up to 72 give different subkeys. */
  lemma {:induction false} DifferentKeys(p: seq<bv32>, a: seq<bv8>, b: seq<bv8>)
    requires |p| == 18 && 0 < |a| == |b| <= 72 && a != b
    ensures MixKey(p, a) != MixKey(p, b)
  {
    hide MixKey, KeyByte;
    var m :| 0 <= m < |a| && a[m] != b[m];
    OwnByte(a, m);
    OwnByte(b, m);
    if MixKey(p, a) == MixKey(p, b) { SameSubkeySameBytes(p, a, b, m); }
  }

  // ---------- The schedule ----------

  /** Pair `j` of the new subkeys is the one before (`h` for the first, at `i`), enciphered with the tables as they were then. */
  ghost predicate SubkeyChain(t: Tables, r: Tables, i: nat, h: Halves, j: nat) {
    && Shaped(t) && Shaped(r) && i <= j < 18 && j % 2 == 0
    && Halves(r.p[j], r.p[j + 1])
       == Encipher(Tables(r.p[..j] + t.p[j..], t.s), if j == i then h else Halves(r.p[j - 2], r.p[j - 1]))
  }

  /** What filling the subkeys hands on is the last pair. */
  lemma {:induction false} LastPair(t: Tables, i: nat, h: Halves)
    requires Shaped(t) && i < 18 && i % 2 == 0
    ensures var r := FillP(t, i, h); r.1 == Halves(r.0.p[16], r.0.p[17])
    decreases 18 - i
  {
    hide Encipher;
    var h' := Encipher(t, h);
    var t' := t.(p := t.p[i := h'.l][i + 1 := h'.r]);
    if i < 16 { LastPair(t', i + 2, h'); }
  }

  lemma SubkeyChainFirst(t: Tables, r: Tables, i: nat, h: Halves)
    requires Shaped(t) && Shaped(r) && i < 18 && i % 2 == 0 && r.p[..i] == t.p[..i]
    requires Halves(r.p[i], r.p[i + 1]) == Encipher(t, h)
    ensures SubkeyChain(t, r, i, h, i)
  {
    hide Encipher;
    assert r.p[..i] + t.p[i..] == t.p && Tables(t.p, t.s) == t;
  }

  lemma SubkeyChainLater(t: Tables, t': Tables, r: Tables, i: nat, h: Halves, h': Halves, j: nat)
    requires Shaped(t) && t'.s == t.s && i + 2 <= j < 18 && Shaped(t') && t'.p[i + 2..] == t.p[i + 2..]
    requires SubkeyChain(t', r, i + 2, h', j) && Halves(r.p[i], r.p[i + 1]) == h'
    ensures SubkeyChain(t, r, i, h, j)
  {
    hide Encipher;
    assert t'.p[j..] == t'.p[i + 2..][j - i - 2..] && t.p[j..] == t.p[i + 2..][j - i - 2..];
  }

  /** Filling from `i` on leaves what is before, and starts with the next encipherment. */
  lemma {:induction false} SubkeysKeep(t: Tables, i: nat, h: Halves)
    requires Shaped(t) && i <= 18 && i % 2 == 0
    ensures var r := FillP(t, i, h).0;
            && r.s == t.s && r.p[..i] == t.p[..i]
            && (i < 17 ==> Halves(r.p[i], r.p[i + 1]) == Encipher(t, h))
    decreases 18 - i
  {
    hide Encipher;
    if i < 18 {
      var h' := Encipher(t, h);
      var t' := t.(p := t.p[i := h'.l][i + 1 := h'.r]);
      var r := FillP(t', i + 2, h').0;
      SubkeysKeep(t', i + 2, h');
      assert r.p[..i] == r.p[..i + 2][..i] == t.p[..i];
      assert r.p[i] == r.p[..i + 2][i] && r.p[i + 1] == r.p[..i + 2][i + 1];
    }
  }

  lemma {:induction false} SubkeysChain(t: Tables, i: nat, h: Halves)
    requires Shaped(t) && i <= 18 && i % 2 == 0
    ensures forall j :: i <= j < 18 && j % 2 == 0 ==> SubkeyChain(t, FillP(t, i, h).0, i, h, j)
    decreases 18 - i
  {
    hide Encipher, SubkeyChain;
    if i < 18 {
      var h' := Encipher(t, h);
      var t' := t.(p := t.p[i := h'.l][i + 1 := h'.r]);
      var r := FillP(t, i, h).0;
      SubkeysChain(t', i + 2, h');
      SubkeysKeep(t, i, h);
      SubkeyChainFirst(t, r, i, h);
      forall j | i < j < 18 && j % 2 == 0 ensures SubkeyChain(t, r, i, h, j) {
        SubkeyChainLater(t, t', r, i, h, h', j);
      }
    }
  }

  /** The same for the entries of the S-boxes. */
  ghost predicate BoxChain(t: Tables, r: Tables, i: nat, h: Halves, j: nat) {
    && Shaped(t) && Shaped(r) && i <= j < 1024 && j % 2 == 0
    && Halves(r.s[j], r.s[j + 1])
       == Encipher(Tables(t.p, r.s[..j] + t.s[j..]), if j == i then h else Halves(r.s[j - 2], r.s[j - 1]))
  }

  lemma BoxChainFirst(t: Tables, r: Tables, i: nat, h: Halves)
    requires Shaped(t) && Shaped(r) && i < 1024 && i % 2 == 0 && r.s[..i] == t.s[..i]
    requires Halves(r.s[i], r.s[i + 1]) == Encipher(t, h)
    ensures BoxChain(t, r, i, h, i)
  {
    hide Encipher;
    assert r.s[..i] + t.s[i..] == t.s && Tables(t.p, t.s) == t;
  }

  lemma BoxChainLater(t: Tables, t': Tables, r: Tables, i: nat, h: Halves, h': Halves, j: nat)
    requires Shaped(t) && t'.p == t.p && i + 2 <= j < 1024 && Shaped(t') && t'.s[i + 2..] == t.s[i + 2..]
    requires BoxChain(t', r, i + 2, h', j) && Halves(r.s[i], r.s[i + 1]) == h'
    ensures BoxChain(t, r, i, h, j)
  {
    hide Encipher;
    assert t'.s[j..] == t'.s[i + 2..][j - i - 2..] && t.s[j..] == t.s[i + 2..][j - i - 2..];
  }

  /** Filling from `i` on leaves what is before, and starts with the next encipherment. */
  lemma {:induction false} BoxesKeep(t: Tables, i: nat, h: Halves)
    requires Shaped(t) && i <= 1024 && i % 2 == 0
    ensures var r := FillS(t, i, h).0;
            && r.p == t.p && r.s[..i] == t.s[..i]
            && (i < 1023 ==> Halves(r.s[i], r.s[i + 1]) == Encipher(t, h))
    decreases 1024 - i
  {
    hide Encipher;
    if i < 1024 {
      var h' := Encipher(t, h);
      var t' := t.(s := t.s[i := h'.l][i + 1 := h'.r]);
      var r := FillS(t', i + 2, h').0;
      BoxesKeep(t', i + 2, h');
      assert r.s[..i] == r.s[..i + 2][..i] == t.s[..i];
      assert r.s[i] == r.s[..i + 2][i] && r.s[i + 1] == r.s[..i + 2][i + 1];
    }
  }

  lemma {:induction false} BoxesChain(t: Tables, i: nat, h: Halves)
    requires Shaped(t) && i <= 1024 && i % 2 == 0
    ensures forall j :: i <= j < 1024 && j % 2 == 0 ==> BoxChain(t, FillS(t, i, h).0, i, h, j)
    decreases 1024 - i
  {
    hide Encipher, BoxChain;
    if i < 1024 {
      var h' := Encipher(t, h);
      var t' := t.(s := t.s[i := h'.l][i + 1 := h'.r]);
      var r := FillS(t, i, h).0;
      BoxesChain(t', i + 2, h');
      BoxesKeep(t, i, h);
      BoxChainFirst(t, r, i, h);
      forall j | i < j < 1024 && j % 2 == 0 ensures BoxChain(t, r, i, h, j) {
        BoxChainLater(t, t', r, i, h, h', j);
      }
    }
  }

  /**
   The schedule, by its result: each pair of subkeys, and then each pair of box entries, is the pair
   before it enciphered with the tables filled so far, starting from zero.
   */
  lemma {:induction false} ScheduleChains(init: Tables, key: seq<bv8>)
    requires Shaped(init) && |key| > 0
    ensures var t, mixed := Schedule(init, key), init.(p := MixKey(init.p, key));
            && (forall j :: 0 <= j < 18 && j % 2 == 0 ==> SubkeyChain(mixed, t, 0, Halves(0, 0), j))
            && (forall j :: 0 <= j < 1024 && j % 2 == 0 ==>
                  BoxChain(init.(p := t.p), t, 0, Halves(t.p[16], t.p[17]), j))
  {
    hide Encipher, FillP, FillS, MixKey, BoxChain;
    var mixed := init.(p := MixKey(init.p, key));
    var p := FillP(mixed, 0, Halves(0, 0));
    SubkeysKeep(mixed, 0, Halves(0, 0));
    SubkeysChain(mixed, 0, Halves(0, 0));
    LastPair(mixed, 0, Halves(0, 0));
    BoxesKeep(p.0, 0, p.1);
    BoxesChain(p.0, 0, p.1);
    forall j | 0 <= j < 18 && j % 2 == 0 ensures SubkeyChain(mixed, Schedule(init, key), 0, Halves(0, 0), j) {
      assert SubkeyChain(mixed, p.0, 0, Halves(0, 0), j);
    }
  }

  // ---------- Blocks ----------

  /** The halves of a block are its bytes, the most significant first, before and after. */
  lemma BlockWords(t: Tables, b: Block)
    requires Shaped(t)
    ensures Load(b) == Halves(Word(b[0], b[1], b[2], b[3]), Word(b[4], b[5], b[6], b[7]))
    ensures Load(EncBlock(t, b)) == Encipher(t, Load(b)) && Load(DecBlock(t, b)) == Decipher(t, Load(b))
  {
    hide Word, Store, Encipher, Decipher;
    LoadStore(Encipher(t, Load(b)));
    LoadStore(Decipher(t, Load(b)));
  }

  function Nth(x: seq<bv8>, i: nat): Block
    requires 8 * i + 8 <= |x|
  {
    x[8 * i..8 * i + 8]
  }

  lemma XorByteBits(a: bv8, b: bv8)
    ensures XorByte(a, b) == a ^ b
  {
  }

  /** Byte by byte. */
  lemma XorBlockBytes(a: Block, b: Block, k: nat)
    requires k < 8
    ensures XorBlock(a, b)[k] == a[k] ^ b[k]
  {
    XorByteBits(a[k], b[k]);
    hide XorByte;
  }

  lemma {:induction false} NthOfRest(x: seq<bv8>, i: nat)
    requires 0 < i && 8 * i + 8 <= |x|
    ensures Nth(x[8..], i - 1) == Nth(x, i)
  {
  }

  /** Each block of the cipher text is the enciphered plain block, in CBC mixed with the cipher block before. */
  lemma {:induction false} NthCipherBlock(t: Tables, mode: Mode, x: seq<bv8>, prev: Block, i: nat)
    requires Shaped(t) && |x| % 8 == 0 && 8 * i + 8 <= |x|
    ensures var y := EncBlocks(t, mode, x, prev);
            var before := if i == 0 then prev else Nth(y, i - 1);
            Nth(y, i) == EncBlock(t, if mode == CBC then XorBlock(Nth(x, i), before) else Nth(x, i))
    decreases i
  {
    hide EncBlock, XorBlock;
    var c := EncBlock(t, Chain(mode, x[..8], prev));
    var y := EncBlocks(t, mode, x, prev);
    assert y[8..] == EncBlocks(t, mode, x[8..], c) && y[..8] == c;
    if i > 0 {
      NthCipherBlock(t, mode, x[8..], c, i - 1);
      NthOfRest(x, i);
      NthOfRest(y, i);
      if i > 1 { NthOfRest(y, i - 1); }
    }
  }

  lemma XorZero(b: Block, k: nat)
    requires k < 8
    ensures XorBlock(b, ZERO_BLOCK)[k] == b[k]
  {
    XorBlockBytes(b, ZERO_BLOCK, k);
    hide XorBlock;
    assert ZERO_BLOCK[k] == 0;
  }

  /** From the start of a message: the first block is enciphered as it is, in both modes. */
  lemma NthMessageBlock(t: Tables, mode: Mode, x: seq<bv8>, i: nat)
    requires Shaped(t) && |x| % 8 == 0 && 8 * i + 8 <= |x|
    ensures var y := EncBlocks(t, mode, x, ZERO_BLOCK);
            Nth(y, i) == EncBlock(t, if mode == CBC && i > 0 then XorBlock(Nth(x, i), Nth(y, i - 1)) else Nth(x, i))
  {
    hide EncBlock, EncBlocks, XorBlock;
    NthCipherBlock(t, mode, x, ZERO_BLOCK, i);
    forall k | 0 <= k < 8 ensures XorBlock(Nth(x, i), ZERO_BLOCK)[k] == Nth(x, i)[k] { XorZero(Nth(x, i), k); }
    assert XorBlock(Nth(x, i), ZERO_BLOCK) == Nth(x, i);
  }

  // ---------- Padding ----------

  /** Every byte behind the text is zero in ECB, and in CBC the number of such bytes, from one to eight. */
  lemma PaddedBytes(mode: Mode, x: seq<bv8>)
    requires Fits(mode, |x|)
    ensures var r := Padded(mode, x);
            && x <= r && |r| % 8 == 0
            && (mode == ECB ==> |r| - |x| < 8 && forall i :: |x| <= i < |r| ==> r[i] == 0)
            && (mode == CBC ==> 1 <= |r| - |x| <= 8 && forall i :: |x| <= i < |r| ==> r[i] as int == |r| - |x|)
  {
    OutputLengthFits(mode, |x|);
    SmallByte(|Padded(mode, x)| - |x|);
  }

  /** Decoding drops `k` bytes exactly when both ends of the last `k` bytes say `k`. */
  lemma DroppedBytes(out: seq<bv8>, n: nat)
    requires n < |out|
    ensures UnpaddedLength(out) == n
            <==> var k := |out| - n; k <= 8 && out[|out| - 1] as int == k && out[n] as int == k
  {
  }
}
