/** Base64 in the words of RFC 4648, section 4: the alphabet, the numbers that groups are, the pads. */
module Base64Laws {
  import opened Common
  import opened Base64Spec

  // ---------- The alphabet ----------

  const UPPER: string := "ABCDEFGHIJKLMNOPQRSTUVWXYZ"
  const LOWER: string := "abcdefghijklmnopqrstuvwxyz"
  const DIGITS: string := "0123456789"

  lemma UpperAt(i: nat)
    requires i < 26
    ensures UPPER[i] as int == 65 + i
  {
  }

  lemma LowerAt(i: nat)
    requires i < 26
    ensures LOWER[i] as int == 97 + i
  {
  }

  lemma DigitAt(i: nat)
    requires i < 10
    ensures DIGITS[i] as int == 48 + i
  {
  }

  lemma UpperSymbol(i: nat)
    requires i < 26
    ensures Symbol(i as bv8) as int == 65 + i
  {
  }

  lemma LowerSymbol(i: nat)
    requires i < 26
    ensures Symbol((26 + i) as bv8) as int == 97 + i
  {
  }

  lemma DigitSymbol(i: nat)
    requires i < 10
    ensures Symbol((52 + i) as bv8) as int == 48 + i
  {
  }

  /** The alphabet: the capital letters, the small letters, the digits, plus and slash, in this order. */
  lemma CapitalLetters(i: nat)
    requires i < 26
    ensures Symbol(i as bv8) as int == UPPER[i] as int
  {
    UpperAt(i);
    UpperSymbol(i);
  }

  lemma SmallLetters(i: nat)
    requires i < 26
    ensures Symbol((26 + i) as bv8) as int == LOWER[i] as int
  {
    LowerAt(i);
    LowerSymbol(i);
  }

  lemma DecimalDigits(i: nat)
    requires i < 10
    ensures Symbol((52 + i) as bv8) as int == DIGITS[i] as int
  {
    DigitAt(i);
    DigitSymbol(i);
  }

  lemma PlusSlashPad()
    ensures Symbol(62) as int == '+' as int && Symbol(63) as int == '/' as int && PAD as int == '=' as int
  {
  }

  // ---------- Groups as numbers ----------

  /** Three bytes are a number in base 256, four positions one in base 64. */
  lemma GroupNumber(a: bv8, b: bv8, c: bv8)
    ensures Group(a, b, c) == (a as bv32) * 0x10000 + (b as bv32) * 0x100 + (c as bv32)
  {
  }

  lemma SextetsNumber(p: bv8, q: bv8, r: bv8, s: bv8)
    requires p < 64 && q < 64 && r < 64 && s < 64
    ensures FromSextets(p, q, r, s) == (p as bv32) * 0x40000 + (q as bv32) * 0x1000 + (r as bv32) * 0x40 + (s as bv32)
  {
  }

  lemma SixesJoin(w: bv32)
    requires w < 0x1000000
    ensures FromSextets(Six0(w), Six1(w), Six2(w), Six3(w)) == w
  {
  }

  lemma GroupIsSmall(a: bv8, b: bv8, c: bv8)
    ensures Group(a, b, c) < 0x1000000
  {
  }

  /** The four symbols of a group are at the positions that make the same number. */
  lemma QuadNumber(a: bv8, b: bv8, c: bv8)
    ensures var q := Quad(a, b, c);
            && AllSymbols(q)
            && FromSextets(Sextet(q[0]), Sextet(q[1]), Sextet(q[2]), Sextet(q[3])) == Group(a, b, c)
  {
    hide Symbol, Sextet, IsSymbol, Group, FromSextets, Six0, Six1, Six2, Six3;
    var w := Group(a, b, c);
    SextetOfSymbol(Six0(w));
    SextetOfSymbol(Six1(w));
    SextetOfSymbol(Six2(w));
    SextetOfSymbol(Six3(w));
    GroupIsSmall(a, b, c);
    SixesJoin(w);
  }

  // ---------- The text group by group ----------

  lemma WholeGroupFirst(x: seq<bv8>)
    requires |x| >= 3
    ensures Encode(x) == Quad(x[0], x[1], x[2]) + Encode(x[3..])
  {
  }

  /** Group `i` of the text is the four symbols of bytes `3 * i` to `3 * i + 2`. */
  lemma {:induction false} NthQuad(x: seq<bv8>, i: nat)
    requires 3 * i + 3 <= |x|
    ensures 4 * i + 4 <= |Encode(x)|
    ensures Encode(x)[4 * i..4 * i + 4] == Quad(x[3 * i], x[3 * i + 1], x[3 * i + 2])
    decreases i
  {
    hide Quad;
    var q, y := Quad(x[0], x[1], x[2]), Encode(x[3..]);
    WholeGroupFirst(x);
    if i > 0 {
      NthQuad(x[3..], i - 1);
      assert (q + y)[4 * i..4 * i + 4] == y[4 * (i - 1)..4 * (i - 1) + 4];
    }
  }

  /** Bytes behind whole groups are encoded on their own. */
  lemma {:induction false} BehindWholeGroups(x: seq<bv8>, z: seq<bv8>)
    requires |x| % 3 == 0
    ensures Encode(x + z) == Encode(x) + Encode(z)
    decreases |x|
  {
    hide Quad, Encode;
    if x == [] {
      NothingEncodes();
      assert x + z == z;
    } else {
      BehindWholeGroups(x[3..], z);
      WholeGroupFirst(x);
      WholeGroupFirst(x + z);
      assert (x + z)[3..] == x[3..] + z;
    }
  }

  /** A last group of one byte ends in two equals signs, one of two bytes in one. */
  lemma LastGroup(a: bv8, b: bv8)
    ensures Encode([a]) == Quad(a, 0, 0)[..2] + [61, 61]
    ensures Encode([a, b]) == Quad(a, b, 0)[..3] + [61]
  {
    hide Symbol, Group, Six0, Six1, Six2, Six3;
  }
}
