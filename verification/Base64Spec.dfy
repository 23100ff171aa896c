/** Base64 (RFC 4648, section 4) as functions on bytes, and the lookup tables of the fast codec. */
module Base64Spec {
  import opened Common

  const PAD: bv8 := 61

  /** The alphabet. */
  function Symbol(i: bv8): bv8
    requires i < 64
  {
    if i < 26 then i + 65
    else if i < 52 then i + 71
    else if i < 62 then i - 4
    else if i == 62 then 43
    else 47
  }

  predicate IsSymbol(c: bv8) {
    65 <= c <= 90 || 97 <= c <= 122 || 48 <= c <= 57 || c == 43 || c == 47
  }

  /** The position of a symbol in the alphabet. */
  function Sextet(c: bv8): (i: bv8)
    requires IsSymbol(c)
    ensures i < 64
  {
    if 65 <= c <= 90 then c - 65
    else if 97 <= c <= 122 then c - 71
    else if 48 <= c <= 57 then c + 4
    else if c == 43 then 62
    else 63
  }

  lemma SextetOfSymbol(i: bv8)
    requires i < 64
    ensures IsSymbol(Symbol(i)) && Sextet(Symbol(i)) == i && Symbol(i) != PAD
  {
  }

  lemma SymbolOfSextet(c: bv8)
    requires IsSymbol(c)
    ensures Symbol(Sextet(c)) == c
  {
  }

  // ---------- The plain codec ----------

  /** Three bytes as one number of 24 bits, and its four sextets, the most significant first. */
  function Group(a: bv8, b: bv8, c: bv8): bv32 { ((a as bv32) << 16) | ((b as bv32) << 8) | (c as bv32) }

  function Six0(w: bv32): (r: bv8)
    ensures r < 64
  {
    ((w >> 18) & 63) as bv8
  }
  function Six1(w: bv32): (r: bv8)
    ensures r < 64
  {
    ((w >> 12) & 63) as bv8
  }
  function Six2(w: bv32): (r: bv8)
    ensures r < 64
  {
    ((w >> 6) & 63) as bv8
  }
  function Six3(w: bv32): (r: bv8)
    ensures r < 64
  {
    (w & 63) as bv8
  }

  function FromSextets(p: bv8, q: bv8, r: bv8, s: bv8): bv32 {
    ((p as bv32) << 18) | ((q as bv32) << 12) | ((r as bv32) << 6) | (s as bv32)
  }

  function High(w: bv32): bv8 { ((w >> 16) & 0xFF) as bv8 }
  function Middle(w: bv32): bv8 { ((w >> 8) & 0xFF) as bv8 }
  function Low(w: bv32): bv8 { (w & 0xFF) as bv8 }

  /** Splitting a group into sextets and joining them again gives its bytes back. */
  lemma JoinSplit(a: bv8, b: bv8, c: bv8)
    ensures var w := Group(a, b, c);
            var v := FromSextets(Six0(w), Six1(w), Six2(w), Six3(w));
            High(v) == a && Middle(v) == b && Low(v) == c
  {
  }

  function Quad(a: bv8, b: bv8, c: bv8): (r: seq<bv8>)
    ensures |r| == 4
  {
    var w := Group(a, b, c);
    [Symbol(Six0(w)), Symbol(Six1(w)), Symbol(Six2(w)), Symbol(Six3(w))]
  }

  /** The last group is completed with zero bits; the symbols that hold only those are replaced by pads. */
  function Encode(x: seq<bv8>): (y: seq<bv8>)
    decreases |x|
  {
    if x == [] then []
    else if |x| == 1 then
      var w := Group(x[0], 0, 0);
      [Symbol(Six0(w)), Symbol(Six1(w)), PAD, PAD]
    else if |x| == 2 then
      var w := Group(x[0], x[1], 0);
      [Symbol(Six0(w)), Symbol(Six1(w)), Symbol(Six2(w)), PAD]
    else
      Quad(x[0], x[1], x[2]) + Encode(x[3..])
  }

  predicate AllSymbols(s: seq<bv8>) { forall i :: 0 <= i < |s| ==> IsSymbol(s[i]) }

  function Triple(p: bv8, q: bv8, r: bv8, s: bv8): (x: seq<bv8>)
    requires IsSymbol(p) && IsSymbol(q) && IsSymbol(r) && IsSymbol(s)
    ensures |x| == 3
  {
    var w := FromSextets(Sextet(p), Sextet(q), Sextet(r), Sextet(s));
    [High(w), Middle(w), Low(w)]
  }

  /** The bytes that symbols denote; a last incomplete group of two or three gives one or two bytes. */
  function Symbols(s: seq<bv8>): (x: seq<bv8>)
    requires AllSymbols(s)
    decreases |s|
  {
    if |s| < 2 then []
    else if |s| == 2 then [High(FromSextets(Sextet(s[0]), Sextet(s[1]), 0, 0))]
    else if |s| == 3 then
      var w := FromSextets(Sextet(s[0]), Sextet(s[1]), Sextet(s[2]), 0);
      [High(w), Middle(w)]
    else Triple(s[0], s[1], s[2], s[3]) + Symbols(s[4..])
  }

  /** The text without its at most two trailing pads. */
  function Stripped(s: seq<bv8>): (r: seq<bv8>)
    requires |s| >= 2
    ensures r <= s && |s| - 2 <= |r|
  {
    if s[|s| - 1] != PAD then s
    else if s[|s| - 2] != PAD then s[..|s| - 1]
    else s[..|s| - 2]
  }

  /** A text is refused when its length is not a multiple of 4 or a character before the pads is no symbol. */
  function Decode(s: seq<bv8>): (r: Option<seq<bv8>>)
  {
    if s == [] then Some([])
    else if |s| % 4 != 0 then None
    else if !AllSymbols(Stripped(s)) then None
    else Some(Symbols(Stripped(s)))
  }

  // ---------- Laws of the plain codec ----------

  /** Four characters for every three bytes begun. */
  lemma {:induction false} EncodeLength(x: seq<bv8>)
    ensures |Encode(x)| == (|x| + 2) / 3 * 4
    decreases |x|
  {
    hide Quad, Group;
    if |x| >= 3 { EncodeLength(x[3..]); }
  }

  /** The number of bytes that `n` symbols denote. */
  function DecodedLength(n: nat): nat { n / 4 * 3 + 6 * (n % 4) / 8 }

  lemma {:induction false} SymbolsLength(s: seq<bv8>)
    requires AllSymbols(s) && |s| % 4 != 1
    ensures |Symbols(s)| == DecodedLength(|s|)
    decreases |s|
  {
    hide Triple, FromSextets;
    if |s| >= 4 { SymbolsLength(s[4..]); }
  }

  /** Three bytes for every four characters, less one for every pad. */
  lemma {:induction false} DecodeLength(s: seq<bv8>)
    requires Decode(s).Some? && s != []
    ensures |Decode(s).value| == DecodedLength(|Stripped(s)|) == |s| / 4 * 3 - (|s| - |Stripped(s)|)
  {
    hide Symbols, IsSymbol;
    SymbolsLength(Stripped(s));
  }

  lemma QuadIsSymbols(a: bv8, b: bv8, c: bv8)
    ensures var q := Quad(a, b, c); AllSymbols(q) && q[3] != PAD && q[2] != PAD && Triple(q[0], q[1], q[2], q[3]) == [a, b, c]
  {
    hide Symbol, Sextet, Group, Six0, Six1, Six2, Six3, FromSextets, High, Middle, Low, IsSymbol;
    var w := Group(a, b, c);
    SextetOfSymbol(Six0(w));
    SextetOfSymbol(Six1(w));
    SextetOfSymbol(Six2(w));
    SextetOfSymbol(Six3(w));
    JoinSplit(a, b, c);
  }

  lemma JoinSplitOne(a: bv8)
    ensures var w := Group(a, 0, 0); High(FromSextets(Six0(w), Six1(w), 0, 0)) == a
  {
  }

  lemma JoinSplitTwo(a: bv8, b: bv8)
    ensures var w := Group(a, b, 0);
            var v := FromSextets(Six0(w), Six1(w), Six2(w), 0);
            High(v) == a && Middle(v) == b
  {
  }

  lemma OneByteTail(a: bv8)
    ensures var y := Encode([a]);
            |y| == 4 && y[2] == PAD && y[3] == PAD && y[1] != PAD && AllSymbols(y[..2]) && Symbols(y[..2]) == [a]
  {
    hide Symbol, Sextet, IsSymbol, Group, FromSextets, Six0, Six1, High;
    var w := Group(a, 0, 0);
    SextetOfSymbol(Six0(w));
    SextetOfSymbol(Six1(w));
    JoinSplitOne(a);
  }

  lemma TwoByteTail(a: bv8, b: bv8)
    ensures var y := Encode([a, b]);
            |y| == 4 && y[3] == PAD && y[2] != PAD && AllSymbols(y[..3]) && Symbols(y[..3]) == [a, b]
  {
    hide Symbol, Sextet, IsSymbol, Group, FromSextets, Six0, Six1, Six2, High, Middle;
    var w := Group(a, b, 0);
    SextetOfSymbol(Six0(w));
    SextetOfSymbol(Six1(w));
    SextetOfSymbol(Six2(w));
    JoinSplitTwo(a, b);
  }

  lemma StripBehind(q: seq<bv8>, y: seq<bv8>)
    requires |q| == 4 && |y| >= 4
    ensures Stripped(q + y) == q + Stripped(y)
  {
  }

  lemma SymbolsBehind(q: seq<bv8>, s: seq<bv8>)
    requires |q| == 4 && AllSymbols(q) && AllSymbols(s)
    ensures AllSymbols(q + s) && Symbols(q + s) == Triple(q[0], q[1], q[2], q[3]) + Symbols(s)
  {
    assert (q + s)[4..] == s;
  }

  lemma NothingEncodes()
    ensures Encode([]) == [] && AllSymbols([]) && Symbols([]) == []
  {
  }

  lemma {:induction false} GroupStripsToSymbols(x: seq<bv8>)
    requires |x| >= 3
    requires |x| > 3 ==> |Encode(x[3..])| >= 4 && AllSymbols(Stripped(Encode(x[3..])))
                         && Symbols(Stripped(Encode(x[3..]))) == x[3..]
    ensures |Encode(x)| >= 4
    ensures var s := Stripped(Encode(x)); AllSymbols(s) && Symbols(s) == x
  {
    var q, y := Quad(x[0], x[1], x[2]), Encode(x[3..]);
    QuadIsSymbols(x[0], x[1], x[2]);
    assert Encode(x) == q + y;
    assert x == [x[0], x[1], x[2]] + x[3..];
    hide Encode, Quad, Triple, IsSymbol, Symbols, AllSymbols;
    if |x| == 3 {
      assert x[3..] == [];
      NothingEncodes();
      assert q + y == q && Stripped(q) == q + [];
      SymbolsBehind(q, []);
    } else {
      StripBehind(q, y);
      SymbolsBehind(q, Stripped(y));
    }
  }

  lemma {:induction false} EncodedStripsToSymbols(x: seq<bv8>)
    requires x != []
    ensures |Encode(x)| >= 4
    ensures var s := Stripped(Encode(x)); AllSymbols(s) && Symbols(s) == x
    decreases |x|
  {
    EncodeLength(x);
    hide Quad, Triple, Group, Symbol, Sextet, FromSextets, IsSymbol, Six0, Six1, Six2, High, Middle;
    if |x| == 1 {
      OneByteTail(x[0]);
      assert x == [x[0]];
    } else if |x| == 2 {
      TwoByteTail(x[0], x[1]);
      assert x == [x[0], x[1]];
    } else {
      if |x| > 3 { EncodedStripsToSymbols(x[3..]); }
      GroupStripsToSymbols(x);
    }
  }

  /** Decoding the encoding of any bytes gives them back. */
  lemma RoundTrip(x: seq<bv8>)
    ensures Decode(Encode(x)) == Some(x)
  {
    hide Stripped, Symbols, AllSymbols;
    EncodeLength(x);
    if x != [] {
      EncodedStripsToSymbols(x);
    }
  }

  // ---------- Which texts are encodings ----------

  /** The bits of the last symbol that no byte holds, when the last group is incomplete. */
  function UnusedBits(t: seq<bv8>): bv8
    requires AllSymbols(t)
  {
    if |t| % 4 == 2 then Sextet(t[|t| - 1]) & 15
    else if |t| % 4 == 3 then Sextet(t[|t| - 1]) & 3
    else 0
  }

  /** The pads that complete the last group. */
  function Pads(n: nat): seq<bv8> {
    if n % 4 == 2 then [PAD, PAD] else if n % 4 == 3 then [PAD] else []
  }

  lemma PartsOfWord(v: bv32)
    requires v < 0x1000000
    ensures Group(High(v), Middle(v), Low(v)) == v
    ensures Group(High(v), Middle(v), 0) == v & 0xFFFF00
    ensures Group(High(v), 0, 0) == v & 0xFF0000
  {
  }

  lemma SixesOfWord(p: bv8, q: bv8, r: bv8, s: bv8)
    requires p < 64 && q < 64 && r < 64 && s < 64
    ensures var v := FromSextets(p, q, r, s);
            v < 0x1000000 && Six0(v) == p && Six1(v) == q && Six2(v) == r && Six3(v) == s
  {
  }

  lemma MaskedSixes(v: bv32)
    ensures Six0(v & 0xFF0000) == Six0(v) && Six1(v & 0xFF0000) == Six1(v) & 48
    ensures Six0(v & 0xFFFF00) == Six0(v) && Six1(v & 0xFFFF00) == Six1(v) && Six2(v & 0xFFFF00) == Six2(v) & 60
  {
  }

  lemma MaskedBits(q: bv8)
    requires q < 64
    ensures q & 48 == q <==> q & 15 == 0
    ensures q & 60 == q <==> q & 3 == 0
  {
  }

  lemma SplitJoin(p: bv8, q: bv8, r: bv8, s: bv8)
    requires p < 64 && q < 64 && r < 64 && s < 64
    ensures var v := FromSextets(p, q, r, s);
            var w := Group(High(v), Middle(v), Low(v));
            Six0(w) == p && Six1(w) == q && Six2(w) == r && Six3(w) == s
  {
    hide FromSextets, Group, High, Middle, Low, Six0, Six1, Six2, Six3;
    SixesOfWord(p, q, r, s);
    PartsOfWord(FromSextets(p, q, r, s));
  }

  lemma SplitJoinOne(p: bv8, q: bv8)
    requires p < 64 && q < 64
    ensures var w := Group(High(FromSextets(p, q, 0, 0)), 0, 0);
            Six0(w) == p && (Six1(w) == q <==> q & 15 == 0)
  {
    hide FromSextets, Group, High, Middle, Low, Six0, Six1, Six2, Six3;
    var v := FromSextets(p, q, 0, 0);
    SixesOfWord(p, q, 0, 0);
    PartsOfWord(v);
    MaskedSixes(v);
    MaskedBits(q);
  }

  lemma SplitJoinTwo(p: bv8, q: bv8, r: bv8)
    requires p < 64 && q < 64 && r < 64
    ensures var v := FromSextets(p, q, r, 0);
            var w := Group(High(v), Middle(v), 0);
            Six0(w) == p && Six1(w) == q && (Six2(w) == r <==> r & 3 == 0)
  {
    hide FromSextets, Group, High, Middle, Low, Six0, Six1, Six2, Six3;
    var v := FromSextets(p, q, r, 0);
    SixesOfWord(p, q, r, 0);
    PartsOfWord(v);
    MaskedSixes(v);
    MaskedBits(r);
  }

  /** A whole group encodes back to its four symbols. */
  lemma QuadOfTriple(p: bv8, q: bv8, r: bv8, s: bv8)
    requires IsSymbol(p) && IsSymbol(q) && IsSymbol(r) && IsSymbol(s)
    ensures var x := Triple(p, q, r, s); Quad(x[0], x[1], x[2]) == [p, q, r, s]
  {
    hide Symbol, Sextet, IsSymbol, Group, FromSextets, Six0, Six1, Six2, Six3, High, Middle, Low;
    SymbolOfSextet(p);
    SymbolOfSextet(q);
    SymbolOfSextet(r);
    SymbolOfSextet(s);
    SplitJoin(Sextet(p), Sextet(q), Sextet(r), Sextet(s));
  }

  lemma TwoSymbolsEncode(p: bv8, q: bv8)
    requires IsSymbol(p) && IsSymbol(q)
    ensures Encode(Symbols([p, q])) == [p, q, PAD, PAD] <==> Sextet(q) & 15 == 0
  {
    hide Symbol, Sextet, IsSymbol, Group, FromSextets, Six0, Six1, Six2, Six3, High, Middle, Low;
    var i, j := Sextet(p), Sextet(q);
    var w := Group(High(FromSextets(i, j, 0, 0)), 0, 0);
    SymbolOfSextet(p);
    SymbolOfSextet(q);
    SextetOfSymbol(Six1(w));
    SplitJoinOne(i, j);
    assert Encode(Symbols([p, q])) == [Symbol(Six0(w)), Symbol(Six1(w)), PAD, PAD];
  }

  lemma ThreeSymbolsEncode(p: bv8, q: bv8, r: bv8)
    requires IsSymbol(p) && IsSymbol(q) && IsSymbol(r)
    ensures Encode(Symbols([p, q, r])) == [p, q, r, PAD] <==> Sextet(r) & 3 == 0
  {
    hide Symbol, Sextet, IsSymbol, Group, FromSextets, Six0, Six1, Six2, Six3, High, Middle, Low;
    var i, j, k := Sextet(p), Sextet(q), Sextet(r);
    var v := FromSextets(i, j, k, 0);
    var w := Group(High(v), Middle(v), 0);
    SymbolOfSextet(p);
    SymbolOfSextet(q);
    SymbolOfSextet(r);
    SextetOfSymbol(Six2(w));
    SplitJoinTwo(i, j, k);
    assert Encode(Symbols([p, q, r])) == [Symbol(Six0(w)), Symbol(Six1(w)), Symbol(Six2(w)), PAD];
  }

  lemma Behind(q: seq<bv8>, x: seq<bv8>, y: seq<bv8>)
    ensures q + x == q + y <==> x == y
  {
    assert (q + x)[|q|..] == x && (q + y)[|q|..] == y;
  }

  lemma {:induction false} GroupEncodes(t: seq<bv8>)
    requires AllSymbols(t) && |t| >= 4
    ensures Encode(Symbols(t)) == t + Pads(|t|) <==> Encode(Symbols(t[4..])) == t[4..] + Pads(|t| - 4)
  {
    var x, y := Triple(t[0], t[1], t[2], t[3]), Symbols(t[4..]);
    assert Symbols(t) == x + y && (x + y)[3..] == y;
    QuadOfTriple(t[0], t[1], t[2], t[3]);
    assert Encode(x + y) == Quad(x[0], x[1], x[2]) + Encode(y);
    hide Encode, Symbols, Triple, Quad, IsSymbol;
    var pads := Pads(|t|);
    assert Pads(|t| - 4) == pads;
    assert t + pads == [t[0], t[1], t[2], t[3]] + (t[4..] + pads);
    Behind([t[0], t[1], t[2], t[3]], Encode(y), t[4..] + pads);
  }

  lemma {:induction false} SymbolsEncode(t: seq<bv8>)
    requires AllSymbols(t) && |t| % 4 != 1
    ensures Encode(Symbols(t)) == t + Pads(|t|) <==> UnusedBits(t) == 0
    decreases |t|
  {
    hide Quad, Triple, Sextet, IsSymbol;
    if |t| == 0 {
    } else if |t| == 2 {
      TwoSymbolsEncode(t[0], t[1]);
      assert t == [t[0], t[1]] && t + Pads(2) == [t[0], t[1], PAD, PAD];
    } else if |t| == 3 {
      ThreeSymbolsEncode(t[0], t[1], t[2]);
      assert t == [t[0], t[1], t[2]] && t + Pads(3) == [t[0], t[1], t[2], PAD];
    } else {
      SymbolsEncode(t[4..]);
      GroupEncodes(t);
      assert UnusedBits(t) == UnusedBits(t[4..]);
    }
  }

  /**
   The converse round trip. A text that is accepted is the encoding of what it decodes to if and only if
   the unused bits of its last symbol are zero: the decoder does not look at them.
   */
  lemma {:induction false} EncodeDecode(s: seq<bv8>)
    requires Decode(s).Some?
    ensures Encode(Decode(s).value) == s <==> s == [] || UnusedBits(Stripped(s)) == 0
  {
    hide Encode, Symbols, UnusedBits, IsSymbol;
    if s == [] {
      NothingEncodes();
    } else {
      var t := Stripped(s);
      assert s == t + Pads(|t|);
      SymbolsEncode(t);
    }
  }

  /** "QQ==" and "QR==" both decode to "A". */
  lemma TwoTextsOneByte()
    ensures Decode([81, 81, PAD, PAD]) == Some([65]) && Decode([81, 82, PAD, PAD]) == Some([65])
  {
    var s, t: seq<bv8> := [81, 81, PAD, PAD], [81, 82, PAD, PAD];
    assert Stripped(s) == [81, 81] && Stripped(t) == [81, 82];
  }

  // ---------- The lookup tables ----------

  const BADCHAR: bv32 := 0x01FFFFFF

  /** `e0`, `e1`, `e2`: 256 entries each, by formula over the alphabet. */
  function E0(t: bv8): bv8 { Symbol(t >> 2) }
  function E1(t: bv8): bv8 { Symbol(t & 63) }
  function E2(t: bv8): bv8 { Symbol(t & 63) }

  /** Where the four sextets of a group go in a word that is stored least significant byte first. */
  function Put0(v: bv8): bv32 { (v as bv32) << 2 }
  function Put1(v: bv8): bv32 { ((v as bv32) >> 4) | (((v as bv32) & 15) << 12) }
  function Put2(v: bv8): bv32 { (((v as bv32) >> 2) << 8) | (((v as bv32) & 3) << 22) }
  function Put3(v: bv8): bv32 { (v as bv32) << 16 }

  /** `d0` .. `d3` of the little-endian branch. */
  function D0(c: bv8): bv32 { if IsSymbol(c) then Put0(Sextet(c)) else BADCHAR }
  function D1(c: bv8): bv32 { if IsSymbol(c) then Put1(Sextet(c)) else BADCHAR }
  function D2(c: bv8): bv32 { if IsSymbol(c) then Put2(Sextet(c)) else BADCHAR }
  function D3(c: bv8): bv32 { if IsSymbol(c) then Put3(Sextet(c)) else BADCHAR }

  /** The four table values of the main loop of the encoder are the four symbols of the group. */
  lemma TablesEncode(a: bv8, b: bv8, c: bv8)
    ensures [E0(a), E1(((a & 3) << 4) | ((b >> 4) & 15)), E1(((b & 15) << 2) | ((c >> 6) & 3)), E2(c)] == Quad(a, b, c)
  {
    hide Symbol;
    var w := Group(a, b, c);
    assert a >> 2 == Six0(w);
    assert (((a & 3) << 4) | ((b >> 4) & 15)) & 63 == Six1(w);
    assert (((b & 15) << 2) | ((c >> 6) & 3)) & 63 == Six2(w);
    assert c & 63 == Six3(w);
  }

  lemma TailBitsOne(a: bv8)
    ensures var w := Group(a, 0, 0); a >> 2 == Six0(w) && ((a & 3) << 4) & 63 == Six1(w)
  {
  }

  lemma TailBitsTwo(a: bv8, b: bv8)
    ensures var w := Group(a, b, 0);
            && a >> 2 == Six0(w)
            && (((a & 3) << 4) | ((b >> 4) & 15)) & 63 == Six1(w)
            && ((b & 15) << 2) & 63 == Six2(w)
  {
  }

  lemma TablesEncodeTail(a: bv8, b: bv8)
    ensures [E0(a), E1((a & 3) << 4), PAD, PAD] == Encode([a])
    ensures [E0(a), E1(((a & 3) << 4) | ((b >> 4) & 15)), E2((b & 15) << 2), PAD] == Encode([a, b])
  {
    hide Symbol, Group, Six0, Six1, Six2;
    TailBitsOne(a);
    TailBitsTwo(a, b);
  }

  /** The bytes of a word in memory, the least significant first. */
  function Le0(x: bv32): bv8 { (x & 0xFF) as bv8 }
  function Le1(x: bv32): bv8 { ((x >> 8) & 0xFF) as bv8 }
  function Le2(x: bv32): bv8 { ((x >> 16) & 0xFF) as bv8 }
  function Le3(x: bv32): bv8 { ((x >> 24) & 0xFF) as bv8 }

  function LoadWord(a: bv8, b: bv8, c: bv8, d: bv8): bv32 {
    (a as bv32) | ((b as bv32) << 8) | ((c as bv32) << 16) | ((d as bv32) << 24)
  }

  lemma LoadedBytes(a: bv8, b: bv8, c: bv8, d: bv8)
    ensures var y := LoadWord(a, b, c, d); Le0(y) == a && Le1(y) == b && Le2(y) == c && Le3(y) == d
  {
  }

  /** The bitwise or of the table values of two, three or four characters. */
  function Or2(a: bv32, b: bv32): bv32 { a | b }
  function Or3(a: bv32, b: bv32, c: bv32): bv32 { a | b | c }
  function Or4(a: bv32, b: bv32, c: bv32, d: bv32): bv32 { a | b | c | d }

  lemma PutTogether(p: bv8, q: bv8, r: bv8, s: bv8)
    requires p < 64 && q < 64 && r < 64 && s < 64
    ensures var x := Or4(Put0(p), Put1(q), Put2(r), Put3(s));
            var w := FromSextets(p, q, r, s);
            x < BADCHAR && Le0(x) == High(w) && Le1(x) == Middle(w) && Le2(x) == Low(w)
  {
  }

  lemma PutTogetherTwo(p: bv8, q: bv8)
    requires p < 64 && q < 64
    ensures var x := Or2(Put0(p), Put1(q)); x < BADCHAR && Le0(x) == High(FromSextets(p, q, 0, 0))
  {
  }

  lemma PutTogetherThree(p: bv8, q: bv8, r: bv8)
    requires p < 64 && q < 64 && r < 64
    ensures var x := Or3(Put0(p), Put1(q), Put2(r));
            var w := FromSextets(p, q, r, 0);
            x < BADCHAR && Le0(x) == High(w) && Le1(x) == Middle(w)
  {
  }

  lemma BadAmongFour(a: bv32, b: bv32, c: bv32, d: bv32)
    requires a == BADCHAR || b == BADCHAR || c == BADCHAR || d == BADCHAR
    ensures Or4(a, b, c, d) >= BADCHAR
  {
  }

  /** The combined table word holds the decoded bytes, and is marked bad exactly when a character is no symbol. */
  lemma {:induction false} TablesDecode(p: bv8, q: bv8, r: bv8, s: bv8)
    ensures var x := Or4(D0(p), D1(q), D2(r), D3(s));
            && (x < BADCHAR <==> IsSymbol(p) && IsSymbol(q) && IsSymbol(r) && IsSymbol(s))
            && (x < BADCHAR ==> [Le0(x), Le1(x), Le2(x)] == Triple(p, q, r, s))
  {
    hide Or4, Sextet, IsSymbol, Put0, Put1, Put2, Put3, FromSextets, Le0, Le1, Le2, High, Middle, Low;
    if IsSymbol(p) && IsSymbol(q) && IsSymbol(r) && IsSymbol(s) {
      PutTogether(Sextet(p), Sextet(q), Sextet(r), Sextet(s));
    } else {
      BadAmongFour(D0(p), D1(q), D2(r), D3(s));
    }
  }

  lemma BadAmongThree(a: bv32, b: bv32, c: bv32)
    ensures a == BADCHAR || b == BADCHAR ==> Or2(a, b) >= BADCHAR
    ensures a == BADCHAR || b == BADCHAR || c == BADCHAR ==> Or3(a, b, c) >= BADCHAR
  {
  }

  lemma {:induction false} TablesDecodeTwo(p: bv8, q: bv8)
    ensures var x := Or2(D0(p), D1(q));
            && (x < BADCHAR <==> IsSymbol(p) && IsSymbol(q))
            && (x < BADCHAR ==> [Le0(x)] == Symbols([p, q]))
  {
    hide Or2, Or3, Sextet, IsSymbol, Put0, Put1, Put2, FromSextets, Le0, Le1, High, Middle;
    if IsSymbol(p) && IsSymbol(q) {
      PutTogetherTwo(Sextet(p), Sextet(q));
    } else {
      BadAmongThree(D0(p), D1(q), 0);
    }
  }

  lemma {:induction false} TablesDecodeThree(p: bv8, q: bv8, r: bv8)
    ensures var x := Or3(D0(p), D1(q), D2(r));
            && (x < BADCHAR <==> IsSymbol(p) && IsSymbol(q) && IsSymbol(r))
            && (x < BADCHAR ==> [Le0(x), Le1(x)] == Symbols([p, q, r]))
  {
    hide Or2, Or3, Sextet, IsSymbol, Put0, Put1, Put2, FromSextets, Le0, Le1, High, Middle;
    if IsSymbol(p) && IsSymbol(q) && IsSymbol(r) {
      PutTogetherThree(Sextet(p), Sextet(q), Sextet(r));
    } else {
      BadAmongThree(D0(p), D1(q), D2(r));
    }
  }
}
