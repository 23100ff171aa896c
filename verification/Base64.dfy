/** The table-driven codec: pointer-advancing loops over buffers, four characters or bytes at a time. */
module Base64 {
  import opened Common
  import opened Base64Spec

  /** `modp_b64_encode_len` and `modp_b64_decode_len`: the room the destination must have. */
  function EncodeRoom(n: nat): nat { (n + 2) / 3 * 4 + 1 }
  function DecodeRoom(n: nat): nat { n / 4 * 3 + 2 }

  /** Bytes stored one after the other, or as one word. */
  method Write(dest: array<bv8>, p: nat, b: seq<bv8>)
    requires p + |b| <= dest.Length
    modifies dest
    ensures dest[..] == old(dest[..])[..p] + b + old(dest[..])[p + |b|..]
  {
    forall k | 0 <= k < |b| { dest[p + k] := b[k]; }
  }

  lemma {:induction false} EncodeStep(x: seq<bv8>, i: nat)
    requires i + 3 <= |x|
    ensures Encode(x[i..]) == Quad(x[i], x[i + 1], x[i + 2]) + Encode(x[i + 3..])
  {
    hide Quad;
    assert x[i..][3..] == x[i + 3..];
  }

  /** The loop over whole groups. */
  method EncodeGroups(dest: array<bv8>, str: array<bv8>, len: nat) returns (i: nat, p: nat)
    requires dest != str && len <= str.Length && EncodeRoom(len) <= dest.Length
    modifies dest
    ensures i <= len < i + 3 && p == i / 3 * 4 && i % 3 == 0
    ensures dest[..p] + Encode(str[..len][i..]) == Encode(str[..len])
    ensures forall k :: p <= k < dest.Length ==> dest[k] == old(dest[k])
  {
    hide Encode, Quad, E0, E1, E2;
    ghost var x := str[..len];
    i, p := 0, 0;
    assert x[0..] == x;
    while i + 2 < len
      invariant i % 3 == 0 && 0 <= i <= len && p == i / 3 * 4
      invariant dest[..p] + Encode(x[i..]) == Encode(x)
      invariant forall k :: p <= k < dest.Length ==> dest[k] == old(dest[k])
    {
      var t1, t2, t3 := str[i], str[i + 1], str[i + 2];
      ghost var before := dest[..];
      TablesEncode(t1, t2, t3);
      EncodeStep(x, i);
      Write(dest, p, [E0(t1), E1(((t1 & 3) << 4) | ((t2 >> 4) & 15)), E1(((t2 & 15) << 2) | ((t3 >> 6) & 3)), E2(t3)]);
      assert dest[..p + 4] == before[..p] + Quad(t1, t2, t3);
      i, p := i + 3, p + 4;
    }
  }

  /** The `switch` on the bytes left over. */
  method EncodeTail(dest: array<bv8>, str: array<bv8>, len: nat, i: nat, p: nat) returns (q: nat)
    requires dest != str && i <= len <= str.Length && len - i <= 2 && p + 4 < dest.Length + (if len == i then 4 else 0)
    modifies dest
    ensures q == p + (if len == i then 0 else 4)
    ensures dest[..q] == old(dest[..p]) + Encode(str[i..len])
    ensures forall k :: q <= k < dest.Length ==> dest[k] == old(dest[k])
  {
    q := p;
    ghost var before := dest[..];
    if len == i {
      assert str[i..len] == [];
    } else if len - i == 1 {
      hide Encode, E0, E1, E2;
      var t1 := str[i];
      TablesEncodeTail(t1, 0);
      assert str[i..len] == [t1];
      Write(dest, p, [E0(t1), E1((t1 & 3) << 4), PAD, PAD]);
      q := p + 4;
      assert dest[..q] == before[..p] + Encode([t1]);
    } else {
      hide Encode, E0, E1, E2;
      var t1, t2 := str[i], str[i + 1];
      TablesEncodeTail(t1, t2);
      assert str[i..len] == [t1, t2];
      Write(dest, p, [E0(t1), E1(((t1 & 3) << 4) | ((t2 >> 4) & 15)), E2((t2 & 15) << 2), PAD]);
      q := p + 4;
      assert dest[..q] == before[..p] + Encode([t1, t2]);
    }
  }

  /** `modp_b64_encode`: exactly the encoding and a terminating zero, nothing beyond. */
  method ModpEncode(dest: array<bv8>, str: array<bv8>, len: nat) returns (r: nat)
    requires dest != str && len <= str.Length && EncodeRoom(len) <= dest.Length && EncodeRoom(len) <= INT_MAX
    modifies dest
    ensures r + 1 == EncodeRoom(len)
    ensures dest[..] == Encode(str[..len]) + [0] + old(dest[EncodeRoom(len)..])
  {
    hide Encode, Quad, E0, E1, E2;
    ghost var x := str[..len];
    EncodeLength(x);
    var i, p := EncodeGroups(dest, str, len);
    assert x[i..] == str[i..len];
    p := EncodeTail(dest, str, len, i, p);
    assert dest[..p] == Encode(x);
    ghost var before := dest[..];
    dest[p] := 0;
    assert dest[..] == before[..p] + [0] + before[p + 1..];
    r := p;
  }

  // ---------- Decoding ----------

  /** What the characters before the pads decode to. */
  function Chars(s: seq<bv8>): Option<seq<bv8>> {
    if AllSymbols(s) then Some(Symbols(s)) else None
  }

  /** `x` in front of a decoded rest. */
  function Before(x: seq<bv8>, rest: Option<seq<bv8>>): Option<seq<bv8>> {
    if rest.None? then None else Some(x + rest.value)
  }

  lemma {:induction false} CharsStep(s: seq<bv8>, i: nat)
    requires i + 4 <= |s|
    ensures var ok := IsSymbol(s[i]) && IsSymbol(s[i + 1]) && IsSymbol(s[i + 2]) && IsSymbol(s[i + 3]);
            Chars(s[i..]) == if ok then Before(Triple(s[i], s[i + 1], s[i + 2], s[i + 3]), Chars(s[i + 4..])) else None
  {
    hide Triple, IsSymbol;
    var t, q, u := s[i..], s[i..i + 4], s[i + 4..];
    assert t == q + u && t[4..] == u;
    if AllSymbols(q) && AllSymbols(u) {
      SymbolsBehind(q, u);
    }
  }

  lemma {:induction false} BeforeTwice(x: seq<bv8>, y: seq<bv8>, rest: Option<seq<bv8>>)
    ensures Before(x, Before(y, rest)) == Before(x + y, rest)
  {
    if rest.Some? { assert x + (y + rest.value) == x + y + rest.value; }
  }

  /** Four characters through the tables; `None` is a word not below `BADCHAR`. */
  function Lookup4(y: bv32): bv32 { Or4(D0(Le0(y)), D1(Le1(y)), D2(Le2(y)), D3(Le3(y))) }

  lemma LookupWord(p: bv8, q: bv8, r: bv8, s: bv8)
    ensures var x := Lookup4(LoadWord(p, q, r, s));
            && (x < BADCHAR <==> IsSymbol(p) && IsSymbol(q) && IsSymbol(r) && IsSymbol(s))
            && (x < BADCHAR ==> [Le0(x), Le1(x), Le2(x)] == Triple(p, q, r, s))
  {
    hide LoadWord, Le0, Le1, Le2, Le3, Or4, D0, D1, D2, D3, IsSymbol, Triple;
    LoadedBytes(p, q, r, s);
    TablesDecode(p, q, r, s);
  }

  lemma BeforeNothing(rest: Option<seq<bv8>>)
    ensures Before([], rest) == rest
  {
    if rest.Some? { assert [] + rest.value == rest.value; }
  }

  /** The loop over whole words: each store of four bytes is overlapped by the next. */
  method DecodeChunks(dest: array<bv8>, src: array<bv8>, n: nat, chunks: nat) returns (bad: bool)
    requires dest != src && n <= src.Length && 4 * chunks <= n && 3 * chunks + 1 <= dest.Length
    modifies dest
    ensures bad ==> Chars(src[..n]).None?
    ensures !bad ==> Chars(src[..n]) == Before(dest[..3 * chunks], Chars(src[..n][4 * chunks..]))
    ensures forall k :: 3 * chunks + 1 <= k < dest.Length ==> dest[k] == old(dest[k])
  {
    hide Chars, Lookup4, Le0, Le1, Le2, Le3, LoadWord, Triple, IsSymbol;
    ghost var s := src[..n];
    assert s[0..] == s;
    BeforeNothing(Chars(s));
    var p := 0;
    for i := 0 to chunks
      invariant p == 3 * i
      invariant Chars(s) == Before(dest[..p], Chars(s[4 * i..]))
      invariant forall k :: 3 * chunks + 1 <= k < dest.Length ==> dest[k] == old(dest[k])
    {
      ghost var j := 4 * i;
      CharsStep(s, j);
      LookupWord(s[j], s[j + 1], s[j + 2], s[j + 3]);
      var x := Lookup4(LoadWord(src[4 * i], src[4 * i + 1], src[4 * i + 2], src[4 * i + 3]));
      if x >= BADCHAR { return true; }
      ghost var before := dest[..];
      Write(dest, p, [Le0(x), Le1(x), Le2(x), Le3(x)]);
      BeforeTwice(before[..p], [Le0(x), Le1(x), Le2(x)], Chars(s[j + 4..]));
      assert dest[..p + 3] == before[..p] + [Le0(x), Le1(x), Le2(x)];
      p := p + 3;
    }
    bad := false;
  }

  lemma WholeGroup(s: seq<bv8>)
    requires |s| == 4
    ensures var x := Lookup4(LoadWord(s[0], s[1], s[2], s[3]));
            Chars(s) == if x < BADCHAR then Some([Le0(x), Le1(x), Le2(x)]) else None
  {
    hide Lookup4, Le0, Le1, Le2, LoadWord, Triple, IsSymbol;
    LookupWord(s[0], s[1], s[2], s[3]);
    CharsStep(s, 0);
    assert s[0..] == s && s[4..] == [];
    assert Chars([]) == Some([]);
    var x := Lookup4(LoadWord(s[0], s[1], s[2], s[3]));
    assert [Le0(x), Le1(x), Le2(x)] + [] == [Le0(x), Le1(x), Le2(x)];
  }

  lemma TwoLeft(s: seq<bv8>)
    requires |s| == 2
    ensures var x := Or2(D0(s[0]), D1(s[1])); Chars(s) == if x < BADCHAR then Some([Le0(x)]) else None
  {
    hide Or2, D0, D1, Le0, IsSymbol, Symbols;
    TablesDecodeTwo(s[0], s[1]);
    assert s == [s[0], s[1]];
  }

  lemma ThreeLeft(s: seq<bv8>)
    requires |s| == 3
    ensures var x := Or3(D0(s[0]), D1(s[1]), D2(s[2])); Chars(s) == if x < BADCHAR then Some([Le0(x), Le1(x)]) else None
  {
    hide Or3, D0, D1, D2, Le0, Le1, IsSymbol, Symbols;
    TablesDecodeThree(s[0], s[1], s[2]);
    assert s == [s[0], s[1], s[2]];
  }

  /** The `switch` on the characters left over. */
  method DecodeTail(dest: array<bv8>, src: array<bv8>, n: nat, i: nat) returns (r: int)
    requires dest != src && 4 * i + 4 <= src.Length && n <= src.Length && 3 * i + 3 <= dest.Length
    requires 4 * i + 2 <= n <= 4 * i + 4
    modifies dest
    ensures r == -1 <==> Chars(src[4 * i..n]).None?
    ensures r != -1 ==> 3 * i <= r <= 3 * i + 3 && Chars(src[4 * i..n]) == Some(dest[3 * i..r])
    ensures dest[..3 * i] == old(dest[..3 * i])
    ensures forall k :: 3 * i + 3 <= k < dest.Length ==> dest[k] == old(dest[k])
  {
    hide Lookup4, Le0, Le1, Le2, Le3, LoadWord, D0, D1, D2, Or2, Or3, Chars;
    var p := 3 * i;
    ghost var s, was := src[4 * i..n], dest[..];
    LoadedBytes(src[4 * i], src[4 * i + 1], src[4 * i + 2], src[4 * i + 3]);
    var y := LoadWord(src[4 * i], src[4 * i + 1], src[4 * i + 2], src[4 * i + 3]);
    var x, b;
    if n == 4 * i + 4 {
      x := Lookup4(y);
      b := [Le0(x), Le1(x), Le2(x)];
      WholeGroup(s);
      if x >= BADCHAR { return -1; }
    } else if n == 4 * i + 2 {
      x := Or2(D0(Le0(y)), D1(Le1(y)));
      b := [Le0(x)];
      TwoLeft(s);
    } else {
      x := Or3(D0(Le0(y)), D1(Le1(y)), D2(Le2(y)));
      b := [Le0(x), Le1(x)];
      ThreeLeft(s);
    }
    Write(dest, p, b);
    assert dest[p..p + |b|] == b;
    if x >= BADCHAR { return -1; }
    r := p + |b|;
  }

  /** Everything after the pads have been counted off. */
  method DecodeStripped(dest: array<bv8>, src: array<bv8>, len: nat, n: nat) returns (r: int)
    requires dest != src && 4 <= len <= src.Length && len % 4 == 0 && len - 2 <= n <= len
    requires DecodeRoom(len) <= dest.Length
    modifies dest
    ensures r == -1 <==> Chars(src[..n]).None?
    ensures r != -1 ==> 0 <= r <= DecodeRoom(len) && Chars(src[..n]) == Some(dest[..r])
    ensures dest[DecodeRoom(len)..] == old(dest[DecodeRoom(len)..])
  {
    hide Chars;
    ghost var s := src[..n];
    ghost var room := DecodeRoom(len);
    ghost var was := dest[..];
    var leftover := n % 4;
    var chunks := if leftover == 0 then n / 4 - 1 else n / 4;
    var bad := DecodeChunks(dest, src, n, chunks);
    assert dest[room..] == was[room..];
    if bad { return -1; }
    ghost var mid := dest[..];
    assert s[4 * chunks..] == src[4 * chunks..n];
    r := DecodeTail(dest, src, n, chunks);
    assert dest[room..] == mid[room..];
    if r != -1 { assert dest[..r] == mid[..3 * chunks] + dest[3 * chunks..r]; }
  }

  /** `modp_b64_decode`, little-endian branch. Every store stays within `DecodeRoom(len)`. */
  method ModpDecode(dest: array<bv8>, src: array<bv8>, len: nat) returns (r: int)
    requires dest != src && len <= src.Length && DecodeRoom(len) <= dest.Length && len <= INT_MAX
    modifies dest
    ensures r == -1 <==> Decode(src[..len]).None?
    ensures r != -1 ==> 0 <= r <= DecodeRoom(len) && Decode(src[..len]) == Some(dest[..r])
    ensures r != -1 && len > 0 ==> r == DecodedLength(|Stripped(src[..len])|)
    ensures dest[DecodeRoom(len)..] == old(dest[DecodeRoom(len)..])
  {
    ghost var text := src[..len];
    if len == 0 { return 0; }
    if len < 4 || len % 4 != 0 { return -1; }
    var n := len;
    if src[n - 1] == PAD {
      n := n - 1;
      if src[n - 1] == PAD { n := n - 1; }
    }
    ghost var s := Stripped(text);
    assert s == text[..n] == src[..n];
    r := DecodeStripped(dest, src, len, n);
    if r != -1 { DecodeLength(text); }
  }
}
