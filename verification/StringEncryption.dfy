/** `Encrypt_Blowfish_Base64` and `Decrypt_Base64_Blowfish`: cipher, text encoding and zero stripping together. */
module StringEncryption {
  import opened Common
  import opened BlowfishSpec
  import opened BlowfishLaws
  import opened Blowfish
  import B = Base64Spec
  import Base64

  /** Plain texts whose encoded cipher text has a length that fits in an `int`. */
  predicate WithinBounds(n: nat) { Base64.EncodeRoom(RoundUp(n)) <= INT_MAX }

  lemma BoundsFit(n: nat)
    requires WithinBounds(n)
    ensures Fits(ECB, n) && OutputLength(ECB, n) == RoundUp(n)
  {
    hide RoundUp;
    OutputLengthFits(ECB, n);
  }

  // ---------- What the two functions compute ----------

  /** The cipher text of a plain text. */
  function Encrypted(init: Tables, key: seq<bv8>, plain: seq<bv8>): seq<bv8>
    requires Shaped(init) && |key| > 0 && Fits(ECB, |plain|)
  {
    B.Encode(EncBlocks(Schedule(init, key), ECB, Padded(ECB, plain), ZERO_BLOCK))
  }

  /** Trailing zeros go, but the first byte always stays. */
  function Trim(s: seq<bv8>): (r: seq<bv8>)
    ensures r <= s
  {
    if |s| > 1 && s[|s| - 1] == 0 then Trim(s[..|s| - 1]) else s
  }

  /** The bytes filled up with zeros to whole blocks. */
  function ZeroFilled(x: seq<bv8>): (r: seq<bv8>)
    ensures |r| == RoundUp(|x|) && x <= r
  {
    x + Repeat(RoundUp(|x|) - |x|, 0)
  }

  /** The plain text of a cipher text; `None` for the empty text and for a malformed one. */
  function Decrypted(init: Tables, key: seq<bv8>, cipher: seq<bv8>): (r: Option<seq<bv8>>)
    requires Shaped(init) && |key| > 0
  {
    match B.Decode(cipher)
    case None => None
    case Some(x) =>
      if x == [] then None else Some(Trim(DecBlocks(Schedule(init, key), ECB, ZeroFilled(x), ZERO_BLOCK)))
  }

  /** Exactly the empty text and the texts that are no Base64 are refused. */
  lemma {:induction false} RefusedTexts(init: Tables, key: seq<bv8>, cipher: seq<bv8>)
    requires Shaped(init) && |key| > 0
    ensures Decrypted(init, key, cipher) == None <==> cipher == [] || B.Decode(cipher) == None
  {
    if cipher != [] && B.Decode(cipher).Some? {
      B.DecodeLength(cipher);
      hide Trim, DecBlocks, Schedule;
    }
  }

  // ---------- The round trip ----------

  lemma {:induction false} TrimZeros(x: seq<bv8>, k: nat)
    requires x != []
    ensures Trim(x + Repeat(k, 0)) == Trim(x)
    decreases k
  {
    if k == 0 {
      assert x + Repeat(k, 0) == x;
    } else {
      var s := x + Repeat(k, 0);
      assert s[..|s| - 1] == x + Repeat(k - 1, 0);
      TrimZeros(x, k - 1);
    }
  }

  lemma {:induction false} TrimKeeps(x: seq<bv8>)
    requires x != []
    ensures Trim(x) == x <==> |x| == 1 || x[|x| - 1] != 0
  {
  }

  lemma PaddedIsZeroFilled(x: seq<bv8>)
    requires Fits(ECB, |x|)
    ensures Padded(ECB, x) == ZeroFilled(x)
  {
    hide RoundUp;
    OutputLengthFits(ECB, |x|);
  }

  /** The text is the Base64 of the zero-filled plain text enciphered block by block with the tables of the key. */
  lemma {:induction false} EncryptedBlocks(init: Tables, key: seq<bv8>, plain: seq<bv8>, i: nat)
    requires Shaped(init) && |key| > 0 && Fits(ECB, |plain|) && 8 * i + 8 <= |ZeroFilled(plain)|
    ensures match B.Decode(Encrypted(init, key, plain))
            case None => false
            case Some(y) =>
              |y| == |ZeroFilled(plain)| && Nth(y, i) == EncBlock(Schedule(init, key), Nth(ZeroFilled(plain), i))
  {
    hide Schedule, EncBlocks, EncBlock, Padded, ZeroFilled, B.Encode, B.Decode;
    PaddedIsZeroFilled(plain);
    var t := Schedule(init, key);
    B.RoundTrip(EncBlocks(t, ECB, Padded(ECB, plain), ZERO_BLOCK));
    NthMessageBlock(t, ECB, Padded(ECB, plain), i);
  }

  lemma WholeBlocks(c: seq<bv8>)
    requires |c| % 8 == 0
    ensures ZeroFilled(c) == c
  {
    assert RoundUp(|c|) == |c|;
  }

  /** Decrypting what was encrypted with the same key gives the plain text without its trailing zeros. */
  lemma {:induction false} DecryptEncrypt(init: Tables, key: seq<bv8>, plain: seq<bv8>)
    requires Shaped(init) && |key| > 0 && Fits(ECB, |plain|) && plain != []
    ensures Decrypted(init, key, Encrypted(init, key, plain)) == Some(Trim(plain))
  {
    hide Schedule, EncBlocks, DecBlocks, B.Encode, B.Decode, OutputLength, Trim;
    var t := Schedule(init, key);
    var padded := Padded(ECB, plain);
    var c := EncBlocks(t, ECB, padded, ZERO_BLOCK);
    OutputLengthFits(ECB, |plain|);
    B.RoundTrip(c);
    assert ZeroFilled(c) == c by { WholeBlocks(c); }
    ModeRoundTrip(t, ECB, plain);
    TrimZeros(plain, OutputLength(ECB, |plain|) - |plain|);
  }

  /**
   The round trip is exact if and only if the last byte of the plain text is not zero or the plain
   text is a single byte.
   */
  lemma {:induction false} StringRoundTrip(init: Tables, key: seq<bv8>, plain: seq<bv8>)
    requires Shaped(init) && |key| > 0 && Fits(ECB, |plain|) && plain != []
    ensures Decrypted(init, key, Encrypted(init, key, plain)) == Some(plain)
            <==> |plain| == 1 || plain[|plain| - 1] != 0
  {
    hide Encrypted, Decrypted, Trim;
    DecryptEncrypt(init, key, plain);
    TrimKeeps(plain);
  }

  /** A trailing zero byte is lost. */
  lemma TrailingZeroIsLost(init: Tables, key: seq<bv8>)
    requires Shaped(init) && |key| > 0
    ensures Decrypted(init, key, Encrypted(init, key, [65, 0])) == Some([65])
  {
    hide Decrypted, Encrypted;
    var plain: seq<bv8> := [65, 0];
    DecryptEncrypt(init, key, plain);
    assert plain[..1] == [65];
  }

  // ---------- The code ----------

  method FromString(s: seq<bv8>) returns (a: array<bv8>)
    ensures fresh(a) && a[..] == s
  {
    a := new bv8[|s|](i requires 0 <= i < |s| => s[i]);
  }

  /** `CXtlBase64::encode` into a string: the terminator is cut off again. */
  method EncodeText(input: array<bv8>, n: nat) returns (text: seq<bv8>)
    requires n <= input.Length && Base64.EncodeRoom(n) <= INT_MAX
    ensures text == B.Encode(input[..n])
  {
    var temp := new bv8[Base64.EncodeRoom(n)](_ => 0);
    var size := Base64.ModpEncode(temp, input, n);
    B.EncodeLength(input[..n]);
    text := temp[..size];
  }

  /** `CXtlBase64::decode` into a buffer: `size` is what `output_length` is set to. */
  method DecodeText(output: array<bv8>, text: seq<bv8>) returns (ok: bool, size: nat)
    requires |text| <= INT_MAX && Base64.DecodeRoom(|text|) <= output.Length
    modifies output
    ensures ok == B.Decode(text).Some?
    ensures ok ==> size <= output.Length && B.Decode(text) == Some(output[..size])
  {
    hide B.Decode;
    var src := FromString(text);
    var temp := new bv8[Base64.DecodeRoom(|text|)](_ => 0);
    assert src[..|text|] == text;
    var r := Base64.ModpDecode(temp, src, |text|);
    if r < 0 { return false, 0; }
    Copy(output, temp, r);
    assert output[..r] == temp[..r];
    return true, r;
  }

  /** A cipher object with the schedule of the key, in ECB mode. */
  method NewCodec(init: Tables, key: seq<bv8>) returns (codec: CBlowFish)
    requires Shaped(init) && |key| > 0
    ensures fresh(codec) && fresh(codec.pArray) && fresh(codec.sBoxes)
    ensures codec.Valid() && codec.mode == ECB && codec.T() == Schedule(init, key)
  {
    hide Schedule;
    codec := new CBlowFish(init);
    var keyBytes := FromString(key);
    codec.Initialize(keyBytes, ECB);
  }

  /** The buffer that `Encrypt` encodes as text. */
  method Encipher(init: Tables, key: seq<bv8>, plain: seq<bv8>) returns (output: array<bv8>)
    requires Shaped(init) && |key| > 0 && Fits(ECB, |plain|)
    ensures fresh(output) && output.Length == OutputLength(ECB, |plain|)
    ensures output[..] == EncBlocks(Schedule(init, key), ECB, Padded(ECB, plain), ZERO_BLOCK)
  {
    hide Schedule, EncBlocks, RoundUp, OutputLength, Padded;
    var codec := NewCodec(init, key);
    var outputLen := codec.GetOutputLength(|plain|);
    var input := FromString(plain);
    output := new bv8[outputLen](_ => 0);
    assert input[..|plain|] == plain;
    var written := codec.Encode(input, output, |plain|);
    assert output[..written] == output[..];
  }

  method Encrypt(init: Tables, plain: seq<bv8>, key: seq<bv8>) returns (cipher: Option<seq<bv8>>)
    requires Shaped(init) && |key| > 0 && WithinBounds(|plain|)
    ensures plain == [] ==> cipher == None
    ensures plain != [] ==> Fits(ECB, |plain|) && cipher == Some(Encrypted(init, key, plain))
  {
    hide Schedule, EncBlocks, B.Encode, RoundUp, OutputLength, Padded;
    BoundsFit(|plain|);
    if |plain| == 0 { return None; }
    var output := Encipher(init, key, plain);
    var text := EncodeText(output, output.Length);
    assert output[..output.Length] == output[..];
    return Some(text);
  }

  /** The zeroed buffer that `Decrypt` deciphers into, one byte longer than the blocks. */
  method Decipher(init: Tables, key: seq<bv8>, bytes: array<bv8>, size: nat) returns (output: array<bv8>, n: nat)
    requires Shaped(init) && |key| > 0 && size <= bytes.Length && size <= INT_MAX
    ensures fresh(output) && n == RoundUp(size) && output.Length == n + 1
    ensures output[..n] == DecBlocks(Schedule(init, key), ECB, ZeroFilled(bytes[..size]), ZERO_BLOCK)
  {
    hide Schedule, DecBlocks, RoundUp, OutputLength, UnpaddedLength;
    var codec := NewCodec(init, key);
    OutputLengthFits(ECB, size);
    n := codec.GetOutputLength(size);
    ghost var x := bytes[..size];
    output := new bv8[n + 1](_ => 0);
    assert output[size..n] == Repeat(n - size, 0);
    var m := codec.Decode(bytes, output, size);
  }

  /** The loop that strips trailing zeros. */
  method StripZeros(output: array<bv8>, n: nat) returns (m: nat)
    requires 0 < n <= output.Length
    ensures 0 < m <= n && output[..m] == Trim(output[..n])
  {
    m := n;
    while m > 1 && output[m - 1] == 0
      invariant 1 <= m <= n
      invariant Trim(output[..m]) == Trim(output[..n])
    {
      assert output[..m][..m - 1] == output[..m - 1];
      m := m - 1;
    }
  }

  lemma EmptyText()
    ensures B.Decode([]) == Some([])
  {
  }

  method Decrypt(init: Tables, cipher: seq<bv8>, key: seq<bv8>) returns (plain: Option<seq<bv8>>)
    requires Shaped(init) && |key| > 0 && |cipher| <= INT_MAX
    ensures plain == Decrypted(init, key, cipher)
  {
    hide Schedule, DecBlocks, Trim, RoundUp, B.Decode;
    if |cipher| == 0 {
      EmptyText();
      return None;
    }
    var bytes := new bv8[Base64.DecodeRoom(|cipher|)](_ => 0);
    var ok, size := DecodeText(bytes, cipher);
    if !ok { return None; }
    var output, n := Decipher(init, key, bytes, size);
    if n == 0 { return None; }
    var m := StripZeros(output, n);
    plain := Some(output[..m]);
  }
}
