/**
 * The byte padding applied before AES-CBC encryption and the framing that
 * `decrypt` undoes: `iv$length$ciphertext`, with the plaintext cut back to
 * the declared length. The cipher, base64, `int`, UTF-8 and JSON decoders
 * are parameters.
 */
module Encryption {
  import opened Wrappers
  import opened Text

  newtype byte = x: int | 0 <= x < 256

  const BLOCK_SIZE: nat := 16

  /** `pad_binary_data`: append `16 - len % 16` zero bytes. */
  function PadBinaryData(data: seq<byte>): (r: seq<byte>)
    ensures |r| % BLOCK_SIZE == 0
    ensures |data| < |r| <= |data| + BLOCK_SIZE
    ensures r[..|data|] == data
    ensures forall i :: |data| <= i < |r| ==> r[i] == 0
  {
    data + seq(BLOCK_SIZE - |data| % BLOCK_SIZE, _ => 0)
  }

  /** The padded length is the least multiple of the block size that exceeds the input length. */
  lemma PaddedLengthIsLeast(data: seq<byte>, m: nat)
    requires m % BLOCK_SIZE == 0 && m > |data|
    ensures |PadBinaryData(data)| <= m
  {
    var n := |data|;
    var q := n / BLOCK_SIZE;
    assert n == q * BLOCK_SIZE + n % BLOCK_SIZE;
    assert |PadBinaryData(data)| == (q + 1) * BLOCK_SIZE;
    var p := m / BLOCK_SIZE;
    assert m == p * BLOCK_SIZE;
    assert p > q;
    MulMonotone(q + 1, p, BLOCK_SIZE);
  }

  lemma MulMonotone(a: nat, b: nat, k: nat)
    requires a <= b
    ensures a * k <= b * k
  {
  }

  /** An input that is already block aligned gains a whole block of zeros. */
  lemma AlignedGainsAFullBlock(data: seq<byte>)
    requires |data| % BLOCK_SIZE == 0
    ensures |PadBinaryData(data)| == |data| + BLOCK_SIZE
  {
  }

  /** Python's `s[:n]`: a negative `n` counts from the end, an overlong one takes everything. */
  function PrefixSlice<T>(s: seq<T>, n: int): (r: seq<T>)
    ensures |r| <= |s| && r == s[..|r|]
    ensures 0 <= n <= |s| ==> |r| == n
    ensures n >= |s| ==> r == s
  {
    if n >= 0 then (if n <= |s| then s[..n] else s)
    else if |s| + n >= 0 then s[..|s| + n]
    else []
  }

  /** Cutting the padded bytes back to the original length returns the original. */
  lemma TruncatingThePaddingRestores(data: seq<byte>)
    ensures PrefixSlice(PadBinaryData(data), |data|) == data
  {
    assert PrefixSlice(PadBinaryData(data), |data|) == PadBinaryData(data)[..|data|];
  }

  /**
   * The decoders `decrypt` calls, each `None` where the library raises:
   * `b64decode`, `int`, the AES-CBC decryptor under the server key, the
   * UTF-8 decoder and `json.loads`.
   */
  datatype Decoders<!Json> = Decoders(
    b64decode: string -> Option<seq<byte>>,
    parseInt: string -> Option<int>,
    aesDecrypt: (seq<byte>, seq<byte>) -> Option<seq<byte>>,
    utf8Decode: seq<byte> -> Option<string>,
    jsonLoads: string -> Option<Json>)

  datatype DecryptError =
    | WrongFraming         // the unpacking of `split("$")` raises ValueError
    | BadBase64
    | BadLength
    | CipherFailure
    | BadUtf8
    | BadJson

  /** A JSON object when the plaintext starts with `{`, the text itself otherwise. */
  datatype Plain<Json> = Document(doc: Json) | Text(text: string)

  function Decrypt<Json>(dec: Decoders<Json>, stored: string): (r: Result<Plain<Json>, DecryptError>)
    ensures |Split(stored, '$')| != 3 ==> r == Failure(WrongFraming)
  {
    var parts := Split(stored, '$');
    if |parts| != 3 then Failure(WrongFraming)
    else
      match dec.b64decode(parts[0])
      case None => Failure(BadBase64)
      case Some(iv) =>
        match dec.b64decode(parts[2])
        case None => Failure(BadBase64)
        case Some(ciphertext) =>
          match dec.parseInt(parts[1])
          case None => Failure(BadLength)
          case Some(length) =>
            match dec.aesDecrypt(iv, ciphertext)
            case None => Failure(CipherFailure)
            case Some(padded) =>
              match dec.utf8Decode(PrefixSlice(padded, length))
              case None => Failure(BadUtf8)
              case Some(text) =>
                if StartsWith(text, "{") then
                  match dec.jsonLoads(text)
                  case None => Failure(BadJson)
                  case Some(doc) => Success(Document(doc))
                else Success(Text(text))
  }

  /** A successful decryption means the stored text had exactly three `$`-separated parts. */
  lemma DecryptedHadThreeParts<Json>(dec: Decoders<Json>, stored: string)
    requires Decrypt(dec, stored).Success?
    ensures multiset(stored)['$'] == 2
  {
    SplitCount(stored, '$');
  }

  /**
   * The round trip the framing is designed for: when the cipher yields
   * `pad(x)` and the declared length is `len(x)`, the plaintext decoded is
   * exactly the decoding of `x`.
   */
  lemma DecryptRecoversThePlaintext<Json>(dec: Decoders<Json>, iv: string, length: string, ciphertext: string, x: seq<byte>)
    requires '$' !in iv && '$' !in length && '$' !in ciphertext
    requires dec.b64decode(iv).Some? && dec.b64decode(ciphertext).Some?
    requires dec.parseInt(length) == Some(|x|)
    requires dec.aesDecrypt(dec.b64decode(iv).value, dec.b64decode(ciphertext).value) == Some(PadBinaryData(x))
    requires dec.utf8Decode(x).Some? && !StartsWith(dec.utf8Decode(x).value, "{")
    ensures Decrypt(dec, iv + "$" + length + "$" + ciphertext) == Success(Text(dec.utf8Decode(x).value))
  {
    SplitThree(iv, length, ciphertext, '$');
    TruncatingThePaddingRestores(x);
  }

  lemma SplitThree(a: string, b: string, c: string, sep: char)
    requires sep !in a && sep !in b && sep !in c
    ensures Split(a + [sep] + b + [sep] + c, sep) == [a, b, c]
  {
    var parts := [a, b, c];
    assert Join(parts, sep) == a + [sep] + b + [sep] + c by {
      assert Join(parts[1..], sep) == b + [sep] + Join(parts[2..], sep);
    }
    SplitJoin(parts, sep);
  }
}
