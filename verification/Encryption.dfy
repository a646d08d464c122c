/** The text framing of encrypted data: `base64(iv) ":" base64(cipher)`. The block cipher and the
    digest are foreign code: they are parameters, and `Cipher.Sound` is what is relied on. */
module Encryption {
  import opened Base64
  import opened Wrappers

  /** A string of one-byte characters, as `std::string` holds it. */
  type ByteString = s: string | forall c | c in s :: c as int < 256

  const IV_SIZE := 128
  const IV_BYTE_SIZE := ByteSize(IV_SIZE)
  const IV_BASE64_SIZE := Base64Size(IV_SIZE)
  const KEY_BYTE_SIZE := 32

  type InitVector = b: Bytes | |b| == 16 witness [0, 0, 0, 0, 0, 0, 0, 0, 0, 0, 0, 0, 0, 0, 0, 0]

  /** SHA-256, and AES-256-CBC as (data, key, iv). */
  datatype Cipher = Cipher(
    digest: Bytes -> Bytes,
    encryptBlocks: (Bytes, Bytes, InitVector) -> Bytes,
    decryptBlocks: (Bytes, Bytes, InitVector) -> Bytes) {

    /** What the foreign functions promise; nothing is said of decryption under another key. */
    ghost predicate Sound() {
      && (forall b :: |digest(b)| == KEY_BYTE_SIZE)
      && forall d, k, iv | |k| == KEY_BYTE_SIZE ::
           encryptBlocks(d, k, iv) != [] && decryptBlocks(encryptBlocks(d, k, iv), k, iv) == d
    }
  }

  function StrToBytes(s: ByteString): (b: Bytes)
    ensures |b| == |s|
  {
    seq(|s|, i requires 0 <= i < |s| => s[i] as int)
  }

  function BytesToStr(b: Bytes): (s: ByteString)
    ensures |s| == |b|
  {
    seq(|b|, i requires 0 <= i < |b| => b[i] as char)
  }

  lemma StringRoundTrip(s: ByteString)
    ensures BytesToStr(StrToBytes(s)) == s
  {
  }

  function Encrypt(c: Cipher, plain: ByteString, passphrase: ByteString, iv: InitVector): string {
    Encode(iv) + ":" + Encode(c.encryptBlocks(StrToBytes(plain), c.digest(StrToBytes(passphrase)), iv))
  }

  /** The wrapper refuses a key, vector or input of the wrong size before it calls the cipher. */
  function DecryptBytes(c: Cipher, data: Bytes, key: Bytes, iv: Bytes): Result<Bytes, string> {
    if |key| != KEY_BYTE_SIZE then Failure("Invalid key size")
    else if |iv| != IV_BYTE_SIZE then Failure("Invalid initial vector size")
    else if data == [] then Failure("Empty cyphered binary")
    else Success(c.decryptBlocks(data, key, iv))
  }

  function Decrypt(c: Cipher, data: string, passphrase: ByteString): Result<ByteString, string> {
    if data == "" then Success("")
    else if |data| <= IV_BASE64_SIZE || data[IV_BASE64_SIZE] != ':' then Failure("Invalid cyphered format")
    else
      var iv :- OrThrow(Decode(data[..IV_BASE64_SIZE]), "Invalid base64");
      var body :- OrThrow(Decode(data[IV_BASE64_SIZE + 1..]), "Invalid base64");
      var plain :- DecryptBytes(c, body, c.digest(StrToBytes(passphrase)), iv);
      Success(BytesToStr(plain))
  }

  /** For all data, passphrases and vectors: the text is split where it was joined. */
  lemma DecryptUndoesEncrypt(c: Cipher, plain: ByteString, passphrase: ByteString, iv: InitVector)
    requires c.Sound()
    ensures Decrypt(c, Encrypt(c, plain, passphrase, iv), passphrase) == Success(plain)
  {
    var text := Encrypt(c, plain, passphrase, iv);
    var key := c.digest(StrToBytes(passphrase));
    var body := c.encryptBlocks(StrToBytes(plain), key, iv);
    Base64SizeIsEncodedLength(IV_SIZE, iv);
    assert text[..IV_BASE64_SIZE] == Encode(iv);
    assert text[IV_BASE64_SIZE + 1..] == Encode(body);
    RoundTrip(iv);
    RoundTrip(body);
    StringRoundTrip(plain);
  }
}
