/**
  The browser's shared chat key: Base64 conversions of byte buffers, the
  validity test for a stored key (a trimmed Base64 text of at least 40
  characters that decodes to exactly 32 bytes), and the `CHAT_KEY` slot of
  local storage, which is replaced by a freshly generated key whenever it does
  not hold a valid one.
*/
module CryptoKeyManager {
  import opened Wrappers
  import opened JsText
  import opened Base64

  /** Bytes per `String.fromCharCode.apply` call. */
  const Chunk := 0x8000

  /** The length of an AES-256 key in bytes. */
  const KeyLength := 32

  /** `arrayBufferToBase64`: the binary string is built chunk by chunk, then passed to `btoa`. */
  method ArrayBufferToBase64(bytes: seq<byte>) returns (b64: string)
    ensures b64 == Encode(bytes)
  {
    var binary := "";
    var i := 0;
    while i < |bytes|
      invariant 0 <= i
      invariant binary == FromBytes(bytes[..if i <= |bytes| then i else |bytes|])
      decreases |bytes| - i
    {
      var end := if i + Chunk <= |bytes| then i + Chunk else |bytes|;
      FromBytesAppend(bytes[..i], bytes[i..end]);
      assert bytes[..i] + bytes[i..end] == bytes[..end];
      binary := binary + FromBytes(bytes[i..end]);
      i := i + Chunk;
    }
    assert bytes[..|bytes|] == bytes;
    ToBytesFromBytes(bytes);
    var r := Btoa(binary);
    b64 := r.value;
  }

  /**
    What `base64ToArrayBuffer` returns: an empty buffer for a missing or empty
    text, otherwise the character codes of `atob(b64)`; `None` when `atob`
    throws.
  */
  function BufferOf(b64: Option<string>): (r: Option<seq<byte>>)
    ensures !Truthy(b64) ==> r == Some([])
    ensures Truthy(b64) ==> r == Decode(b64.value)
  {
    if !Truthy(b64) then Some([])
    else match Atob(b64.value)
      case None => None
      case Some(binary) =>
        assert binary == FromBytes(Decode(b64.value).value);
        ToBytesFromBytes(Decode(b64.value).value);
        Some(ToBytes(binary))
  }

  /** `base64ToArrayBuffer`: a fresh buffer filled one character code at a time. */
  method Base64ToArrayBuffer(b64: Option<string>) returns (r: Option<array<byte>>)
    ensures r.None? <==> BufferOf(b64).None?
    ensures r.Some? ==> fresh(r.value) && r.value[..] == BufferOf(b64).value
  {
    if !Truthy(b64) {
      var empty := new byte[0];
      return Some(empty);
    }
    var decoded := Atob(b64.value);
    if decoded.None? {
      return None;
    }
    var binary := decoded.value;
    var bytes := new byte[|binary|];
    var i := 0;
    while i < |binary|
      invariant 0 <= i <= |binary|
      invariant forall j :: 0 <= j < i ==> bytes[j] == binary[j] as int
    {
      bytes[i] := binary[i] as int;
      i := i + 1;
    }
    assert bytes[..] == ToBytes(binary);
    r := Some(bytes);
  }

  /** A buffer converted to Base64 and back is the same buffer, the empty one included. */
  lemma BufferRoundTrip(b: seq<byte>)
    ensures BufferOf(Some(Encode(b))) == Some(b)
  {
    if |b| > 0 {
      DecodeEncode(b);
    }
  }

  /** `validateKey`: the trimmed text is at least 40 characters long and decodes to 32 bytes. */
  predicate ValidateKey(b64: Option<string>) {
    if !Truthy(b64) then false
    else
      var trimmed := Trim(b64.value);
      if |trimmed| < 40 then false
      else match BufferOf(Some(trimmed))
        case None => false
        case Some(buf) => |buf| == KeyLength
  }

  /** The Base64 text of any 32 bytes, as `generateNewKey` produces it, is a valid key. */
  lemma GeneratedKeyValidates(raw: seq<byte>)
    requires |raw| == KeyLength
    ensures ValidateKey(Some(Encode(raw))) && Trim(Encode(raw)) == Encode(raw)
  {
    var s := Encode(raw);
    assert !IsJsWhitespace(s[0]) && !IsJsWhitespace(s[|s| - 1]);
    TrimOfTrimmed(s);
    DecodeEncode(raw);
  }

  /** A valid key with no surrounding whitespace decodes to exactly 32 bytes. */
  lemma ValidKeyBuffer(key: string)
    requires ValidateKey(Some(key)) && Trim(key) == key
    ensures BufferOf(Some(key)).Some? && |BufferOf(Some(key)).value| == KeyLength
  {
  }

  /** Trimming a valid key keeps it valid, so the trimmed text `getChatKeyBase64` returns is valid. */
  lemma TrimmedKeyValidates(s: string)
    requires ValidateKey(Some(s))
    ensures ValidateKey(Some(Trim(s))) && Trim(Trim(s)) == Trim(s)
  {
    TrimIdempotent(s);
  }

  /**
    The 40-character floor is never what rejects a key: apart from whitespace,
    a valid key is the 44-character padded or the 43-character unpadded
    Base64 text of 32 bytes.
  */
  lemma ValidKeyShape(s: string)
    requires ValidateKey(Some(s))
    ensures var t := RemoveAsciiWhitespace(Trim(s)); |t| == 43 || |t| == 44
  {
    var trimmed := Trim(s);
    var t := RemoveAsciiWhitespace(trimmed);
    var u := if |t| % 4 == 0 then StripPadding(t) else t;
    assert Decode(trimmed).Some? && |Decode(trimmed).value| == KeyLength;
    assert AllBase64(u) && |u| % 4 != 1 && Decode(trimmed).value == DecodeUnpadded(u);
    DecodeUnpaddedLength(u);
    var q, r := |u| / 4, |u| % 4;
    assert |u| == 4 * q + r;
    assert 3 * q + (if r == 0 then 0 else r - 1) == 32;
    assert |u| == 43;
    PaddedLength(t, u);
  }

  /** 43 characters left once padding is stripped were 43 or 44 before. */
  lemma PaddedLength(t: string, u: string)
    requires u == (if |t| % 4 == 0 then StripPadding(t) else t) && |u| == 43
    ensures |t| == 43 || |t| == 44
  {
    assert |StripPadding(t)| == |t| || |StripPadding(t)| == |t| - 1 || |StripPadding(t)| == |t| - 2;
  }

  /** `generateNewKey`: the Base64 text of the 32 random bytes `raw`, a valid, already trimmed key. */
  method GenerateNewKey(raw: seq<byte>) returns (key: string)
    requires |raw| == KeyLength
    ensures key == Encode(raw) && key != ""
    ensures ValidateKey(Some(key)) && Trim(key) == key
  {
    key := ArrayBufferToBase64(raw);
    GeneratedKeyValidates(raw);
  }

  /** The `CHAT_KEY` slot of local storage. */
  class ChatKeyStore {
    var stored: Option<string>

    constructor(stored: Option<string>)
      ensures this.stored == stored
    {
      this.stored := stored;
    }

    /**
      `setChatKey`: stores the trimmed text; a missing or empty text, or a
      storage write that fails (`storageOk` false), leaves the slot as it was.
    */
    method SetChatKey(b64: Option<string>, storageOk: bool)
      modifies this
      ensures stored == if Truthy(b64) && storageOk then Some(Trim(b64.value)) else old(stored)
    {
      if !Truthy(b64) {
        return;
      }
      if storageOk {
        stored := Some(Trim(b64.value));
      }
    }

    /**
      `getChatKeyBase64`. A valid stored key is returned trimmed; otherwise,
      or when reading storage fails (`readable` false), the key generated from
      `freshKey` (the 32 random bytes) is stored and returned. Either way the
      result is a valid key.
    */
    method GetChatKeyBase64(freshKey: seq<byte>, readable: bool, storageOk: bool) returns (key: string)
      requires |freshKey| == KeyLength
      modifies this
      ensures ValidateKey(Some(key)) && Trim(key) == key
      ensures readable && ValidateKey(old(stored)) ==> key == Trim(old(stored).value) && stored == old(stored)
      ensures !readable || !ValidateKey(old(stored)) ==>
        key == Encode(freshKey) && stored == if storageOk then Some(key) else old(stored)
    {
      if !readable {
        key := GenerateNewKey(freshKey);
        SetChatKey(Some(key), storageOk);
        return;
      }
      var current := stored;
      if !Truthy(current) || !ValidateKey(current) {
        var generated := GenerateNewKey(freshKey);
        SetChatKey(Some(generated), storageOk);
        key := Trim(generated);
      } else {
        TrimmedKeyValidates(current.value);
        key := Trim(current.value);
      }
    }

    /**
      `getChatKey` up to the import: the raw key bytes, always 32 of them;
      the decoded stored key when it is readable and valid, otherwise the
      fresh bytes, whose Base64 text is stored when storage works.
    */
    method GetChatKey(freshKey: seq<byte>, readable: bool, storageOk: bool) returns (raw: array<byte>)
      requires |freshKey| == KeyLength
      modifies this
      ensures fresh(raw) && raw.Length == KeyLength
      ensures readable && ValidateKey(old(stored)) ==>
        raw[..] == BufferOf(Some(Trim(old(stored).value))).value && stored == old(stored)
      ensures !readable || !ValidateKey(old(stored)) ==>
        raw[..] == freshKey && stored == if storageOk then Some(Encode(freshKey)) else old(stored)
    {
      var b64 := GetChatKeyBase64(freshKey, readable, storageOk);
      ValidKeyBuffer(b64);
      var buf := Base64ToArrayBuffer(Some(b64));
      raw := buf.value;
      if !readable || !ValidateKey(old(stored)) {
        BufferRoundTrip(freshKey);
      }
    }
  }
}
