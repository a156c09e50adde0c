/** What every questionnaire page sends: the submission record
    `{userId, pageNo, questions[, date]}`, its ciphertext in one of the two
    envelope shapes, and the `loading` / `error` / `successful` status the
    versioned forms keep around the request. */
module Submission {
  import opened Json
  import Hex

  type Bytes = seq<Hex.Byte>

  /** `CryptoJS.lib.WordArray.random(16)`: sixteen bytes, supplied by the caller. */
  type RandomIv = b: Bytes | |b| == 16
    witness [0, 0, 0, 0, 0, 0, 0, 0, 0, 0, 0, 0, 0, 0, 0, 0]

  /** The eight random salt bytes `CryptoJS.AES.encrypt` draws on every call in
      passphrase mode, supplied by the caller. */
  type Salt = b: Bytes | |b| == 8 witness [0, 0, 0, 0, 0, 0, 0, 0]

  /** The library calls the forms make. Their algorithms are not part of this
      model, so they are taken as given total functions:
      - stringify: `JSON.stringify`
      - utf8: `CryptoJS.enc.Utf8.parse`, the raw key bytes of a string
      - hexParse: `CryptoJS.enc.Hex.parse`
      - passphraseEncrypt(text, passphrase, salt): `CryptoJS.AES.encrypt(text, passphrase).toString()`
        with the eight salt bytes that call draws
      - cbcEncrypt(text, key, iv): AES-CBC with PKCS#7 padding, `.toString()` of the result
      - cbcDecrypt(ciphertext, key, iv): AES-CBC with PKCS#7, then `.toString(CryptoJS.enc.Utf8)`,
        which throws on bytes that are not UTF-8
      - parse: `JSON.parse`, which throws on text that is not JSON */
  datatype CipherSuite = CipherSuite(
    stringify: Value -> string,
    utf8: string -> Bytes,
    hexParse: string -> Bytes,
    passphraseEncrypt: (string, string, Salt) -> string,
    cbcEncrypt: (string, Bytes, Bytes) -> string,
    cbcDecrypt: (string, Bytes, Bytes) -> Result<string>,
    parse: string -> Result<Value>)

  /** The record a page submits; `date` is present only on the versioned pages. */
  function Record(userId: string, pageNo: int, questions: Value, date: Option<string>): (r: Value)
    ensures r.Obj?
    ensures date.None? ==> r.fields.Keys == {"userId", "pageNo", "questions"}
    ensures date.Some? ==> r.fields.Keys == {"userId", "pageNo", "questions", "date"}
    ensures Field(r, "userId") == Some(Str(userId))
    ensures Field(r, "pageNo") == Some(Num(pageNo))
    ensures Field(r, "questions") == Some(questions)
    ensures date.Some? ==> Field(r, "date") == Some(Str(date.value))
  {
    var core := map["userId" := Str(userId), "pageNo" := Num(pageNo), "questions" := questions];
    match date
    case None => Obj(core)
    case Some(d) => Obj(core["date" := Str(d)])
  }

  /** The two wire shapes: `{data}` (passphrase mode, salt inside the ciphertext)
      and `{iv, ciphertext}` (raw key, explicit IV in hexadecimal). */
  datatype Envelope = Legacy(data: string) | Versioned(iv: string, ciphertext: string)

  function ToJson(e: Envelope): (v: Value)
    ensures v.Obj?
    ensures e.Legacy? ==> v.fields.Keys == {"data"} && Field(v, "data") == Some(Str(e.data))
    ensures e.Versioned? ==> v.fields.Keys == {"iv", "ciphertext"}
    ensures e.Versioned? ==> Field(v, "iv") == Some(Str(e.iv)) && Field(v, "ciphertext") == Some(Str(e.ciphertext))
  {
    match e
    case Legacy(data) => Obj(map["data" := Str(data)])
    case Versioned(iv, ciphertext) => Obj(map["iv" := Str(iv), "ciphertext" := Str(ciphertext)])
  }

  /** The two shapes never share a key, so the posted body tells them apart and
      carries every part of the envelope. */
  lemma ToJsonInjective(e1: Envelope, e2: Envelope)
    requires ToJson(e1) == ToJson(e2)
    ensures e1 == e2
  {
  }

  /** Passphrase mode: the serialised record encrypted under the secret as a
      passphrase, with the salt this submission drew. */
  function LegacyEnvelope(suite: CipherSuite, secret: string, record: Value, salt: Salt): (e: Envelope)
    ensures e.Legacy?
    ensures e.data == suite.passphraseEncrypt(suite.stringify(record), secret, salt)
  {
    Legacy(suite.passphraseEncrypt(suite.stringify(record), secret, salt))
  }

  /** The body pages 1 and 5 post: the single key `data`, holding the
      passphrase-mode ciphertext of the serialised record. */
  function LegacyPayload(suite: CipherSuite, secret: string, record: Value, salt: Salt): (p: Value)
    ensures p.Obj? && p.fields.Keys == {"data"}
    ensures Field(p, "data") == Some(Str(suite.passphraseEncrypt(suite.stringify(record), secret, salt)))
  {
    ToJson(LegacyEnvelope(suite, secret, record, salt))
  }

  /** The key bytes of the raw-key mode: the UTF-8 bytes of the secret. */
  function RawKey(suite: CipherSuite, secret: string): Bytes
  {
    suite.utf8(secret)
  }

  /** Raw-key mode: the IV is written out in hexadecimal, and the encryption uses
      that text parsed back, exactly as the reading side parses the `iv` it receives. */
  function VersionedEnvelope(suite: CipherSuite, secret: string, record: Value, random: RandomIv): (e: Envelope)
    ensures e.Versioned?
    ensures |e.iv| == 32 && Hex.IsLowerHex(e.iv)
    ensures Hex.Decode(e.iv) == Some(random)
    ensures e.ciphertext == suite.cbcEncrypt(suite.stringify(record), RawKey(suite, secret), suite.hexParse(e.iv))
  {
    Hex.DecodeEncode(random);
    var iv := Hex.Encode(random);
    Versioned(iv, suite.cbcEncrypt(suite.stringify(record), RawKey(suite, secret), suite.hexParse(iv)))
  }

  /** What `await fetch(...)` followed by `response.json()` gave: a body with
      `successful` and `message`, or a thrown error. */
  datatype PostResponse = Answered(successful: bool, message: string) | Threw(description: string)

  const SendErrorPrefix: string := "There was an error sending your data: Error: "

  /** The request status of a versioned form. `Begin` is `handleSubmit` up to the
      `await`, `Finish` is the rest, including the `finally`. */
  class SubmitStatus {
    var loading: bool
    var error: string
    var successful: string

    constructor ()
      ensures !loading && error == "" && successful == ""
    {
      loading, error, successful := false, "", "";
    }

    method Begin(suite: CipherSuite, secret: string, record: Value, random: RandomIv) returns (payload: Value)
      modifies this
      ensures loading
      ensures error == old(error) && successful == old(successful)
      ensures payload == ToJson(VersionedEnvelope(suite, secret, record, random))
    {
      loading := true;
      var envelope := VersionedEnvelope(suite, secret, record, random);
      payload := ToJson(envelope);
    }

    method Finish(response: PostResponse)
      modifies this
      ensures !loading
      ensures response.Answered? && response.successful ==>
        successful == response.message && error == old(error)
      ensures response.Answered? && !response.successful ==>
        error == response.message && successful == old(successful)
      ensures response.Threw? ==>
        error == SendErrorPrefix + response.description && successful == old(successful)
    {
      match response {
        case Answered(ok, message) =>
          if ok {
            successful := message;
          } else {
            error := message;
          }
        case Threw(description) =>
          error := SendErrorPrefix + description;
      }
      loading := false;
    }
  }
}
