/** The progress page: fetching the prescription and impression lists, decrypting
    and decoding them, and latching `dataFetched`. */
module Progress {
  import opened Json
  import Submission
  import Hex

  const Nul: char := '\0'

  predicate AllNul(s: string)
  {
    forall i :: 0 <= i < |s| ==> s[i] == Nul
  }

  /** `replace(/\0+$/, '')`: drop the longest run of NUL characters at the end. */
  function StripTrailingNul(s: string): (r: string)
    ensures |r| <= |s| && r == s[..|r|]
    ensures AllNul(s[|r|..])
    ensures r == [] || r[|r| - 1] != Nul
    decreases |s|
  {
    if s != [] && s[|s| - 1] == Nul then StripTrailingNul(s[..|s| - 1]) else s
  }

  /** The split is unique: text that does not end in NUL, followed by NULs only,
      strips to exactly that text. */
  lemma {:induction false} StripExact(p: string, z: string)
    requires p == [] || p[|p| - 1] != Nul
    requires AllNul(z)
    ensures StripTrailingNul(p + z) == p
    decreases |z|
  {
    if z == [] {
      assert p + z == p;
    } else {
      assert (p + z)[..|p + z| - 1] == p + z[..|z| - 1];
      StripExact(p, z[..|z| - 1]);
    }
  }

  lemma StripIdempotent(s: string)
    ensures StripTrailingNul(StripTrailingNul(s)) == StripTrailingNul(s)
  {
    StripExact(StripTrailingNul(s), []);
  }

  /** NULs before the last other character stay where they are. */
  lemma StripKeepsInterior(s: string, i: int)
    requires 0 <= i < |s| && s[i] != Nul
    ensures i < |StripTrailingNul(s)| && StripTrailingNul(s)[..i + 1] == s[..i + 1]
  {
  }

  /** Padding a text with NULs does not change what it strips to. */
  lemma {:induction false} StripIgnoresPadding(text: string, n: nat)
    ensures StripTrailingNul(text + seq(n, _ => Nul)) == StripTrailingNul(text)
  {
    var p := StripTrailingNul(text);
    var z := text[|p|..] + seq(n, _ => Nul);
    assert text + seq(n, _ => Nul) == p + z;
    StripExact(p, z);
  }

  /** The body of a GET reply: `{successful, message, ciphertext, iv}`. */
  datatype Reply = Reply(successful: bool, message: string, ciphertext: string, iv: string)

  /** What `await fetch(...)` followed by `response.json()` gave. */
  datatype GetResponse = Answered(body: Reply) | Threw(description: string)

  /** What one fetch leaves behind: the new list, or the message for `error`. */
  datatype Outcome = Loaded(data: Value) | Failed(message: string)

  const FetchErrorPrefix: string := "There was an error getting the data. Error "

  /** `CryptoJS.enc.Hex.parse` agrees with the reference reading on well-formed
      hexadecimal text. */
  ghost predicate HexParseReads(suite: Submission.CipherSuite)
  {
    forall s :: Hex.Decode(s).Some? ==> suite.hexParse(s) == Hex.Decode(s).value
  }

  /** The IV bytes the reading side decrypts with: the received hex text, parsed. */
  function ReceivedIv(suite: Submission.CipherSuite, reply: Reply): (iv: Submission.Bytes)
    ensures HexParseReads(suite) && Hex.Decode(reply.iv).Some? ==> iv == Hex.Decode(reply.iv).value
  {
    suite.hexParse(reply.iv)
  }

  /** The plaintext of a successful reply, or the error its decryption throws. */
  function Decrypted(suite: Submission.CipherSuite, secret: string, reply: Reply): (r: Result<string>)
    ensures CbcInverts(suite) ==> forall text ::
              reply.ciphertext == suite.cbcEncrypt(text, Submission.RawKey(suite, secret), ReceivedIv(suite, reply))
              ==> r == Ok(text)
  {
    suite.cbcDecrypt(reply.ciphertext, Submission.RawKey(suite, secret), ReceivedIv(suite, reply))
  }

  /** The body of the `try` of `getPrescription` / `getImpression`. */
  function Retrieve(suite: Submission.CipherSuite, secret: string, response: GetResponse): (o: Outcome)
    ensures response.Threw? ==> o == Failed(FetchErrorPrefix + response.description)
    ensures response.Answered? && !response.body.successful ==> o == Failed(response.body.message)
    ensures o.Loaded? <==>
      && response.Answered?
      && response.body.successful
      && Decrypted(suite, secret, response.body).Ok?
      && suite.parse(StripTrailingNul(Decrypted(suite, secret, response.body).value)).Ok?
    ensures o.Loaded? ==>
      suite.parse(StripTrailingNul(Decrypted(suite, secret, response.body).value)) == Ok(o.data)
    ensures response.Answered? && response.body.successful && Decrypted(suite, secret, response.body).Err? ==>
      o == Failed(FetchErrorPrefix + Decrypted(suite, secret, response.body).description)
    ensures response.Answered? && response.body.successful && Decrypted(suite, secret, response.body).Ok? &&
            suite.parse(StripTrailingNul(Decrypted(suite, secret, response.body).value)).Err? ==>
      o == Failed(FetchErrorPrefix + suite.parse(StripTrailingNul(Decrypted(suite, secret, response.body).value)).description)
  {
    match response
    case Threw(d) => Failed(FetchErrorPrefix + d)
    case Answered(body) =>
      if !body.successful then Failed(body.message)
      else match Decrypted(suite, secret, body)
        case Err(d) => Failed(FetchErrorPrefix + d)
        case Ok(text) =>
          match suite.parse(StripTrailingNul(text))
          case Err(d) => Failed(FetchErrorPrefix + d)
          case Ok(v) => Loaded(v)
  }

  /** A reply that carries back a versioned envelope is decrypted with the key and
      IV bytes that encrypted it: the same UTF-8 secret and the same parse of the
      same hex text. */
  lemma DecryptMirrorsEncrypt(suite: Submission.CipherSuite, secret: string, record: Value,
                              random: Submission.RandomIv, reply: Reply)
    requires Submission.VersionedEnvelope(suite, secret, record, random) == Submission.Versioned(reply.iv, reply.ciphertext)
    ensures reply.ciphertext == suite.cbcEncrypt(suite.stringify(record), Submission.RawKey(suite, secret), ReceivedIv(suite, reply))
    ensures Decrypted(suite, secret, reply) ==
      suite.cbcDecrypt(suite.cbcEncrypt(suite.stringify(record), Submission.RawKey(suite, secret), ReceivedIv(suite, reply)),
                       Submission.RawKey(suite, secret), ReceivedIv(suite, reply))
    ensures CbcInverts(suite) ==> Decrypted(suite, secret, reply) == Ok(suite.stringify(record))
    ensures HexParseReads(suite) ==> ReceivedIv(suite, reply) == random
  {
  }

  /** AES-CBC decryption undoes encryption under the same key and IV. */
  ghost predicate CbcInverts(suite: Submission.CipherSuite)
  {
    forall text, key, iv :: suite.cbcDecrypt(suite.cbcEncrypt(text, key, iv), key, iv) == Ok(text)
  }

  /** `list.length > 0` for whatever `JSON.parse` returned: the length of an array
      or a string, or a positive numeric `length` property of an object. */
  predicate HasEntries(v: Value)
  {
    match v
    case Arr(items) => |items| > 0
    case Str(s) => |s| > 0
    case Obj(fields) => "length" in fields && fields["length"].Num? && fields["length"].n > 0
    case _ => false
  }

  /** Evaluating `list.length > 0`: reading `length` of `null` throws a
      `TypeError`; every other value gives `HasEntries`. */
  function LengthPositive(v: Value): (r: Result<bool>)
    ensures r.Err? <==> v.Null?
    ensures r.Ok? ==> (r.value <==> HasEntries(v))
  {
    if v.Null? then Err("TypeError: Cannot read properties of null (reading 'length')")
    else Ok(HasEntries(v))
  }

  class ProgressView {
    var prescriptions: Value
    var impression: Value
    var token: string
    var userId: string
    var error: string
    var dataFetched: bool

    /** The page after its first effect has read `token` and `userId`. */
    constructor (token: string, userId: string)
      ensures prescriptions == Arr([]) && impression == Arr([])
      ensures this.token == token && this.userId == userId
      ensures error == "" && !dataFetched
    {
      prescriptions, impression := Arr([]), Arr([]);
      this.token, this.userId := token, userId;
      error, dataFetched := "", false;
    }

    /** `getPrescription`, with the network's answer given as `response`. */
    method GetPrescription(suite: Submission.CipherSuite, secret: string, response: GetResponse)
      modifies this`prescriptions, this`error
      ensures token == "" || userId == "" ==>
        prescriptions == old(prescriptions) && error == old(error)
      ensures token != "" && userId != "" && Retrieve(suite, secret, response).Loaded? ==>
        prescriptions == Retrieve(suite, secret, response).data && error == old(error)
      ensures token != "" && userId != "" && Retrieve(suite, secret, response).Failed? ==>
        prescriptions == old(prescriptions) && error == Retrieve(suite, secret, response).message
    {
      if token == "" || userId == "" {
        return;
      }
      var outcome := Retrieve(suite, secret, response);
      match outcome {
        case Loaded(data) => prescriptions := data;
        case Failed(message) => error := message;
      }
    }

    /** `getImpression`: the same steps against the impression list. */
    method GetImpression(suite: Submission.CipherSuite, secret: string, response: GetResponse)
      modifies this`impression, this`error
      ensures token == "" || userId == "" ==>
        impression == old(impression) && error == old(error)
      ensures token != "" && userId != "" && Retrieve(suite, secret, response).Loaded? ==>
        impression == Retrieve(suite, secret, response).data && error == old(error)
      ensures token != "" && userId != "" && Retrieve(suite, secret, response).Failed? ==>
        impression == old(impression) && error == Retrieve(suite, secret, response).message
    {
      if token == "" || userId == "" {
        return;
      }
      var outcome := Retrieve(suite, secret, response);
      match outcome {
        case Loaded(data) => impression := data;
        case Failed(message) => error := message;
      }
    }

    /** The effect on `[prescriptions, impression]`: set once either list has
        entries, never cleared; `thrown` when the short-circuit `||` reads the
        `length` of a `null` list (a reply whose plaintext was `null`). */
    method SyncFetched() returns (thrown: bool)
      modifies this`dataFetched
      ensures thrown <==> prescriptions.Null? || (!HasEntries(prescriptions) && impression.Null?)
      ensures dataFetched == (old(dataFetched) || (!thrown && (HasEntries(prescriptions) || HasEntries(impression))))
    {
      var left := LengthPositive(prescriptions);
      if left.Err? {
        return true;
      }
      if left.value {
        dataFetched := true;
        return false;
      }
      var right := LengthPositive(impression);
      if right.Err? {
        return true;
      }
      if right.value {
        dataFetched := true;
      }
      return false;
    }
  }
}
