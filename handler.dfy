/**
 * The verification service: `Send` issues a hash for an address, stores it
 * and mails a link carrying it; `Verify` redeems a hash once. The address
 * parser, the secure random source and SMTP delivery are outcomes passed in.
 */
module Handler {
  import opened Wrappers
  import opened Hex
  import opened Store

  /** Sender account and SMTP server; only `email` reaches the model (as the mail's sender). */
  datatype Config = Config(email: string, password: string, address: string)

  /** How filling the hash buffer from the secure random source ends. */
  datatype RandomRead = ReadOk(bytes: seq<byte>) | ReadFailed

  /** Size of the random buffer behind one hash: 16 bytes, 128 bits. */
  const HashBytes: nat := 16

  /** The shape of a generated hash: 32 lowercase hexadecimal digits. */
  predicate IsToken(s: string) {
    |s| == 2 * HashBytes && IsHexString(s)
  }

  /** generateHash: the hex encoding of the random buffer, or None when reading randomness fails. */
  function GenerateHash(read: RandomRead): (r: Option<string>)
    requires read.ReadOk? ==> |read.bytes| == HashBytes
    ensures r.Some? <==> read.ReadOk?
    ensures r.Some? ==> IsToken(r.value) && Decode(r.value) == Some(read.bytes)
  {
    match read
    case ReadOk(bytes) =>
      DecodeEncode(bytes);
      Some(Encode(bytes))
    case ReadFailed => None
  }

  /** Two different random buffers never yield the same hash. */
  lemma GeneratedHashesDiffer(a: RandomRead, b: RandomRead)
    requires a.ReadOk? && |a.bytes| == HashBytes
    requires b.ReadOk? && |b.bytes| == HashBytes
    requires a.bytes != b.bytes
    ensures GenerateHash(a).value != GenerateHash(b).value
  {
  }

  // ---------------------------------------------------------------------------
  // The mailed link and the route it must reach

  /** The server listens on port 8081 and routes `GET /verify/{hash}` to Verify. */
  const ServerOrigin := "http://localhost:8081"
  const VerifyRoute := "/verify/"

  /**
   * A simplified router for `GET /verify/{hash}` on port 8081, for URLs
   * written with host `localhost` and without query, fragment, percent-escape
   * or dot segment: the hash handed to Verify is the single non-empty path
   * segment after `/verify/`; None when such a url does not match the route.
   */
  function RoutedHash(url: string): (r: Option<string>)
    ensures r.Some? ==> r.value != [] && '/' !in r.value
    ensures r.Some? ==> url == ServerOrigin + VerifyRoute + r.value
  {
    var prefix := ServerOrigin + VerifyRoute;
    if |url| > |prefix| && url[..|prefix|] == prefix && '/' !in url[|prefix|..] then
      assert url == url[..|prefix|] + url[|prefix|..];
      Some(url[|prefix|..])
    else None
  }

  /** The verification URL built for a hash. */
  function VerificationUrl(hash: string): (url: string)
    ensures |url| > |hash| && url[|url| - |hash|..] == hash
  {
    ServerOrigin + VerifyRoute + hash
  }

  /** Every URL of the route's form reaches Verify, with its last segment as the hash. */
  lemma RouteMatchesSegment(segment: string)
    requires segment != [] && '/' !in segment
    ensures RoutedHash(ServerOrigin + VerifyRoute + segment) == Some(segment)
  {
  }

  /** A generated hash fetched through its verification URL reaches Verify unchanged. */
  lemma UrlRoutesToHash(hash: string)
    requires IsToken(hash)
    ensures RoutedHash(VerificationUrl(hash)) == Some(hash)
  {
  }

  /** The words before the link in the mail's text. */
  const BodyLead := "Verify your email: "

  /** The link a reader finds in a mail text: everything after the lead words. */
  function LinkIn(text: string): (link: string)
    requires |text| >= |BodyLead|
    ensures |link| == |text| - |BodyLead|
  {
    text[|BodyLead|..]
  }

  /**
   * The mail text as the source writes it: the verification URL appended to a
   * second, port-8080 `/verify/` URL.
   */
  function AsWrittenBody(hash: string): (text: string)
    ensures |text| >= |BodyLead| && text[..|BodyLead|] == BodyLead
  {
    "Verify your email: http://localhost:8080/verify/" + VerificationUrl(hash)
  }

  /** No hash at all can be verified by following the link in the as-written mail text. */
  lemma AsWrittenLinkUnroutable(hash: string)
    ensures RoutedHash(LinkIn(AsWrittenBody(hash))) == None
  {
  }

  /** The mail text with the verification URL as its link. */
  function Body(hash: string): (text: string)
    ensures |text| >= |BodyLead| && text[..|BodyLead|] == BodyLead
    ensures LinkIn(text) == VerificationUrl(hash)
  {
    BodyLead + VerificationUrl(hash)
  }

  /** The link in the mail carrying a generated hash leads back to Verify with that hash. */
  lemma MailedLinkRoutesToHash(hash: string)
    requires IsToken(hash)
    ensures RoutedHash(LinkIn(Body(hash))) == Some(hash)
  {
  }

  /** The message handed to SMTP. */
  datatype Mail = Mail(from: string, to: seq<string>, subject: string, text: string)

  /** The verification mail for address `to` carrying hash, with the corrected text `Body`. */
  function Message(cfg: Config, to: string, hash: string): (m: Mail)
    ensures m.from == cfg.email && m.to == [to]
    ensures |m.text| >= |BodyLead| && LinkIn(m.text) == VerificationUrl(hash)
  {
    Mail(cfg.email, [to], "Email Verification", Body(hash))
  }

  // ---------------------------------------------------------------------------
  // The two endpoints

  /** What `POST /send` answers. */
  datatype SendResponse =
    | InvalidEmail       // 400, the address does not parse
    | HashFailed         // 500, no randomness
    | SaveFailed         // 500, the store's file write failed
    | SendFailed         // 500, SMTP delivery failed
    | Sent(hash: string) // 200, with the hash in the JSON answer

  /** What `GET /verify/{hash}` answers. */
  datatype VerifyResponse =
    | HashRequired         // 400, empty hash
    | Checked(valid: bool) // 200, {"valid": valid}

  class VerifyHandler {
    const cfg: Config
    const storage: Storage

    constructor (cfg: Config, storage: Storage)
      ensures this.cfg == cfg && this.storage == storage
    {
      this.cfg := cfg;
      this.storage := storage;
    }

    /**
     * Issues a hash for email. `addressOk` is whether the address parses,
     * `read` the random source's outcome, `io` the outcome of the store's file
     * write and `delivered` whether SMTP accepted the mail. Returns the answer
     * and the mail handed to SMTP, if any.
     */
    method Send(email: string, addressOk: bool, read: RandomRead, io: WriteOutcome, delivered: bool)
      returns (resp: SendResponse, mail: Option<Mail>)
      requires read.ReadOk? ==> |read.bytes| == HashBytes
      modifies storage
      ensures !addressOk ==> resp == InvalidEmail
      ensures addressOk && read.ReadFailed? ==> resp == HashFailed
      ensures !addressOk || read.ReadFailed? ==>
        mail == None && storage.data == old(storage.data) && storage.disk == old(storage.disk)
      ensures addressOk && read.ReadOk? ==>
        var hash := Encode(read.bytes);
        && IsToken(hash)
        && storage.data == old(storage.data)[hash := VerificationData(email, hash)]
        && storage.disk == AfterWrite(old(storage.disk), storage.data, io)
        && mail == (if io == Written then Some(Message(cfg, email, hash)) else None)
        && resp == (if io != Written then SaveFailed else if delivered then Sent(hash) else SendFailed)
    {
      mail := None;
      if !addressOk {
        return InvalidEmail, mail;
      }
      var generated := GenerateHash(read);
      if generated.None? {
        return HashFailed, mail;
      }
      var hash := generated.value;
      var saved := storage.Save(email, hash, io);
      if !saved {
        return SaveFailed, mail;
      }
      mail := Some(Message(cfg, email, hash));
      if !delivered {
        return SendFailed, mail;
      }
      resp := Sent(hash);
    }

    /**
     * Redeems hash: valid exactly when it was stored, and a stored hash is
     * removed. The error of the removal's file write (outcome `io`) is ignored.
     */
    method Verify(hash: string, io: WriteOutcome) returns (resp: VerifyResponse)
      modifies storage
      ensures hash == "" ==> resp == HashRequired
      ensures hash != "" ==> resp == Checked(hash in old(storage.data))
      ensures hash != "" ==> hash !in storage.data
      ensures hash == "" || hash !in old(storage.data) ==>
        storage.data == old(storage.data) && storage.disk == old(storage.disk)
      ensures hash != "" && hash in old(storage.data) ==>
        && storage.data == old(storage.data) - {hash}
        && storage.disk == AfterWrite(old(storage.disk), storage.data, io)
    {
      if hash == "" {
        return HashRequired;
      }
      var _, found := storage.Get(hash);
      resp := Checked(found);
      if found {
        var _ := storage.Delete(hash, io);
      }
    }
  }

  /**
   * Hashes are one-shot: after a Send that stores its record, the first Verify
   * of the hash is valid and the second is not, whatever happens to the file
   * writes of the two removals.
   */
  method OneShotToken(h: VerifyHandler, email: string, bytes: seq<byte>, delivered: bool, io1: WriteOutcome, io2: WriteOutcome)
    returns (resp: SendResponse, first: VerifyResponse, second: VerifyResponse)
    requires |bytes| == HashBytes
    modifies h.storage
    ensures resp == (if delivered then Sent(Encode(bytes)) else SendFailed)
    ensures first == Checked(true) && second == Checked(false)
  {
    var mail;
    resp, mail := h.Send(email, true, ReadOk(bytes), Written, delivered);
    var hash := Encode(bytes);
    first := h.Verify(hash, io1);
    second := h.Verify(hash, io2);
  }

  /**
   * Because Verify ignores the removal's write error, a hash redeemed while
   * the file cannot be rewritten is still in the file, and a store restarted
   * from that file accepts it again.
   */
  method RedeemedHashReturnsAfterRestart(h: VerifyHandler, hash: string)
    returns (first: VerifyResponse, again: VerifyResponse)
    requires hash != "" && hash in h.storage.data && h.storage.Persisted()
    modifies h.storage
    ensures first == Checked(true) && again == Checked(true)
  {
    first := h.Verify(hash, CreateFailed);
    var restarted := new Storage(h.storage.filename, h.storage.disk);
    var afterRestart := new VerifyHandler(h.cfg, restarted);
    again := afterRestart.Verify(hash, Written);
  }
}
