# Email-verification tokens, modelled in Dafny

This project models the core of `dz/3-validation-api`, a small Go service that
verifies email addresses with one-shot tokens:

- `POST /send` checks the address and draws 16 random bytes. It renders them
  as a 32-digit lowercase hexadecimal hash. It stores `{email, hash}` under
  that hash and mails a link carrying the hash.
- `GET /verify/{hash}` answers `valid: true` exactly when the hash is stored.
  It removes a stored hash, so the same hash is valid only once.
- The store (`storage.Storage`) is an in-memory map. After every `Save` and
  `Delete` the whole map is rewritten to a JSON file, and a new store loads
  that file at start-up.

Files:

- `wrappers.dfy`: the `Option` type.
- `hex.dfy` (module `Hex`): the lowercase Base16 encoding of section 8 of
  RFC 4648, which `generateHash` uses. It has a decoder as a partner and the
  round trips that make the encoding injective.
- `storage.dfy` (module `Store`): the class `Storage`. It has a map field
  `data` and a field `disk` holding what the backing file contains: missing,
  a complete snapshot of a map, or truncated. Each file write takes a
  `WriteOutcome` parameter: written, `os.Create` failed, or the encoding
  failed.
- `handler.dfy` (module `Handler`): the class `VerifyHandler` with `Send` and
  `Verify`. It also has the hash generator, the strings of the verification
  mail, and a model of the `GET /verify/{hash}` route on port 8081.

The three outside inputs are parameters: whether `mail.ParseAddress` accepts
the address (`addressOk`), the outcome of `crypto/rand.Read` (`RandomRead`),
and whether SMTP delivery succeeds (`delivered`).

Three behaviours of the code are worth knowing, and the model keeps them:

- When a file write fails, `Save` and `Delete` keep the in-memory change and
  return the error. They do not roll it back.
- At start-up an unreadable file is ignored, not reported.
- `Verify` ignores the error of its `Delete`. So a hash redeemed while the file
  cannot be rewritten is still in the file, and after a restart it is valid
  again. `RedeemedHashReturnsAfterRestart` proves this.

## Model

| member | source | states |
|---|---|---|
| Hex.Digit | dz/3-validation-api/internal/verify/handler.go:177 | each nibble 0..15 becomes a lowercase hex digit, and that digit reads back as the same nibble |
| Hex.Encode | dz/3-validation-api/internal/verify/handler.go:177 | the encoding of n bytes is 2n characters, all in 0-9a-f |
| Hex.EncodeAt | dz/3-validation-api/internal/verify/handler.go:177 | characters 2k and 2k+1 are the high and the low nibble of byte k |
| Hex.DecodeEncode | dz/3-validation-api/internal/verify/handler.go:177 | decoding the encoding of any bytes gives those bytes back |
| Hex.EncodeDecode | dz/3-validation-api/internal/verify/handler.go:177 | any text that decodes to some bytes is exactly their encoding |
| Hex.EncodeInjective | dz/3-validation-api/internal/verify/handler.go:71 | equal encodings come from equal byte sequences |
| Handler.GenerateHash | dz/3-validation-api/internal/verify/handler.go:166-178 | a hash exists exactly when the random read succeeds; it is 32 lowercase hex digits and decodes to the random bytes |
| Handler.GeneratedHashesDiffer | dz/3-validation-api/internal/verify/handler.go:71-77 | two different random buffers give two different hashes |
| Handler.RoutedHash | dz/3-validation-api/cmd/main.go:34-39 | a simplified router for URLs with host `localhost` and no query, fragment, escape or dot segment: such a URL reaches Verify only as `http://localhost:8081` plus `/verify/` plus one non-empty segment without `/`, and that segment is the hash handed over |
| Handler.RouteMatchesSegment | dz/3-validation-api/cmd/main.go:34-39 | conversely, every URL `http://localhost:8081/verify/` plus one non-empty segment without `/` reaches Verify with that segment as the hash |
| Handler.VerificationUrl | dz/3-validation-api/internal/verify/handler.go:117 | the verification URL ends with the hash |
| Handler.UrlRoutesToHash | dz/3-validation-api/internal/verify/handler.go:115-117 | fetching the verification URL of a generated hash hands exactly that hash to Verify |
| Handler.AsWrittenBody | dz/3-validation-api/internal/verify/handler.go:119 | the mail text as written starts with `Verify your email: ` |
| Handler.AsWrittenLinkUnroutable | dz/3-validation-api/internal/verify/handler.go:119 | for every hash, the link in the as-written mail text reaches no Verify route |
| Handler.Body | dz/3-validation-api/internal/verify/handler.go:117-119 | the corrected mail text is `Verify your email: ` followed by the verification URL |
| Handler.MailedLinkRoutesToHash | dz/3-validation-api/internal/verify/handler.go:117-119 | the link in the corrected mail for a generated hash reaches Verify with that hash |
| Handler.Message | dz/3-validation-api/internal/verify/handler.go:103-119 | the corrected mail goes from the configured sender to the one recipient, and its link is the verification URL |
| Handler.VerifyHandler.constructor | dz/3-validation-api/internal/verify/handler.go:27-33 | the handler holds the given configuration and store |
| Handler.VerifyHandler.Send | dz/3-validation-api/internal/verify/handler.go:47-99 | a bad address or a failed random read returns before any save and changes nothing; otherwise exactly the record {email, hash} is filed under the new hash, and the file is rewritten per the write outcome; a failed write answers SaveFailed and sends no mail but keeps the record; a failed delivery answers SendFailed and keeps the record; success answers Sent(hash) |
| Handler.VerifyHandler.Verify | dz/3-validation-api/internal/verify/handler.go:131-162 | an empty hash is rejected and changes nothing; otherwise valid is whether the hash was stored; afterwards it is absent; an unknown hash changes nothing; a known hash is removed and reported valid whatever the removal's write outcome |
| Handler.OneShotToken | dz/3-validation-api/internal/verify/handler.go:149-156 | after a Send that stores its record, the first Verify of the hash is valid and the second is not |
| Handler.RedeemedHashReturnsAfterRestart | dz/3-validation-api/internal/verify/handler.go:154-156 | a hash redeemed while the file cannot be created is valid again in a store restarted from the file |
| Store.AfterWrite | dz/3-validation-api/storage/storage.go:70-81 | after a write attempt the file holds the map exactly when the write completed, or the file could not be created and already held it; a failed write leaves the file as it was or truncated |
| Store.Storage.constructor | dz/3-validation-api/storage/storage.go:26-33 | a new store holds the map in a complete file (and is then in step with it); with a missing or unreadable file it starts empty |
| Store.Storage.LoadFromFile | dz/3-validation-api/storage/storage.go:85-96 | a complete file's entries are added to the map; a missing or unreadable file leaves the map as it was |
| Store.Storage.SaveToFile | dz/3-validation-api/storage/storage.go:70-81 | succeeds exactly when the write completes, and then the file holds the whole map |
| Store.Storage.Save | dz/3-validation-api/storage/storage.go:37-47 | the hash maps to {email, hash}, overwriting any earlier record; every other entry is unchanged; records stay filed under their own hash; ok exactly when the file write completed, and then the file holds the whole map; a failed write keeps the in-memory change |
| Store.Storage.Get | dz/3-validation-api/storage/storage.go:51-57 | found exactly when the hash is stored, with its record; otherwise the zero record; neither map nor file changes |
| Store.Storage.Delete | dz/3-validation-api/storage/storage.go:61-66 | afterwards the hash is absent; every other entry is unchanged; an absent hash leaves the map as it was; records stay filed under their own hash; ok exactly when the file write completed, and then the file holds the whole map |
| Store.SavedRecordSurvivesRestart | dz/3-validation-api/storage/storage.go:37-96 | after a Save whose write completes, a store loaded from the same file finds the saved record |

## Left out

- HTTP plumbing: method checks (405), JSON request decoding (400), the response encoding and `r.PathValue`. Send and Verify start at the address check and at the empty-hash check, and their answers are datatypes naming the status.
- SMTP: `email.NewEmail`, `smtp.PlainAuth` and `e.Send` are foreign calls. The mail handed over is a `Mail` value, and delivery is the `delivered` flag. `Config.password` and `Config.address` only feed SMTP.
- `mail.ParseAddress` is the input `addressOk`. `crypto/rand.Read` is the input `RandomRead`, 16 bytes or a failure.
- JSON file encoding and OS calls: the file is the `FileState` value `disk`. The model does not capture the replacement of invalid UTF-8 by the JSON encoder, or entries partly decoded from a file of the wrong shape. An unreadable file loads nothing.
- `sync.RWMutex` locking: the model is sequential and each store method is atomic. So the race between Verify's separate `Get` and `Delete` is not modelled, and neither are concurrent Verify calls on one hash.
- Handler.VerifyHandler.Send: builds its mail with the corrected `Body`, not the as-written text (see Findings).
- Handler.Message: carries the corrected `Body`, not the text of handler.go:119 (see Findings); `AsWrittenBody` is that text.
- Handler.RoutedHash: a simplified router. It takes only host `localhost`, though `ListenAndServe(":8081")` also answers on other hosts such as `127.0.0.1`. It does not strip a query or fragment, decode percent-escapes or clean dot and double-slash segments. The links the service itself mails have none of these.
- The other programs of the repository (`dz/1-concurrency`, `dz/2-random-api`) and the process wiring in `dz/3-validation-api/cmd/main.go` are not part of this model. Only the route and port of `cmd/main.go` appear, in `RoutedHash`.

## Findings

| source | as written | input that shows it | evidently intended | confidence | as-written member | corrected member |
|---|---|---|---|---|---|---|
| dz/3-validation-api/internal/verify/handler.go:119 | the mail text puts the verification URL after a second URL, `http://localhost:8080/verify/`, so the link is `http://localhost:8080/verify/http://localhost:8081/verify/<hash>` | any hash: the link names port 8080, where this service does not listen, and its path has extra segments, so it never matches `GET /verify/{hash}` on port 8081 | the text is `Verify your email: ` followed by the verification URL of line 117 | high; not executed | Handler.AsWrittenLinkUnroutable | Handler.MailedLinkRoutesToHash |
