# ad-manager, modelled in Dafny

ad-manager is a small classifieds microservice. It creates, updates and deletes
ads in a relational store. It attaches photos to an ad: the bytes go to an
object-storage bucket, a photo row goes to the store, and a remote image
processor is called. This project models the two parts of it that have
behaviour worth stating:

- **the ad service** (`service.go`). The class `Service.AdService` owns the ad
  table, the photo table, the bucket and the log of image-processor calls.
  The tables are maps from primary key to row. Each of the five operations
  validates its input, then changes that state. The answers of the
  collaborators are parameters of each operation: the id the store assigns,
  whether a write failed, whether the copy into the bucket or the closing of
  the writer failed, and what the image processor answered. This makes every
  step order and every partial failure provable.
- **the HTTP boundary** (`transport.go`). It covers the mapping from errors to
  HTTP statuses and the way a response carrying an error is written. It also
  covers the decoders that read ids out of the URL path. They refuse with
  `BadRouting` an id that is missing, that reads as 0, or that has a stray
  character before its digits overflow.

Files:

- `errors.dfy` (module `Errors`): the error values, including the sentinels
  of both Go files. Go compares errors by identity, so each sentinel is its
  own constructor. An error built at run time from a message (a store error,
  the processor's message) never equals a sentinel.
- `numbers.dfy` (module `Numbers`): 64-bit ints and uints. Also the two Go
  library conversions the source relies on: `fmt`'s `%d` (`Decimal`,
  `FormatInt`) and `strconv.Atoi` (`Atoi`, built on `ScanUint`, the digit
  loop of `strconv.ParseUint`). Both follow the Go implementation on a
  64-bit platform. An out-of-range numeral gives the nearest bound. Text with
  a non-digit gives 0 when the loop meets the non-digit before the digits
  overflow. When the digits overflow first, it gives the nearest bound: the
  loop stops at the range error and never reads the rest.
- `service.dfy` (module `Service`): the records, the collaborators' answers,
  the object-name and URL construction, and the class `AdService`.
- `transport.dfy` (module `Transport`): `HttpErrCode`, `EncodeError`,
  `EncodeResponse`, the three path decoders and lemmas about them.

Assumptions about the store. These are library behaviour the source relies
on but does not show, and they are stated in the model rather than derived:

- An insert assigns a fresh, nonzero primary key.
- Each write runs in a transaction. A write that reports an error leaves its
  table unchanged. Either it failed before counting rows, or it counted the
  row and was rolled back.
- An update with a struct skips the payload fields that hold their zero
  value (`ApplyUpdates`). This is why blanking the owner keeps the stored
  owner.
- Deleting a photo selects the row by its primary key only; the ad id in the
  request is not used as a filter. No protection against deleting another
  ad's photo is claimed.

Assumption about the object store, also stated in the model rather than
derived: an object is finalised, and so becomes visible in the bucket, only
when its writer closes without error. A failed copy or a failed close leaves
the bucket as it was. The Go code does nothing to the bucket on either path,
so the model's `bucket == old(bucket)` after such a failure rests on this
assumption. A store that kept partly written data would break it.

Four behaviours of the code differ from what its API suggests. The model
follows the code:

- The code reports `NotFound` when no row was affected before it looks at the
  store's error. So a failed write that affected no row reports `NotFound`,
  not the store error.
- A DELETE with a zero, missing or malformed id answers 400 (`BadRouting`),
  not only 404.
- A negative id in a path is accepted and wraps to a large uint.
- Not every malformed id is refused. An id whose digits overflow before a
  stray character is accepted as the largest int. For example, `DELETE
  /ad/99999999999999999999x` deletes the ad 2^63 - 1.

## Model

| member | source | states |
|---|---|---|
| `Numbers.Decimal` | service.go:157 | `%d` of a number is a non-empty string of decimal digits with no leading zero |
| `Numbers.FormatInt` | service.go:157 | `%d` of a signed number starts with '-' exactly when the number is negative |
| `Numbers.ScanUint` | transport.go:149 | ParseUint's digit loop succeeds only on text made of digits, and text made of digits is never a syntax error; its value is pinned by `ScanDecimal` (canonical numerals), `ScanLeadingZero` (leading zeros), `ScanSyntaxAt` (a stray character before overflow) and `ScanOverflowSticks` (anything after an overflow) |
| `Numbers.Atoi` | transport.go:149 | Atoi with its error dropped gives a negative value only for text starting with '-' and a positive one only for text that does not; its value is pinned for canonical numerals, signed or not (`AtoiDecimal`, `AtoiNegativeDecimal`, `AtoiFormatInt`), a leading '+' (`AtoiPlusSign`), leading zeros (`AtoiZeroPadded`), a stray character before overflow (`AtoiMalformed`), an overflow followed by anything (`AtoiOverflowIgnoresRest`) and text without a digit (`AtoiWithoutDigits`); a '-' followed by zeros and then a numeral is not covered by a lemma |
| `Numbers.ScanDecimal` | transport.go:149 | reading the decimal rendering of n back with ParseUint's loop gives n, or a range error once n exceeds 64 bits |
| `Numbers.DecimalInjective` | service.go:157 | two 64-bit uints with the same decimal rendering are equal |
| `Numbers.ScanSyntaxAt` | transport.go:149 | a non-digit met while the digits before it still fit in 64 bits makes ParseUint's loop stop with a syntax error, whatever follows |
| `Numbers.ScanOverflowSticks` | transport.go:149 | once the digits overflow, ParseUint's loop ends with a range error, whatever follows, non-digits included |
| `Numbers.AtoiMalformed` | transport.go:149 | Atoi reads an optionally signed numeral with a stray character (met before the digits overflow) as 0 |
| `Numbers.AtoiOverflowIgnoresRest` | transport.go:149 | Atoi reads a numeral too large for 64 bits followed by any text as the largest int |
| `Numbers.MalformedExamples` | transport.go:149 | `12x`, ` 7` and `1.5` are numerals with a stray character before any overflow |
| `Numbers.ScanLeadingZero` | transport.go:149 | a leading '0' does not change what ParseUint's loop reads, whatever follows |
| `Numbers.AtoiZeroPadded` | transport.go:149 | Atoi reads text padded with leading zeros as the unpadded text, when that text has no sign of its own |
| `Numbers.AtoiPlusSign` | transport.go:149 | Atoi reads `+s` as `s` when `s` has no sign of its own |
| `Numbers.AtoiPaddedDecimal` | transport.go:149 | Atoi reads a numeral padded with zeros, with or without a leading '+', as its value, clamped to the largest int |
| `Numbers.AtoiDecimal` | transport.go:149 | Atoi of an unsigned numeral is its value, clamped to the largest int |
| `Numbers.AtoiNegativeDecimal` | transport.go:149 | Atoi of '-' followed by a numeral is the negated value, clamped to the smallest int |
| `Numbers.AtoiFormatInt` | transport.go:149 | Atoi reads back `%d` of every 64-bit int exactly |
| `Numbers.FormatIntInjective` | service.go:157 | two 64-bit ints with the same `%d` rendering are equal |
| `Numbers.AtoiWithoutDigits` | transport.go:149 | text without a digit (the empty text of an absent variable included) reads as 0 |
| `Service.Incomplete` | service.go:87-90 | an ad with an empty owner, description or title, or a zero price, is refused by PostAd (its contract uses this predicate) |
| `Service.UpdateKeepsComplete` | service.go:108-113 | an update never makes a complete ad incomplete, because the store skips the payload's blank fields |
| `Service.WriteOutcome` | service.go:114-122 | an update or delete reports success exactly when the row existed and the write committed; a missing row always gives NotFound; a store error that affected no row is reported as NotFound; a store error surfaces unchanged exactly when the failed statement had counted an existing row |
| `Service.ObjectName` | service.go:157 | the object key `<adId>-<nonce>` of an upload; `ObjectNameInjective` shows it determines both parts |
| `Service.PhotoUrl` | service.go:156-158 | the public URL is the bucket's address followed by the object name, which can be read back from it; `PhotoUrlInjective` follows |
| `Service.ObjectNameInjective` | service.go:157 | two object names `<adId>-<nonce>` are equal only for the same ad id and the same nonce |
| `Service.PhotoUrlInjective` | service.go:156-158 | the photo URL under `https://storage.googleapis.com/meshetr-images/` determines the ad id and the nonce it was built from |
| `Service.AdService.constructor` | service.go:71-79 | the service starts over the given tables and bucket, with no image-processor call made yet |
| `Service.AdService.PostAd` | service.go:81-100 | an ad with an empty owner, description or title, or a zero price, gives MissingFields and leaves the table unchanged; a store error is returned unchanged with id 0 and leaves the table unchanged; otherwise the returned id is the store-assigned one and the stored row is the caller's ad under that id, whatever id the caller gave |
| `Service.AdService.PutAd` | service.go:102-124 | a zero id gives MissingFields with the table untouched; otherwise the outcome is `WriteOutcome` of the row's presence; on success the row is the stored one updated with the caller's non-blank fields; no key is added or removed, and no ad's owner ever changes |
| `Service.AdService.DeleteAd` | service.go:126-142 | the outcome is `WriteOutcome` of the row's presence; the row is gone exactly on success; id 0 always gives NotFound; photos are never touched |
| `Service.AdService.PostPhoto` | service.go:144-191 | a copy failure gives Upload and a close failure gives the close error, both with bucket, photo table and processor log unchanged; after a finalised upload the object `<adId>-<nonce>` holds the file; an insert failure returns the store error with no processor call; after the insert the row `(id, adId, url)` stays whatever the processor does; the processor gets the id truncated to 32 bits; an unreachable processor gives its error and a non-Ok answer gives its message as the error; on success the returned photo is the stored row, with the ad id and the URL |
| `Service.AdService.DeletePhoto` | service.go:193-208 | the outcome is `WriteOutcome` of the photo's presence by primary key; the photo is gone exactly on success; id 0 always gives NotFound; the ad table and the bucket are never touched |
| `Transport.HttpErrCode` | transport.go:228-237 | NotFound and only NotFound gives 404; AlreadyExists, InconsistentIDs, MissingFields and BadRouting and only these give 400; Upload, store, writer and processor errors give 500 |
| `Transport.EncodeError` | transport.go:217-226 | an error is written as `{"error": message}` with `HttpErrCode`'s status, never 200 |
| `Transport.EncodeResponse` | transport.go:206-226 | a response carrying an error is written as `{"error": message}` with `HttpErrCode` of that error as status (400, 404 or 500), never as data; a response without error is written as its data with status 200 |
| `Transport.ToUint` | transport.go:150 | the uint conversion of an int is 0 only for 0, keeps a non-negative value and wraps a negative one by 2^64 |
| `Transport.PathId` | transport.go:149-150 | the id of a path variable is 0 exactly when Atoi reads it as 0, is 0 for an absent variable, and equals Atoi's value when that is not negative |
| `Transport.DecodeDeleteAdRequest` | transport.go:147-156 | the decoder refuses with BadRouting exactly when the path id reads as 0, and otherwise yields that nonzero id |
| `Transport.DecodePostPhotoRequest` | transport.go:158-176 | BadRouting exactly when the path id reads as 0, before the form is looked at; with a nonzero id and no `photo` file, MissingFields; with a nonzero id and a `photo` file, the request carrying that id and that file |
| `Transport.DecodeDeletePhotoRequest` | transport.go:178-192 | the decoder refuses with BadRouting exactly when the ad id or the photo id reads as 0, and otherwise yields both, nonzero |
| `Transport.DeleteAdPathRoundTrip` | transport.go:147-156 | a decimal id in the path reaches the service unchanged when it fits in an int, is clamped to the largest int when larger, and 0 is refused |
| `Transport.DeleteAdNegativePath` | transport.go:149-153 | a path id `-k` is accepted as the id 2^64 - k |
| `Transport.DeleteAdPathWithoutDigits` | transport.go:148-153 | a missing id, or one without digits, is refused with BadRouting |
| `Transport.DeleteAdPathMalformed` | transport.go:148-153 | an id with a stray character, such as `12x`, ` 7` or `1.5`, is refused with BadRouting |
| `Transport.DeleteAdPathOverflowThenJunk` | transport.go:148-155 | an id whose digits overflow, followed by any text, is accepted as the largest int |
| `Transport.DeletePhotoPathRefused` | transport.go:178-190 | a missing, `0`, digit-free or malformed ad id or photo id is refused with BadRouting, whatever the other id holds |
| `Transport.DeleteAdPathPadded` | transport.go:148-155 | a decimal id in 1..MaxInt64 padded with zeros, with or without a leading '+' (`007`, `+7`), reaches the service as the plain number |
| `Transport.DeletePhotoPathRoundTrip` | transport.go:178-192 | decimal ad and photo ids in 1..MaxInt64 in the path both reach the service unchanged |
| `Transport.PostPhotoPathChecks` | transport.go:158-170 | for a decimal path id: 0 is BadRouting even without a photo; otherwise a missing photo is MissingFields; otherwise the request carries the id and the file |
| `Transport.PostPhotoNegativePath` | transport.go:158-174 | an upload path id `-k` is accepted as the ad id 2^64 - k, then the form decides between MissingFields and the request |
| `Transport.PostPhotoPathMalformed` | transport.go:158-164 | an ad id with a stray character is refused with BadRouting, whatever the form holds |
| `Transport.ErrorReplies` | transport.go:217-226 | the replies a client sees: 404 `not found`, 400 `expected URL variable is missing`, 400 `missing fields`, 500 `upload failed`, and 500 with the processor's own message |

## Left out

- main.go is not part of this model. It covers configuration, the connection
  string, client construction, the HTTP server goroutine and signal handling:
  process wiring with no behaviour of its own.
- endpoints.go is not part of this model. Its adapters do not match the
  service and transport they connect. One passes a photo to `PostPhoto`,
  which takes an ad id and a file. Another passes a string id to
  `DeletePhoto`. The model takes the service's and the decoders' own
  signatures.
- Router registration in `MakeHTTPHandler` and the literal JSON of the
  `GET /photos` and `GET /info` handlers are not modelled.
- JSON decoding of request bodies (`decodePostAdRequest`,
  `decodePutAdRequest`) and JSON encoding are not modelled. A reply is its
  status and its body as a value.
- Logging, the request id and its propagation to the image processor, and the
  50 s and 10 s timeouts are not modelled. A timeout shows up only as a copy,
  close or processor failure passed in.
- Closing the uploaded file and the request body on every path is not
  modelled, because streams are not modelled.
- Ad timestamps (`CreatedAt`, `UpdatedAt`) are not modelled, because they come
  from the clock.
- The price is a real number compared with zero; float32 rounding and NaN are
  not modelled.
- `AutoMigrate` and any foreign-key constraint it creates are not modelled. A
  photo insert for a missing ad, or an ad delete that a constraint would
  refuse, shows up only as a failure answer passed in.
- The clock reading that makes the object name is a parameter. Nothing is
  claimed about two uploads getting different nonces; `ObjectNameInjective`
  shows that different nonces give different names.
- Removing the object from the bucket when a photo is deleted, and rollback of
  earlier steps when a later step of PostPhoto fails, are not modelled,
  because the source does neither.
- `Atoi` is modelled for a 64-bit `int`; other widths are not modelled.
- Concurrency is not modelled. The Go service serves requests at the same time
  over a shared store, but each operation here is one atomic step from the old
  state to the new one. For example, PostPhoto's contract on the photo table
  assumes that no DeletePhoto runs between the insert and the return.
