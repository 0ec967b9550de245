/** The HTTP boundary of the service: the status an error is answered with, the way a
    response carrying an error is written, and the decoders that read ids out of
    the URL path. Router registration and JSON encoding are not modelled. */
module Transport {
  import opened Errors
  import opened Numbers

  const StatusOK := 200
  const StatusBadRequest := 400
  const StatusNotFound := 404
  const StatusInternalServerError := 500

  /** The HTTP status for an error: 404 for a row that does not exist, 400 for a
      request at fault, 500 for every failure of the service or its collaborators. */
  function HttpErrCode(e: Error): (code: int)
    ensures code == StatusNotFound <==> e == NotFound
    ensures code == StatusBadRequest <==> e in {AlreadyExists, InconsistentIDs, MissingFields, BadRouting}
    ensures code == StatusInternalServerError <==>
              e.Upload? || e.StoreFault? || e.WriterFault? || e.RpcFault? || e.Rejected?
  {
    match e
    case NotFound => StatusNotFound
    case AlreadyExists | InconsistentIDs | MissingFields | BadRouting => StatusBadRequest
    case _ => StatusInternalServerError
  }

  /** What is written back: a status and either `{"error": message}` or the data. */
  datatype Body<D> = ErrorBody(error: string) | DataBody(data: D)
  datatype HttpReply<D> = HttpReply(status: int, body: Body<D>)

  /** The response of an endpoint: the business error it carries, if any, and its data. */
  datatype Response<D> = Response(err: Option<Error>, data: D)

  /** The error encoder; its error is never nil (the Go code panics on nil). */
  function EncodeError<D>(e: Error): (reply: HttpReply<D>)
    ensures reply.status == HttpErrCode(e) && reply.status != StatusOK
    ensures reply.body == ErrorBody(Message(e))
  {
    HttpReply(HttpErrCode(e), ErrorBody(Message(e)))
  }

  /** A response carrying an error is written as that error with its status, never as
      data; a response without one is written as data with status 200. */
  function EncodeResponse<D>(resp: Response<D>): (reply: HttpReply<D>)
    ensures reply.status == StatusOK <==> resp.err.None?
    ensures resp.err.None? ==> reply.body == DataBody(resp.data)
    ensures resp.err.Some? ==>
              reply.body == ErrorBody(Message(resp.err.value))
              && reply.status in {StatusBadRequest, StatusNotFound, StatusInternalServerError}
    ensures resp.err.Some? ==> reply.status == HttpErrCode(resp.err.value)
  {
    match resp.err
    case Some(e) => EncodeError(e)
    case None => HttpReply(StatusOK, DataBody(resp.data))
  }

  /** A path variable of the matched route; an absent one reads as the empty text. */
  function PathVar(vars: map<string, string>, name: string): string {
    if name in vars then vars[name] else ""
  }

  /** Go's conversion `uint(i)` of a 64-bit int: two's complement, so only 0 becomes 0
      and a negative value wraps to a large one. */
  function ToUint(i: Int64): (u: Uint64)
    ensures u == 0 <==> i == 0
    ensures i >= 0 ==> u == i
    ensures i < 0 ==> u == i + MaxUint64 + 1
  {
    i % 0x1_0000_0000_0000_0000
  }

  /** The id a path variable names, as the decoders read it: Atoi with its error
      dropped, then converted to uint. */
  function PathId(vars: map<string, string>, name: string): (id: Uint64)
    ensures id == 0 <==> Atoi(PathVar(vars, name)) == 0
    ensures name !in vars ==> id == 0
    ensures Atoi(PathVar(vars, name)) >= 0 ==> id == Atoi(PathVar(vars, name))
  {
    ToUint(Atoi(PathVar(vars, name)))
  }

  datatype DeleteAdRequest = DeleteAdRequest(id: Uint64)
  datatype PostPhotoRequest = PostPhotoRequest(adId: Uint64, file: seq<Byte>)
  datatype DeletePhotoRequest = DeletePhotoRequest(adId: Uint64, id: Uint64)

  /** Decodes DELETE /ad/{id}. */
  function DecodeDeleteAdRequest(vars: map<string, string>): (r: Result<DeleteAdRequest>)
    ensures r == Failure(BadRouting) || (r.Success? && r.value.id != 0)
    ensures r == Failure(BadRouting) <==> PathId(vars, "id") == 0
    ensures r.Success? ==> r.value.id == PathId(vars, "id")
  {
    var id := PathId(vars, "id");
    if id == 0 then Failure(BadRouting)
    else Success(DeleteAdRequest(id))
  }

  /** Decodes POST /ad/{id}/photo; `files` are the files of the multipart form by
      field name (none when the form cannot be parsed). */
  function DecodePostPhotoRequest(vars: map<string, string>, files: map<string, seq<Byte>>)
    : (r: Result<PostPhotoRequest>)
    ensures r.Failure? ==> r.error == BadRouting || r.error == MissingFields
    ensures r == Failure(BadRouting) <==> PathId(vars, "id") == 0
    ensures PathId(vars, "id") != 0 && "photo" !in files ==> r == Failure(MissingFields)
    ensures r.Success? ==> r.value.adId != 0 && "photo" in files && r.value.file == files["photo"]
    ensures r.Success? ==> r.value.adId == PathId(vars, "id")
    ensures PathId(vars, "id") != 0 && "photo" in files ==>
              r == Success(PostPhotoRequest(PathId(vars, "id"), files["photo"]))
  {
    var id := PathId(vars, "id");
    if id == 0 then Failure(BadRouting)
    else if "photo" !in files then Failure(MissingFields)
    else Success(PostPhotoRequest(id, files["photo"]))
  }

  /** Decodes DELETE /ad/{ad-id}/photo/{id}. */
  function DecodeDeletePhotoRequest(vars: map<string, string>): (r: Result<DeletePhotoRequest>)
    ensures r == Failure(BadRouting) || (r.Success? && r.value.adId != 0 && r.value.id != 0)
    ensures r == Failure(BadRouting) <==> PathId(vars, "ad-id") == 0 || PathId(vars, "id") == 0
    ensures r.Success? ==> r.value.adId == PathId(vars, "ad-id") && r.value.id == PathId(vars, "id")
  {
    var adId := PathId(vars, "ad-id");
    if adId == 0 then Failure(BadRouting)
    else
      var id := PathId(vars, "id");
      if id == 0 then Failure(BadRouting)
      else Success(DeletePhotoRequest(adId, id))
  }

  /** The id of a path written in decimal reaches the service unchanged, as long as
      it fits in an int; a larger one is read as the largest int; 0 is refused. */
  lemma DeleteAdPathRoundTrip(n: nat)
    ensures DecodeDeleteAdRequest(map["id" := Decimal(n)])
              == if n == 0 then Failure(BadRouting)
                 else Success(DeleteAdRequest(if n <= MaxInt64 then n else MaxInt64))
  {
    AtoiDecimal(n);
  }

  /** A negative id in the path is not refused: it wraps to 2^64 minus its magnitude. */
  lemma DeleteAdNegativePath(k: nat)
    requires 0 < k <= -MinInt64
    ensures DecodeDeleteAdRequest(map["id" := "-" + Decimal(k)])
              == Success(DeleteAdRequest(MaxUint64 + 1 - k))
  {
    AtoiNegativeDecimal(k);
  }

  /** A missing id, or one with no digit in it, is refused as a routing error. */
  lemma DeleteAdPathWithoutDigits(vars: map<string, string>)
    requires forall k | 0 <= k < |PathVar(vars, "id")| :: !IsDigit(PathVar(vars, "id")[k])
    ensures DecodeDeleteAdRequest(vars) == Failure(BadRouting)
  {
    AtoiWithoutDigits(PathVar(vars, "id"));
  }

  /** An id with a stray character in it (`12x`, ` 7`, `1.5`) is refused as a routing
      error. */
  lemma DeleteAdPathMalformed(vars: map<string, string>, sign: string, digits: string, k: nat)
    requires PathVar(vars, "id") == sign + digits && MalformedAt(sign, digits, k)
    ensures DecodeDeleteAdRequest(vars) == Failure(BadRouting)
  {
    AtoiMalformed(sign, digits, k);
  }

  /** An id too large for 64 bits is accepted as the largest int even when stray
      characters follow it: `99999999999999999999x` reaches the service as 2^63 - 1. */
  lemma DeleteAdPathOverflowThenJunk(n: nat, rest: string)
    requires n > MaxUint64
    ensures DecodeDeleteAdRequest(map["id" := Decimal(n) + rest])
              == Success(DeleteAdRequest(MaxInt64))
  {
    AtoiOverflowIgnoresRest(n, rest);
  }

  /** Either id of a photo path, when it is missing, `0`, without a digit, or a
      numeral with a stray character in it, makes the request a routing error,
      whatever the other id holds. */
  lemma DeletePhotoPathRefused(vars: map<string, string>, name: string, sign: string, digits: string, k: nat)
    requires name == "ad-id" || name == "id"
    requires || name !in vars
             || PathVar(vars, name) == Decimal(0)
             || (forall j | 0 <= j < |PathVar(vars, name)| :: !IsDigit(PathVar(vars, name)[j]))
             || (PathVar(vars, name) == sign + digits && MalformedAt(sign, digits, k))
    ensures DecodeDeletePhotoRequest(vars) == Failure(BadRouting)
  {
    var text := PathVar(vars, name);
    if text == Decimal(0) {
      AtoiDecimal(0);
    } else if text == sign + digits && MalformedAt(sign, digits, k) {
      AtoiMalformed(sign, digits, k);
    } else {
      AtoiWithoutDigits(text);
    }
  }

  /** A decimal id padded with zeros, with or without a leading '+', is read as the
      plain numeral: `DELETE /ad/007` and `DELETE /ad/+7` delete the ad 7. */
  lemma DeleteAdPathPadded(zeros: string, n: nat)
    requires forall i | 0 <= i < |zeros| :: zeros[i] == '0'
    requires 0 < n <= MaxInt64
    ensures DecodeDeleteAdRequest(map["id" := zeros + Decimal(n)]) == Success(DeleteAdRequest(n))
    ensures DecodeDeleteAdRequest(map["id" := "+" + zeros + Decimal(n)]) == Success(DeleteAdRequest(n))
  {
    AtoiPaddedDecimal(zeros, n);
  }

  /** Both ids of a photo path written in decimal reach the service unchanged. */
  lemma DeletePhotoPathRoundTrip(adId: Uint64, id: Uint64)
    requires 0 < adId <= MaxInt64 && 0 < id <= MaxInt64
    ensures DecodeDeletePhotoRequest(map["ad-id" := Decimal(adId), "id" := Decimal(id)])
              == Success(DeletePhotoRequest(adId, id))
  {
    AtoiDecimal(adId);
    AtoiDecimal(id);
  }

  /** The id of the ad is checked before the form: a bad path is a routing error even
      when the photo is missing too; with a good path and no photo the fields are missing. */
  lemma PostPhotoPathChecks(n: nat, files: map<string, seq<Byte>>)
    requires n <= MaxInt64
    ensures DecodePostPhotoRequest(map["id" := Decimal(n)], files)
              == if n == 0 then Failure(BadRouting)
                 else if "photo" !in files then Failure(MissingFields)
                 else Success(PostPhotoRequest(n, files["photo"]))
  {
    AtoiDecimal(n);
  }

  /** A negative ad id in the upload path is not refused either: it wraps to 2^64
      minus its magnitude before the form is looked at. */
  lemma PostPhotoNegativePath(k: nat, files: map<string, seq<Byte>>)
    requires 0 < k <= -MinInt64
    ensures DecodePostPhotoRequest(map["id" := "-" + Decimal(k)], files)
              == if "photo" in files then Success(PostPhotoRequest(MaxUint64 + 1 - k, files["photo"]))
                 else Failure(MissingFields)
  {
    AtoiNegativeDecimal(k);
  }

  /** The ad id of a photo upload with a stray character in it is a routing error,
      whatever the form holds. */
  lemma PostPhotoPathMalformed(vars: map<string, string>, files: map<string, seq<Byte>>,
                               sign: string, digits: string, k: nat)
    requires PathVar(vars, "id") == sign + digits && MalformedAt(sign, digits, k)
    ensures DecodePostPhotoRequest(vars, files) == Failure(BadRouting)
  {
    AtoiMalformed(sign, digits, k);
  }

  /** What a client sees for each error a path decoder or the service can give. */
  lemma ErrorReplies<D>()
    ensures EncodeError<D>(NotFound) == HttpReply(404, ErrorBody("not found"))
    ensures EncodeError<D>(BadRouting) == HttpReply(400, ErrorBody("expected URL variable is missing"))
    ensures EncodeError<D>(MissingFields) == HttpReply(400, ErrorBody("missing fields"))
    ensures EncodeError<D>(Upload) == HttpReply(500, ErrorBody("upload failed"))
    ensures forall m :: EncodeError<D>(Rejected(m)) == HttpReply(500, ErrorBody(m))
  {
    forall m
      ensures EncodeError<D>(Rejected(m)) == HttpReply(500, ErrorBody(m))
    {
      assert HttpErrCode(Rejected(m)) == StatusInternalServerError;
    }
  }
}
