/** The ad service: the five operations that validate a request and then change the
    ad table, the photo table and the image bucket.

    The relational store, the object store and the image processor are not part of
    this model. Every answer they would give (the id the store assigns, whether a
    write failed, whether the upload or the processor failed) is a parameter of the
    operation, so each operation is a deterministic step from the old state to the
    new one. The tables are maps from the primary key to the row. */
module Service {
  import opened Errors
  import opened Numbers

  const BucketName: string := "meshetr-images"
  const StorageHost: string := "https://storage.googleapis.com/"

  /** A row of table t_ad; the timestamps the store maintains are not modelled, and
      the price is kept only for its comparison with zero. */
  datatype Ad = Ad(idAd: Uint64, idUser: string, title: string, description: string, price: real)

  /** A row of table t_photo. */
  datatype Photo = Photo(idPhoto: Uint64, idAd: Uint64, urlOriginal: string)

  /** What the store answers to an insert: the primary key it assigned, or an error. */
  datatype Insert = Inserted(id: Uint64) | InsertFailed(cause: string)

  /** What the store answers to an update or a delete. The store runs each write in a
      transaction, so a failed write leaves its table as it was. `executed` says
      whether the statement ran, and so counted the rows it matched, before the
      transaction was rolled back; a statement that could not run affects no row. */
  datatype Write = Committed | Aborted(cause: string, executed: bool)

  /** The status codes of the image processor's answer; only `Ok` is told apart. */
  datatype StatusCode = Ok | NotOk(number: int)

  /** What the call to the image processor gives back. */
  datatype Rpc = Unreachable(cause: string) | Answered(code: StatusCode, message: string)

  /** An ad that PostAd refuses to create. */
  predicate Incomplete(ad: Ad) {
    ad.idUser == "" || ad.description == "" || ad.title == "" || ad.price == 0.0
  }

  /** An update never makes a complete ad incomplete: the store skips the blank fields
      of the payload, so a required field that is set stays set. */
  lemma UpdateKeepsComplete(stored: Ad, payload: Ad)
    requires !Incomplete(stored)
    ensures !Incomplete(ApplyUpdates(stored, payload))
  {
  }

  /** Every ad is stored under its own id, and no ad has id 0. */
  predicate AdsKeyed(ads: map<Uint64, Ad>) {
    forall id | id in ads :: id != 0 && ads[id].idAd == id
  }

  /** Every photo is stored under its own id, and no photo has id 0. */
  predicate PhotosKeyed(photos: map<Uint64, Photo>) {
    forall id | id in photos :: id != 0 && photos[id].idPhoto == id
  }

  /** How the store applies an update payload to a stored ad: a field of the payload
      that holds its zero value is skipped, every other field overwrites the stored
      one, and the primary key selects the row. */
  function ApplyUpdates(stored: Ad, payload: Ad): Ad {
    stored.(idUser := if payload.idUser != "" then payload.idUser else stored.idUser,
            title := if payload.title != "" then payload.title else stored.title,
            description := if payload.description != "" then payload.description else stored.description,
            price := if payload.price != 0.0 then payload.price else stored.price)
  }

  /** The rows an update or a delete by primary key reports as affected. */
  function RowsAffected(present: bool, write: Write): nat {
    if present && (write.Committed? || write.executed) then 1 else 0
  }

  /** What PutAd, DeleteAd and DeletePhoto report for a write to a row that is or is
      not present: the count of affected rows is examined before the store's error. */
  function WriteOutcome(present: bool, write: Write): (err: Option<Error>)
    ensures err == None <==> present && write.Committed?
    ensures !present ==> err == Some(NotFound)
    ensures write.Aborted? && !write.executed ==> err == Some(NotFound)
    ensures err.Some? && err.value != NotFound ==>
              write.Aborted? && write.executed && err.value == StoreFault(write.cause)
    ensures present && write.Aborted? && write.executed ==> err == Some(StoreFault(write.cause))
  {
    if RowsAffected(present, write) < 1 then Some(NotFound)
    else if write.Aborted? then Some(StoreFault(write.cause))
    else None
  }

  /** The key of an uploaded photo: the ad id and the nonce in decimal, joined by '-'. */
  function ObjectName(adId: Uint64, nonce: Int64): string {
    Decimal(adId) + "-" + FormatInt(nonce)
  }

  /** The public URL of an object of the bucket. */
  function PhotoUrl(objectName: string): (url: string)
    ensures StorageHost + BucketName + "/" <= url
    ensures url[|StorageHost + BucketName + "/"|..] == objectName
  {
    StorageHost + BucketName + "/" + objectName
  }

  /** Two uploads get the same object name only for the same ad and the same nonce:
      the ad id is everything before the first '-', since a decimal has no '-'. */
  lemma ObjectNameInjective(a1: Uint64, n1: Int64, a2: Uint64, n2: Int64)
    requires ObjectName(a1, n1) == ObjectName(a2, n2)
    ensures a1 == a2 && n1 == n2
  {
    var s, d1, d2 := ObjectName(a1, n1), Decimal(a1), Decimal(a2);
    assert s[|d1|] == '-' && s[|d2|] == '-';
    if |d1| < |d2| {
      assert false;
    } else if |d2| < |d1| {
      assert false;
    }
    assert d1 == s[..|d1|] == d2;
    DecimalInjective(a1, a2);
    assert FormatInt(n1) == s[|d1| + 1..] == FormatInt(n2);
    FormatIntInjective(n1, n2);
  }

  /** The URL of a photo determines the ad it was uploaded for and its nonce. */
  lemma PhotoUrlInjective(a1: Uint64, n1: Int64, a2: Uint64, n2: Int64)
    requires PhotoUrl(ObjectName(a1, n1)) == PhotoUrl(ObjectName(a2, n2))
    ensures a1 == a2 && n1 == n2
  {
    var prefix := StorageHost + BucketName + "/";
    assert ObjectName(a1, n1) == PhotoUrl(ObjectName(a1, n1))[|prefix|..];
    assert ObjectName(a2, n2) == PhotoUrl(ObjectName(a2, n2))[|prefix|..];
    ObjectNameInjective(a1, n1, a2, n2);
  }

  class AdService {
    var ads: map<Uint64, Ad>
    var photos: map<Uint64, Photo>
    /** The finalised objects of the bucket, by name. */
    var bucket: map<string, seq<Byte>>
    /** The image ids sent to the image processor, oldest first. */
    var processed: seq<Uint32>

    /** The primary-key invariant of both tables. Every operation keeps it; with it,
        a delete of id 0 (the id a refused path would have given) always finds no row. */
    ghost predicate Valid()
      reads this
    {
      AdsKeyed(ads) && PhotosKeyed(photos)
    }

    /** A service over the tables and the bucket as they stand. */
    constructor (ads0: map<Uint64, Ad>, photos0: map<Uint64, Photo>, bucket0: map<string, seq<Byte>>)
      requires AdsKeyed(ads0) && PhotosKeyed(photos0)
      ensures Valid()
      ensures ads == ads0 && photos == photos0 && bucket == bucket0 && processed == []
    {
      ads, photos, bucket, processed := ads0, photos0, bucket0, [];
    }

    /** Creates an ad and returns its id. Whatever id the caller gives is dropped: the
        store assigns the id. `insert` is the store's answer to the insert. */
    method PostAd(ad: Ad, insert: Insert) returns (id: Uint64, err: Option<Error>)
      requires Valid()
      requires insert.Inserted? ==> insert.id != 0 && insert.id !in ads
      modifies this`ads
      ensures Valid()
      ensures err == None <==> !Incomplete(ad) && insert.Inserted?
      ensures Incomplete(ad) ==> err == Some(MissingFields)
      ensures !Incomplete(ad) && insert.InsertFailed? ==> err == Some(StoreFault(insert.cause))
      ensures err.Some? ==> id == 0 && ads == old(ads)
      ensures err.None? ==> id == insert.id && id !in old(ads) && ads == old(ads)[id := ad.(idAd := id)]
    {
      var row := ad.(idAd := 0);
      if Incomplete(row) {
        return 0, Some(MissingFields);
      }
      match insert {
        case InsertFailed(cause) =>
          return 0, Some(StoreFault(cause));
        case Inserted(newId) =>
          row := row.(idAd := newId);
      }
      ads := ads[row.idAd := row];
      return row.idAd, None;
    }

    /** Updates an ad. The owner can never be changed: the payload's owner is blanked,
        and the store skips blank fields. `write` is the store's answer to the update. */
    method PutAd(ad: Ad, write: Write) returns (err: Option<Error>)
      requires Valid()
      modifies this`ads
      ensures Valid()
      ensures ad.idAd == 0 ==> err == Some(MissingFields)
      ensures ad.idAd != 0 ==> err == WriteOutcome(ad.idAd in old(ads), write)
      ensures err.Some? ==> ads == old(ads)
      ensures err.None? ==> ads == old(ads)[ad.idAd := ApplyUpdates(old(ads)[ad.idAd], ad.(idUser := ""))]
      ensures ads.Keys == old(ads).Keys
      ensures forall id | id in ads :: ads[id].idUser == old(ads)[id].idUser
    {
      var payload := ad.(idUser := "");
      if payload.idAd == 0 {
        return Some(MissingFields);
      }
      var present := payload.idAd in ads;
      if present && write.Committed? {
        ads := ads[payload.idAd := ApplyUpdates(ads[payload.idAd], payload)];
      }
      if RowsAffected(present, write) < 1 {
        return Some(NotFound);
      }
      if write.Aborted? {
        return Some(StoreFault(write.cause));
      }
      return None;
    }

    /** Deletes an ad; its photos stay. `write` is the store's answer to the delete. */
    method DeleteAd(id: Uint64, write: Write) returns (err: Option<Error>)
      requires Valid()
      modifies this`ads
      ensures Valid()
      ensures err == WriteOutcome(id in old(ads), write)
      ensures id == 0 ==> err == Some(NotFound)
      ensures ads == if err.None? then old(ads) - {id} else old(ads)
    {
      var present := id in ads;
      if present && write.Committed? {
        ads := ads - {id};
      }
      if RowsAffected(present, write) < 1 {
        return Some(NotFound);
      }
      if write.Aborted? {
        return Some(StoreFault(write.cause));
      }
      return None;
    }

    /** Uploads a photo for an ad, records it and has it processed, strictly in that
        order. `nonce` is the clock reading that makes the object name; `copyFault`
        and `closeFault` are the errors of copying the file into the object writer
        and of closing that writer; `insert` is the store's answer to the insert of
        the photo row; `rpc` is the image processor's answer. A failure stops the
        sequence where it happens and nothing done before it is undone. The object
        store is assumed to finalise an object only when its writer closes without
        error, so a failed copy or close leaves the bucket as it was. */
    method PostPhoto(adId: Uint64, file: seq<Byte>, nonce: Int64, copyFault: Option<string>,
                     closeFault: Option<string>, insert: Insert, rpc: Rpc) returns (r: Result<Photo>)
      requires Valid()
      requires insert.Inserted? ==> insert.id != 0 && insert.id !in photos
      modifies this`bucket, this`photos, this`processed
      ensures Valid()
      // the upload
      ensures copyFault.Some? ==> r == Failure(Upload)
      ensures copyFault.None? && closeFault.Some? ==> r == Failure(WriterFault(closeFault.value))
      ensures copyFault.Some? || closeFault.Some? ==>
                bucket == old(bucket) && photos == old(photos) && processed == old(processed)
      ensures copyFault.None? && closeFault.None? ==> bucket == old(bucket)[ObjectName(adId, nonce) := file]
      // the photo row
      ensures copyFault.None? && closeFault.None? && insert.InsertFailed? ==>
                r == Failure(StoreFault(insert.cause)) && photos == old(photos) && processed == old(processed)
      ensures copyFault.None? && closeFault.None? && insert.Inserted? ==>
                photos == old(photos)[insert.id := Photo(insert.id, adId, PhotoUrl(ObjectName(adId, nonce)))]
      // the image processor
      ensures copyFault.None? && closeFault.None? && insert.Inserted? ==>
                processed == old(processed) + [insert.id % 0x1_0000_0000]
      ensures copyFault.None? && closeFault.None? && insert.Inserted? ==>
                r == match rpc
                     case Unreachable(cause) => Failure(RpcFault(cause))
                     case Answered(code, message) =>
                       if code == Ok then Success(photos[insert.id]) else Failure(Rejected(message))
      // the order of the steps, stated outright
      ensures photos != old(photos) ==> ObjectName(adId, nonce) in bucket && bucket[ObjectName(adId, nonce)] == file
      ensures processed != old(processed) ==> photos != old(photos)
      ensures r.Success? ==> r.value.idAd == adId && r.value.urlOriginal == PhotoUrl(ObjectName(adId, nonce))
                               && r.value.idPhoto in photos && photos[r.value.idPhoto] == r.value
    {
      var objectName := ObjectName(adId, nonce);
      var url := PhotoUrl(objectName);
      if copyFault.Some? {
        return Failure(Upload);
      }
      if closeFault.Some? {
        return Failure(WriterFault(closeFault.value));
      }
      bucket := bucket[objectName := file];

      var photo := Photo(0, adId, url);
      match insert {
        case InsertFailed(cause) =>
          return Failure(StoreFault(cause));
        case Inserted(newId) =>
          photo := photo.(idPhoto := newId);
      }
      photos := photos[photo.idPhoto := photo];

      processed := processed + [photo.idPhoto % 0x1_0000_0000];
      match rpc {
        case Unreachable(cause) =>
          return Failure(RpcFault(cause));
        case Answered(code, message) =>
          if code != Ok {
            return Failure(Rejected(message));
          }
      }
      return Success(photo);
    }

    /** Deletes a photo by its id; the object in the bucket stays. The ad id travels
        with the request but the row is selected by its primary key alone. `write` is
        the store's answer to the delete. */
    method DeletePhoto(adId: Uint64, id: Uint64, write: Write) returns (err: Option<Error>)
      requires Valid()
      modifies this`photos
      ensures Valid()
      ensures err == WriteOutcome(id in old(photos), write)
      ensures id == 0 ==> err == Some(NotFound)
      ensures photos == if err.None? then old(photos) - {id} else old(photos)
    {
      var present := id in photos;
      if present && write.Committed? {
        photos := photos - {id};
      }
      if RowsAffected(present, write) < 1 {
        return Some(NotFound);
      }
      if write.Aborted? {
        return Some(StoreFault(write.cause));
      }
      return None;
    }
  }
}
