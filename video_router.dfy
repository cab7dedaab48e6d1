/**
 * The video API: listing, reading, upload brokering, owner-scoped field updates and
 * deletion, over the video table and the set of stored objects.
 */
module VideoRouter {
  import opened Nullable
  import opened ObjectPaths
  import opened VideoTable
  import Auth

  /** The tRPC error codes the router throws. */
  datatype Code = NotFound | Forbidden

  /** A thrown `TRPCError`: its code and the message it was given, if any. */
  datatype Error = Error(code: Code, message: Option<string>)

  datatype Result<T> = Ok(value: T) | Err(error: Error)

  const UploadLimitMessage: string :=
    "Sorry, you have reached the maximum video upload limit on our free tier. Please upgrade to upload more."

  /** `FORBIDDEN` without a message: what every failed ownership or visibility check throws. */
  const Denied: Error := Error(Forbidden, None)

  /** `FORBIDDEN` with the free-tier message: what the upload gate throws. */
  const UploadLimit: Error := Error(Forbidden, Some(UploadLimitMessage))

  /** Storage's `createSignedUrl(path, ttl)`: a signed download URL, or nothing on failure. */
  type DownloadSigner = (string, nat) -> Option<string>

  /** What storage's `createSignedUploadUrl` returns on success. */
  datatype UploadSlot = UploadSlot(signedUrl: string, token: string)

  /** Storage's `createSignedUploadUrl(path)`: a slot, or nothing on failure. */
  type UploadSigner = string -> Option<UploadSlot>

  /** A `getAll` entry: the row plus its thumbnail's signed URL. */
  datatype ListedVideo = ListedVideo(video: Video, thumbnailUrl: string)

  /** A `get` result: the row plus signed URLs for the video and its thumbnail. */
  datatype VideoView = VideoView(video: Video, videoUrl: string, thumbnailUrl: string)

  /** The `getUploadUrl` response. */
  datatype UploadTicket = UploadTicket(
    id: string,
    signedVideoUrl: string,
    signedThumbnailUrl: string,
    videoToken: string,
    thumbnailToken: string)

  /** The `deleteVideo` response: the row count and what each storage removal reported (null on error). */
  datatype Deletion = Deletion(count: nat, videoObject: Option<seq<string>>, thumbnailObject: Option<seq<string>>)

  /** A download URL for `path`, or "" when signing yields nothing. */
  function SignedUrl(sign: DownloadSigner, path: string): string {
    OrEmpty(sign(path, SignedUrlTtlSeconds))
  }

  /** `getAll`: the caller's videos in store order, each with a thumbnail URL. */
  function GetAll(rows: seq<Video>, caller: string, sign: DownloadSigner): (r: seq<ListedVideo>)
    ensures |r| == |OwnedBy(rows, caller)|
    ensures forall i :: 0 <= i < |r| ==> r[i].video == OwnedBy(rows, caller)[i]
    ensures forall i :: 0 <= i < |r| ==> r[i].video in rows && r[i].video.userId == caller
    ensures forall i :: 0 <= i < |r| ==>
      r[i].thumbnailUrl == SignedUrl(sign, ThumbnailPath(caller, r[i].video.id))
    ensures forall i :: 0 <= i < |r| ==>
      (r[i].thumbnailUrl == "" <==> !Truthy(sign(ThumbnailPath(caller, r[i].video.id), SignedUrlTtlSeconds)))
  {
    var owned := OwnedBy(rows, caller);
    seq(|owned|, i requires 0 <= i < |owned| =>
      ListedVideo(owned[i], SignedUrl(sign, ThumbnailPath(owned[i].userId, owned[i].id))))
  }

  /** Every one of the caller's rows is listed, and nothing else. */
  lemma GetAllListsExactlyOwn(rows: seq<Video>, caller: string, sign: DownloadSigner, v: Video)
    ensures (exists i :: 0 <= i < |GetAll(rows, caller, sign)| && GetAll(rows, caller, sign)[i].video == v)
        <==> v in rows && v.userId == caller
  {
    var r := GetAll(rows, caller, sign);
    var owned := OwnedBy(rows, caller);
    if v in rows && v.userId == caller {
      assert v in owned;
      var i :| 0 <= i < |owned| && owned[i] == v;
      assert r[i].video == v;
    }
  }

  /** The visibility rule of `get`: the owner, or anyone when sharing is on. */
  predicate CanView(v: Video, caller: Option<string>) {
    caller == Some(v.userId) || v.sharing
  }

  /** `get`: NOT_FOUND without a row, FORBIDDEN when not visible, else the row with signed URLs. */
  function Get(rows: seq<Video>, videoId: string, caller: Option<string>, sign: DownloadSigner): (r: Result<VideoView>)
    ensures r == Err(Error(NotFound, None)) <==> !HasId(rows, videoId)
    ensures r == Err(Denied) <==> HasId(rows, videoId) && !CanView(Find(rows, videoId).value, caller)
    ensures r.Ok? <==> HasId(rows, videoId) && CanView(Find(rows, videoId).value, caller)
    ensures r.Ok? ==> r.value.video in rows && r.value.video.id == videoId && CanView(r.value.video, caller)
    ensures r.Ok? ==> r.value.videoUrl == SignedUrl(sign, VideoPath(r.value.video.userId, videoId))
    ensures r.Ok? ==> r.value.thumbnailUrl == SignedUrl(sign, ThumbnailPath(r.value.video.userId, videoId))
  {
    match Find(rows, videoId)
    case None => Err(Error(NotFound, None))
    case Some(v) =>
      if caller != Some(v.userId) && !v.sharing then
        Err(Denied)
      else
        Ok(VideoView(v,
          SignedUrl(sign, VideoPath(v.userId, v.id)),
          SignedUrl(sign, ThumbnailPath(v.userId, v.id))))
  }

  /** On a table with a unique key, a stored video is readable exactly by its owner, or by anyone once shared. */
  lemma GetVisibility(rows: seq<Video>, k: nat, caller: Option<string>, sign: DownloadSigner)
    requires UniqueIds(rows) && k < |rows|
    ensures Get(rows, rows[k].id, caller, sign).Ok? <==> caller == Some(rows[k].userId) || rows[k].sharing
    ensures Get(rows, rows[k].id, caller, sign).Ok? ==> Get(rows, rows[k].id, caller, sign).value.video == rows[k]
  {
  }

  /** An anonymous caller reads only shared videos. */
  lemma AnonymousSeesOnlyShared(rows: seq<Video>, videoId: string, sign: DownloadSigner)
    ensures Get(rows, videoId, None, sign).Ok? ==> Get(rows, videoId, None, sign).value.video.sharing
  {
  }

  /** `get` never consults the share-link expiry: changing it changes no outcome other than the row echoed back. */
  lemma GetIgnoresShareLinkExpiry(rows: seq<Video>, k: nat, at: Option<int>, videoId: string, caller: Option<string>, sign: DownloadSigner)
    requires k < |rows|
    ensures var before := Get(rows, videoId, caller, sign);
      var after := Get(rows[k := rows[k].(shareLinkExpiresAt := at)], videoId, caller, sign);
      && before.Ok? == after.Ok?
      && (before.Err? ==> before == after)
      && (before.Ok? ==> before.value.videoUrl == after.value.videoUrl && before.value.thumbnailUrl == after.value.thumbnailUrl)
  {
    FindIgnoresExpiry(rows, k, at, videoId);
  }

  lemma {:induction false} FindIgnoresExpiry(rows: seq<Video>, k: nat, at: Option<int>, videoId: string)
    requires k < |rows|
    ensures var f := Find(rows[k := rows[k].(shareLinkExpiresAt := at)], videoId);
      && f.Some? == Find(rows, videoId).Some?
      && (f.Some? ==> f.value == Find(rows, videoId).value.(shareLinkExpiresAt := f.value.shareLinkExpiresAt))
  {
    var rows' := rows[k := rows[k].(shareLinkExpiresAt := at)];
    if rows[0].id != videoId && k > 0 {
      assert rows'[1..] == rows[1..][k - 1 := rows[k].(shareLinkExpiresAt := at)];
      FindIgnoresExpiry(rows[1..], k - 1, at, videoId);
    } else if rows[0].id != videoId {
      assert rows'[1..] == rows[1..];
    }
  }

  /** The upload gate: denied when billing is configured and the subscription is not "active". */
  predicate UploadDenied(status: Option<string>, stripePublishableKey: Option<string>) {
    status != Some("active") && Truthy(stripePublishableKey)
  }

  /** `data?.signedUrl || ""` and `data?.token || ""` of an upload slot. */
  function SlotUrl(slot: Option<UploadSlot>): string {
    if slot.Some? then slot.value.signedUrl else ""
  }

  function SlotToken(slot: Option<UploadSlot>): string {
    if slot.Some? then slot.value.token else ""
  }

  /** What a storage `remove([path])` call reports: null on error, else the paths it removed. */
  function RemovalReport(objects: set<string>, path: string, fails: bool): Option<seq<string>> {
    if fails then None else Some(if path in objects then [path] else [])
  }

  /** The objects a successful delete takes out of storage: each of the two whose removal does not error. */
  function RemovedPaths(caller: string, videoId: string, removalFails: string -> bool): set<string> {
    (if removalFails(VideoPath(caller, videoId)) then {} else {VideoPath(caller, videoId)})
    + (if removalFails(ThumbnailPath(caller, videoId)) then {} else {ThumbnailPath(caller, videoId)})
  }

  /**
   * The best-effort cleanup after deleting `videoId` never removes another video's objects,
   * given slash-free owner ids and no video id that is another's id plus "-thumbnail".
   */
  lemma DeleteSparesOtherObjects(caller: string, videoId: string, removalFails: string -> bool, other: Video)
    requires '/' !in caller && '/' !in other.userId
    requires !(other.userId == caller && other.id == videoId)
    requires other.id != videoId + ThumbnailSuffix && videoId != other.id + ThumbnailSuffix
    ensures VideoPath(other.userId, other.id) !in RemovedPaths(caller, videoId, removalFails)
    ensures ThumbnailPath(other.userId, other.id) !in RemovedPaths(caller, videoId, removalFails)
  {
    VideoPathInjective(caller, videoId, other.userId, other.id);
    ThumbnailPathInjective(caller, videoId, other.userId, other.id);
    ThumbnailMeetsVideoPath(caller, videoId, other.userId, other.id);
    ThumbnailMeetsVideoPath(other.userId, other.id, caller, videoId);
  }

  /** The database's video table together with the storage bucket's objects. */
  class VideoService {
    var videos: seq<Video>
    var objects: set<string>

    ghost predicate Valid()
      reads this
    {
      UniqueIds(videos)
    }

    constructor (rows: seq<Video>, stored: set<string>)
      requires UniqueIds(rows)
      ensures Valid() && videos == rows && objects == stored
    {
      videos := rows;
      objects := stored;
    }

    /**
     * `getUploadUrl`: after the gate, create the row (`freshId` is the id the database
     * generates), then sign upload slots for its video and thumbnail objects.
     */
    method GetUploadUrl(user: Auth.SessionUser, key: string, stripePublishableKey: Option<string>,
                        freshId: string, signUpload: UploadSigner)
      returns (r: Result<UploadTicket>)
      requires Valid() && !HasId(videos, freshId)
      modifies this
      ensures Valid() && objects == old(objects)
      ensures r.Err? <==> UploadDenied(user.stripeSubscriptionStatus, stripePublishableKey)
      ensures r.Err? ==> r.error == UploadLimit && videos == old(videos)
      ensures r.Ok? ==> videos == old(videos) + [NewVideo(freshId, user.id, key)]
      ensures r.Ok? ==> r.value == UploadTicket(
        freshId,
        SlotUrl(signUpload(VideoPath(user.id, freshId))),
        SlotUrl(signUpload(ThumbnailPath(user.id, freshId))),
        SlotToken(signUpload(VideoPath(user.id, freshId))),
        SlotToken(signUpload(ThumbnailPath(user.id, freshId))))
    {
      if UploadDenied(user.stripeSubscriptionStatus, stripePublishableKey) {
        return Err(UploadLimit);
      }
      var video := NewVideo(freshId, user.id, key);
      videos := videos + [video];
      var videoSlot := signUpload(VideoPath(user.id, video.id));
      var thumbnailSlot := signUpload(ThumbnailPath(video.userId, video.id));
      r := Ok(UploadTicket(video.id, SlotUrl(videoSlot), SlotUrl(thumbnailSlot),
                           SlotToken(videoSlot), SlotToken(thumbnailSlot)));
    }

    /** The shared body of the four setters: scoped `updateMany`, FORBIDDEN on a zero count. */
    method UpdateScoped(caller: string, videoId: string, p: Patch) returns (r: Result<nat>)
      requires Valid()
      modifies this
      ensures Valid() && objects == old(objects)
      ensures r.Err? <==> NoMatch(old(videos), videoId, caller)
      ensures r.Err? ==> r.error == Denied && videos == old(videos)
      ensures r.Ok? ==> r.value == 1 && videos == UpdateMany(old(videos), videoId, caller, p)
    {
      var count := MatchCount(videos, videoId, caller);
      MatchCountAtMostOne(videos, videoId, caller);
      UpdateKeepsKeysAndOwners(videos, videoId, caller, p);
      var updated := UpdateMany(videos, videoId, caller, p);
      if count == 0 {
        assert updated == videos;
        return Err(Denied);
      }
      videos := updated;
      r := Ok(count);
    }

    /** `setSharing`. */
    method SetSharing(caller: string, videoId: string, sharing: bool) returns (r: Result<nat>)
      requires Valid()
      modifies this
      ensures Valid() && objects == old(objects)
      ensures r.Err? <==> NoMatch(old(videos), videoId, caller)
      ensures r.Err? ==> r.error == Denied && videos == old(videos)
      ensures r.Ok? ==> r.value == 1 && |videos| == |old(videos)|
      ensures r.Ok? ==> forall i :: 0 <= i < |videos| ==>
        videos[i] == if Matches(old(videos)[i], videoId, caller) then old(videos)[i].(sharing := sharing) else old(videos)[i]
    {
      r := UpdateScoped(caller, videoId, Sharing(sharing));
    }

    /** `setDeleteAfterLinkExpires`. */
    method SetDeleteAfterLinkExpires(caller: string, videoId: string, flag: bool) returns (r: Result<nat>)
      requires Valid()
      modifies this
      ensures Valid() && objects == old(objects)
      ensures r.Err? <==> NoMatch(old(videos), videoId, caller)
      ensures r.Err? ==> r.error == Denied && videos == old(videos)
      ensures r.Ok? ==> r.value == 1 && |videos| == |old(videos)|
      ensures r.Ok? ==> forall i :: 0 <= i < |videos| ==>
        videos[i] == if Matches(old(videos)[i], videoId, caller) then old(videos)[i].(deleteAfterLinkExpires := flag) else old(videos)[i]
    {
      r := UpdateScoped(caller, videoId, DeleteAfterLinkExpires(flag));
    }

    /** `setShareLinkExpiresAt`. */
    method SetShareLinkExpiresAt(caller: string, videoId: string, at: Option<int>) returns (r: Result<nat>)
      requires Valid()
      modifies this
      ensures Valid() && objects == old(objects)
      ensures r.Err? <==> NoMatch(old(videos), videoId, caller)
      ensures r.Err? ==> r.error == Denied && videos == old(videos)
      ensures r.Ok? ==> r.value == 1 && |videos| == |old(videos)|
      ensures r.Ok? ==> forall i :: 0 <= i < |videos| ==>
        videos[i] == if Matches(old(videos)[i], videoId, caller) then old(videos)[i].(shareLinkExpiresAt := at) else old(videos)[i]
    {
      r := UpdateScoped(caller, videoId, ShareLinkExpiresAt(at));
    }

    /** `renameVideo`. */
    method RenameVideo(caller: string, videoId: string, title: string) returns (r: Result<nat>)
      requires Valid()
      modifies this
      ensures Valid() && objects == old(objects)
      ensures r.Err? <==> NoMatch(old(videos), videoId, caller)
      ensures r.Err? ==> r.error == Denied && videos == old(videos)
      ensures r.Ok? ==> r.value == 1 && |videos| == |old(videos)|
      ensures r.Ok? ==> forall i :: 0 <= i < |videos| ==>
        videos[i] == if Matches(old(videos)[i], videoId, caller) then old(videos)[i].(title := title) else old(videos)[i]
    {
      r := UpdateScoped(caller, videoId, Title(title));
    }

    /**
     * `deleteVideo`: scoped `deleteMany`, FORBIDDEN on a zero count; then best-effort removal
     * of the two objects, where `removalFails` says which storage calls error.
     */
    method DeleteVideo(caller: string, videoId: string, removalFails: string -> bool) returns (r: Result<Deletion>)
      requires Valid()
      modifies this
      ensures Valid()
      ensures r.Err? <==> NoMatch(old(videos), videoId, caller)
      ensures r.Err? ==> r.error == Denied && videos == old(videos) && objects == old(objects)
      ensures r.Ok? ==> r.value.count == 1 && videos == DeleteMany(old(videos), videoId, caller)
      ensures r.Ok? ==> NoMatch(videos, videoId, caller)
      ensures r.Ok? ==> objects == old(objects) - RemovedPaths(caller, videoId, removalFails)
      ensures r.Ok? ==> r.value.videoObject == RemovalReport(old(objects), VideoPath(caller, videoId), removalFails(VideoPath(caller, videoId)))
      ensures r.Ok? ==> r.value.thumbnailObject == RemovalReport(old(objects), ThumbnailPath(caller, videoId), removalFails(ThumbnailPath(caller, videoId)))
    {
      var count := MatchCount(videos, videoId, caller);
      if count == 0 {
        return Err(Denied);
      }
      MatchCountAtMostOne(videos, videoId, caller);
      DeleteManyKeepsUnique(videos, videoId, caller);
      videos := DeleteMany(videos, videoId, caller);
      assert NoMatch(videos, videoId, caller) by {
        forall i | 0 <= i < |videos| ensures !Matches(videos[i], videoId, caller) {
          assert videos[i] in videos;
        }
      }

      var videoPath := VideoPath(caller, videoId);
      var videoReport := RemovalReport(objects, videoPath, removalFails(videoPath));
      if !removalFails(videoPath) {
        objects := objects - {videoPath};
      }

      var thumbnailPath := ThumbnailPath(caller, videoId);
      VideoAndThumbnailDistinct(caller, videoId);
      var thumbnailReport := RemovalReport(objects, thumbnailPath, removalFails(thumbnailPath));
      if !removalFails(thumbnailPath) {
        objects := objects - {thumbnailPath};
      }
      r := Ok(Deletion(count, videoReport, thumbnailReport));
    }
  }
}
