/** Properties that span session resolution and the video API. */
module Workflow {
  import opened Nullable
  import opened ObjectPaths
  import opened VideoTable
  import opened VideoRouter
  import Auth

  /**
   * A first-time user's session carries a null subscription status, so while billing is
   * configured their first upload request is refused.
   */
  lemma FirstTimeUserUploadGated(profiles: map<string, Auth.UserProfile>, u: Auth.ProviderUser,
                                 stripePublishableKey: Option<string>)
    requires u.id !in profiles && Truthy(stripePublishableKey)
    ensures UploadDenied(Auth.BuildSessionUser(u, Auth.Lookup(profiles, u.id)).stripeSubscriptionStatus,
                         stripePublishableKey)
  {
  }

  /** A user whose stored profile says "active" passes the upload gate whatever the billing configuration. */
  lemma ActiveProfileUploadAllowed(profiles: map<string, Auth.UserProfile>, u: Auth.ProviderUser,
                                   stripePublishableKey: Option<string>)
    requires u.id in profiles && profiles[u.id].stripeSubscriptionStatus == Some("active")
    ensures !UploadDenied(Auth.BuildSessionUser(u, Auth.Lookup(profiles, u.id)).stripeSubscriptionStatus,
                          stripePublishableKey)
  {
  }

  /**
   * An owner uploads and shares a video; an anonymous caller reads it; a stranger's delete
   * is refused; the owner's delete succeeds, a repeat of it is refused, and the video is gone.
   */
  method SharingScenario(owner: Auth.SessionUser, stranger: string, videoId: string,
                         stripePublishableKey: Option<string>, sign: DownloadSigner,
                         signUpload: UploadSigner, removalFails: string -> bool)
    returns (uploaded: Result<UploadTicket>, anonymousView: Result<VideoView>,
             strangerDelete: Result<Deletion>, ownerDelete: Result<Deletion>,
             repeatDelete: Result<Deletion>, afterDelete: Result<VideoView>)
    requires owner.stripeSubscriptionStatus == Some("active") && stranger != owner.id
    ensures uploaded.Ok? && uploaded.value.id == videoId
    ensures anonymousView.Ok? && anonymousView.value.video.sharing
    ensures Truthy(sign(VideoPath(owner.id, videoId), SignedUrlTtlSeconds)) ==> anonymousView.value.videoUrl != ""
    ensures strangerDelete == Err(Denied)
    ensures ownerDelete.Ok?
    ensures repeatDelete == Err(Denied)
    ensures afterDelete == Err(Error(NotFound, None))
  {
    var service := new VideoService([], {});
    uploaded := service.GetUploadUrl(owner, "demo", stripePublishableKey, videoId, signUpload);
    assert service.videos[0] == NewVideo(videoId, owner.id, "demo");
    var shared := service.SetSharing(owner.id, videoId, true);
    assert service.videos[0].sharing;
    anonymousView := Get(service.videos, videoId, None, sign);
    strangerDelete := service.DeleteVideo(stranger, videoId, removalFails);
    ownerDelete := service.DeleteVideo(owner.id, videoId, removalFails);
    repeatDelete := service.DeleteVideo(owner.id, videoId, removalFails);
    afterDelete := Get(service.videos, videoId, Some(owner.id), sign);
  }
}
