/** The naming scheme, inside the single "videos" bucket, shared by upload, read and delete. */
module ObjectPaths {

  /** Signed download URLs are valid for one hour. */
  const SignedUrlTtlSeconds: nat := 60 * 60

  const ThumbnailSuffix: string := "-thumbnail"

  /** `${owner}/${videoId}`: the object holding the video bytes. */
  function VideoPath(owner: string, videoId: string): string {
    owner + "/" + videoId
  }

  /** `${owner}/${videoId}-thumbnail`: the object holding the thumbnail. */
  function ThumbnailPath(owner: string, videoId: string): string {
    owner + "/" + videoId + ThumbnailSuffix
  }

  /** The two objects of one video are distinct. */
  lemma VideoAndThumbnailDistinct(owner: string, videoId: string)
    ensures VideoPath(owner, videoId) != ThumbnailPath(owner, videoId)
  {
  }

  /** In `owner + "/" + rest` with a slash-free owner, the first '/' sits right after the owner. */
  lemma FirstSlashAfterOwner(owner: string, rest: string)
    requires '/' !in owner
    ensures (owner + "/" + rest)[|owner|] == '/'
    ensures forall i :: 0 <= i < |owner| ==> (owner + "/" + rest)[i] != '/'
  {
  }

  /** Splitting a path at its first '/' recovers the owner and the rest, when owner ids hold no '/'. */
  lemma SplitAtSlash(o1: string, r1: string, o2: string, r2: string)
    requires '/' !in o1 && '/' !in o2
    requires o1 + "/" + r1 == o2 + "/" + r2
    ensures o1 == o2 && r1 == r2
  {
    var s := o1 + "/" + r1;
    FirstSlashAfterOwner(o1, r1);
    FirstSlashAfterOwner(o2, r2);
    assert |o1| == |o2|;
    assert o1 == s[..|o1|] == o2;
    assert r1 == s[|o1| + 1..] == r2;
  }

  /** With slash-free owner ids, each (owner, video) pair names its own video object. */
  lemma VideoPathInjective(o1: string, v1: string, o2: string, v2: string)
    requires '/' !in o1 && '/' !in o2
    ensures VideoPath(o1, v1) == VideoPath(o2, v2) <==> o1 == o2 && v1 == v2
  {
    if VideoPath(o1, v1) == VideoPath(o2, v2) {
      SplitAtSlash(o1, v1, o2, v2);
    }
  }

  /** With slash-free owner ids, each (owner, video) pair names its own thumbnail object. */
  lemma ThumbnailPathInjective(o1: string, v1: string, o2: string, v2: string)
    requires '/' !in o1 && '/' !in o2
    ensures ThumbnailPath(o1, v1) == ThumbnailPath(o2, v2) <==> o1 == o2 && v1 == v2
  {
    if ThumbnailPath(o1, v1) == ThumbnailPath(o2, v2) {
      assert o1 + "/" + (v1 + ThumbnailSuffix) == ThumbnailPath(o1, v1);
      assert o2 + "/" + (v2 + ThumbnailSuffix) == ThumbnailPath(o2, v2);
      SplitAtSlash(o1, v1 + ThumbnailSuffix, o2, v2 + ThumbnailSuffix);
      assert v1 == (v1 + ThumbnailSuffix)[..|v1|];
      assert v2 == (v2 + ThumbnailSuffix)[..|v2|];
    }
  }

  /**
   * A thumbnail object coincides with a video object only when the other video's id is
   * this video's id followed by "-thumbnail" under the same owner.
   */
  lemma ThumbnailMeetsVideoPath(o1: string, v1: string, o2: string, v2: string)
    requires '/' !in o1 && '/' !in o2
    ensures ThumbnailPath(o1, v1) == VideoPath(o2, v2) <==> o1 == o2 && v2 == v1 + ThumbnailSuffix
  {
    assert ThumbnailPath(o1, v1) == o1 + "/" + (v1 + ThumbnailSuffix);
    if ThumbnailPath(o1, v1) == VideoPath(o2, v2) {
      SplitAtSlash(o1, v1 + ThumbnailSuffix, o2, v2);
    }
  }
}
