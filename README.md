# Video access control and session resolution

This project models the server core of a screen-recording and video-sharing app in Dafny.
Users upload recordings to object storage, then list, share, rename, expire and delete them.
Two source files form the core:

- `src/server/api/routers/video.ts`, the video router. It lists a caller's videos, reads one
  video under the visibility rule "owner or shared", and brokers uploads behind a subscription
  gate. It also holds four owner-scoped field setters and an owner-scoped delete with
  best-effort storage cleanup.
- `src/server/auth.ts`, the session resolver. It turns a provider session into the session
  user the API sees and creates the user's profile the first time it sees the user.

The database and the object store are replaced by abstract state:

- The video table is a `seq<Video>` in store order. Its primary key is unique (`UniqueIds`).
- The profile table is a `map` from user id to `UserProfile`.
- Storage is a `set` of object paths.
- Signing is an oracle that may return nothing: `DownloadSigner` and `UploadSigner`, given as
  function parameters.
- The outcome of each storage removal call is the parameter `removalFails`.
- The id the database generates for a new video is the parameter `freshId`. The model requires
  that it is not already in the table.

Modules and files:

- `nullable.dfy` (`Nullable`): JavaScript truthiness of nullable strings. It defines `s || ""`
  (`OrEmpty`) and `a || b || ... || null` (`FirstTruthy`).
- `object_paths.dfy` (`ObjectPaths`): the one-hour URL lifetime and the names
  `owner/id` and `owner/id-thumbnail`.
- `auth.dfy` (`Auth`): the session user builder as pure functions, and the class `ProfileTable`,
  whose `GetServerAuthSession` creates the profile in place.
- `video_table.dfy` (`VideoTable`): the row-level queries `findUnique`, `findMany`, the scoped
  `updateMany`/`deleteMany` and their affected-row counts, as functions over the table.
- `video_router.dfy` (`VideoRouter`): the two read operations are functions over the table. The
  class `VideoService` holds the table and the object set; its methods are the operations that
  change them.
- `workflow.dfy` (`Workflow`): properties that span both files, and an end-to-end sharing
  scenario as a client method.

Behaviour worth noting:

- `get`'s outcome never depends on `shareLinkExpiresAt`. An expired share link still gives read
  access. The value is only returned with the row and sent to telemetry (`GetIgnoresShareLinkExpiry`).
- The upload gate depends only on the subscription status and whether a Stripe key is
  configured, never on the caller's video count.
- `get` answers NOT_FOUND for an id with no row and FORBIDDEN for a private video of someone
  else, so the two cases can be told apart. The scoped updates and delete answer FORBIDDEN in
  both cases.
- A profile creation that throws makes the whole resolution throw.

Assumptions about columns whose defaults the schema sets (the schema is not part of this model):

- A new video has `sharing = false`.
- A new video has `delete_after_link_expires = false` and `shareLinkExpiresAt = null`.
- A new profile has `stripeSubscriptionStatus = null`.

## Model

| member | source | states |
|---|---|---|
| `Nullable.FirstTruthy` | src/server/auth.ts:74-76 | an or-chain ending in null is null exactly when no entry is truthy, and otherwise returns one of its truthy entries |
| `Nullable.FirstTruthyPicksFirst` | src/server/auth.ts:74 | the chain returns the first truthy entry; later entries are never consulted |
| `Nullable.FirstTruthyEmptyIsAbsent` | src/server/auth.ts:74 | an empty string anywhere in the chain behaves exactly like a missing value |
| `ObjectPaths.VideoAndThumbnailDistinct` | src/server/api/routers/video.ts:144-150 | a video's byte object and its thumbnail object have different paths |
| `ObjectPaths.VideoPathInjective` | src/server/api/routers/video.ts:83 | with slash-free owner ids, `owner/id` names exactly one (owner, video) pair |
| `ObjectPaths.ThumbnailPathInjective` | src/server/api/routers/video.ts:87 | with slash-free owner ids, `owner/id-thumbnail` names exactly one (owner, video) pair |
| `ObjectPaths.ThumbnailMeetsVideoPath` | src/server/api/routers/video.ts:144-150 | a thumbnail path equals a video path exactly when the other id is this id plus "-thumbnail" under the same owner |
| `Auth.ProvisionProfile` | src/server/auth.ts:59-68 | create-if-absent adds exactly the session user's id, builds the new profile from provider metadata, never modifies an existing profile, and keeps every profile stored under its own id |
| `Auth.BuildSessionUser` | src/server/auth.ts:71-73 | the session user's id and email are exactly the provider user's |
| `Auth.SessionNameFallback` | src/server/auth.ts:74 | name is the profile name if truthy, else `full_name`, else `name`, else null |
| `Auth.SessionImageFallback` | src/server/auth.ts:75 | image is the profile avatar if truthy, else metadata `avatar_url`, else null |
| `Auth.SessionStatusFromProfileOnly` | src/server/auth.ts:76 | the subscription status is the pre-lookup profile's value if truthy, else null; it is null for a first-time user |
| `Auth.ResolutionIsStable` | src/server/auth.ts:50-77 | resolving again after first sight creates nothing and returns the same session user, because the new profile stores the same name and avatar the first answer was built from |
| `Auth.EmptyProfileNameIsAbsent` | src/server/auth.ts:74 | a stored empty profile name gives the same session name as no stored name |
| `Auth.ProfileTable.GetServerAuthSession` | src/server/auth.ts:42-79 | null and no profile change without a session; otherwise a profile stored under the session user's id afterwards, and a session user with the provider's id and email, namely the session user built from the profile found before creation, with the profile table after create-if-absent |
| `VideoTable.Find` | src/server/api/routers/video.ts:48-55 | `findUnique` yields nothing exactly when no row has the id, otherwise a stored row with that id |
| `VideoTable.FindUnique` | src/server/api/routers/video.ts:48-55 | with a unique key, `findUnique` returns the one row holding the id |
| `VideoTable.OwnedBy` | src/server/api/routers/video.ts:13-17 | `findMany` by owner returns exactly the rows whose userId is the owner |
| `VideoTable.OwnedByConcat` | src/server/api/routers/video.ts:13-17 | the owner's rows come back in store order: filtering distributes over concatenation |
| `VideoTable.MatchCount` | src/server/api/routers/video.ts:164-176 | the affected-row count is zero exactly when no row matches both id and owner |
| `VideoTable.MatchCountAtMostOne` | src/server/api/routers/video.ts:164-176 | with a unique key, a scoped update or delete affects at most one row |
| `VideoTable.UpdateKeepsKeysAndOwners` | src/server/api/routers/video.ts:164-172 | a scoped update never changes a row's id or owner and keeps the key unique |
| `VideoTable.DeleteMany` | src/server/api/routers/video.ts:308-313 | a scoped delete removes exactly the matching rows and shrinks the table by the count |
| `VideoTable.DeleteManyConcat` | src/server/api/routers/video.ts:308-313 | the rows left after a scoped delete keep their store order: deletion distributes over concatenation |
| `VideoTable.DeleteManyKeepsUnique` | src/server/api/routers/video.ts:308-313 | the table after a scoped delete still has a unique key |
| `VideoRouter.GetAll` | src/server/api/routers/video.ts:11-43 | lists the caller's rows in store order; each thumbnail URL is the signed URL of `caller/id-thumbnail`, or "" exactly when signing yields nothing truthy |
| `VideoRouter.GetAllListsExactlyOwn` | src/server/api/routers/video.ts:13-17 | a row is listed if and only if it is stored and owned by the caller |
| `VideoRouter.Get` | src/server/api/routers/video.ts:44-94 | NOT_FOUND exactly when no row has the id; success exactly when the row exists and the caller owns it or it is shared; FORBIDDEN exactly when the row exists and the caller is neither its owner nor is it shared; otherwise the row with its video and thumbnail URLs ("" when signing fails) |
| `VideoRouter.GetVisibility` | src/server/api/routers/video.ts:60-62 | a stored video is readable if and only if the caller owns it or it is shared |
| `VideoRouter.AnonymousSeesOnlyShared` | src/server/api/routers/video.ts:60-62 | a caller with no session reads only shared videos |
| `VideoRouter.GetIgnoresShareLinkExpiry` | src/server/api/routers/video.ts:48-93 | changing any row's share-link expiry changes no outcome of `get` other than the echoed row |
| `VideoRouter.DeleteSparesOtherObjects` | src/server/api/routers/video.ts:328-336 | the cleanup after a delete removes neither object of any other video, given slash-free owner ids and no id that is another id plus "-thumbnail" |
| `VideoRouter.VideoService.GetUploadUrl` | src/server/api/routers/video.ts:95-160 | FORBIDDEN with the free-tier message exactly when a Stripe key is configured and the status is not "active", and then no row is created; otherwise exactly one row (caller, title = key, not shared) is appended, and the ticket carries the new id and the upload URLs and tokens for `caller/id` and `caller/id-thumbnail`, "" where signing yields nothing |
| `VideoRouter.VideoService.UpdateScoped` | src/server/api/routers/video.ts:164-176 | FORBIDDEN with the table unchanged exactly when no row matches id and owner; otherwise the count is 1 and the patch is applied to the matching row |
| `VideoRouter.VideoService.SetSharing` | src/server/api/routers/video.ts:161-192 | FORBIDDEN with the table unchanged unless a row matches id and caller; otherwise only that row's sharing flag changes |
| `VideoRouter.VideoService.SetDeleteAfterLinkExpires` | src/server/api/routers/video.ts:193-226 | FORBIDDEN with the table unchanged unless a row matches id and caller; otherwise only that row's delete-after-link-expires flag changes |
| `VideoRouter.VideoService.SetShareLinkExpiresAt` | src/server/api/routers/video.ts:227-263 | FORBIDDEN with the table unchanged unless a row matches id and caller; otherwise only that row's share-link expiry changes |
| `VideoRouter.VideoService.RenameVideo` | src/server/api/routers/video.ts:264-300 | FORBIDDEN with the table unchanged unless a row matches id and caller; otherwise only that row's title changes |
| `VideoRouter.VideoService.DeleteVideo` | src/server/api/routers/video.ts:301-344 | FORBIDDEN with table and storage unchanged unless a row matches id and caller; otherwise exactly that row is removed, and then `caller/id` and `caller/id-thumbnail` are removed unless their removal errors, which still yields success |
| `Workflow.FirstTimeUserUploadGated` | src/server/auth.ts:76 | a first-time user's session has a null status, so the upload gate refuses them while a Stripe key is configured |
| `Workflow.ActiveProfileUploadAllowed` | src/server/api/routers/video.ts:106-109 | a user whose stored profile status is "active" always passes the upload gate |
| `Workflow.SharingScenario` | src/server/api/routers/video.ts:95-344 | upload, share, anonymous read, a stranger's refused delete, the owner's delete, a refused repeat delete, then NOT_FOUND |

## Left out

- Telemetry (`posthog.capture` and `shutdownAsync`): it never affects control flow.
- The video count `getUploadUrl` computes is used only for telemetry, so it is left out.
- Input validation with zod and the tRPC router plumbing. Inputs are typed parameters; thrown errors are `Result` values.
- The `protectedProcedure` check that a session exists. Protected operations take the caller's id directly.
- The owner's profile that `get` embeds in its response (`include: { user: true }`) is not modelled.
- Timestamps (`createdAt`, `updatedAt`) and the conversion of the session expiry to a date string.
- The concurrency of `Promise.all` in `getAll`. It is modelled as a sequential map.
- The race between two concurrent first-sight profile creations. The code does not handle it.
- A profile creation that violates a unique constraint (for example a duplicate email) would throw. The model does not model that failure.
- Signing and removal are modelled as functions of the path. A transient failure appears as a signer that yields nothing for that path.
- The cookie adapter and `Set-Cookie` header building in `src/server/auth.ts`, and `getServerUser`: thin library wrappers.
- `src/pages/sign-in.tsx`, `src/pages/_app.tsx` (UI), `prisma/seed.ts` (a one-off script) and `src/server/supabase.ts` (client construction).
- Foreign keys between videos and profiles are not modelled: the schema that would declare them is not part of this model.
