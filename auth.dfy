/**
 * Session resolution: from the identity provider's session to the session user the API
 * sees, provisioning a user profile the first time a user is seen.
 */
module Auth {
  import opened Nullable

  /** The provider-supplied `user_metadata` fields the resolver reads. */
  datatype UserMetadata = UserMetadata(fullName: Option<string>, name: Option<string>, avatarUrl: Option<string>)

  /** The identity provider's view of the signed-in user. */
  datatype ProviderUser = ProviderUser(id: string, email: Option<string>, metadata: UserMetadata)

  /** A valid provider session (its expiry timestamp is not modelled). */
  datatype ProviderSession = ProviderSession(user: ProviderUser)

  /** A row of the user profile table. */
  datatype UserProfile = UserProfile(
    id: string,
    email: Option<string>,
    name: Option<string>,
    avatarUrl: Option<string>,
    stripeSubscriptionStatus: Option<string>)

  /** The user that API handlers see as `session.user`. */
  datatype SessionUser = SessionUser(
    id: string,
    email: Option<string>,
    name: Option<string>,
    image: Option<string>,
    stripeSubscriptionStatus: Option<string>)

  datatype AuthSession = AuthSession(user: SessionUser)

  /** `findUnique` on the profile table by primary key. */
  function Lookup(profiles: map<string, UserProfile>, id: string): Option<UserProfile> {
    if id in profiles then Some(profiles[id]) else None
  }

  /** Every profile is stored under its own id (the primary key of the profile table). */
  ghost predicate KeyedById(profiles: map<string, UserProfile>) {
    forall id :: id in profiles ==> profiles[id].id == id
  }

  /**
   * The profile created on first sight: name is `full_name || name || null`, avatar is
   * `avatar_url || null`; the subscription status column is left at null.
   */
  function NewProfile(u: ProviderUser): UserProfile {
    UserProfile(
      u.id,
      u.email,
      FirstTruthy([u.metadata.fullName, u.metadata.name]),
      FirstTruthy([u.metadata.avatarUrl]),
      None)
  }

  /** The profile table after the create-if-absent step. */
  function ProvisionProfile(profiles: map<string, UserProfile>, u: ProviderUser): (r: map<string, UserProfile>)
    ensures r.Keys == profiles.Keys + {u.id}
    ensures forall id :: id in profiles ==> id in r && r[id] == profiles[id]
    ensures u.id !in profiles ==> r[u.id] == NewProfile(u)
    ensures KeyedById(profiles) ==> KeyedById(r)
  {
    if u.id in profiles then profiles else profiles[u.id := NewProfile(u)]
  }

  function ProfileName(found: Option<UserProfile>): Option<string> {
    if found.Some? then found.value.name else None
  }

  function ProfileAvatar(found: Option<UserProfile>): Option<string> {
    if found.Some? then found.value.avatarUrl else None
  }

  function ProfileStatus(found: Option<UserProfile>): Option<string> {
    if found.Some? then found.value.stripeSubscriptionStatus else None
  }

  /**
   * The session user built from the provider user and the profile looked up BEFORE the
   * create-if-absent step (`found` is None for a first-time user).
   */
  function BuildSessionUser(u: ProviderUser, found: Option<UserProfile>): (r: SessionUser)
    ensures r.id == u.id && r.email == u.email
  {
    SessionUser(
      u.id,
      u.email,
      FirstTruthy([ProfileName(found), u.metadata.fullName, u.metadata.name]),
      FirstTruthy([ProfileAvatar(found), u.metadata.avatarUrl]),
      FirstTruthy([ProfileStatus(found)]))
  }

  /** The returned name: profile name, else `full_name`, else `name`, else null; "" counts as absent. */
  lemma SessionNameFallback(u: ProviderUser, found: Option<UserProfile>)
    ensures var n := BuildSessionUser(u, found).name;
      && (Truthy(ProfileName(found)) ==> n == ProfileName(found))
      && (!Truthy(ProfileName(found)) && Truthy(u.metadata.fullName) ==> n == u.metadata.fullName)
      && (!Truthy(ProfileName(found)) && !Truthy(u.metadata.fullName) && Truthy(u.metadata.name) ==> n == u.metadata.name)
      && (!Truthy(ProfileName(found)) && !Truthy(u.metadata.fullName) && !Truthy(u.metadata.name) ==> n == None)
  {
    var xs := [ProfileName(found), u.metadata.fullName, u.metadata.name];
    if Truthy(xs[0]) {
      FirstTruthyPicksFirst(xs, 0);
    } else if Truthy(xs[1]) {
      FirstTruthyPicksFirst(xs, 1);
    } else if Truthy(xs[2]) {
      FirstTruthyPicksFirst(xs, 2);
    }
  }

  /** The returned image: profile avatar, else metadata `avatar_url`, else null. */
  lemma SessionImageFallback(u: ProviderUser, found: Option<UserProfile>)
    ensures var i := BuildSessionUser(u, found).image;
      && (Truthy(ProfileAvatar(found)) ==> i == ProfileAvatar(found))
      && (!Truthy(ProfileAvatar(found)) && Truthy(u.metadata.avatarUrl) ==> i == u.metadata.avatarUrl)
      && (!Truthy(ProfileAvatar(found)) && !Truthy(u.metadata.avatarUrl) ==> i == None)
  {
    var xs := [ProfileAvatar(found), u.metadata.avatarUrl];
    if Truthy(xs[0]) {
      FirstTruthyPicksFirst(xs, 0);
    } else if Truthy(xs[1]) {
      FirstTruthyPicksFirst(xs, 1);
    }
  }

  /**
   * The subscription status comes only from the profile found before provisioning, so a
   * first-time user always gets null.
   */
  lemma SessionStatusFromProfileOnly(u: ProviderUser, found: Option<UserProfile>)
    ensures var s := BuildSessionUser(u, found).stripeSubscriptionStatus;
      && (Truthy(ProfileStatus(found)) ==> s == ProfileStatus(found))
      && (!Truthy(ProfileStatus(found)) ==> s == None)
      && (found.None? ==> s == None)
  {
  }

  /**
   * On first sight the session user carries exactly the name and image written to the new
   * profile, so a later resolution against that profile returns the same user.
   */
  lemma ResolutionIsStable(profiles: map<string, UserProfile>, u: ProviderUser)
    ensures ProvisionProfile(ProvisionProfile(profiles, u), u) == ProvisionProfile(profiles, u)
    ensures BuildSessionUser(u, Lookup(ProvisionProfile(profiles, u), u.id))
         == BuildSessionUser(u, Lookup(profiles, u.id))
  {
  }

  /** An empty-string profile name is treated exactly like a missing one. */
  lemma EmptyProfileNameIsAbsent(u: ProviderUser, p: UserProfile)
    requires p.name == Some("")
    ensures BuildSessionUser(u, Some(p)).name == BuildSessionUser(u, Some(p.(name := None))).name
  {
  }

  /** The user profile table, updated in place by session resolution. */
  class ProfileTable {
    var profiles: map<string, UserProfile>

    ghost predicate Valid()
      reads this
    {
      KeyedById(profiles)
    }

    constructor (initial: map<string, UserProfile>)
      requires KeyedById(initial)
      ensures Valid() && profiles == initial
    {
      profiles := initial;
    }

    /**
     * `getServerAuthSession`: null without a session; otherwise look the profile up, create
     * it if absent, and return the session user built from the looked-up profile.
     */
    method GetServerAuthSession(session: Option<ProviderSession>) returns (r: Option<AuthSession>)
      requires Valid()
      modifies this
      ensures Valid()
      ensures session.None? ==> r.None? && profiles == old(profiles)
      ensures session.Some? ==> session.value.user.id in profiles && profiles[session.value.user.id].id == session.value.user.id
      ensures session.Some? ==> r.Some?
      ensures session.Some? ==> r.value.user.id == session.value.user.id
      ensures session.Some? ==> r.value.user.email == session.value.user.email
      ensures session.Some? ==>
        r.value.user == BuildSessionUser(session.value.user, Lookup(old(profiles), session.value.user.id))
      ensures session.Some? ==> profiles == ProvisionProfile(old(profiles), session.value.user)
    {
      if session.None? {
        return None;
      }
      var user := session.value.user;
      var found := Lookup(profiles, user.id);
      if found.None? {
        profiles := profiles[user.id := NewProfile(user)];
      }
      r := Some(AuthSession(BuildSessionUser(user, found)));
    }
  }
}
