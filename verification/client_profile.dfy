/** The profile service of the client application
    (client-project/src/profile/services/profile.service.ts). It shares the store with
    the main application and differs from its profile service in four ways: `getProfile`
    has no role-dependent shape, the profile by username comes back with its image
    paths as stored, `updateProfile` keeps duplicate list entries, and the settings are
    plain upserts of the whole DTO, admin flags included. Its `updateSocialLinks` is
    the main service's `Profiles.UpdateSocialLinks`. */
module ClientProfile {
  import opened Common
  import opened Store
  import Profiles

  /** What the client's `getProfile` answers: the account without its password, the
      profile, every settings row of the user (of the privacy row only the selected
      columns) and the statistics. */
  datatype ProfileView = ProfileView(user: Profiles.UserInfo, profile: Option<Profile>,
                                     accountSettings: Option<Row>,
                                     notificationSettings: Option<Row>,
                                     privacySettings: Option<Row>,
                                     statistics: Option<Stats>)

  /** `getProfile`: NotFound for a missing user; otherwise everything about the user
      but the password, which the answer's type has no room for. */
  function GetProfile(db: Db, userId: UserId): (r: Result<ProfileView>)
    reads db
    ensures r.Err? <==> UserIndex(db.users, userId).None?
    ensures r.Err? ==> r.error == NotFound
    ensures r.Ok? ==> r.value.user == Profiles.InfoOf(db.users[UserIndex(db.users, userId).value])
                      && r.value.user.id == userId
    ensures r.Ok? ==> (r.value.profile.Some? <==> ProfileOf(db.profiles, userId).Some?)
    ensures r.Ok? && r.value.profile.Some? ==> r.value.profile.value.userId == userId
    ensures r.Ok? && r.value.privacySettings.Some? ==> r.value.privacySettings.value.Keys <= Profiles.PrivacyShownFields
  {
    match UserIndex(db.users, userId)
    case None => Err(NotFound)
    case Some(i) =>
      var profile := match ProfileOf(db.profiles, userId)
                     case None => None
                     case Some(j) => Some(db.profiles[j]);
      Ok(ProfileView(Profiles.InfoOf(db.users[i]), profile,
                     Profiles.Lookup(db.accountSettings, userId),
                     Profiles.Lookup(db.notificationSettings, userId),
                     Profiles.ShownOpt(Profiles.Lookup(db.privacySettings, userId), Profiles.PrivacyShownFields),
                     if userId in db.stats then Some(db.stats[userId]) else None))
  }

  /** `getProfileByUsername`: the gated profile, images unformatted. */
  function GetProfileByUsername(db: Db, username: string, viewer: Option<UserId>): (r: Result<Profile>)
    reads db
    ensures r.Ok? ==> r.value in db.profiles && r.value.username == username
    ensures r.Err? ==> r.error == NotFound
  {
    Profiles.ProfileGate(db.profiles, db.accountSettings, db.following, username, viewer)
  }

  /** Both services let through exactly the same requests; they differ only in the
      image paths of what they return. */
  lemma SameGateAsMainService(db: Db, username: string, viewer: Option<UserId>, baseUrl: string)
    ensures GetProfileByUsername(db, username, viewer).Ok?
            <==> Profiles.GetProfileByUsername(db, username, viewer, baseUrl).Ok?
    ensures GetProfileByUsername(db, username, viewer).Ok? ==>
      Profiles.GetProfileByUsername(db, username, viewer, baseUrl).value
        == Profiles.FormatProfile(GetProfileByUsername(db, username, viewer).value, baseUrl)
  {
  }

  /** `updateProfile`: Conflict when a non-empty username is held by another user's
      profile, and then nothing is written; otherwise the given columns are written
      as they come, duplicates in the lists included and the two image fields of the
      DTO even when empty, and a missing profile is the store's error. */
  method UpdateProfile(db: Db, userId: UserId, f: Profiles.ProfileFields,
                       profileImage: Option<string>, coverImage: Option<string>) returns (r: Result<Profile>)
    modifies db`profiles
    ensures Profiles.UsernameTaken(old(db.profiles), f.username, userId) ==> r == Err(Conflict) && unchanged(db)
    ensures !Profiles.UsernameTaken(old(db.profiles), f.username, userId) ==>
      match ProfileOf(old(db.profiles), userId)
      case None => r == Err(StoreError) && unchanged(db)
      case Some(i) =>
        && db.profiles == old(db.profiles)[i := Profiles.UpdatedProfile(old(db.profiles)[i], f, false, profileImage, coverImage)]
        && r == Ok(db.profiles[i])
        && (profileImage.Some? ==> db.profiles[i].profileImage == profileImage)
        && (coverImage.Some? ==> db.profiles[i].coverImage == coverImage)
  {
    if Profiles.UsernameTaken(db.profiles, f.username, userId) {
      return Err(Conflict);
    }
    r := Profiles.WriteProfile(db, userId, f, false, profileImage, coverImage);
  }

  /** The lists are written as given: unlike the main service, duplicates stay. */
  lemma KeepsDuplicates(p: Profile, f: Profiles.ProfileFields)
    requires f.countriesExplored.Some?
    ensures Profiles.UpdatedProfile(p, f, false, None, None).countriesExplored == f.countriesExplored.value
  {
  }

  /** `updateAccountSettings`: the whole DTO upserted, admin flags included and
      whatever the role, and the row returned. */
  method UpdateAccountSettings(db: Db, userId: UserId, dto: Row) returns (r: Row)
    modifies db`accountSettings
    ensures db.accountSettings == Profiles.Upsert(old(db.accountSettings), userId, dto)
    ensures r == db.accountSettings[userId]
  {
    db.accountSettings := Profiles.Upsert(db.accountSettings, userId, dto);
    r := db.accountSettings[userId];
  }

  /** `updateNotificationSettings`: the whole DTO upserted, admin flags included and
      whatever the role, and the row returned. */
  method UpdateNotificationSettings(db: Db, userId: UserId, dto: Row) returns (r: Row)
    modifies db`notificationSettings
    ensures db.notificationSettings == Profiles.Upsert(old(db.notificationSettings), userId, dto)
    ensures r == db.notificationSettings[userId]
  {
    db.notificationSettings := Profiles.Upsert(db.notificationSettings, userId, dto);
    r := db.notificationSettings[userId];
  }

  /** `updatePrivacySecuritySettings`: the whole DTO upserted and the row returned. */
  method UpdatePrivacySecuritySettings(db: Db, userId: UserId, dto: Row) returns (r: Row)
    modifies db`privacySettings
    ensures db.privacySettings == Profiles.Upsert(old(db.privacySettings), userId, dto)
    ensures r == db.privacySettings[userId]
  {
    db.privacySettings := Profiles.Upsert(db.privacySettings, userId, dto);
    r := db.privacySettings[userId];
  }

  /** Unlike the main service, the client lets any user set the admin notification
      flags: a flag in the DTO is what the row holds afterwards. */
  lemma AdminFlagsOpenToAll(m: map<UserId, Row>, userId: UserId, dto: Row)
    requires "adminSecurityAlerts" in dto
    ensures Profiles.Upsert(m, userId, dto)[userId]["adminSecurityAlerts"] == dto["adminSecurityAlerts"]
  {
  }
}
