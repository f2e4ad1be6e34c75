/** The profile service of the main application (src/profile/services/profile.service.ts):
    image URL formatting, de-duplication of the profile's lists, the private-profile
    gate, the role-dependent shape of `getProfile`, the profile and settings updates,
    and the travel statistics recomputed after a profile update. */
module Profiles {
  import opened Common
  import opened Store
  import opened Text
  import Itineraries

  // ---------------------------------------------------------------------------
  // Image URLs.
  // ---------------------------------------------------------------------------

  const DefaultBaseUrl: string := "http://localhost:3000"

  /** `process.env.BASE_URL || 'http://localhost:3000'`: an unset or empty variable
      falls back to the default. */
  function BaseUrl(env: Option<string>): (r: string)
    ensures env.Some? && env.value != "" ==> r == env.value
    ensures env.None? || env.value == "" ==> StartsWith(r, "http")
  {
    assert DefaultBaseUrl[..4] == "http";
    if env.Some? && env.value != "" then env.value else DefaultBaseUrl
  }

  /** `formatImageUrl`: no URL for a missing or empty one, an absolute URL as it is,
      and any other path prefixed with the base URL. */
  function FormatImageUrl(url: Option<string>, baseUrl: string): (r: Option<string>)
    ensures url.None? || url.value == "" <==> r.None?
    ensures r.Some? && StartsWith(url.value, "http") ==> r == url
    ensures r.Some? && !StartsWith(url.value, "http") ==> r.value == baseUrl + url.value
  {
    if url.None? || url.value == "" then None
    else if StartsWith(url.value, "http") then url
    else Some(baseUrl + url.value)
  }

  /** With a base URL that is itself absolute, as the default is, formatting a
      formatted URL changes nothing. */
  lemma FormatImageUrlIdempotent(url: Option<string>, baseUrl: string)
    requires StartsWith(baseUrl, "http")
    ensures FormatImageUrl(FormatImageUrl(url, baseUrl), baseUrl) == FormatImageUrl(url, baseUrl)
  {
    if url.Some? && url.value != "" && !StartsWith(url.value, "http") {
      StartsWithAppend(baseUrl, url.value, "http");
    }
  }

  /** `formatProfile`: both images formatted, every other column kept. */
  function FormatProfile(p: Profile, baseUrl: string): (r: Profile)
    ensures r.(profileImage := p.profileImage, coverImage := p.coverImage) == p
    ensures r.profileImage == FormatImageUrl(p.profileImage, baseUrl)
    ensures r.coverImage == FormatImageUrl(p.coverImage, baseUrl)
  {
    p.(profileImage := FormatImageUrl(p.profileImage, baseUrl),
       coverImage := FormatImageUrl(p.coverImage, baseUrl))
  }

  // ---------------------------------------------------------------------------
  // `[...new Set(list)]`.
  // ---------------------------------------------------------------------------

  predicate NoDup<T(==)>(s: seq<T>)
  {
    forall i, j :: 0 <= i < j < |s| ==> s[i] != s[j]
  }

  /** `[...new Set(xs)]`: each element once, at its first occurrence. */
  function Dedup<T(==,!new)>(xs: seq<T>): (r: seq<T>)
    ensures forall x :: x in r <==> x in xs
    ensures NoDup(r)
    ensures |r| <= |xs|
  {
    if xs == [] then []
    else
      var rest := Dedup(xs[..|xs| - 1]);
      var x := xs[|xs| - 1];
      assert forall y :: y in xs <==> y in xs[..|xs| - 1] || y == x by {
        assert xs == xs[..|xs| - 1] + [x];
      }
      if x in rest then rest else rest + [x]
  }

  /** The position of the first occurrence of `x`. */
  function FirstIndex<T(==)>(xs: seq<T>, x: T): (r: nat)
    requires x in xs
    ensures r < |xs| && xs[r] == x && x !in xs[..r]
  {
    var init := xs[..|xs| - 1];
    assert xs == init + [xs[|xs| - 1]];
    if x in init then
      var k := FirstIndex(init, x);
      assert xs[..k] == init[..k];
      k
    else |xs| - 1
  }

  /** The elements come out in the order of their first occurrence. */
  lemma {:induction false} DedupFirstOccurrence<T(!new)>(xs: seq<T>)
    ensures forall i, j :: 0 <= i < j < |Dedup(xs)| ==>
      FirstIndex(xs, Dedup(xs)[i]) < FirstIndex(xs, Dedup(xs)[j])
  {
    if xs != [] {
      var init := xs[..|xs| - 1];
      var rest := Dedup(init);
      var x := xs[|xs| - 1];
      DedupFirstOccurrence(init);
      assert forall y :: y in rest ==> FirstIndex(xs, y) == FirstIndex(init, y);
      if x !in rest {
        var r := rest + [x];
        assert r == Dedup(xs);
        forall i, j | 0 <= i < j < |r| ensures FirstIndex(xs, r[i]) < FirstIndex(xs, r[j]) {
          if j == |r| - 1 {
            assert r[i] in rest;
          } else {
            assert r[i] == rest[i] && r[j] == rest[j];
          }
        }
      }
    }
  }

  /** A list without duplicates is its own de-duplication, so de-duplicating twice is
      de-duplicating once. */
  lemma {:induction false} DedupOfDistinct<T(!new)>(xs: seq<T>)
    requires NoDup(xs)
    ensures Dedup(xs) == xs
  {
    if xs != [] {
      var init := xs[..|xs| - 1];
      DedupOfDistinct(init);
      assert xs[|xs| - 1] !in init;
      assert init + [xs[|xs| - 1]] == xs;
    }
  }

  lemma DedupIdempotent<T(!new)>(xs: seq<T>)
    ensures Dedup(Dedup(xs)) == Dedup(xs)
  {
    DedupOfDistinct(Dedup(xs));
  }

  // ---------------------------------------------------------------------------
  // The private-profile gate of `getProfileByUsername`.
  // ---------------------------------------------------------------------------

  /** `accountSettings?.accountPrivate` is true. */
  predicate IsPrivate(accountSettings: map<UserId, Row>, owner: UserId)
  {
    owner in accountSettings && FlagSet(accountSettings[owner], "accountPrivate")
  }

  /** `requestingUserId || ''`. */
  function Requester(viewer: Option<UserId>): UserId
  {
    if viewer.Some? then viewer.value else ""
  }

  /** The profile with this username, or NotFound when there is none, or when it is
      private and the requester is neither its owner nor one of its followers. The
      refusal is NotFound, never Forbidden. */
  function ProfileGate(profiles: seq<Profile>, accountSettings: map<UserId, Row>,
                       following: seq<Link<UserId>>, username: string, viewer: Option<UserId>): (r: Result<Profile>)
    ensures r.Ok? ==> r.value in profiles && r.value.username == username
    ensures r.Err? ==> r.error == NotFound
  {
    match ProfileByUsername(profiles, username)
    case None => Err(NotFound)
    case Some(i) =>
      var owner := profiles[i].userId;
      if IsPrivate(accountSettings, owner) && viewer != Some(owner)
         && !HasPair(following, owner, Requester(viewer))
      then Err(NotFound)
      else Ok(profiles[i])
  }

  /** Who gets through the gate: for an existing profile, the owner always; for a
      private one, otherwise exactly those with a `following` row to the owner; for a
      public one, everybody. */
  lemma ProfileGateCases(profiles: seq<Profile>, accountSettings: map<UserId, Row>,
                         following: seq<Link<UserId>>, username: string, viewer: Option<UserId>)
    ensures ProfileByUsername(profiles, username).None? ==>
      ProfileGate(profiles, accountSettings, following, username, viewer) == Err(NotFound)
    ensures ProfileByUsername(profiles, username).Some? ==>
      var p := profiles[ProfileByUsername(profiles, username).value];
      && (viewer == Some(p.userId) ==> ProfileGate(profiles, accountSettings, following, username, viewer) == Ok(p))
      && (!IsPrivate(accountSettings, p.userId) ==> ProfileGate(profiles, accountSettings, following, username, viewer) == Ok(p))
      && (IsPrivate(accountSettings, p.userId) && viewer != Some(p.userId) ==>
            (ProfileGate(profiles, accountSettings, following, username, viewer).Ok?
             <==> PairRows(following, p.userId, Requester(viewer)) > 0))
  {
  }

  /** `getProfileByUsername`: the gated profile with its images formatted. */
  function GetProfileByUsername(db: Db, username: string, viewer: Option<UserId>, baseUrl: string): (r: Result<Profile>)
    reads db
    ensures r.Ok? <==> ProfileGate(db.profiles, db.accountSettings, db.following, username, viewer).Ok?
    ensures r.Ok? ==> r.value == FormatProfile(ProfileGate(db.profiles, db.accountSettings, db.following, username, viewer).value, baseUrl)
    ensures r.Err? ==> r.error == NotFound
  {
    match ProfileGate(db.profiles, db.accountSettings, db.following, username, viewer)
    case Err(e) => Err(e)
    case Ok(p) => Ok(FormatProfile(p, baseUrl))
  }

  // ---------------------------------------------------------------------------
  // `getProfile`: the shape depends on the role.
  // ---------------------------------------------------------------------------

  /** The account columns `getProfile` selects: everything but the password. */
  datatype UserInfo = UserInfo(id: UserId, fullName: string, email: string, role: Role,
                               banned: bool, active: bool, createdAt: nat)

  function InfoOf(u: User): (r: UserInfo)
    ensures r.id == u.id && r.email == u.email && r.role == u.role
  {
    UserInfo(u.id, u.fullName, u.email, u.role, u.banned, u.active, u.createdAt)
  }

  /** The most recently updated active device, as `activeSession`. */
  datatype Session = Session(id: RowId, deviceName: string, platform: string, lastActive: nat, loginDate: nat)

  predicate ActiveOf(d: Device, userId: UserId)
  {
    d.userId == userId && d.isActive
  }

  /** The user's active device updated last (the first of `deviceTokens` ordered by
      `updatedAt` descending), or none. */
  function LatestActiveDevice(devices: seq<Device>, userId: UserId): (r: Option<Device>)
    ensures r.Some? ==> r.value in devices && ActiveOf(r.value, userId)
    ensures r.Some? ==> forall d :: d in devices && ActiveOf(d, userId) ==> d.updatedAt <= r.value.updatedAt
    ensures r.None? <==> forall d :: d in devices ==> !ActiveOf(d, userId)
  {
    if devices == [] then None
    else
      var init := devices[..|devices| - 1];
      var last := devices[|devices| - 1];
      var rest := LatestActiveDevice(init, userId);
      assert devices == init + [last];
      if ActiveOf(last, userId) && (rest.None? || last.updatedAt > rest.value.updatedAt) then Some(last)
      else rest
  }

  function SessionOf(d: Device): Session
  {
    Session(d.id, d.deviceName, d.platform, d.updatedAt, d.createdAt)
  }

  /** The columns of a row that are among `keys`. */
  function Shown(row: Row, keys: set<string>): (r: Row)
    ensures r.Keys == row.Keys * keys
    ensures forall k :: k in r ==> r[k] == row[k]
  {
    map k | k in row.Keys && k in keys :: row[k]
  }

  function ShownOpt(row: Option<Row>, keys: set<string>): Option<Row>
  {
    if row.Some? then Some(Shown(row.value, keys)) else None
  }

  function Lookup<K>(m: map<K, Row>, k: K): Option<Row>
  {
    if k in m then Some(m[k]) else None
  }

  const AdminNotificationFields: set<string> := {"adminAdminNotification", "adminSecurityAlerts"}
  const MemberNotificationFields: set<string> := {"pushNotification", "emailNotification"}
  const PrivacyShownFields: set<string> :=
    {"twoFactorEnabled", "enableFaceId", "rememberMe", "rememberMeBrowser", "trustedContactEmail"}

  /** The admin settings row `getProfile` creates for an admin without one. */
  const DefaultAdminSettings: Row := map["adminAutoApprovePosts" := Flag(false), "adminNewRegistrations" := Flag(true)]

  /** What `getProfile` answers. An admin gets only the admin notification flags and the
      admin settings; anyone else gets the push and e-mail flags, the account and
      privacy settings and the statistics, and no admin settings. */
  datatype ProfileResponse = ProfileResponse(user: UserInfo, profile: Option<Profile>,
                                             activeSession: Option<Session>,
                                             notificationSettings: Option<Row>,
                                             adminSettings: Option<Row>,
                                             accountSettings: Option<Row>,
                                             privacySettings: Option<Row>,
                                             statistics: Option<Stats>)

  /** `getProfile`: NotFound for a missing user; the answer is shaped by the role, and
      an admin without admin settings gets a row created with the defaults. */
  method GetProfile(db: Db, userId: UserId, baseUrl: string) returns (r: Result<ProfileResponse>)
    modifies db`adminSettings
    ensures UserIndex(db.users, userId).None? ==> r == Err(NotFound) && unchanged(db)
    ensures UserIndex(db.users, userId).Some? ==>
      var u := db.users[UserIndex(db.users, userId).value];
      var notes := Lookup(db.notificationSettings, userId);
      && r.Ok? && r.value.user == InfoOf(u)
      && r.value.profile == (match ProfileOf(db.profiles, userId)
                             case None => None
                             case Some(i) => Some(FormatProfile(db.profiles[i], baseUrl)))
      && (r.value.activeSession.Some? <==> LatestActiveDevice(db.devices, userId).Some?)
      && (r.value.activeSession.Some? ==> r.value.activeSession.value == SessionOf(LatestActiveDevice(db.devices, userId).value))
      && (u.role == Admin ==>
            && r.value.notificationSettings == ShownOpt(notes, AdminNotificationFields)
            && db.adminSettings == (if userId in old(db.adminSettings) then old(db.adminSettings)
                                    else old(db.adminSettings)[userId := DefaultAdminSettings])
            && r.value.adminSettings == Some(db.adminSettings[userId])
            && r.value.accountSettings.None? && r.value.privacySettings.None? && r.value.statistics.None?)
      && (u.role != Admin ==>
            && r.value.notificationSettings == ShownOpt(notes, MemberNotificationFields)
            && db.adminSettings == old(db.adminSettings)
            && r.value.adminSettings.None?
            && r.value.accountSettings == Lookup(db.accountSettings, userId)
            && r.value.privacySettings == ShownOpt(Lookup(db.privacySettings, userId), PrivacyShownFields)
            && r.value.statistics == (if userId in db.stats then Some(db.stats[userId]) else None))
  {
    var ui := UserIndex(db.users, userId);
    if ui.None? {
      return Err(NotFound);
    }
    var u := db.users[ui.value];
    var profile: Option<Profile> := None;
    var pi := ProfileOf(db.profiles, userId);
    if pi.Some? {
      profile := Some(FormatProfile(db.profiles[pi.value], baseUrl));
    }
    var device := LatestActiveDevice(db.devices, userId);
    var session: Option<Session> := if device.Some? then Some(SessionOf(device.value)) else None;
    var notes := Lookup(db.notificationSettings, userId);
    if u.role == Admin {
      if userId !in db.adminSettings {
        db.adminSettings := db.adminSettings[userId := DefaultAdminSettings];
      }
      r := Ok(ProfileResponse(InfoOf(u), profile, session, ShownOpt(notes, AdminNotificationFields),
                              Some(db.adminSettings[userId]), None, None, None));
    } else {
      var stats: Option<Stats> := if userId in db.stats then Some(db.stats[userId]) else None;
      r := Ok(ProfileResponse(InfoOf(u), profile, session, ShownOpt(notes, MemberNotificationFields),
                              None, Lookup(db.accountSettings, userId),
                              ShownOpt(Lookup(db.privacySettings, userId), PrivacyShownFields), stats));
    }
  }

  // ---------------------------------------------------------------------------
  // Settings.
  // ---------------------------------------------------------------------------

  /** `upsert({ update: dto, create: dto })` of a row keyed by `k`: an existing row
      takes the DTO's columns over its own, a missing one is created from the DTO. */
  function Upsert<K>(m: map<K, Row>, k: K, dto: Row): (r: map<K, Row>)
    ensures r.Keys == m.Keys + {k}
    ensures forall f :: f in dto ==> f in r[k] && r[k][f] == dto[f]
    ensures k in m ==> forall f :: f in m[k] && f !in dto ==> f in r[k] && r[k][f] == m[k][f]
    ensures k in m ==> r[k].Keys == m[k].Keys + dto.Keys
    ensures k !in m ==> r[k] == dto
    ensures forall j :: j in m && j != k ==> r[j] == m[j]
  {
    m[k := if k in m then m[k] + dto else dto]
  }

  /** Applying the same DTO twice gives the same row as applying it once. */
  lemma UpsertIdempotent<K>(m: map<K, Row>, k: K, dto: Row)
    ensures Upsert(Upsert(m, k, dto), k, dto) == Upsert(m, k, dto)
  {
    var once := Upsert(m, k, dto);
    assert once[k] + dto == once[k];
  }

  /** The columns of a row that are not among `keys`. */
  function Without(row: Row, keys: set<string>): (r: Row)
    ensures r.Keys == row.Keys - keys
    ensures forall k :: k in r ==> r[k] == row[k]
  {
    map k | k in row.Keys && k !in keys :: row[k]
  }

  const AdminAccountFields: set<string> := {"adminAutoApprovePosts", "adminNewRegistrations"}

  /** A flag of a DTO, or its default when the DTO leaves it out (`??`). */
  function FlagOr(dto: Row, field: string, default: bool): Value
  {
    if field in dto then dto[field] else Flag(default)
  }

  /** The admin settings upsert of `updateAccountSettings`: the given admin flags over
      an existing row, or a new row with the defaults false and true for the flags not
      given. */
  function AdminUpsert(m: map<UserId, Row>, userId: UserId, dto: Row): (r: map<UserId, Row>)
    ensures r.Keys == m.Keys + {userId}
    ensures forall j :: j in m && j != userId ==> r[j] == m[j]
    ensures userId in m ==> r[userId] == m[userId] + Shown(dto, AdminAccountFields)
    ensures userId !in m ==> r[userId] == map["adminAutoApprovePosts" := FlagOr(dto, "adminAutoApprovePosts", false),
                                              "adminNewRegistrations" := FlagOr(dto, "adminNewRegistrations", true)]
  {
    if userId in m then m[userId := m[userId] + Shown(dto, AdminAccountFields)]
    else m[userId := map["adminAutoApprovePosts" := FlagOr(dto, "adminAutoApprovePosts", false),
                         "adminNewRegistrations" := FlagOr(dto, "adminNewRegistrations", true)]]
  }

  function RoleOf(users: seq<User>, userId: UserId): Option<Role>
  {
    match UserIndex(users, userId)
    case None => None
    case Some(i) => Some(users[i].role)
  }

  /** `updateAccountSettings`: NotFound for a missing user. The account settings row is
      upserted with the DTO minus the admin flags; the admin flags go to the admin
      settings, and only for an admin who gave at least one of them. */
  method UpdateAccountSettings(db: Db, userId: UserId, dto: Row) returns (r: Result<string>)
    modifies db`accountSettings, db`adminSettings
    ensures RoleOf(db.users, userId).None? ==> r == Err(NotFound) && unchanged(db)
    ensures RoleOf(db.users, userId).Some? ==>
      && r == Ok("Settings updated successfully")
      && db.accountSettings == Upsert(old(db.accountSettings), userId, Without(dto, AdminAccountFields))
      && db.adminSettings == (if RoleOf(db.users, userId) == Some(Admin) && dto.Keys * AdminAccountFields != {}
                              then AdminUpsert(old(db.adminSettings), userId, dto)
                              else old(db.adminSettings))
    ensures RoleOf(db.users, userId) != Some(Admin) ==> db.adminSettings == old(db.adminSettings)
  {
    var role := RoleOf(db.users, userId);
    if role.None? {
      return Err(NotFound);
    }
    db.accountSettings := Upsert(db.accountSettings, userId, Without(dto, AdminAccountFields));
    if role.value == Admin && ("adminAutoApprovePosts" in dto || "adminNewRegistrations" in dto) {
      db.adminSettings := AdminUpsert(db.adminSettings, userId, dto);
    }
    return Ok("Settings updated successfully");
  }

  /** The notification columns a user of this role may set. */
  function NotificationFieldsFor(role: Role): (r: set<string>)
    ensures MemberNotificationFields <= r
    ensures role != Admin ==> r * AdminNotificationFields == {}
  {
    if role == Admin then MemberNotificationFields + AdminNotificationFields else MemberNotificationFields
  }

  /** The row `updateNotificationSettings` creates: every flag defaults to true, and
      only an admin's DTO can set the admin flags. */
  function NewNotificationRow(dto: Row, role: Role): (r: Row)
    ensures "adminAdminNotification" in r && "adminSecurityAlerts" in r
    ensures role != Admin ==> r["adminAdminNotification"] == Flag(true) && r["adminSecurityAlerts"] == Flag(true)
  {
    map["pushNotification" := FlagOr(dto, "pushNotification", true),
        "emailNotification" := FlagOr(dto, "emailNotification", true),
        "adminAdminNotification" := if role == Admin then FlagOr(dto, "adminAdminNotification", true) else Flag(true),
        "adminSecurityAlerts" := if role == Admin then FlagOr(dto, "adminSecurityAlerts", true) else Flag(true)]
  }

  /** `updateNotificationSettings`: NotFound for a missing user; otherwise the push and
      e-mail flags given, and for an admin also the admin flags given, are written
      over an existing row, or a new row is created. A non-admin never changes an
      admin flag: it keeps its old value, or starts at true. */
  method UpdateNotificationSettings(db: Db, userId: UserId, dto: Row) returns (r: Result<string>)
    modifies db`notificationSettings
    ensures RoleOf(db.users, userId).None? ==> r == Err(NotFound) && unchanged(db)
    ensures RoleOf(db.users, userId).Some? ==>
      var role := RoleOf(db.users, userId).value;
      && r == Ok("Notification settings updated successfully")
      && db.notificationSettings == old(db.notificationSettings)[userId :=
           if userId in old(db.notificationSettings)
           then old(db.notificationSettings)[userId] + Shown(dto, NotificationFieldsFor(role))
           else NewNotificationRow(dto, role)]
    ensures RoleOf(db.users, userId).Some? && RoleOf(db.users, userId) != Some(Admin) ==>
      forall f :: f in AdminNotificationFields ==>
        if userId in old(db.notificationSettings)
        then Lookup(db.notificationSettings, userId).value.Keys * {f} == old(db.notificationSettings)[userId].Keys * {f}
             && (f in old(db.notificationSettings)[userId] ==> db.notificationSettings[userId][f] == old(db.notificationSettings)[userId][f])
        else db.notificationSettings[userId][f] == Flag(true)
  {
    var role := RoleOf(db.users, userId);
    if role.None? {
      return Err(NotFound);
    }
    var row := if userId in db.notificationSettings
               then db.notificationSettings[userId] + Shown(dto, NotificationFieldsFor(role.value))
               else NewNotificationRow(dto, role.value);
    db.notificationSettings := db.notificationSettings[userId := row];
    return Ok("Notification settings updated successfully");
  }

  /** `updatePrivacySecuritySettings`: a plain upsert of the DTO. */
  method UpdatePrivacySecuritySettings(db: Db, userId: UserId, dto: Row) returns (r: Result<string>)
    modifies db`privacySettings
    ensures r == Ok("Privacy and security settings updated successfully")
    ensures db.privacySettings == Upsert(old(db.privacySettings), userId, dto)
  {
    db.privacySettings := Upsert(db.privacySettings, userId, dto);
    return Ok("Privacy and security settings updated successfully");
  }

  /** `updateSocialLinks`: NotFound without a profile; otherwise the links row of the
      profile is upserted. */
  method UpdateSocialLinks(db: Db, userId: UserId, links: Row) returns (r: Result<Row>)
    modifies db`socialLinks
    ensures ProfileOf(db.profiles, userId).None? ==> r == Err(NotFound) && unchanged(db)
    ensures ProfileOf(db.profiles, userId).Some? ==>
      var pid := db.profiles[ProfileOf(db.profiles, userId).value].id;
      && db.socialLinks == Upsert(old(db.socialLinks), pid, links)
      && r == Ok(db.socialLinks[pid])
  {
    var pi := ProfileOf(db.profiles, userId);
    if pi.None? {
      return Err(NotFound);
    }
    var pid := db.profiles[pi.value].id;
    db.socialLinks := Upsert(db.socialLinks, pid, links);
    return Ok(db.socialLinks[pid]);
  }

  // ---------------------------------------------------------------------------
  // Profile updates.
  // ---------------------------------------------------------------------------

  /** The profile columns an update DTO carries: the username, the free-text columns
      given (bio, location, website, birthday, gender), and the two lists. */
  datatype ProfileFields = ProfileFields(username: Option<string>, text: map<string, string>,
                                         countriesExplored: Option<seq<string>>,
                                         achievements: Option<seq<string>>)

  /** A string DTO field that JavaScript treats as true: present and non-empty. */
  predicate Given(s: Option<string>)
  {
    s.Some? && s.value != ""
  }

  /** The username is wanted and another user's profile holds it (`findUnique` on the
      username, then a different owner). */
  predicate UsernameTaken(profiles: seq<Profile>, username: Option<string>, userId: UserId)
  {
    Given(username) && ProfileByUsername(profiles, username.value).Some?
    && profiles[ProfileByUsername(profiles, username.value).value].userId != userId
  }

  /** The e-mail is wanted and another user's account holds it (`findUnique` on the
      e-mail, then a different id). */
  predicate EmailTaken(users: seq<User>, email: Option<string>, userId: UserId)
  {
    Given(email) && IndexOf(users, (u: User) => u.email == email.value).Some?
    && users[IndexOf(users, (u: User) => u.email == email.value).value].id != userId
  }

  /** `...(x && { x })`: a string written only when it is present and non-empty. */
  function Truthy(s: Option<string>): (r: Option<string>)
    ensures r.Some? <==> Given(s)
    ensures r.Some? ==> r == s
  {
    if Given(s) then s else None
  }

  /** The text columns written: a birthday only when non-empty. */
  function TextColumns(text: map<string, string>): (r: map<string, string>)
    ensures forall k :: k in r ==> k in text && r[k] == text[k]
    ensures forall k :: k in text && k != "birthday" ==> k in r
    ensures "birthday" in r <==> "birthday" in text && text["birthday"] != ""
  {
    map k | k in text.Keys && (k != "birthday" || text[k] != "") :: text[k]
  }

  /** The profile after an update: the given columns written over the old ones, the
      lists de-duplicated in first-occurrence order when `dedup` holds and written as
      given otherwise, and each image that is present written. */
  function UpdatedProfile(p: Profile, f: ProfileFields, dedup: bool,
                          profileImage: Option<string>, coverImage: Option<string>): (r: Profile)
    ensures r.id == p.id && r.userId == p.userId
    ensures f.username.Some? ==> r.username == f.username.value
    ensures f.username.None? ==> r.username == p.username
    ensures r.fields == p.fields + TextColumns(f.text)
    ensures f.countriesExplored.None? ==> r.countriesExplored == p.countriesExplored
    ensures f.countriesExplored.Some? && !dedup ==> r.countriesExplored == f.countriesExplored.value
    ensures f.countriesExplored.Some? && dedup ==>
      && r.countriesExplored == Dedup(f.countriesExplored.value)
      && NoDup(r.countriesExplored) && (forall c :: c in r.countriesExplored <==> c in f.countriesExplored.value)
    ensures f.achievements.None? ==> r.achievements == p.achievements
    ensures f.achievements.Some? && !dedup ==> r.achievements == f.achievements.value
    ensures f.achievements.Some? && dedup ==>
      && r.achievements == Dedup(f.achievements.value)
      && NoDup(r.achievements) && (forall c :: c in r.achievements <==> c in f.achievements.value)
    ensures profileImage.Some? ==> r.profileImage == profileImage
    ensures profileImage.None? ==> r.profileImage == p.profileImage
    ensures coverImage.Some? ==> r.coverImage == coverImage
    ensures coverImage.None? ==> r.coverImage == p.coverImage
  {
    var clean := (xs: seq<string>) => if dedup then Dedup(xs) else xs;
    p.(username := if f.username.Some? then f.username.value else p.username,
       fields := p.fields + TextColumns(f.text),
       countriesExplored := if f.countriesExplored.Some? then clean(f.countriesExplored.value) else p.countriesExplored,
       achievements := if f.achievements.Some? then clean(f.achievements.value) else p.achievements,
       profileImage := if profileImage.Some? then profileImage else p.profileImage,
       coverImage := if coverImage.Some? then coverImage else p.coverImage)
  }

  /** `userProfile.update({ where: { userAccountId } })`: the store rejects the update
      of a missing profile. */
  method WriteProfile(db: Db, userId: UserId, f: ProfileFields, dedup: bool,
                      profileImage: Option<string>, coverImage: Option<string>) returns (r: Result<Profile>)
    modifies db`profiles
    ensures ProfileOf(old(db.profiles), userId).None? ==> r == Err(StoreError) && db.profiles == old(db.profiles)
    ensures ProfileOf(old(db.profiles), userId).Some? ==>
      var i := ProfileOf(old(db.profiles), userId).value;
      && db.profiles == old(db.profiles)[i := UpdatedProfile(old(db.profiles)[i], f, dedup, profileImage, coverImage)]
      && r == Ok(db.profiles[i])
  {
    var pi := ProfileOf(db.profiles, userId);
    if pi.None? {
      return Err(StoreError);
    }
    var p := UpdatedProfile(db.profiles[pi.value], f, dedup, profileImage, coverImage);
    db.profiles := db.profiles[pi.value := p];
    return Ok(p);
  }

  /** `updateProfile`: Conflict when a non-empty username is held by another user's
      profile, and then nothing is written; re-submitting one's own username is no
      conflict. Otherwise the profile is updated, its lists de-duplicated, and
      returned with formatted images. The travel statistics are not recomputed. */
  method UpdateProfile(db: Db, userId: UserId, f: ProfileFields, baseUrl: string) returns (r: Result<Profile>)
    modifies db`profiles
    ensures UsernameTaken(old(db.profiles), f.username, userId) ==> r == Err(Conflict) && unchanged(db)
    ensures !UsernameTaken(old(db.profiles), f.username, userId) ==>
      match ProfileOf(old(db.profiles), userId)
      case None => r == Err(StoreError) && unchanged(db)
      case Some(i) =>
        && db.profiles == old(db.profiles)[i := UpdatedProfile(old(db.profiles)[i], f, true, None, None)]
        && r == Ok(FormatProfile(db.profiles[i], baseUrl))
  {
    if UsernameTaken(db.profiles, f.username, userId) {
      return Err(Conflict);
    }
    var w := WriteProfile(db, userId, f, true, None, None);
    if w.Err? {
      return Err(w.error);
    }
    return Ok(FormatProfile(w.value, baseUrl));
  }

  /** Resubmitting one's own username is never a conflict. */
  lemma OwnUsernameNoConflict(profiles: seq<Profile>, userId: UserId, i: nat)
    requires i < |profiles| && profiles[i].userId == userId
    requires forall j :: 0 <= j < |profiles| && profiles[j].username == profiles[i].username ==> j == i
    ensures !UsernameTaken(profiles, Some(profiles[i].username), userId)
  {
  }

  /** The account columns of `updateProfileWithImages` together with the profile
      columns. `hashed` stands for the bcrypt hash of the new password. */
  datatype AccountFields = AccountFields(email: Option<string>, fullName: Option<string>,
                                         currentPassword: Option<string>, password: Option<string>,
                                         instagram: Option<string>, twitter: Option<string>,
                                         facebook: Option<string>)

  /** The checks of `updateProfileWithImages`, in order: username held by another
      user, e-mail held by another user, a new password without the current one, a
      missing user, a wrong current password. `passwordMatches` is what the bcrypt
      comparison answers. */
  function ProfileUpdateCheck(users: seq<User>, profiles: seq<Profile>, userId: UserId,
                              a: AccountFields, f: ProfileFields, passwordMatches: bool): (r: Option<Error>)
    ensures r.Some? ==> r.value in {Conflict, NotFound}
    ensures UsernameTaken(profiles, f.username, userId) ==> r == Some(Conflict)
    ensures EmailTaken(users, a.email, userId) ==> r == Some(Conflict)
    ensures Given(a.password) && !Given(a.currentPassword) ==> r == Some(Conflict)
    ensures Given(a.password) && UserIndex(users, userId).Some? && !passwordMatches ==> r == Some(Conflict)
    ensures r == Some(NotFound) <==>
      && !UsernameTaken(profiles, f.username, userId) && !EmailTaken(users, a.email, userId)
      && Given(a.password) && Given(a.currentPassword) && UserIndex(users, userId).None?
    ensures r.None? <==>
      && !UsernameTaken(profiles, f.username, userId) && !EmailTaken(users, a.email, userId)
      && (Given(a.password) ==> Given(a.currentPassword) && UserIndex(users, userId).Some? && passwordMatches)
  {
    if UsernameTaken(profiles, f.username, userId) then Some(Conflict)
    else if EmailTaken(users, a.email, userId) then Some(Conflict)
    else if Given(a.password) && !Given(a.currentPassword) then Some(Conflict)
    else if Given(a.password) && UserIndex(users, userId).None? then Some(NotFound)
    else if Given(a.password) && !passwordMatches then Some(Conflict)
    else None
  }

  /** The account row after the update: the e-mail and name given non-empty, and the
      new password's hash. */
  function UpdatedUser(u: User, a: AccountFields, hashed: string): (r: User)
    ensures r.id == u.id && r.role == u.role && r.banned == u.banned && r.active == u.active
    ensures r.password == (if Given(a.password) then hashed else u.password)
  {
    u.(email := if Given(a.email) then a.email.value else u.email,
       fullName := if Given(a.fullName) then a.fullName.value else u.fullName,
       password := if Given(a.password) then hashed else u.password)
  }

  /** The social links the update writes: each link given, including an empty one. */
  function LinkColumns(a: AccountFields): (r: Row)
    ensures "instagramUsername" in r <==> a.instagram.Some?
  {
    (if a.instagram.Some? then map["instagramUsername" := Text(a.instagram.value)] else map[])
    + (if a.twitter.Some? then map["twitterUsername" := Text(a.twitter.value)] else map[])
    + (if a.facebook.Some? then map["facebookUsername" := Text(a.facebook.value)] else map[])
  }

  /** `userAccount.update`: the store rejects the update of a missing user. */
  method WriteAccount(db: Db, userId: UserId, a: AccountFields, hashed: string) returns (ok: bool)
    modifies db`users
    ensures ok <==> UserIndex(old(db.users), userId).Some?
    ensures !ok ==> db.users == old(db.users)
    ensures ok ==> var i := UserIndex(old(db.users), userId).value;
      db.users == old(db.users)[i := UpdatedUser(old(db.users)[i], a, hashed)]
  {
    var ui := UserIndex(db.users, userId);
    if ui.None? {
      return false;
    }
    db.users := db.users[ui.value := UpdatedUser(db.users[ui.value], a, hashed)];
    return true;
  }

  // ---------------------------------------------------------------------------
  // The travel statistics of this service.
  // ---------------------------------------------------------------------------

  /** This copy of `extractCountry`: nothing for a missing or empty destination,
      otherwise the same last trimmed segment as the itinerary service, which may be
      empty. */
  function ExtractCountry(destination: Option<string>): (r: Option<string>)
    ensures r.None? <==> destination.None? || destination.value == ""
    ensures r.Some? ==> r.value == Itineraries.ExtractCountry(destination.value)
  {
    if destination.None? || destination.value == "" then None
    else Some(Itineraries.ExtractCountry(destination.value))
  }

  /** `itineraries.map(extractCountry).filter(c => c !== null)`, as a set. */
  function TripCountries(its: seq<Itinerary>): set<string>
  {
    if its == [] then {}
    else
      var c := ExtractCountry(its[|its| - 1].destination);
      TripCountries(its[..|its| - 1]) + (if c.Some? then {c.value} else {})
  }

  /** The two copies differ exactly in the empty country: the itinerary service drops
      it, this one keeps it. */
  lemma {:induction false} TripCountriesDiffer(its: seq<Itinerary>)
    ensures Itineraries.TripCountries(its) == TripCountries(its) - {""}
  {
    if its != [] {
      TripCountriesDiffer(its[..|its| - 1]);
    }
  }

  /** "City," gives the empty country here, which then counts as a visited country. */
  lemma TrailingCommaCountsEmptyCountry(city: string)
    ensures ExtractCountry(Some(city + ",")) == Some("")
  {
    Itineraries.ExtractCountryOfPair(city, "");
    assert city + "," + "" == city + ",";
    assert IsTrimmed("");
    TrimTrimmed("");
  }

  /** `allCountries` of `calculateTravelStatistics`. */
  function AllCountries(its: seq<Itinerary>, profiles: seq<Profile>, userId: UserId): (r: set<string>)
    ensures forall c :: c in Itineraries.ProfileCountries(profiles, userId) ==> c in r
  {
    (set c | c in Itineraries.ProfileCountries(profiles, userId)) + TripCountries(Filter(its, Itineraries.OwnedBy(userId)))
  }

  /** What `calculateTravelStatistics` returns: the number of the user's itineraries,
      of distinct countries, and of distinct continents, at most the countries. */
  function Figures(its: seq<Itinerary>, profiles: seq<Profile>, userId: UserId,
                   mapping: map<string, string>): (r: Itineraries.TravelFigures)
    ensures r.trips == Count(its, Itineraries.OwnedBy(userId))
    ensures r.countries == |AllCountries(its, profiles, userId)|
    ensures r.continents == |Itineraries.Continents(AllCountries(its, profiles, userId), mapping)|
    ensures r.continents <= r.countries
  {
    var all := AllCountries(its, profiles, userId);
    Itineraries.ContinentsBound(all, mapping);
    Itineraries.TravelFigures(Count(its, Itineraries.OwnedBy(userId)), |all|, |Itineraries.Continents(all, mapping)|)
  }

  /** `updateTravelStatistics`: the figures upserted into the statistics row; the
      `forEach` over the countries fills the continent set. */
  method UpdateTravelStatistics(db: Db, userId: UserId, mapping: map<string, string>)
    modifies db`stats
    ensures db.stats == Itineraries.WithFigures(old(db.stats), userId, Figures(db.itineraries, db.profiles, userId, mapping))
    ensures old(db.GraphValid()) ==> db.GraphValid()
  {
    var all := AllCountries(db.itineraries, db.profiles, userId);
    var continents := Itineraries.CollectContinents(all, mapping);
    var f := Itineraries.TravelFigures(Count(db.itineraries, Itineraries.OwnedBy(userId)), |all|, |continents|);
    Itineraries.WithFiguresKeepsGraph(db.following, db.follower, db.stats, userId, f);
    db.stats := Itineraries.WithFigures(db.stats, userId, f);
  }

  /** The account columns are written when an e-mail, a name or a password is given. */
  predicate AccountGiven(a: AccountFields)
  {
    Given(a.email) || Given(a.fullName) || Given(a.password)
  }

  /** The social links are written when one of them is given non-empty. */
  predicate LinksGiven(a: AccountFields)
  {
    Given(a.instagram) || Given(a.twitter) || Given(a.facebook)
  }

  /** The account table once `updateProfileWithImages` has written it. */
  function UsersAfter(users: seq<User>, userId: UserId, a: AccountFields, hashed: string): (r: seq<User>)
    ensures |r| == |users|
    ensures !AccountGiven(a) ==> r == users
  {
    if AccountGiven(a) && UserIndex(users, userId).Some?
    then users[UserIndex(users, userId).value := UpdatedUser(users[UserIndex(users, userId).value], a, hashed)]
    else users
  }

  /** The profile table once `updateProfileWithImages` has written it. */
  function ProfilesAfter(profiles: seq<Profile>, userId: UserId, f: ProfileFields,
                         profileImage: Option<string>, coverImage: Option<string>): (r: seq<Profile>)
    ensures |r| == |profiles|
  {
    match ProfileOf(profiles, userId)
    case None => profiles
    case Some(i) => profiles[i := UpdatedProfile(profiles[i], f, true, Truthy(profileImage), Truthy(coverImage))]
  }

  /** The social links once `updateProfileWithImages` has written them. */
  function LinksAfter(socialLinks: map<RowId, Row>, profileId: RowId, a: AccountFields): (r: map<RowId, Row>)
    ensures !LinksGiven(a) ==> r == socialLinks
  {
    if LinksGiven(a) then Upsert(socialLinks, profileId, LinkColumns(a)) else socialLinks
  }

  /** The writes of `updateProfileWithImages` after its checks, up to the social links. */
  method WriteProfileWithImages(db: Db, userId: UserId, a: AccountFields, f: ProfileFields,
                                profileImage: Option<string>, coverImage: Option<string>, hashed: string)
    returns (r: Result<Profile>)
    modifies db`users, db`profiles, db`socialLinks
    ensures r.Ok? ==>
      && (AccountGiven(a) ==> UserIndex(old(db.users), userId).Some?)
      && ProfileOf(old(db.profiles), userId).Some?
      && db.users == UsersAfter(old(db.users), userId, a, hashed)
      && db.profiles == ProfilesAfter(old(db.profiles), userId, f, profileImage, coverImage)
      && r.value == db.profiles[ProfileOf(old(db.profiles), userId).value]
      && db.socialLinks == LinksAfter(old(db.socialLinks), r.value.id, a)
    ensures (AccountGiven(a) ==> UserIndex(old(db.users), userId).Some?) && ProfileOf(old(db.profiles), userId).Some?
      ==> r.Ok?
    ensures r.Err? ==>
      && r.error == StoreError
      && db.users == UsersAfter(old(db.users), userId, a, hashed)
      && db.profiles == old(db.profiles) && db.socialLinks == old(db.socialLinks)
  {
    if AccountGiven(a) {
      var ok := WriteAccount(db, userId, a, hashed);
      if !ok {
        return Err(StoreError);
      }
    }
    var w := WriteProfile(db, userId, f, true, Truthy(profileImage), Truthy(coverImage));
    if w.Err? {
      return Err(w.error);
    }
    if LinksGiven(a) {
      db.socialLinks := Upsert(db.socialLinks, w.value.id, LinkColumns(a));
    }
    return w;
  }

  /** `updateProfileWithImages`. The checks come first and a failed one changes nothing.
      Then the account columns are written when an e-mail, name or password is given,
      the profile with its de-duplicated lists and the given images, the social links
      when one of them is given, and the travel statistics are recomputed on either
      path. These writes are not one transaction: a missing account or profile fails
      the write where it happens, after the earlier ones. */
  method UpdateProfileWithImages(db: Db, userId: UserId, a: AccountFields, f: ProfileFields,
                                 profileImage: Option<string>, coverImage: Option<string>,
                                 passwordMatches: bool, hashed: string,
                                 mapping: map<string, string>, baseUrl: string)
    returns (r: Result<Profile>)
    modifies db`users, db`profiles, db`socialLinks, db`stats
    ensures ProfileUpdateCheck(old(db.users), old(db.profiles), userId, a, f, passwordMatches).Some? ==>
      r == Err(ProfileUpdateCheck(old(db.users), old(db.profiles), userId, a, f, passwordMatches).value)
      && unchanged(db)
    ensures r.Ok? ==>
      && ProfileUpdateCheck(old(db.users), old(db.profiles), userId, a, f, passwordMatches).None?
      && ProfileOf(old(db.profiles), userId).Some?
      && (AccountGiven(a) ==> UserIndex(old(db.users), userId).Some?)
      && db.users == UsersAfter(old(db.users), userId, a, hashed)
      && db.profiles == ProfilesAfter(old(db.profiles), userId, f, profileImage, coverImage)
      && r.value == FormatProfile(db.profiles[ProfileOf(old(db.profiles), userId).value], baseUrl)
      && db.socialLinks == LinksAfter(old(db.socialLinks), old(db.profiles)[ProfileOf(old(db.profiles), userId).value].id, a)
      && db.stats == Itineraries.WithFigures(old(db.stats), userId, Figures(db.itineraries, db.profiles, userId, mapping))
    ensures ProfileUpdateCheck(old(db.users), old(db.profiles), userId, a, f, passwordMatches).None?
      && ProfileOf(old(db.profiles), userId).Some? && (AccountGiven(a) ==> UserIndex(old(db.users), userId).Some?)
      ==> r.Ok?
    ensures ProfileUpdateCheck(old(db.users), old(db.profiles), userId, a, f, passwordMatches).None? && r.Err? ==>
      && r.error == StoreError
      && db.users == UsersAfter(old(db.users), userId, a, hashed)
      && db.profiles == old(db.profiles) && db.socialLinks == old(db.socialLinks) && db.stats == old(db.stats)
    ensures r.Err? ==> r.error in {Conflict, NotFound, StoreError}
    ensures old(db.GraphValid()) ==> db.GraphValid()
  {
    var check := ProfileUpdateCheck(db.users, db.profiles, userId, a, f, passwordMatches);
    if check.Some? {
      return Err(check.value);
    }
    ghost var graph := GraphInvariant(db.following, db.follower, db.stats);
    var w := WriteProfileWithImages(db, userId, a, f, profileImage, coverImage, hashed);
    if w.Err? {
      return Err(w.error);
    }
    assert db.GraphValid() == graph;
    ghost var users, profiles, links := db.users, db.profiles, db.socialLinks;
    UpdateTravelStatistics(db, userId, mapping);
    assert db.users == users && db.profiles == profiles && db.socialLinks == links;
    return Ok(FormatProfile(w.value, baseUrl));
  }
}
