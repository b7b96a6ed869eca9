/** Accounts (src/controllers/user.controller.js): registration, the account-details edit, the channel
    profile with its subscription counts, and the watch history. */
module UserController {
  import opened Common
  import opened Query
  import opened Entities
  import opened Database
  import opened Toggles
  import opened SubscriptionController
  import opened VideoController

  /** A user as the handlers return it: `select("-password -refreshToken")`. */
  datatype Account = Account(
    id: Id,
    userName: string,
    email: string,
    fullName: string,
    avatar: string,
    coverImage: string,
    watchHistory: seq<Id>)

  function AccountOf(u: User): Account
  {
    Account(u.id, u.userName, u.email, u.fullName, u.avatar, u.coverImage, u.watchHistory)
  }

  // ----- registerUser -----

  /** What `req.files` holds for the avatar: no files object at all (a request that is not multipart),
      a files object without an `avatar` entry (a multipart request sent without that file), or the
      `avatar` array with the path of its first entry (None when there is no such path). */
  datatype AvatarInput = NoFiles | NoAvatarEntry | AvatarEntry(firstPath: Option<string>)

  /** `req.files?.avatar[0]?.path`: the optional chain stops only at a missing files object, so a files
      object without `avatar` throws on the index. */
  function AvatarLocalPath(avatar: AvatarInput): (r: Result<Option<string>>)
    ensures r.Err? <==> avatar.NoAvatarEntry?
    ensures r.Err? ==> r.error.TypeError?
    ensures r.Ok? && Truthy(r.value) <==> avatar.AvatarEntry? && Truthy(avatar.firstPath)
  {
    match avatar
    case NoFiles => Ok(None)
    case NoAvatarEntry => Err(TypeError("Cannot read properties of undefined (reading '0')"))
    case AvatarEntry(path) => Ok(path)
  }

  /** The request body and the outcomes of the two uploads: `avatar` is what the request carried for
      the avatar, `avatarUrl` and `coverUrl` what the asset host returned (None for a null result). */
  datatype Registration = Registration(
    fullName: Option<string>,
    email: Option<string>,
    userName: Option<string>,
    password: Option<string>,
    avatar: AvatarInput,
    avatarUrl: Option<string>,
    coverUrl: Option<string>)

  /** `f?.trim() === ""`: a field that was not sent does not count as blank. */
  predicate BlankField(f: Option<string>)
  {
    f.Some? && IsBlank(f.value)
  }

  /** `[fullName, email, userName, password].some(f => f?.trim() === "")` */
  predicate AnyBlank(reg: Registration)
  {
    BlankField(reg.fullName) || BlankField(reg.email) || BlankField(reg.userName) || BlankField(reg.password)
  }

  /** `findOne({ $or: [{ userName }, { email }] })`, with the userName exactly as sent. */
  function TakenBy(reg: Registration): User -> bool
  {
    (u: User) => (reg.userName.Some? && u.userName == reg.userName.value) || (reg.email.Some? && u.email == reg.email.value)
  }

  /** `coverImage?.url || ""` */
  function CoverImage(coverUrl: Option<string>): string
  {
    if coverUrl.Some? then coverUrl.value else ""
  }

  /** The document `User.create` stores (password hashing is not modelled). */
  function NewUser(id: Id, reg: Registration): (u: User)
    requires reg.fullName.Some? && reg.email.Some? && reg.userName.Some? && reg.password.Some? && reg.avatarUrl.Some?
    ensures u.id == id && u.userName == ToLower(reg.userName.value) && u.watchHistory == []
    ensures u.coverImage == "" <==> reg.coverUrl.None? || reg.coverUrl.value == ""
  {
    User(id, ToLower(reg.userName.value), reg.email.value, reg.fullName.value, reg.avatarUrl.value,
         CoverImage(reg.coverUrl), reg.password.value, [])
  }

  /** The checks of registerUser, in the handler's order: the error it stops with, or None. A missing
      userName throws when it is lowercased; the other required fields, when missing, make the store
      reject the document. */
  function RegistrationError(users: seq<User>, reg: Registration): (e: Option<Error>)
    ensures AnyBlank(reg) ==> e == Some(ApiError(400, "All fields are required"))
    ensures !AnyBlank(reg) && (exists u :: u in users && TakenBy(reg)(u)) ==>
      e == Some(ApiError(404, "User with email or userName is already exists"))
    ensures !AnyBlank(reg) && (forall u :: u in users ==> !TakenBy(reg)(u)) && reg.avatar.NoAvatarEntry? ==>
      e.Some? && e.value.TypeError?
    ensures !AnyBlank(reg) && (forall u :: u in users ==> !TakenBy(reg)(u)) && reg.avatar.NoFiles? ==>
      e == Some(ApiError(400, "Avater file is required"))
    ensures e.None? <==>
      && !AnyBlank(reg) && (forall u :: u in users ==> !TakenBy(reg)(u))
      && reg.avatar.AvatarEntry? && Truthy(reg.avatar.firstPath) && reg.avatarUrl.Some?
      && reg.fullName.Some? && reg.email.Some? && reg.userName.Some? && reg.password.Some?
  {
    if AnyBlank(reg) then Some(ApiError(400, "All fields are required"))
    else if FindOne(users, TakenBy(reg)).Some? then Some(ApiError(404, "User with email or userName is already exists"))
    else if AvatarLocalPath(reg.avatar).Err? then Some(AvatarLocalPath(reg.avatar).error)
    else if !Truthy(AvatarLocalPath(reg.avatar).value) || reg.avatarUrl.None? then Some(ApiError(400, "Avater file is required"))
    else if reg.userName.None? then Some(TypeError("Cannot read properties of undefined (reading 'toLowerCase')"))
    else if reg.fullName.None? || reg.email.None? || reg.password.None? then Some(ValidationError("User validation failed"))
    else None
  }

  /** registerUser: the checks, then the new account appended under a fresh id. */
  function RegisterUserSpec(users: seq<User>, reg: Registration, nid: Id): (r: Step<seq<User>, Account>)
    ensures r.reply.Err? ==> r.state == users
    ensures AnyBlank(reg) ==> r.reply == Err(ApiError(400, "All fields are required"))
    ensures !AnyBlank(reg) && (exists u :: u in users && TakenBy(reg)(u)) ==>
      r.reply == Err(ApiError(404, "User with email or userName is already exists"))
    ensures r.reply.Ok? <==>
      && !AnyBlank(reg) && (forall u :: u in users ==> !TakenBy(reg)(u))
      && reg.avatar.AvatarEntry? && Truthy(reg.avatar.firstPath) && reg.avatarUrl.Some?
      && reg.fullName.Some? && reg.email.Some? && reg.userName.Some? && reg.password.Some?
    ensures r.reply.Ok? ==>
      && reg.fullName.Some? && reg.email.Some? && reg.userName.Some? && reg.password.Some? && reg.avatarUrl.Some?
      && r.state == users + [NewUser(nid, reg)] && r.reply.value == AccountOf(NewUser(nid, reg))
  {
    match RegistrationError(users, reg)
    case Some(e) => Step(Err(e), users)
    case None =>
      var u := NewUser(nid, reg);
      Step(Ok(AccountOf(u)), users + [u])
  }

  /** No two accounts share an email. */
  ghost predicate DistinctEmails(users: seq<User>)
  {
    forall i, j :: 0 <= i < j < |users| ==> users[i].email != users[j].email
  }

  /** Registration keeps emails distinct: the duplicate check compares the email exactly as stored. */
  lemma RegisterKeepsEmailsDistinct(users: seq<User>, reg: Registration, nid: Id)
    requires DistinctEmails(users)
    ensures DistinctEmails(RegisterUserSpec(users, reg, nid).state)
  {
    var r := RegisterUserSpec(users, reg, nid);
    if r.reply.Ok? {
      var s := r.state;
      forall i, j | 0 <= i < j < |s| ensures s[i].email != s[j].email {
        if j == |users| {
          assert s[i] == users[i] && !TakenBy(reg)(users[i]);
        }
      }
    }
  }

  /** Every stored userName is lower case, and registration keeps it so. */
  ghost predicate LowerCaseNames(users: seq<User>)
  {
    forall u :: u in users ==> ToLower(u.userName) == u.userName
  }

  lemma RegisterKeepsNamesLowerCase(users: seq<User>, reg: Registration, nid: Id)
    requires LowerCaseNames(users)
    ensures LowerCaseNames(RegisterUserSpec(users, reg, nid).state)
  {
    if reg.userName.Some? {
      ToLowerIdempotent(reg.userName.value);
    }
  }

  /** The duplicate check compares the userName as sent with names stored in lower case: a name that
      differs from a stored one only in case registers, and two accounts then share that stored name. */
  lemma RegisterAdmitsNameInOtherCase(users: seq<User>, reg: Registration, nid: Id, i: nat)
    requires i < |users| && reg.userName.Some? && users[i].userName == ToLower(reg.userName.value)
    requires RegisterUserSpec(users, reg, nid).reply.Ok?
    ensures var s := RegisterUserSpec(users, reg, nid).state;
            |s| == |users| + 1 && s[i].userName == s[|users|].userName
  {
  }

  /** An instance: "alice" is stored, "Alice" registers. */
  lemma RegisterAliceTwice()
    ensures var alice := User(1, "alice", "a@x", "A", "a.png", "", "pw", []);
            var reg := Registration(Some("B"), Some("b@x"), Some("Alice"), Some("pw"), AvatarEntry(Some("b.png")), Some("b.png"), None);
            RegisterUserSpec([alice], reg, 2).reply.Ok?
  {
    var alice := User(1, "alice", "a@x", "A", "a.png", "", "pw", []);
    var reg := Registration(Some("B"), Some("b@x"), Some("Alice"), Some("pw"), AvatarEntry(Some("b.png")), Some("b.png"), None);
    assert !AnyBlank(reg) by {
      assert !IsJsWhitespace("B"[0]) && !IsJsWhitespace("b@x"[0]) && !IsJsWhitespace("Alice"[0]) && !IsJsWhitespace("pw"[0]);
    }
    assert !TakenBy(reg)(alice) by {
      assert "Alice"[0] != "alice"[0];
      assert "b@x"[0] != "a@x"[0];
    }
    assert forall u :: u in [alice] ==> u == alice;
  }

  /** registerUser against the store. */
  method RegisterUser(store: Store, reg: Registration) returns (r: Result<Account>)
    requires store.Valid()
    modifies store`users, store`nextId
    ensures store.Valid()
    ensures Step(r, store.users) == RegisterUserSpec(old(store.users), reg, old(store.nextId))
  {
    if AnyBlank(reg) {
      return Err(ApiError(400, "All fields are required"));
    }
    var existed := FindOne(store.users, TakenBy(reg));
    if existed.Some? {
      return Err(ApiError(404, "User with email or userName is already exists"));
    }
    var avatarPath := AvatarLocalPath(reg.avatar);
    if avatarPath.Err? {
      return Err(avatarPath.error);
    }
    if !Truthy(avatarPath.value) || reg.avatarUrl.None? {
      return Err(ApiError(400, "Avater file is required"));
    }
    if reg.userName.None? {
      return Err(TypeError("Cannot read properties of undefined (reading 'toLowerCase')"));
    }
    if reg.fullName.None? || reg.email.None? || reg.password.None? {
      return Err(ValidationError("User validation failed"));
    }
    var user := CreateUser(store, reg);
    r := Ok(AccountOf(user));
  }

  /** `User.create`: the new account is stored under a fresh id. */
  method CreateUser(store: Store, reg: Registration) returns (user: User)
    requires store.Valid()
    requires reg.fullName.Some? && reg.email.Some? && reg.userName.Some? && reg.password.Some? && reg.avatarUrl.Some?
    modifies store`users, store`nextId
    ensures store.Valid()
    ensures user == NewUser(old(store.nextId), reg) && store.users == old(store.users) + [user]
  {
    var id := store.NewId();
    user := NewUser(id, reg);
    KeyedAppend(store.users, UserKey, id, user);
    store.users := store.users + [user];
  }

  // ----- updateAccountDetails -----

  function SetAccountDetails(fullName: string, email: string): User -> User
  {
    (u: User) => u.(fullName := fullName, email := email)
  }

  /** updateAccountDetails: both fields must be truthy; then they alone are set on the principal's
      account. The reply is null when the principal has no account. */
  function UpdateAccountDetailsSpec(users: seq<User>, principal: Id, fullName: Option<string>, email: Option<string>)
    : (r: Step<seq<User>, Option<Account>>)
    ensures r.reply.Err? <==> !Truthy(fullName) || !Truthy(email)
    ensures r.reply.Err? ==> r.reply.error == ApiError(400, "All feild are required") && r.state == users
    ensures r.reply.Ok? ==> |r.state| == |users|
    ensures r.reply.Ok? ==> (r.reply.value.None? <==> UserById(users, principal).None?)
  {
    if !Truthy(fullName) || !Truthy(email) then Step(Err(ApiError(400, "All feild are required")), users)
    else
      var change := SetAccountDetails(fullName.value, email.value);
      var updated := FindOneAndUpdate(users, HasKey(UserKey, principal), change);
      UpdateByKeyKeepsFirst(users, UserKey, principal, change);
      Step(Ok(match UserById(updated, principal) case None => None case Some(u) => Some(AccountOf(u))), updated)
  }

  /** The edit sets exactly fullName and email of the principal's account and leaves every other account. */
  lemma UpdateAccountDetailsSetsOnlyThem(users: seq<User>, principal: Id, fullName: string, email: string, other: Id)
    requires fullName != "" && email != "" && UserById(users, principal).Some? && other != principal
    ensures var r := UpdateAccountDetailsSpec(users, principal, Some(fullName), Some(email));
            && UserById(r.state, principal) == Some(UserById(users, principal).value.(fullName := fullName, email := email))
            && r.reply == Ok(Some(AccountOf(UserById(r.state, principal).value)))
            && Find(r.state, HasKey(UserKey, other)) == Find(users, HasKey(UserKey, other))
  {
    var change := SetAccountDetails(fullName, email);
    UpdateByKeyKeepsFirst(users, UserKey, principal, change);
    UpdateLeavesOtherKeys(users, UserKey, principal, change, other);
  }

  method UpdateAccountDetails(store: Store, principal: Id, fullName: Option<string>, email: Option<string>)
    returns (r: Result<Option<Account>>)
    requires store.Valid()
    modifies store`users
    ensures store.Valid()
    ensures Step(r, store.users) == UpdateAccountDetailsSpec(old(store.users), principal, fullName, email)
  {
    if !Truthy(fullName) || !Truthy(email) {
      return Err(ApiError(400, "All feild are required"));
    }
    var change := SetAccountDetails(fullName.value, email.value);
    KeyedUpdate(store.users, UserKey, store.nextId, HasKey(UserKey, principal), change);
    store.users := FindOneAndUpdate(store.users, HasKey(UserKey, principal), change);
    var user := FindOne(store.users, HasKey(UserKey, principal));
    r := Ok(if user.Some? then Some(AccountOf(user.value)) else None);
  }

  // ----- getUserChannelProfile -----

  datatype ChannelProfile = ChannelProfile(
    id: Id,
    fullName: string,
    userName: string,
    email: string,
    subscribersCount: nat,
    subscribedToCount: nat,
    isSubscribed: bool,
    avatar: string,
    coverImage: string)

  function NameIs(userName: string): User -> bool
  {
    (u: User) => u.userName == userName
  }

  /** `$in: [req.user._id, "$subscribers.subscriber"]` */
  predicate SubscribedBy(subs: seq<Subscription>, channel: Id, principal: Id)
  {
    exists s :: s in subs && s.channel == channel && s.subscriber == principal
  }

  /** getUserChannelProfile: the first account whose userName is the lower-cased (untrimmed) parameter,
      with how many subscribe to it, how many it subscribes to, and whether the principal subscribes. */
  function ChannelProfileOf(users: seq<User>, subs: seq<Subscription>, principal: Id, username: Option<string>)
    : (r: Result<ChannelProfile>)
    ensures username.None? || IsBlank(username.value) ==> r == Err(ApiError(400, "Username is missing"))
    ensures username.Some? && !IsBlank(username.value) && (forall u :: u in users ==> u.userName != ToLower(username.value))
      ==> r == Err(ApiError(404, "User does not exist"))
    ensures r.Ok? <==> username.Some? && !IsBlank(username.value) && exists u :: u in users && u.userName == ToLower(username.value)
    ensures r.Ok? ==> exists u :: u in users && u.id == r.value.id && u.userName == r.value.userName == ToLower(username.value)
    ensures r.Ok? ==> var u := FindOne(users, NameIs(ToLower(username.value))).value;
      && r.value.id == u.id && r.value.fullName == u.fullName && r.value.email == u.email
      && r.value.avatar == u.avatar && r.value.coverImage == u.coverImage
    ensures r.Ok? ==> r.value.subscribersCount == |Find(subs, ChannelIs(r.value.id))|
    ensures r.Ok? ==> r.value.subscribedToCount == |Find(subs, SubscriberIs(r.value.id))|
    ensures r.Ok? ==> (r.value.isSubscribed <==> SubscribedBy(subs, r.value.id, principal))
  {
    if username.None? || IsBlank(username.value) then Err(ApiError(400, "Username is missing"))
    else
      var name := ToLower(username.value);
      match FindOne(users, NameIs(name))
      case None => Err(ApiError(404, "User does not exist"))
      case Some(u) =>
        Ok(ChannelProfile(u.id, u.fullName, u.userName, u.email,
          |Find(subs, ChannelIs(u.id))|, |Find(subs, SubscriberIs(u.id))|,
          SubscribedBy(subs, u.id, principal), u.avatar, u.coverImage))
  }

  /** Subscribing to a channel shows at once in its profile: one more subscriber, and isSubscribed. */
  lemma SubscribeShowsInProfile(users: seq<User>, subs: seq<Subscription>, principal: Id, username: Option<string>, nid: Id)
    requires Keyed(subs, SubscriptionKey, nid)
    requires ChannelProfileOf(users, subs, principal, username).Ok?
    requires !ChannelProfileOf(users, subs, principal, username).value.isSubscribed
    ensures var before := ChannelProfileOf(users, subs, principal, username).value;
            var after := ChannelProfileOf(users, ToggleSubscriptionSpec(subs, principal, ObjectId(before.id), nid).state, principal, username);
            && after.Ok? && after.value.id == before.id
            && after.value.subscribersCount == before.subscribersCount + 1
            && after.value.subscribedToCount == before.subscribedToCount + (if principal == before.id then 1 else 0)
            && after.value.isSubscribed
  {
    var before := ChannelProfileOf(users, subs, principal, username).value;
    var c := before.id;
    var edge := NewSubscription(nid, principal, c);
    forall s | s in subs ensures !SubscriptionOf(principal, c)(s) {
      assert !(s.channel == c && s.subscriber == principal);
    }
    assert ToggleSubscriptionSpec(subs, principal, ObjectId(c), nid).state == subs + [edge];
    FindConcat(subs, [edge], ChannelIs(c));
    FindConcat(subs, [edge], SubscriberIs(c));
    FindSingleton(edge, ChannelIs(c));
    FindSingleton(edge, SubscriberIs(c));
    assert edge in subs + [edge];
  }

  /** Accounts appended later never take over a profile: when two accounts share a stored name, the
      profile shows the earlier one (`channel[0]`). */
  lemma EarlierAccountKeepsProfile(users: seq<User>, more: seq<User>, subs: seq<Subscription>, principal: Id,
                                   username: Option<string>)
    requires ChannelProfileOf(users, subs, principal, username).Ok?
    ensures ChannelProfileOf(users + more, subs, principal, username) == ChannelProfileOf(users, subs, principal, username)
  {
    FindConcat(users, more, NameIs(ToLower(username.value)));
  }

  /** The name is lower-cased but not trimmed: a name sent with a leading space passes the blank check
      and then finds no account whose stored name starts otherwise. */
  lemma ChannelProfileDoesNotTrim(users: seq<User>, subs: seq<Subscription>, principal: Id, username: string)
    requires |username| > 1 && username[0] == ' ' && !IsJsWhitespace(username[1])
    requires forall u :: u in users ==> u.userName == [] || u.userName[0] != ' '
    ensures ChannelProfileOf(users, subs, principal, Some(username)) == Err(ApiError(404, "User does not exist"))
  {
    assert ToLower(username)[0] == ' ';
  }

  // ----- getWatchHistory -----

  function InHistory(history: seq<Id>): Video -> bool
  {
    (v: Video) => v.id in history
  }

  /** getWatchHistory: the videos whose ids are in the principal's history, in the order of the videos
      collection (the `$lookup` does not keep the history's order), each with its owner's projection.
      `user[0]` of an empty aggregate is undefined, so reading its history throws. */
  function WatchHistory(users: seq<User>, videos: seq<Video>, principal: Id): (r: Result<seq<VideoView>>)
    ensures r.Err? <==> UserById(users, principal).None?
    ensures r.Err? ==> r.error.TypeError?
    ensures r.Ok? ==> |r.value| == |Find(videos, InHistory(UserById(users, principal).value.watchHistory))|
    ensures r.Ok? ==> forall e :: e in r.value ==>
      && e.video in videos && e.video.id in UserById(users, principal).value.watchHistory
      && e.owner == LookupOwner(users, e.video.owner)
  {
    match UserById(users, principal)
    case None => Err(TypeError("Cannot read properties of undefined (reading 'watchHistory')"))
    case Some(u) =>
      var watched := Find(videos, InHistory(u.watchHistory));
      var rows := Map(watched, ViewIn(users));
      forall e | e in rows ensures e.video in watched && e.owner == LookupOwner(users, e.video.owner) {
        MapMember(watched, ViewIn(users), e);
      }
      Ok(rows)
  }

  /** Every existing video in the history is listed. */
  lemma WatchHistoryIsComplete(users: seq<User>, videos: seq<Video>, principal: Id, v: Video)
    requires UserById(users, principal).Some? && v in videos && v.id in UserById(users, principal).value.watchHistory
    ensures ViewOf(users, v) in WatchHistory(users, videos, principal).value
  {
    var watched := Find(videos, InHistory(UserById(users, principal).value.watchHistory));
    assert v in watched;
    MapMember(watched, ViewIn(users), ViewOf(users, v));
  }

  /** After a successful view the video is in the viewer's watch history, as it now is. */
  lemma ViewedVideoIsInWatchHistory(c: Catalog, principal: Id, videoId: IdParam)
    requires ViewVideoSpec(c, principal, videoId).reply.Ok?
    ensures var s := ViewVideoSpec(c, principal, videoId).state;
            ViewVideoSpec(c, principal, videoId).reply.value in WatchHistory(s.users, s.videos, principal).value
  {
    var r := ViewVideoSpec(c, principal, videoId);
    ViewCountsFirstViewOnly(c, principal, videoId);
    ViewRecordsHistory(c, principal, videoId);
    var v := VideoById(r.state.videos, videoId.id).value;
    assert v.id in UserById(r.state.users, principal).value.watchHistory;
    WatchHistoryIsComplete(r.state.users, r.state.videos, principal, v);
  }
}
