/** The profile handlers (src/controllers/userController.js): profile
    update, push-token update and the user search. The object-store upload
    is a foreign call whose outcome arrives as a parameter. */
module UserController {
  import opened Common
  import opened Users
  import opened ResponseHelper

  /** The row after a profile update: a truthy display name replaces the old
      one; an uploaded file's URL, or failing that a truthy `avatar`,
      replaces the avatar. */
  function ProfileUpdated(u: User, displayName: Option<string>, avatar: Option<string>, upload: Upload): (r: User)
    requires !upload.StoreFailed?
    ensures r.displayName == if Truthy(displayName) then displayName else u.displayName
    ensures upload.Stored? ==> r.avatar == Some(upload.url)
    ensures upload.NoFile? && Truthy(avatar) ==> r.avatar == avatar
    ensures upload.NoFile? && !Truthy(avatar) ==> r.avatar == u.avatar
    ensures r.(displayName := u.displayName, avatar := u.avatar) == u
  {
    var named := if Truthy(displayName) then u.(displayName := displayName) else u;
    match upload
    case Stored(url, _) => named.(avatar := Some(url))
    case NoFile => if Truthy(avatar) then named.(avatar := avatar) else named
  }

  /** `updateProfile`. A failed upload throws before the row is saved, so
      nothing changes. */
  method UpdateProfile(users: UserTable, me: UserId, displayName: Option<string>, avatar: Option<string>, upload: Upload)
    returns (reply: Envelope<User>)
    modifies users
    ensures FindById(old(users.rows), me).None? ==>
      reply == Error("User not found", Some(404)) && users.rows == old(users.rows)
    ensures FindById(old(users.rows), me).Some? && upload.StoreFailed? ==>
      reply == Error(upload.message, Some(500)) && users.rows == old(users.rows)
    ensures FindById(old(users.rows), me).Some? && !upload.StoreFailed? ==>
      var i := FindById(old(users.rows), me).value;
      var u := ProfileUpdated(old(users.rows)[i], displayName, avatar, upload);
      users.rows == old(users.rows)[i := u]
      && reply == Success("Profile updated successfully", Some(u))
  {
    var found := FindById(users.rows, me);
    if found.None? {
      return Error("User not found", Some(404));
    }
    var i := found.value;
    var user := users.rows[i];
    if Truthy(displayName) {
      user := user.(displayName := displayName);
    }
    if upload.StoreFailed? {
      return Error(upload.message, Some(500));
    } else if upload.Stored? {
      user := user.(avatar := Some(upload.url));
    } else if Truthy(avatar) {
      user := user.(avatar := avatar);
    }
    users.rows := users.rows[i := user];
    reply := Success("Profile updated successfully", Some(user));
  }

  /** `updateFCMToken`: the token is `fcmToken || pushToken`; a request
      carrying neither is refused before the user is looked up. */
  method UpdateFCMToken(users: UserTable, me: UserId, fcmToken: Option<string>, pushToken: Option<string>)
    returns (reply: Envelope<User>)
    modifies users
    ensures !Truthy(fcmToken) && !Truthy(pushToken) ==>
      reply == Error("Token is required", Some(400)) && users.rows == old(users.rows)
    ensures (Truthy(fcmToken) || Truthy(pushToken)) && FindById(old(users.rows), me).None? ==>
      reply == Error("User not found", Some(404)) && users.rows == old(users.rows)
    ensures (Truthy(fcmToken) || Truthy(pushToken)) && FindById(old(users.rows), me).Some? ==>
      var i := FindById(old(users.rows), me).value;
      var token := if Truthy(fcmToken) then fcmToken.value else pushToken.value;
      users.rows == old(users.rows)[i := old(users.rows)[i].(fcmToken := Some(token))]
      && reply == Success("FCM token updated successfully")
  {
    var token := OrElse(fcmToken, OrElse(pushToken, ""));
    if token == "" {
      return Error("Token is required", Some(400));
    }
    var found := FindById(users.rows, me);
    if found.None? {
      return Error("User not found", Some(404));
    }
    var i := found.value;
    users.rows := users.rows[i := users.rows[i].(fcmToken := Some(token))];
    reply := Success("FCM token updated successfully");
  }

  /** The search condition: the text occurs in the email or in the display
      name. */
  predicate SearchMatches(u: User, search: string) {
    Includes(u.email, search) || (u.displayName.Some? && Includes(u.displayName.value, search))
  }

  /** `getUsers`: every other user, narrowed by a truthy search text. */
  function GetUsers(rows: seq<User>, me: UserId, search: Option<string>): (r: seq<User>)
    ensures forall u :: u in r ==> u.id != me
    ensures forall u :: u in r <==> u in rows && u.id != me && (Truthy(search) ==> SearchMatches(u, search.value))
    ensures !Truthy(search) ==> |r| + |Filter(rows, (u: User) => u.id == me)| == |rows|
  {
    var keep := (u: User) => u.id != me && (Truthy(search) ==> SearchMatches(u, search.value));
    var mine := (u: User) => u.id == me;
    if !Truthy(search) then
      FilterSplit(rows, mine, keep);
      FilterSamePredicate(rows, mine, (u: User) => u.id == me);
      Filter(rows, keep)
    else Filter(rows, keep)
  }
}
