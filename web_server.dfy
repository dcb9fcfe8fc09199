/**
 * The request handlers of the photo-sharing server, over an in-memory store:
 * a sequence of users, a sequence of photos (each holding its comments) and
 * the calling client's session record.
 */
module WebServer {
  import opened Wrappers
  import opened Sequences
  import opened JsStrings

  /** A document identifier, as the string form of a database ObjectId. */
  type Id = string

  datatype User = User(id: Id, loginName: string, password: string, firstName: string, lastName: string)
  datatype Comment = Comment(id: Id, text: string, dateTime: int, userId: Id)
  datatype Photo = Photo(id: Id, userId: Id, fileName: string, dateTime: int, comments: seq<Comment>)

  /** An HTTP reply: 200 with a body, an error status with a message, or no reply at all. */
  datatype Reply<T> = Ok(body: T) | Fail(status: int, message: string) | NoReply

  const UnauthorizedMessage := "Unauthorized"
  const NotLoggedInMessage := "User not logged in."
  const EmptyCommentMessage := "Empty comment is not allowed"
  const PhotoNotFoundMessage := "Photo not found"
  const ErrorOccurredMessage := "An error occurred"
  const MissingCredentialsMessage := "Login name and password are required."
  const WrongPasswordMessage := "Password is incorrect. Please try again."
  const MissingFieldsMessage := "The first_name, last_name, and password must be non-empty strings"
  const LoginTakenMessage := "The login name already exists, please choose a different login name"
  const InvalidUserIdMessage := "Invalid user ID format"
  const UserCreatedMessage := "User created successfully!"

  function UnknownLoginMessage(loginName: string): string {
    "Login name \"" + loginName + "\" does not exist. Please try again."
  }

  // ---------------------------------------------------------------------------
  // Identifiers

  predicate IsHexDigit(c: char) {
    '0' <= c <= '9' || 'a' <= c <= 'f' || 'A' <= c <= 'F'
  }

  /**
   * `mongoose.Types.ObjectId.isValid` on a string (bson 4): 24 hexadecimal
   * digits, or 12 characters whose UTF-8 encoding is 12 bytes.
   */
  predicate IsValidObjectId(s: string) {
    || (|s| == 12 && forall i :: 0 <= i < 12 ==> s[i] < '\U{0080}')
    || (|s| == 24 && forall i :: 0 <= i < 24 ==> IsHexDigit(s[i]))
  }

  /** The digits of the stored form of an ObjectId. */
  predicate IsLowerHexDigit(c: char) {
    '0' <= c <= '9' || 'a' <= c <= 'f'
  }

  function HexDigit(n: nat): (c: char)
    requires n < 16
    ensures IsLowerHexDigit(c)
  {
    "0123456789abcdef"[n]
  }

  /** The value of a lower-case hexadecimal digit. */
  function HexValue(c: char): int {
    if '0' <= c <= '9' then c as int - '0' as int else c as int - 'a' as int + 10
  }

  lemma HexDigitValue(n: nat)
    requires n < 16
    ensures HexValue(HexDigit(n)) == n
  {
  }

  /** Two lower-case hex digits per character, high digit first, each pair encoding that character's byte. */
  function BytesHex(s: string): (r: string)
    requires forall i :: 0 <= i < |s| ==> s[i] < '\U{0080}'
    ensures |r| == 2 * |s|
    ensures forall i :: 0 <= i < |r| ==> IsLowerHexDigit(r[i])
    ensures forall i :: 0 <= i < |s| ==> HexValue(r[2 * i]) * 16 + HexValue(r[2 * i + 1]) == s[i] as int
  {
    if s == [] then []
    else
      var t := BytesHex(s[1..]);
      var c := s[0] as int;
      HexDigitValue(c / 16);
      HexDigitValue(c % 16);
      assert (c / 16) * 16 + c % 16 == c;
      var r := [HexDigit(c / 16), HexDigit(c % 16)] + t;
      forall i | 1 <= i < |s|
        ensures HexValue(r[2 * i]) * 16 + HexValue(r[2 * i + 1]) == s[i] as int
      {
        assert r[2 * i] == t[2 * (i - 1)] && r[2 * i + 1] == t[2 * (i - 1) + 1] && s[i] == s[1..][i - 1];
      }
      r
  }

  /** The stored form of the ObjectId a valid id string is cast to in a query. */
  function ObjectIdHex(s: string): (r: Id)
    requires IsValidObjectId(s)
    ensures |r| == 24 && forall i :: 0 <= i < 24 ==> IsLowerHexDigit(r[i])
    ensures |s| == 24 ==> r == Lower(s)
    ensures |s| == 12 ==> forall i :: 0 <= i < 12 ==> HexValue(r[2 * i]) * 16 + HexValue(r[2 * i + 1]) == s[i] as int
  {
    if |s| == 24 then Lower(s) else BytesHex(s)
  }

  /** The stored form of a valid id is itself a valid id, and casting it again changes nothing. */
  lemma ObjectIdCastIdempotent(s: string)
    requires IsValidObjectId(s)
    ensures IsValidObjectId(ObjectIdHex(s)) && ObjectIdHex(ObjectIdHex(s)) == ObjectIdHex(s)
  {
    var r := ObjectIdHex(s);
    assert forall i :: 0 <= i < 24 ==> IsHexDigit(r[i]);
    var l := Lower(r);
    forall i | 0 <= i < 24 ensures l[i] == r[i] {
      assert !('A' <= r[i] <= 'Z');
    }
  }

  predicate UniqueUserIds(users: seq<User>) {
    forall i, j :: 0 <= i < j < |users| ==> users[i].id != users[j].id
  }

  predicate UniqueLoginNames(users: seq<User>) {
    forall i, j :: 0 <= i < j < |users| ==> users[i].loginName != users[j].loginName
  }

  // ---------------------------------------------------------------------------
  // Session gates

  datatype GateDecision = Proceed | Reject(status: int, message: string)

  /** `hasSessionRecord`: continue to the handler only for a logged-in session. */
  function HasSessionRecord(session: Option<Id>): (d: GateDecision)
    ensures d.Proceed? <==> Truthy(session)
    ensures d.Reject? ==> d == Reject(401, UnauthorizedMessage)
  {
    if Truthy(session) then Proceed else Reject(401, UnauthorizedMessage)
  }

  /** `requireLogin`: the same check as `hasSessionRecord`, with its own message. */
  function RequireLogin(session: Option<Id>): (d: GateDecision)
    ensures d.Proceed? <==> Truthy(session)
    ensures d.Reject? ==> d == Reject(401, NotLoggedInMessage)
  {
    if !Truthy(session) then Reject(401, NotLoggedInMessage) else Proceed
  }

  // ---------------------------------------------------------------------------
  // Lookups

  /** `Photo.findById`: the position of the photo with that id. */
  function FindPhoto(photos: seq<Photo>, id: Id): (r: Option<nat>)
    ensures r.Some? ==> r.value < |photos| && photos[r.value].id == id
    ensures r.None? ==> forall j :: 0 <= j < |photos| ==> photos[j].id != id
  {
    FirstIndex(photos, (p: Photo) => p.id == id)
  }

  /** `User.findOne({ login_name })`: the position of the first user with that login name. */
  function FindByLogin(users: seq<User>, loginName: string): (r: Option<nat>)
    ensures r.Some? ==> r.value < |users| && users[r.value].loginName == loginName
    ensures r.Some? ==> forall j :: 0 <= j < r.value ==> users[j].loginName != loginName
    ensures r.None? ==> forall j :: 0 <= j < |users| ==> users[j].loginName != loginName
  {
    FirstIndex(users, (u: User) => u.loginName == loginName)
  }

  // ---------------------------------------------------------------------------
  // Login decision

  datatype LoginBody = LoginBody(firstName: string, id: Id)

  /** What `POST /admin/login` decides: the user to log in, or a 400 reply. */
  function LoginDecision(users: seq<User>, loginName: Option<string>, password: Option<string>): (r: Reply<User>)
    ensures !r.NoReply?
    ensures r.Fail? ==> r.status == 400
    ensures !Truthy(loginName) || !Truthy(password) ==> r == Fail(400, MissingCredentialsMessage)
    ensures Truthy(loginName) && Truthy(password) && (forall j :: 0 <= j < |users| ==> users[j].loginName != loginName.value)
      ==> r == Fail(400, UnknownLoginMessage(loginName.value))
    ensures r.Ok? ==> r.body in users && r.body.loginName == loginName.value && r.body.password == password.value
    ensures r == Fail(400, WrongPasswordMessage) ==>
      exists j :: 0 <= j < |users| && users[j].loginName == loginName.value && users[j].password != password.value
    ensures Truthy(loginName) && Truthy(password) && FindByLogin(users, loginName.value).Some? ==>
      var u := users[FindByLogin(users, loginName.value).value];
      r == if u.password == password.value then Ok(u) else Fail(400, WrongPasswordMessage)
  {
    if !Truthy(loginName) || !Truthy(password) then Fail(400, MissingCredentialsMessage)
    else
      match FindByLogin(users, loginName.value)
      case None => Fail(400, UnknownLoginMessage(loginName.value))
      case Some(k) =>
        if users[k].password != password.value then Fail(400, WrongPasswordMessage) else Ok(users[k])
  }

  /** With unique login names, a login succeeds exactly for a stored login name and its password. */
  lemma LoginAcceptsExactlyStoredCredentials(users: seq<User>, loginName: string, password: string)
    requires UniqueLoginNames(users)
    requires loginName != "" && password != ""
    ensures LoginDecision(users, Some(loginName), Some(password)).Ok?
        <==> exists j :: 0 <= j < |users| && users[j].loginName == loginName && users[j].password == password
  {
  }

  // ---------------------------------------------------------------------------
  // Stateful handlers

  /** The body of `POST /user`. An absent field is `None`. */
  /** The body of a successful registration reply: `{ message, login_name }`. */
  datatype Registered = Registered(message: string, loginName: string)

  datatype RegisterBody = RegisterBody(loginName: string, password: Option<string>, firstName: Option<string>, lastName: Option<string>)

  predicate LoginTaken(users: seq<User>, loginName: string) {
    exists j :: 0 <= j < |users| && users[j].loginName == loginName
  }

  class Server {
    var users: seq<User>
    var photos: seq<Photo>
    /** `request.session.userIdRecord` of the calling client. */
    var sessionUser: Option<Id>

    /** Ids are the database's keys; login names stay unique as long as registrations do not overlap. */
    ghost predicate Valid()
      reads this
    {
      UniqueUserIds(users) && UniqueLoginNames(users)
    }

    constructor (users0: seq<User>, photos0: seq<Photo>)
      requires UniqueUserIds(users0) && UniqueLoginNames(users0)
      ensures Valid()
      ensures users == users0 && photos == photos0 && sessionUser == None
    {
      users, photos, sessionUser := users0, photos0, None;
    }

    /**
     * `POST /commentsOfPhoto/:photo_id` behind `hasSessionRecord`. `comment` is
     * the body's `comment` field (`None` when absent or not a string); `commentId`
     * and `now` are the id and time the database and the clock supply.
     */
    method PostComment(photoId: string, comment: Option<string>, commentId: Id, now: int) returns (r: Reply<()>)
      requires Valid()
      modifies this`photos
      ensures Valid()
      ensures !Truthy(sessionUser) ==> r == Fail(401, UnauthorizedMessage) && photos == old(photos)
      ensures Truthy(sessionUser) && comment.None? ==> r == NoReply && photos == old(photos)
      ensures Truthy(sessionUser) && comment.Some? && IsBlank(comment.value)
        ==> r == Fail(400, EmptyCommentMessage) && photos == old(photos)
      ensures Truthy(sessionUser) && comment.Some? && !IsBlank(comment.value) && !IsValidObjectId(photoId)
        ==> r == Fail(400, ErrorOccurredMessage) && photos == old(photos)
      ensures Truthy(sessionUser) && comment.Some? && !IsBlank(comment.value) && IsValidObjectId(photoId)
        && FindPhoto(old(photos), ObjectIdHex(photoId)).None?
        ==> r == Fail(400, PhotoNotFoundMessage) && photos == old(photos)
      ensures r.Ok? <==> (Truthy(sessionUser) && comment.Some? && !IsBlank(comment.value) && IsValidObjectId(photoId)
                          && FindPhoto(old(photos), ObjectIdHex(photoId)).Some?)
      ensures r.Ok? ==>
        var i := FindPhoto(old(photos), ObjectIdHex(photoId)).value;
        var p := old(photos)[i];
        photos == old(photos)[i := p.(comments := p.comments + [Comment(commentId, comment.value, now, sessionUser.value)])]
    {
      if HasSessionRecord(sessionUser).Reject? {
        return Fail(401, UnauthorizedMessage);
      }
      if comment.None? {
        return NoReply;
      }
      TrimEmptyIffBlank(comment.value);
      if Trim(comment.value) == "" {
        return Fail(400, EmptyCommentMessage);
      }
      if !IsValidObjectId(photoId) {
        return Fail(400, ErrorOccurredMessage);
      }
      var found := FindPhoto(photos, ObjectIdHex(photoId));
      if found.None? {
        return Fail(400, PhotoNotFoundMessage);
      }
      var i := found.value;
      var c := Comment(commentId, comment.value, now, sessionUser.value);
      photos := photos[i := photos[i].(comments := photos[i].comments + [c])];
      r := Ok(());
    }

    /** `POST /admin/login`: on success the session records the user's id. */
    method Login(loginName: Option<string>, password: Option<string>) returns (r: Reply<LoginBody>)
      requires Valid()
      modifies this`sessionUser
      ensures Valid()
      ensures r.Ok? <==> (Truthy(loginName) && Truthy(password)
                          && exists j :: 0 <= j < |users| && users[j].loginName == loginName.value
                                                           && users[j].password == password.value)
      ensures var d := LoginDecision(users, loginName, password);
        && (d.Ok? ==> r == Ok(LoginBody(d.body.firstName, d.body.id)) && sessionUser == Some(d.body.id))
        && (d.Fail? ==> r == Fail(d.status, d.message) && sessionUser == old(sessionUser))
    {
      var d := LoginDecision(users, loginName, password);
      if Truthy(loginName) && Truthy(password) {
        LoginAcceptsExactlyStoredCredentials(users, loginName.value, password.value);
      }
      if d.Ok? {
        sessionUser := Some(d.body.id);
        r := Ok(LoginBody(d.body.firstName, d.body.id));
      } else {
        r := Fail(d.status, d.message);
      }
    }

    /**
     * `POST /user`. `newId` is the id the database assigns to the created
     * user, which no stored user has.
     */
    method Register(body: RegisterBody, newId: Id) returns (r: Reply<Registered>)
      requires Valid()
      requires forall j :: 0 <= j < |users| ==> users[j].id != newId
      modifies this`users
      ensures Valid()
      ensures !r.NoReply? && (r.Fail? ==> r.status == 400 && users == old(users))
      ensures !Truthy(body.firstName) || !Truthy(body.lastName) || !Truthy(body.password)
        ==> r == Fail(400, MissingFieldsMessage)
      ensures Truthy(body.firstName) && Truthy(body.lastName) && Truthy(body.password) && LoginTaken(old(users), body.loginName)
        ==> r == Fail(400, LoginTakenMessage)
      ensures r.Ok? <==> Truthy(body.firstName) && Truthy(body.lastName) && Truthy(body.password) && !LoginTaken(old(users), body.loginName)
      ensures r.Ok? ==> (r.body == Registered(UserCreatedMessage, body.loginName)
                         && users == old(users) + [User(newId, body.loginName, body.password.value, body.firstName.value, body.lastName.value)])
    {
      if !Truthy(body.firstName) || !Truthy(body.lastName) || !Truthy(body.password) {
        return Fail(400, MissingFieldsMessage);
      }
      if FindByLogin(users, body.loginName).Some? {
        return Fail(400, LoginTakenMessage);
      }
      users := users + [User(newId, body.loginName, body.password.value, body.firstName.value, body.lastName.value)];
      r := Ok(Registered(UserCreatedMessage, body.loginName));
    }
  }

  // ---------------------------------------------------------------------------
  // GET /photosOfUser/:id

  /** `{ _id, first_name, last_name }` of a commenter. */
  datatype UserRef = UserRef(id: Id, firstName: string, lastName: string)
  /** A comment as served; `user == None` is the empty object `{}`. */
  datatype CommentView = CommentView(id: Id, text: string, dateTime: int, user: Option<UserRef>)
  datatype PhotoView = PhotoView(id: Id, userId: Id, fileName: string, dateTime: int, comments: seq<CommentView>)

  function RefOf(u: User): UserRef {
    UserRef(u.id, u.firstName, u.lastName)
  }

  /** `Photo.find({ user_id: id })`: the photos the user owns, in storage order. */
  function OwnedPhotos(photos: seq<Photo>, id: Id): (r: seq<Photo>)
    ensures forall i :: 0 <= i < |r| ==> r[i] in photos && r[i].userId == id
    ensures forall i :: 0 <= i < |photos| && photos[i].userId == id ==> photos[i] in r
    ensures IsSubsequence(r, photos)
    ensures multiset(r) <= multiset(photos)
    ensures forall i :: 0 <= i < |photos| && photos[i].userId == id ==> multiset(r)[photos[i]] == multiset(photos)[photos[i]]
  {
    var owns := (p: Photo) => p.userId == id;
    FilterIsSubsequence(photos, owns);
    FilterMultiset(photos, owns);
    Filter(photos, owns)
  }

  function AuthorIds(cs: seq<Comment>): (r: seq<Id>)
    ensures |r| == |cs| && forall j :: 0 <= j < |cs| ==> r[j] == cs[j].userId
  {
    seq(|cs|, j requires 0 <= j < |cs| => cs[j].userId)
  }

  /** The author ids of all comments, photo by photo and in comment order within each photo. */
  function CommenterIds(photos: seq<Photo>): (r: seq<Id>)
    ensures forall i, j :: 0 <= i < |photos| && 0 <= j < |photos[i].comments| ==> photos[i].comments[j].userId in r
  {
    if photos == [] then []
    else
      var r := AuthorIds(photos[0].comments) + CommenterIds(photos[1..]);
      assert forall i, j :: 1 <= i < |photos| && 0 <= j < |photos[i].comments| ==>
               photos[i].comments[j] == photos[1..][i - 1].comments[j];
      r
  }

  /** `User.find({ _id: { $in: ids } })`, in storage order. */
  function UsersWithIds(users: seq<User>, ids: seq<Id>): (r: seq<User>)
    ensures IsSubsequence(r, users)
    ensures forall k :: 0 <= k < |r| ==> r[k] in users && r[k].id in ids
    ensures forall k :: 0 <= k < |users| && users[k].id in ids ==> users[k] in r
    ensures multiset(r) <= multiset(users)
    ensures forall k :: 0 <= k < |users| && users[k].id in ids ==> multiset(r)[users[k]] == multiset(users)[users[k]]
  {
    var wanted := (u: User) => u.id in ids;
    FilterIsSubsequence(users, wanted);
    FilterMultiset(users, wanted);
    Filter(users, wanted)
  }

  /** One entry per user, keyed by its id; a later user with the same id replaces an earlier one. */
  function UserMap(us: seq<User>): (m: map<Id, UserRef>)
    ensures forall k :: 0 <= k < |us| ==> us[k].id in m
    ensures forall id :: id in m ==> m[id].id == id
    ensures forall k :: 0 <= k < |us| && (forall k' :: k < k' < |us| ==> us[k'].id != us[k].id)
              ==> m[us[k].id] == RefOf(us[k])
  {
    if us == [] then map[]
    else
      var init, last := us[..|us| - 1], us[|us| - 1];
      assert forall k :: 0 <= k < |init| ==> init[k] == us[k];
      UserMap(init)[last.id := RefOf(last)]
  }

  /** The map resolves exactly the ids of its users, each to one of those users. */
  lemma {:induction false} UserMapLookup(us: seq<User>, id: Id)
    ensures id in UserMap(us) <==> exists u :: u in us && u.id == id
    ensures id in UserMap(us) ==> exists u :: u in us && u.id == id && UserMap(us)[id] == RefOf(u)
  {
    if us != [] {
      var init, last := us[..|us| - 1], us[|us| - 1];
      assert us == init + [last];
      UserMapLookup(init, id);
      if last.id != id {
        if exists u :: u in us && u.id == id {
          var u :| u in us && u.id == id;
          assert u in init;
        }
      }
    }
  }

  function FormatComment(m: map<Id, UserRef>, c: Comment): CommentView {
    CommentView(c.id, c.text, c.dateTime, if c.userId in m then Some(m[c.userId]) else None)
  }

  function FormatPhoto(m: map<Id, UserRef>, p: Photo): PhotoView {
    PhotoView(p.id, p.userId, p.fileName, p.dateTime,
              seq(|p.comments|, j requires 0 <= j < |p.comments| => FormatComment(m, p.comments[j])))
  }

  /** `v` is photo `p` as served: same fields, same comments in the same order. */
  predicate Renders(v: PhotoView, p: Photo) {
    && v.id == p.id && v.userId == p.userId && v.fileName == p.fileName && v.dateTime == p.dateTime
    && |v.comments| == |p.comments|
    && forall j :: 0 <= j < |p.comments| ==>
         v.comments[j].id == p.comments[j].id && v.comments[j].text == p.comments[j].text
         && v.comments[j].dateTime == p.comments[j].dateTime
  }

  /** The served views of `ps`, one per photo and in order. */
  function FormatPhotos(m: map<Id, UserRef>, ps: seq<Photo>): (r: seq<PhotoView>)
    ensures |r| == |ps| && forall i :: 0 <= i < |ps| ==> Renders(r[i], ps[i])
  {
    seq(|ps|, i requires 0 <= i < |ps| => FormatPhoto(m, ps[i]))
  }

  /** `GET /photosOfUser/:id` behind `requireLogin`. */
  function PhotosOfUser(session: Option<Id>, users: seq<User>, photos: seq<Photo>, id: string): (r: Reply<seq<PhotoView>>)
    ensures !Truthy(session) ==> r == Fail(401, NotLoggedInMessage)
    ensures Truthy(session) && !IsValidObjectId(id) ==> r == Fail(400, InvalidUserIdMessage)
    ensures Truthy(session) && IsValidObjectId(id) ==> r.Ok?
    ensures r.Ok? ==>
      var owned := OwnedPhotos(photos, ObjectIdHex(id));
      |r.body| == |owned| && forall i :: 0 <= i < |owned| ==> Renders(r.body[i], owned[i])
  {
    if RequireLogin(session).Reject? then Fail(401, NotLoggedInMessage)
    else if !IsValidObjectId(id) then Fail(400, InvalidUserIdMessage)
    else
      var owned := OwnedPhotos(photos, ObjectIdHex(id));
      if |owned| == 0 then Ok([])
      else
        var m := UserMap(UsersWithIds(users, CommenterIds(owned)));
        Ok(FormatPhotos(m, owned))
  }

  /**
   * Each served comment names a stored user with the comment's `user_id`, or is
   * `{}` when there is none; with unique user ids it names that very user.
   */
  lemma PhotosOfUserResolvesAuthors(session: Option<Id>, users: seq<User>, photos: seq<Photo>, id: string, i: nat, j: nat)
    requires Truthy(session) && IsValidObjectId(id)
    requires i < |OwnedPhotos(photos, ObjectIdHex(id))|
    requires j < |OwnedPhotos(photos, ObjectIdHex(id))[i].comments|
    ensures PhotosOfUser(session, users, photos, id).Ok?
    ensures
      var c := OwnedPhotos(photos, ObjectIdHex(id))[i].comments[j];
      var v := PhotosOfUser(session, users, photos, id).body[i].comments[j];
      && (v.user.None? <==> forall u :: u in users ==> u.id != c.userId)
      && (v.user.Some? ==> exists u :: u in users && u.id == c.userId && v.user.value == RefOf(u))
      && (UniqueUserIds(users) ==> forall k :: 0 <= k < |users| && users[k].id == c.userId ==> v.user == Some(RefOf(users[k])))
  {
    var owned := OwnedPhotos(photos, ObjectIdHex(id));
    var wanted := CommenterIds(owned);
    var us := UsersWithIds(users, wanted);
    var c := owned[i].comments[j];
    assert c.userId in wanted;
    UserMapLookup(us, c.userId);
    forall u | u in users && u.id == c.userId ensures u in us {
      var k :| 0 <= k < |users| && users[k] == u;
    }
    if UniqueUserIds(users) {
      forall k | 0 <= k < |users| && users[k].id == c.userId
        ensures PhotosOfUser(session, users, photos, id).body[i].comments[j].user == Some(RefOf(users[k]))
      {
        var v := PhotosOfUser(session, users, photos, id).body[i].comments[j];
        var u :| u in users && u.id == c.userId && v.user.value == RefOf(u);
        var k' :| 0 <= k' < |users| && users[k'] == u;
        assert k' == k;
      }
    }
  }

  // ---------------------------------------------------------------------------
  // GET /user/details/:id

  function DateTimeKey(p: Photo): int { p.dateTime }
  function CommentCountKey(p: Photo): int { |p.comments| }

  /**
   * `photos.reduce((best, photo) => (!best || key(photo) > key(best)) ? photo : best, null)`,
   * the left fold written over the prefix.
   */
  function ReduceMax(ps: seq<Photo>, key: Photo -> int): (r: Option<Photo>)
    ensures r.None? <==> ps == []
    ensures r.Some? ==> r.value in ps
  {
    if ps == [] then None
    else
      var best := ReduceMax(ps[..|ps| - 1], key);
      var p := ps[|ps| - 1];
      assert ps == ps[..|ps| - 1] + [p];
      if best.None? || key(p) > key(best.value) then Some(p) else best
  }

  /** `ps[i]` has the largest key, and every earlier photo a strictly smaller one. */
  ghost predicate IsFirstMax(ps: seq<Photo>, key: Photo -> int, i: nat) {
    && i < |ps|
    && (forall j :: 0 <= j < |ps| ==> key(ps[j]) <= key(ps[i]))
    && (forall j :: 0 <= j < i ==> key(ps[j]) < key(ps[i]))
  }

  /** The strict `>` makes the fold pick the first photo with the largest key. */
  lemma {:induction false} ReduceMaxIsFirstMax(ps: seq<Photo>, key: Photo -> int) returns (i: nat)
    requires ps != []
    ensures IsFirstMax(ps, key, i) && ReduceMax(ps, key) == Some(ps[i])
  {
    var n := |ps| - 1;
    if n == 0 {
      i := 0;
    } else {
      var init := ps[..n];
      var k := ReduceMaxIsFirstMax(init, key);
      assert forall j :: 0 <= j < n ==> ps[j] == init[j];
      if key(ps[n]) > key(init[k]) {
        i := n;
      } else {
        i := k;
      }
    }
  }

  datatype RecentView = RecentView(id: Id, fileName: string, dateTime: int)
  datatype CommentedView = CommentedView(id: Id, fileName: string, commentCount: nat)
  /** `{ recentPhoto, mostCommentedPhoto }`; `None` is `null`. */
  datatype Details = Details(recentPhoto: Option<RecentView>, mostCommentedPhoto: Option<CommentedView>)

  /** `GET /user/details/:id` behind `requireLogin`. */
  function UserDetails(session: Option<Id>, photos: seq<Photo>, id: string): (r: Reply<Details>)
    ensures !Truthy(session) ==> r == Fail(401, NotLoggedInMessage)
    ensures Truthy(session) && !IsValidObjectId(id) ==> r == Fail(400, InvalidUserIdMessage)
    ensures Truthy(session) && IsValidObjectId(id) ==> r.Ok?
    ensures r.Ok? ==>
      && (r.body.recentPhoto.None? <==> OwnedPhotos(photos, ObjectIdHex(id)) == [])
      && (r.body.mostCommentedPhoto.None? <==> OwnedPhotos(photos, ObjectIdHex(id)) == [])
  {
    if RequireLogin(session).Reject? then Fail(401, NotLoggedInMessage)
    else if !IsValidObjectId(id) then Fail(400, InvalidUserIdMessage)
    else
      var owned := OwnedPhotos(photos, ObjectIdHex(id));
      if |owned| == 0 then Ok(Details(None, None))
      else
        var recent := ReduceMax(owned, DateTimeKey);
        var most := ReduceMax(owned, CommentCountKey);
        Ok(Details(
          if recent.Some? then Some(RecentView(recent.value.id, recent.value.fileName, recent.value.dateTime)) else None,
          if most.Some? then Some(CommentedView(most.value.id, most.value.fileName, |most.value.comments|)) else None))
  }

  /**
   * For a user with photos, `recentPhoto` is the first photo with the latest
   * `date_time` and `mostCommentedPhoto` the first with the most comments,
   * carrying that photo's comment count.
   */
  lemma UserDetailsSelection(session: Option<Id>, photos: seq<Photo>, id: string) returns (i: nat, k: nat)
    requires Truthy(session) && IsValidObjectId(id) && OwnedPhotos(photos, ObjectIdHex(id)) != []
    ensures
      var owned := OwnedPhotos(photos, ObjectIdHex(id));
      var d := UserDetails(session, photos, id).body;
      && IsFirstMax(owned, DateTimeKey, i)
      && d.recentPhoto == Some(RecentView(owned[i].id, owned[i].fileName, owned[i].dateTime))
      && IsFirstMax(owned, CommentCountKey, k)
      && d.mostCommentedPhoto == Some(CommentedView(owned[k].id, owned[k].fileName, |owned[k].comments|))
  {
    var owned := OwnedPhotos(photos, ObjectIdHex(id));
    i := ReduceMaxIsFirstMax(owned, DateTimeKey);
    k := ReduceMaxIsFirstMax(owned, CommentCountKey);
  }
}
