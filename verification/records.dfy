/**
 The values the service keeps in users.json and reads from stories.json,
 the lookups every handler starts with, and the two list operations on a
 user's favourites. Everything here is a pure value: the handlers that
 change the user array live in module Store.
 */
module Records {

  datatype Option<+T> = None | Some(value: T)

  /** Every way a request is refused. StatusCode gives the HTTP status sent. */
  datatype Failure =
    | MissingFields   // a required body field is empty
    | EmailTaken      // registration with an email some user already holds
    | EmailNotFound   // login with an email no user holds
    | WrongPassword   // the password, or the old password, does not verify
    | UserNotFound    // no record carries the caller's id
    | NoToken         // no bearer token in the Authorization header
    | InvalidToken    // the bearer token does not verify

  datatype Result<+T> = Ok(value: T) | Err(error: Failure)

  /**
   The HTTP status a refusal is sent with: 400 for a bad request body, 401
   when no credential or a wrong password is presented, 403 for a token
   that does not verify, 404 for an unknown email or user.
   */
  function StatusCode(f: Failure): (code: int)
    ensures code == 400 <==> f == MissingFields || f == EmailTaken
    ensures code == 401 <==> f == NoToken || f == WrongPassword
    ensures code == 403 <==> f == InvalidToken
    ensures code == 404 <==> f == EmailNotFound || f == UserNotFound
  {
    match f
    case MissingFields => 400
    case EmailTaken => 400
    case EmailNotFound => 404
    case WrongPassword => 401
    case UserNotFound => 404
    case NoToken => 401
    case InvalidToken => 403
  }

  /** A user id is the millisecond timestamp taken at registration. */
  type UserId = int

  /** One element of the users array; `passwordHash` is the field the file calls `password`. */
  datatype User = User(
    id: UserId,
    fullname: string,
    email: string,
    passwordHash: string,
    phoneNumber: string,
    favorites: seq<string>)

  /** A catalogue entry; `details` stands for every field other than the id. */
  datatype Story = Story(id: string, details: string)

  /** The payload a session token carries. */
  datatype Claim = Claim(id: UserId, fullname: string)

  /** What the profile endpoint discloses: never the password hash. */
  datatype Profile = Profile(fullname: string, email: string, phoneNumber: string)

  /** The salted password hasher, as a pair of functions the model does not look into. */
  datatype Hasher = Hasher(hash: string -> string, verify: (string, string) -> bool)

  /** A password always verifies against its own hash. */
  ghost predicate Sound(h: Hasher)
  {
    forall pw :: h.verify(pw, h.hash(pw))
  }

  /** Only the hashed password verifies against a hash. */
  ghost predicate Binding(h: Hasher)
  {
    forall pw, other :: h.verify(other, h.hash(pw)) ==> other == pw
  }

  // ---------------------------------------------------------------------
  // Lookups: `users.find` / `users.findIndex` by id and by email.
  // ---------------------------------------------------------------------

  /** `i` is the first index whose record carries `id`. */
  predicate FirstWithId(users: seq<User>, id: UserId, i: int)
  {
    0 <= i < |users| && users[i].id == id &&
    forall j :: 0 <= j < i ==> users[j].id != id
  }

  /** `i` is the first index whose record carries `email`. */
  predicate FirstWithEmail(users: seq<User>, email: string, i: int)
  {
    0 <= i < |users| && users[i].email == email &&
    forall j :: 0 <= j < i ==> users[j].email != email
  }

  predicate EmailInUse(users: seq<User>, email: string)
  {
    exists i :: 0 <= i < |users| && users[i].email == email
  }

  function FindById(users: seq<User>, id: UserId): (r: Option<nat>)
    ensures r.None? <==> forall j :: 0 <= j < |users| ==> users[j].id != id
    ensures r.Some? ==> FirstWithId(users, id, r.value)
  {
    if |users| == 0 then None
    else if users[0].id == id then Some(0)
    else
      match FindById(users[1..], id)
      case None => None
      case Some(k) => Some(k + 1)
  }

  function FindByEmail(users: seq<User>, email: string): (r: Option<nat>)
    ensures r.None? <==> !EmailInUse(users, email)
    ensures r.Some? ==> FirstWithEmail(users, email, r.value)
  {
    if |users| == 0 then None
    else if users[0].email == email then Some(0)
    else
      match FindByEmail(users[1..], email)
      case None => None
      case Some(k) => Some(k + 1)
  }

  /** The lookup by id returns the first matching index, whichever it is. */
  lemma FindByIdIsFirst(users: seq<User>, id: UserId, i: int)
    requires FirstWithId(users, id, i)
    ensures FindById(users, id) == Some(i)
  {
  }

  /** The lookup by email returns the first matching index, whichever it is. */
  lemma FindByEmailIsFirst(users: seq<User>, email: string, i: int)
    requires FirstWithEmail(users, email, i)
    ensures FindByEmail(users, email) == Some(i)
  {
  }

  /**
   Rewriting fields other than the ids does not move the lookup by id: the
   first index carrying an id is determined by the ids alone.
   */
  lemma FindByIdKeepsIds(a: seq<User>, b: seq<User>, id: UserId)
    requires |a| == |b|
    requires forall j :: 0 <= j < |a| ==> a[j].id == b[j].id
    ensures FindById(a, id) == FindById(b, id)
  {
  }

  // ---------------------------------------------------------------------
  // Store-wide properties.
  // ---------------------------------------------------------------------

  predicate EmailsUnique(users: seq<User>)
  {
    forall i, j :: 0 <= i < j < |users| ==> users[i].email != users[j].email
  }

  predicate NoDuplicates(favs: seq<string>)
  {
    forall i, j :: 0 <= i < j < |favs| ==> favs[i] != favs[j]
  }

  predicate FavoritesDistinct(users: seq<User>)
  {
    forall i :: 0 <= i < |users| ==> NoDuplicates(users[i].favorites)
  }

  /**
   With unique emails the lookup by email finds the one record holding it,
   so the first match is the only match.
   */
  lemma {:induction false} UniqueEmailFindsOwner(users: seq<User>, i: int)
    requires EmailsUnique(users)
    requires 0 <= i < |users|
    ensures FindByEmail(users, users[i].email) == Some(i)
  {
    FindByEmailIsFirst(users, users[i].email, i);
  }

  /**
   Overwriting one record's email, as the profile update does, can break
   email uniqueness: two users, the second takes the first's address.
   */
  lemma ProfileEmailOverwriteMayDuplicate()
    ensures exists users: seq<User>, i: nat, e: string ::
      i < |users| && EmailsUnique(users) &&
      !EmailsUnique(users[i := users[i].(email := e)])
  {
    var a := User(1, "Ana", "a@x.com", "h1", "", []);
    var b := User(2, "Budi", "b@x.com", "h2", "", []);
    var users := [a, b];
    assert EmailsUnique(users);
    var after := users[1 := users[1].(email := "a@x.com")];
    assert after[0].email == after[1].email;
    assert !EmailsUnique(after);
  }

  // ---------------------------------------------------------------------
  // Favourites: `favorites.push` guarded by `includes`, and `filter`.
  // ---------------------------------------------------------------------

  /** The favourites after adding `storyId`: unchanged if present, else the id at the end. */
  function AddFavorite(favs: seq<string>, storyId: string): (r: seq<string>)
    ensures storyId in r
    ensures forall x :: x in r <==> x in favs || x == storyId
    ensures storyId in favs ==> r == favs
    ensures storyId !in favs ==> |r| == |favs| + 1 && r[..|favs|] == favs && r[|favs|] == storyId
    ensures NoDuplicates(favs) ==> NoDuplicates(r)
  {
    if storyId in favs then favs else favs + [storyId]
  }

  /** Adding the same id twice is the same as adding it once. */
  lemma AddFavoriteIdempotent(favs: seq<string>, storyId: string)
    ensures AddFavorite(AddFavorite(favs, storyId), storyId) == AddFavorite(favs, storyId)
  {
  }

  /** The favourites with every occurrence of `storyId` filtered out. */
  function RemoveFavorite(favs: seq<string>, storyId: string): (r: seq<string>)
    ensures storyId !in r
    ensures forall x :: x in r <==> x in favs && x != storyId
    ensures |r| <= |favs|
    ensures storyId !in favs ==> r == favs
    ensures NoDuplicates(favs) ==> NoDuplicates(r)
  {
    if favs == [] then []
    else if favs[0] == storyId then RemoveFavorite(favs[1..], storyId)
    else
      var rest := RemoveFavorite(favs[1..], storyId);
      assert NoDuplicates(favs) ==> favs[0] !in rest by {
        if NoDuplicates(favs) {
          assert forall k :: 0 <= k < |favs[1..]| ==> favs[1..][k] == favs[k + 1];
        }
      }
      assert forall j :: 1 <= j < |rest| + 1 ==> ([favs[0]] + rest)[j] == rest[j - 1];
      [favs[0]] + rest
  }

  /**
   Removal works element by element: it distributes over concatenation, so
   the remaining ids keep their relative order.
   */
  lemma {:induction false} RemoveFavoriteConcat(a: seq<string>, b: seq<string>, storyId: string)
    ensures RemoveFavorite(a + b, storyId) == RemoveFavorite(a, storyId) + RemoveFavorite(b, storyId)
  {
    if a == [] {
      assert a + b == b;
    } else {
      assert (a + b)[1..] == a[1..] + b;
      RemoveFavoriteConcat(a[1..], b, storyId);
    }
  }

  /** Removing an id a second time changes nothing. */
  lemma RemoveFavoriteIdempotent(favs: seq<string>, storyId: string)
    ensures RemoveFavorite(RemoveFavorite(favs, storyId), storyId) == RemoveFavorite(favs, storyId)
  {
  }

  /** The catalogue entries whose id is among `favs`, in catalogue order. */
  function FavoriteStories(stories: seq<Story>, favs: seq<string>): (r: seq<Story>)
    ensures forall s :: s in r <==> s in stories && s.id in favs
    ensures |r| <= |stories|
  {
    if stories == [] then []
    else if stories[0].id in favs then [stories[0]] + FavoriteStories(stories[1..], favs)
    else FavoriteStories(stories[1..], favs)
  }

  /** The listing keeps catalogue order: it distributes over concatenation of the catalogue. */
  lemma {:induction false} FavoriteStoriesConcat(a: seq<Story>, b: seq<Story>, favs: seq<string>)
    ensures FavoriteStories(a + b, favs) == FavoriteStories(a, favs) + FavoriteStories(b, favs)
  {
    if a == [] {
      assert a + b == b;
    } else {
      assert (a + b)[1..] == a[1..] + b;
      FavoriteStoriesConcat(a[1..], b, favs);
    }
  }

  /**
   The listing depends only on which catalogue ids are favourites: order
   and repetition in the favourites, and ids that name no story, do not matter.
   */
  lemma {:induction false} FavoriteStoriesByMembership(stories: seq<Story>, f1: seq<string>, f2: seq<string>)
    requires forall k :: 0 <= k < |stories| ==> (stories[k].id in f1 <==> stories[k].id in f2)
    ensures FavoriteStories(stories, f1) == FavoriteStories(stories, f2)
  {
    if stories != [] {
      FavoriteStoriesByMembership(stories[1..], f1, f2);
    }
  }

  /** A favourite id that names no story is dropped from the listing without effect. */
  lemma StaleFavoriteIgnored(stories: seq<Story>, favs: seq<string>, stale: string)
    requires forall k :: 0 <= k < |stories| ==> stories[k].id != stale
    ensures FavoriteStories(stories, favs + [stale]) == FavoriteStories(stories, favs)
  {
    FavoriteStoriesByMembership(stories, favs + [stale], favs);
  }
}
