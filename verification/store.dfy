/**
 The user collection and the handlers that work on it. Every handler loads
 the whole users array, finds the caller's record and checks its guards in a
 fixed order (ChangePassword checks for empty passwords before loading). The
 mutating handlers then change the array in memory and write the whole
 array back, except that FavAdd skips the write when the id is already
 present; the read-only handlers never write.
 The array is the field `users`; each write-back of the whole array is
 counted in `saves`. Protected handlers receive the caller's id as the
 authentication gate (module Auth) verified it.
 */
module Store {
  import opened Records

  class UserStore {
    /** The users array as loaded from users.json. */
    var users: seq<User>
    /** How many times the whole array has been written back to users.json. */
    var saves: nat
    /** The password hasher the service was started with. */
    const hasher: Hasher

    /** A store over the array as read; an absent or unreadable file reads as []. */
    constructor (loaded: seq<User>, hasher: Hasher)
      ensures users == loaded && saves == 0 && this.hasher == hasher
    {
      users := loaded;
      saves := 0;
      this.hasher := hasher;
    }

    // -------------------------------------------------------------------
    // Read-only handlers.
    // -------------------------------------------------------------------

    /**
     POST /login: the first record holding `email`, and whether `password`
     verifies against its hash. On success the claim a session token would
     carry.
     */
    function Login(email: string, password: string): (r: Result<Claim>)
      reads this
      ensures r.Ok? || r == Err(EmailNotFound) || r == Err(WrongPassword)
      ensures r == Err(EmailNotFound) <==> !EmailInUse(users, email)
      ensures r.Ok? ==>
        (exists i :: FirstWithEmail(users, email, i) &&
          hasher.verify(password, users[i].passwordHash) &&
          r.value == Claim(users[i].id, users[i].fullname))
      ensures r == Err(WrongPassword) ==>
        (exists i :: FirstWithEmail(users, email, i) &&
          !hasher.verify(password, users[i].passwordHash))
      ensures EmailsUnique(users) ==>
        (r.Ok? <==> exists i :: 0 <= i < |users| && users[i].email == email &&
                                hasher.verify(password, users[i].passwordHash))
    {
      match FindByEmail(users, email)
      case None => Err(EmailNotFound)
      case Some(i) =>
        if hasher.verify(password, users[i].passwordHash) then
          Ok(Claim(users[i].id, users[i].fullname))
        else
          Err(WrongPassword)
    }

    /** GET /api/profile: the caller's public fields, never the hash. */
    function GetProfile(caller: UserId): (r: Result<Profile>)
      reads this
      ensures r.Ok? || r == Err(UserNotFound)
      ensures r == Err(UserNotFound) <==> forall j :: 0 <= j < |users| ==> users[j].id != caller
      ensures r.Ok? ==>
        (exists i :: FirstWithId(users, caller, i) &&
          r.value == Profile(users[i].fullname, users[i].email, users[i].phoneNumber))
    {
      match FindById(users, caller)
      case None => Err(UserNotFound)
      case Some(i) => Ok(Profile(users[i].fullname, users[i].email, users[i].phoneNumber))
    }

    /** GET /api/favorites/status/:storyId: whether the caller's favourites hold `storyId`. */
    function FavStatus(caller: UserId, storyId: string): (r: Result<bool>)
      reads this
      ensures r.Ok? || r == Err(UserNotFound)
      ensures r == Err(UserNotFound) <==> forall j :: 0 <= j < |users| ==> users[j].id != caller
      ensures r.Ok? ==>
        (exists i :: FirstWithId(users, caller, i) &&
          (r.value <==> storyId in users[i].favorites))
    {
      match FindById(users, caller)
      case None => Err(UserNotFound)
      case Some(i) => Ok(storyId in users[i].favorites)
    }

    /**
     GET /api/favorites: the catalogue entries whose id the caller has
     favourited, in catalogue order; favourites naming no story are dropped.
     */
    function FavList(caller: UserId, stories: seq<Story>): (r: Result<seq<Story>>)
      reads this
      ensures r.Ok? || r == Err(UserNotFound)
      ensures r == Err(UserNotFound) <==> forall j :: 0 <= j < |users| ==> users[j].id != caller
      ensures r.Ok? ==>
        (exists i :: FirstWithId(users, caller, i) &&
          (forall s :: s in r.value <==> s in stories && s.id in users[i].favorites) &&
          r.value == FavoriteStories(stories, users[i].favorites))
    {
      match FindById(users, caller)
      case None => Err(UserNotFound)
      case Some(i) => Ok(FavoriteStories(stories, users[i].favorites))
    }

    // -------------------------------------------------------------------
    // Handlers that change the users array.
    // -------------------------------------------------------------------

    /**
     POST /register: rejects an empty field, then an email already held;
     otherwise appends one record with the hashed password, an empty phone
     number and no favourites, and writes the array back.
     */
    method Register(fullname: string, email: string, password: string, freshId: UserId)
      returns (r: Result<()>)
      modifies this
      ensures r.Ok? || r == Err(MissingFields) || r == Err(EmailTaken)
      ensures r == Err(MissingFields) <==> fullname == [] || email == [] || password == []
      ensures r == Err(EmailTaken) <==>
        fullname != [] && email != [] && password != [] && EmailInUse(old(users), email)
      ensures r.Err? ==> users == old(users) && saves == old(saves)
      ensures r.Ok? ==>
        users == old(users) + [User(freshId, fullname, email, hasher.hash(password), "", [])] &&
        saves == old(saves) + 1
      ensures EmailsUnique(old(users)) ==> EmailsUnique(users)
      ensures FavoritesDistinct(old(users)) ==> FavoritesDistinct(users)
      ensures r.Ok? && Sound(hasher) ==> Login(email, password) == Ok(Claim(freshId, fullname))
    {
      if fullname == [] || email == [] || password == [] {
        return Err(MissingFields);
      }
      if FindByEmail(users, email).Some? {
        return Err(EmailTaken);
      }
      var n := |users|;
      users := users + [User(freshId, fullname, email, hasher.hash(password), "", [])];
      saves := saves + 1;
      FindByEmailIsFirst(users, email, n);
      r := Ok(());
    }

    /**
     PUT /api/profile: overwrites the caller's fullname, email and phone
     number with the given values; email uniqueness is not re-checked.
     */
    method UpdateProfile(caller: UserId, fullname: string, email: string, phoneNumber: string)
      returns (r: Result<Profile>)
      modifies this
      ensures r.Ok? || r == Err(UserNotFound)
      ensures r == Err(UserNotFound) <==> FindById(old(users), caller).None?
      ensures r.Err? ==> users == old(users) && saves == old(saves)
      ensures r.Ok? ==>
        var i := FindById(old(users), caller).value;
        users == old(users)[i := old(users)[i].(fullname := fullname, email := email, phoneNumber := phoneNumber)] &&
        saves == old(saves) + 1 &&
        r.value == Profile(fullname, email, phoneNumber)
      ensures r.Ok? ==> GetProfile(caller) == Ok(Profile(fullname, email, phoneNumber))
      ensures r.Ok? && EmailsUnique(old(users)) ==>
        (EmailsUnique(users) <==>
          forall j :: 0 <= j < |old(users)| && j != FindById(old(users), caller).value ==>
            old(users)[j].email != email)
      ensures FavoritesDistinct(old(users)) ==> FavoritesDistinct(users)
    {
      var found := FindById(users, caller);
      if found.None? {
        return Err(UserNotFound);
      }
      var i := found.value;
      ghost var before := users;
      users := users[i := users[i].(fullname := fullname, email := email, phoneNumber := phoneNumber)];
      saves := saves + 1;
      FindByIdKeepsIds(before, users, caller);
      r := Ok(Profile(fullname, email, phoneNumber));
    }

    /**
     PUT /api/password: rejects an empty old or new password before any
     lookup, then a missing caller, then an old password that does not
     verify; otherwise stores the hash of the new password.
     */
    method ChangePassword(caller: UserId, oldPassword: string, newPassword: string)
      returns (r: Result<()>)
      modifies this
      ensures r.Ok? || r == Err(MissingFields) || r == Err(UserNotFound) || r == Err(WrongPassword)
      ensures r == Err(MissingFields) <==> oldPassword == [] || newPassword == []
      ensures r == Err(UserNotFound) <==>
        oldPassword != [] && newPassword != [] && FindById(old(users), caller).None?
      ensures r == Err(WrongPassword) <==>
        oldPassword != [] && newPassword != [] && FindById(old(users), caller).Some? &&
        !hasher.verify(oldPassword, old(users)[FindById(old(users), caller).value].passwordHash)
      ensures r.Err? ==> users == old(users) && saves == old(saves)
      ensures r.Ok? ==>
        var i := FindById(old(users), caller).value;
        users == old(users)[i := old(users)[i].(passwordHash := hasher.hash(newPassword))] &&
        saves == old(saves) + 1
      ensures EmailsUnique(old(users)) ==> EmailsUnique(users)
      ensures FavoritesDistinct(old(users)) ==> FavoritesDistinct(users)
      ensures r.Ok? ==> FindById(users, caller).Some?
      ensures r.Ok? && Sound(hasher) && EmailsUnique(users) ==>
        var i := FindById(users, caller).value;
        Login(users[i].email, newPassword) == Ok(Claim(caller, users[i].fullname))
      ensures r.Ok? && Binding(hasher) && EmailsUnique(users) && oldPassword != newPassword ==>
        Login(users[FindById(users, caller).value].email, oldPassword) == Err(WrongPassword)
    {
      if oldPassword == [] || newPassword == [] {
        return Err(MissingFields);
      }
      var found := FindById(users, caller);
      if found.None? {
        return Err(UserNotFound);
      }
      var i := found.value;
      if !hasher.verify(oldPassword, users[i].passwordHash) {
        return Err(WrongPassword);
      }
      ghost var before := users;
      users := users[i := users[i].(passwordHash := hasher.hash(newPassword))];
      saves := saves + 1;
      FindByIdKeepsIds(before, users, caller);
      if EmailsUnique(users) {
        UniqueEmailFindsOwner(users, i);
      }
      r := Ok(());
    }

    /**
     POST /api/favorites/:storyId: appends the id unless the caller already
     has it, and writes the array back only when it appended.
     */
    method FavAdd(caller: UserId, storyId: string) returns (r: Result<()>)
      modifies this
      ensures r.Ok? || r == Err(UserNotFound)
      ensures r == Err(UserNotFound) <==> FindById(old(users), caller).None?
      ensures r.Err? ==> users == old(users) && saves == old(saves)
      ensures r.Ok? ==>
        var i := FindById(old(users), caller).value;
        users == old(users)[i := old(users)[i].(favorites := AddFavorite(old(users)[i].favorites, storyId))] &&
        saves == old(saves) + (if storyId in old(users)[i].favorites then 0 else 1)
      ensures r.Ok? && storyId in old(users)[FindById(old(users), caller).value].favorites ==>
        users == old(users)
      ensures r.Ok? ==> FavStatus(caller, storyId) == Ok(true)
      ensures EmailsUnique(old(users)) ==> EmailsUnique(users)
      ensures FavoritesDistinct(old(users)) ==> FavoritesDistinct(users)
    {
      var found := FindById(users, caller);
      if found.None? {
        return Err(UserNotFound);
      }
      var i := found.value;
      ghost var before := users;
      if storyId !in users[i].favorites {
        users := users[i := users[i].(favorites := users[i].favorites + [storyId])];
        saves := saves + 1;
      } else {
        assert users == before[i := before[i].(favorites := AddFavorite(before[i].favorites, storyId))];
      }
      FindByIdKeepsIds(before, users, caller);
      r := Ok(());
    }

    /**
     DELETE /api/favorites/:storyId: filters the id out of the caller's
     favourites and writes the array back, whether or not the id was there.
     */
    method FavRemove(caller: UserId, storyId: string) returns (r: Result<()>)
      modifies this
      ensures r.Ok? || r == Err(UserNotFound)
      ensures r == Err(UserNotFound) <==> FindById(old(users), caller).None?
      ensures r.Err? ==> users == old(users) && saves == old(saves)
      ensures r.Ok? ==>
        var i := FindById(old(users), caller).value;
        users == old(users)[i := old(users)[i].(favorites := RemoveFavorite(old(users)[i].favorites, storyId))] &&
        saves == old(saves) + 1
      ensures r.Ok? ==> FavStatus(caller, storyId) == Ok(false)
      ensures EmailsUnique(old(users)) ==> EmailsUnique(users)
      ensures FavoritesDistinct(old(users)) ==> FavoritesDistinct(users)
    {
      var found := FindById(users, caller);
      if found.None? {
        return Err(UserNotFound);
      }
      var i := found.value;
      ghost var before := users;
      users := users[i := users[i].(favorites := RemoveFavorite(users[i].favorites, storyId))];
      saves := saves + 1;
      FindByIdKeepsIds(before, users, caller);
      r := Ok(());
    }
  }
}
