/** Clients of the service: register, log in, and work on the favourites
    list, verified against the contracts of `UserStore`'s methods and the
    definitions of its functions. */
module Scenario {
  import opened Bcrypt
  import opened UserService

  /** A fresh registration can log in with its password and not with another
      one the hasher rejects; the name cannot be registered twice. */
  method RegisterThenLogin(h: Hasher, salt: Salt, salt2: Salt)
    requires Agrees(h)
    requires !h.compare("wrong", h.hash("pw1", SaltRounds, salt))
  {
    var store := new UserStore(h);
    assert !NameTaken(store.users, "alice");
    var reg := store.RegisterUser("alice", "pw1", "pw1", salt);
    assert reg == Resolved(RegisteredMessage("alice"));

    var login := store.CheckUser("alice", "pw1");
    assert login.Resolved? && login.value.user.userName == "alice";
    var alice := login.value;

    var bad := store.CheckUser("alice", "wrong");
    assert bad == Rejected(IncorrectPassword("alice"));

    assert NameTaken(store.users, "alice");
    var again := store.RegisterUser("alice", "other", "other", salt2);
    assert again == Rejected(UserNameTaken);
    assert store.users[alice.id] == alice.user;

    var mismatch := store.RegisterUser("bob", "a", "b", salt2);
    assert mismatch == Rejected(PasswordsDoNotMatch);
  }

  /** Adding an item twice to an empty favourites list, then removing it. */
  method AddTwiceThenRemove(store: UserStore, id: UserId)
    requires store.Valid() && store.GetFavourites(id) == Resolved([])
    modifies store
  {
    var a1 := store.AddFavourite(id, "item42");
    assert a1 == Resolved(["item42"]);
    var a2 := store.AddFavourite(id, "item42");
    assert a2 == Resolved(["item42"]);
    var r1 := store.RemoveFavourite(id, "item42");
    assert r1.Resolved? && "item42" !in r1.value && |r1.value| <= 1;
    assert r1 == Resolved([]);
  }
}
