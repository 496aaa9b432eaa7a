/** The user-account service: registration, login check, and the two
    per-user lists (favourites and history) over one collection of users
    with a unique index on the user name. */
module UserService {
  import opened MongoArrays
  import opened Bcrypt

  /** The store-assigned `_id` of a user document. */
  type UserId = nat

  /** One user document: name, bcrypt hash, and the two item lists. */
  datatype User = User(userName: string, password: string, favourites: seq<string>, history: seq<string>)

  /** The two array fields the list operations work on. */
  datatype Field = Favourites | History

  /** A user together with its id, as a successful login returns it. */
  datatype Account = Account(id: UserId, user: User)

  /** Every way an operation of the service rejects. */
  datatype Rejection =
    | PasswordsDoNotMatch
    | UserNameTaken
    | UserNotFound(userName: string)
    | IncorrectPassword(userName: string)
    | CannotGet(field: Field, id: UserId)
    | CannotUpdate(field: Field, id: UserId)

  /** How an operation settles: resolved with a value or rejected with a reason. */
  datatype Result<T> = Resolved(value: T) | Rejected(reason: Rejection)

  function Other(f: Field): Field {
    match f
    case Favourites => History
    case History => Favourites
  }

  function FieldOf(u: User, f: Field): seq<string> {
    match f
    case Favourites => u.favourites
    case History => u.history
  }

  /** `u` with field `f` replaced by `l` and everything else kept. */
  function WithField(u: User, f: Field, l: seq<string>): (v: User)
    ensures FieldOf(v, f) == l
    ensures FieldOf(v, Other(f)) == FieldOf(u, Other(f))
    ensures v.userName == u.userName && v.password == u.password
    ensures l == FieldOf(u, f) ==> v == u
  {
    match f
    case Favourites => u.(favourites := l)
    case History => u.(history := l)
  }

  function FieldName(f: Field): string {
    match f
    case Favourites => "favourites"
    case History => "history"
  }

  /** Decimal rendering of an id, as it appears inside a message: a
      non-empty string of digits with no leading zero. */
  function Digits(n: nat): (r: string)
    ensures 0 < |r| && forall c :: c in r ==> '0' <= c <= '9'
    ensures n < 10 <==> |r| == 1
    ensures n >= 10 ==> r[0] != '0'
    decreases n
  {
    if n < 10 then ["0123456789"[n]] else Digits(n / 10) + ["0123456789"[n % 10]]
  }

  /** Distinct ids render differently. */
  lemma {:induction false} DigitsInjective(a: nat, b: nat)
    requires Digits(a) == Digits(b)
    ensures a == b
    decreases a
  {
    var da, db := Digits(a), Digits(b);
    if a >= 10 {
      assert da[..|da| - 1] == Digits(a / 10) && da[|da| - 1] == "0123456789"[a % 10];
      assert db[..|db| - 1] == Digits(b / 10) && db[|db| - 1] == "0123456789"[b % 10];
      DigitsInjective(a / 10, b / 10);
    }
  }

  /** The message string each rejection carries: the exact text the service
      rejects with. Behind a fixed prefix, a message carries the user name,
      or the field and the id, and each can be read back from it. */
  function Message(r: Rejection): (m: string)
    ensures r.UserNotFound? ==> |m| == 20 + |r.userName| && m[..20] == "Unable to find user " && m[20..] == r.userName
    ensures r.IncorrectPassword? ==> |m| == 28 + |r.userName| && m[..28] == "Incorrect password for user " && m[28..] == r.userName
    ensures r.CannotGet? || r.CannotUpdate? ==>
              var p := if r.CannotGet? then 14 else 17;
              var q := p + |FieldName(r.field)|;
              && |m| == q + 19 + |Digits(r.id)|
              && m[..p] == (if r.CannotGet? then "Unable to get " else "Unable to update ")
              && m[p..q] == FieldName(r.field)
              && m[q..q + 19] == " for user with id: "
              && m[q + 19..] == Digits(r.id)
  {
    match r
    case PasswordsDoNotMatch => "Passwords do not match"
    case UserNameTaken => "User Name already taken"
    case UserNotFound(n) => "Unable to find user " + n
    case IncorrectPassword(n) => "Incorrect password for user " + n
    case CannotGet(f, id) => "Unable to get " + FieldName(f) + " for user with id: " + Digits(id)
    case CannotUpdate(f, id) => "Unable to update " + FieldName(f) + " for user with id: " + Digits(id)
  }

  /** Each rejection has its own message: a caller that sees only the
      string can tell the reason, the user name, the field and the id. */
  lemma MessageInjective(a: Rejection, b: Rejection)
    requires Message(a) == Message(b)
    ensures a == b
  {
    var m := Message(a);
    if a.UserNotFound? && b.UserNotFound? {
      assert a.userName == m[20..] == b.userName;
    } else if a.IncorrectPassword? && b.IncorrectPassword? {
      assert a.userName == m[28..] == b.userName;
    } else if (a.CannotGet? && b.CannotGet?) || (a.CannotUpdate? && b.CannotUpdate?) {
      var p := if a.CannotGet? then 14 else 17;
      assert m[p] == FieldName(a.field)[0] == FieldName(b.field)[0];
      assert a.field == b.field;
      var q := p + |FieldName(a.field)| + 19;
      assert Digits(a.id) == m[q..] == Digits(b.id);
      DigitsInjective(a.id, b.id);
    } else {
      MessageKey(a);
      MessageKey(b);
    }
  }

  /** The first and the eleventh character of a message tell its reason. */
  function Key(r: Rejection): (char, char) {
    match r
    case PasswordsDoNotMatch => ('P', 'd')
    case UserNameTaken => ('U', 'a')
    case UserNotFound(_) => ('U', 'f')
    case IncorrectPassword(_) => ('I', 'p')
    case CannotGet(_, _) => ('U', 'g')
    case CannotUpdate(_, _) => ('U', 'u')
  }

  lemma MessageKey(r: Rejection)
    ensures |Message(r)| > 10 && (Message(r)[0], Message(r)[10]) == Key(r)
  {
    match r
    case PasswordsDoNotMatch =>
    case UserNameTaken =>
    case UserNotFound(_) =>
    case IncorrectPassword(_) =>
    case CannotGet(_, _) =>
    case CannotUpdate(_, _) =>
  }

  /** The answer of a successful registration; the name can be read back
      from between the fixed prefix and suffix. */
  function RegisteredMessage(userName: string): (m: string)
    ensures |m| == |userName| + 29
    ensures m[..5] == "User " && m[|m| - 24..] == " successfully registered"
    ensures m[5..|m| - 24] == userName
  {
    "User " + userName + " successfully registered"
  }

  ghost predicate NameTaken(users: map<UserId, User>, userName: string) {
    exists id :: id in users && users[id].userName == userName
  }

  ghost predicate UniqueNames(users: map<UserId, User>) {
    forall a, b :: a in users && b in users && users[a].userName == users[b].userName ==> a == b
  }

  /** `byName` indexes exactly the users of `users` by their name. */
  ghost predicate Indexed(users: map<UserId, User>, byName: map<string, UserId>) {
    && (forall n :: n in byName ==> byName[n] in users && users[byName[n]].userName == n)
    && (forall id :: id in users ==> users[id].userName in byName && byName[users[id].userName] == id)
  }

  ghost predicate ListsWellFormed(users: map<UserId, User>) {
    forall id :: id in users ==> WellFormed(users[id].favourites) && WellFormed(users[id].history)
  }

  /** Replacing one user's lists, without renaming it, keeps the index and
      the list invariant. */
  lemma ReplaceListsKeepsInvariant(users: map<UserId, User>, byName: map<string, UserId>, id: UserId, v: User)
    requires Indexed(users, byName) && ListsWellFormed(users)
    requires id in users && v.userName == users[id].userName
    requires WellFormed(v.favourites) && WellFormed(v.history)
    ensures Indexed(users[id := v], byName) && ListsWellFormed(users[id := v])
  {
  }

  /** The add path on user `id`, field `f`: the new table and the answer. */
  function AddEffect(users: map<UserId, User>, id: UserId, f: Field, item: string): (res: (map<UserId, User>, Result<seq<string>>))
    ensures res.0.Keys == users.Keys
    ensures forall other :: other in users && other != id ==> res.0[other] == users[other]
    ensures id in users ==> res.0[id].userName == users[id].userName && res.0[id].password == users[id].password
    ensures id in users ==> FieldOf(res.0[id], Other(f)) == FieldOf(users[id], Other(f))
    ensures res.1.Rejected? <==> id !in users || |FieldOf(users[id], f)| >= Capacity
    ensures res.1.Rejected? ==> res.0 == users && res.1.reason == CannotUpdate(f, id)
    ensures res.1.Resolved? ==> res.1.value == FieldOf(res.0[id], f)
    ensures res.1.Resolved? ==> item in res.1.value
    ensures res.1.Resolved? ==> |FieldOf(users[id], f)| <= |res.1.value| && res.1.value[..|FieldOf(users[id], f)|] == FieldOf(users[id], f)
    ensures res.1.Resolved? && item in FieldOf(users[id], f) ==> res.0 == users
    ensures res.1.Resolved? && item !in FieldOf(users[id], f) ==> res.1.value == FieldOf(users[id], f) + [item]
  {
    if id !in users then (users, Rejected(CannotUpdate(f, id)))
    else match AddWithCap(FieldOf(users[id], f), item)
      case None => (users, Rejected(CannotUpdate(f, id)))
      case Some(l) =>
        (users[id := WithField(users[id], f, l)], Resolved(l))
  }

  /** Adding the same item twice leaves the collection as adding it once. */
  lemma AddEffectTwiceIsOnce(users: map<UserId, User>, id: UserId, f: Field, item: string)
    ensures AddEffect(AddEffect(users, id, f, item).0, id, f, item).0 == AddEffect(users, id, f, item).0
  {
  }

  /** The remove path on user `id`, field `f`: the new table and the answer. */
  function RemoveEffect(users: map<UserId, User>, id: UserId, f: Field, item: string): (res: (map<UserId, User>, Result<seq<string>>))
    ensures res.0.Keys == users.Keys
    ensures forall other :: other in users && other != id ==> res.0[other] == users[other]
    ensures id in users ==> res.0[id].userName == users[id].userName && res.0[id].password == users[id].password
    ensures id in users ==> FieldOf(res.0[id], Other(f)) == FieldOf(users[id], Other(f))
    ensures res.1.Rejected? <==> id !in users
    ensures res.1.Rejected? ==> res.0 == users && res.1.reason == CannotUpdate(f, id)
    ensures res.1.Resolved? ==> res.1.value == FieldOf(res.0[id], f)
    ensures res.1.Resolved? ==> item !in res.1.value
    ensures res.1.Resolved? ==> multiset(res.1.value) == multiset(FieldOf(users[id], f))[item := 0]
    ensures res.1.Resolved? ==> IsSubsequence(res.1.value, FieldOf(users[id], f))
    ensures res.1.Resolved? && item !in FieldOf(users[id], f) ==> res.0 == users
  {
    if id !in users then (users, Rejected(CannotUpdate(f, id)))
    else
      var old_ := FieldOf(users[id], f);
      var l := Pull(old_, item);
      PullCount(old_, item);
      PullKeepsOrder(old_, item);
      PullAbsent(old_, item);
      (users[id := WithField(users[id], f, l)], Resolved(l))
  }

  /** The user collection. `users` maps each `_id` to its document,
      `byName` is the unique index on the user name, and `nextId` is the
      next id the store hands out. */
  class UserStore {
    const hasher: Hasher
    var users: map<UserId, User>
    var byName: map<string, UserId>
    var nextId: UserId

    ghost predicate Valid()
      reads this
      ensures Valid() ==> UniqueNames(users)
    {
      && Indexed(users, byName)
      && (forall id :: id in users ==> id < nextId)
      && ListsWellFormed(users)
    }

    constructor (hasher: Hasher)
      ensures Valid()
      ensures this.hasher == hasher && users == map[] && byName == map[] && nextId == 0
    {
      this.hasher := hasher;
      users, byName, nextId := map[], map[], 0;
    }

    /** Register a user: the confirmation must equal the password, and the
        name must not belong to any user yet. */
    method RegisterUser(userName: string, password: string, password2: string, salt: Salt) returns (r: Result<string>)
      requires Valid()
      modifies this
      ensures Valid()
      ensures password != password2 ==> r == Rejected(PasswordsDoNotMatch)
      ensures password == password2 && NameTaken(old(users), userName) ==> r == Rejected(UserNameTaken)
      ensures r.Rejected? ==> users == old(users) && byName == old(byName) && nextId == old(nextId)
      ensures password == password2 && !NameTaken(old(users), userName) ==>
                && r == Resolved(RegisteredMessage(userName))
                && old(nextId) !in old(users)
                && users == old(users)[old(nextId) := User(userName, hasher.hash(password, SaltRounds, salt), [], [])]
      ensures r.Resolved? && Agrees(hasher) ==> CheckUser(userName, password) == Resolved(Account(old(nextId), users[old(nextId)]))
    {
      if password != password2 {
        return Rejected(PasswordsDoNotMatch);
      }
      var hash := hasher.hash(password, SaltRounds, salt);
      if userName in byName {
        return Rejected(UserNameTaken);
      }
      var id := nextId;
      users := users[id := User(userName, hash, [], [])];
      byName := byName[userName := id];
      nextId := nextId + 1;
      r := Resolved(RegisteredMessage(userName));
    }

    /** Look the user up by name and compare the password with the stored hash. */
    function CheckUser(userName: string, password: string): (r: Result<Account>)
      reads this
      requires Valid()
      ensures r.Resolved? <==> exists id :: id in users && users[id].userName == userName && hasher.compare(password, users[id].password)
      ensures r.Resolved? ==> r.value.id in users && users[r.value.id] == r.value.user && r.value.user.userName == userName
      ensures r == Rejected(UserNotFound(userName)) <==> !NameTaken(users, userName)
      ensures r.Rejected? ==> r.reason == UserNotFound(userName) || r.reason == IncorrectPassword(userName)
    {
      if userName !in byName then Rejected(UserNotFound(userName))
      else
        var id := byName[userName];
        if hasher.compare(password, users[id].password) then Resolved(Account(id, users[id]))
        else Rejected(IncorrectPassword(userName))
    }

    /** Read list `f` of user `id`. */
    function GetList(id: UserId, f: Field): (r: Result<seq<string>>)
      reads this
      ensures r.Resolved? <==> id in users
      ensures r.Resolved? ==> r.value == FieldOf(users[id], f)
      ensures r.Rejected? ==> r.reason == CannotGet(f, id)
      ensures Valid() && r.Resolved? ==> WellFormed(r.value)
    {
      if id in users then Resolved(FieldOf(users[id], f)) else Rejected(CannotGet(f, id))
    }

    function GetFavourites(id: UserId): (r: Result<seq<string>>)
      reads this
      ensures r.Resolved? <==> id in users
      ensures r.Resolved? ==> r.value == users[id].favourites
      ensures r.Rejected? ==> r.reason == CannotGet(Favourites, id)
    {
      GetList(id, Favourites)
    }

    function GetHistory(id: UserId): (r: Result<seq<string>>)
      reads this
      ensures r.Resolved? <==> id in users
      ensures r.Resolved? ==> r.value == users[id].history
      ensures r.Rejected? ==> r.reason == CannotGet(History, id)
    {
      GetList(id, History)
    }

    /** Add `item` to list `f` of user `id` (capacity check, then `$addToSet`). */
    method AddItem(id: UserId, f: Field, item: string) returns (r: Result<seq<string>>)
      requires Valid()
      modifies this
      ensures Valid()
      ensures (users, r) == AddEffect(old(users), id, f, item)
      ensures byName == old(byName) && nextId == old(nextId)
    {
      if id !in users {
        return Rejected(CannotUpdate(f, id));
      }
      var current := FieldOf(users[id], f);
      if |current| >= Capacity {
        return Rejected(CannotUpdate(f, id));
      }
      var updated := AddToSet(current, item);
      var v := WithField(users[id], f, updated);
      ReplaceListsKeepsInvariant(users, byName, id, v);
      users := users[id := v];
      r := Resolved(updated);
    }

    /** Remove every occurrence of `item` from list `f` of user `id` (`$pull`). */
    method RemoveItem(id: UserId, f: Field, item: string) returns (r: Result<seq<string>>)
      requires Valid()
      modifies this
      ensures Valid()
      ensures (users, r) == RemoveEffect(old(users), id, f, item)
      ensures byName == old(byName) && nextId == old(nextId)
    {
      if id !in users {
        return Rejected(CannotUpdate(f, id));
      }
      var current := FieldOf(users[id], f);
      var updated := Pull(current, item);
      PullDistinct(current, item);
      var v := WithField(users[id], f, updated);
      ReplaceListsKeepsInvariant(users, byName, id, v);
      users := users[id := v];
      r := Resolved(updated);
    }

    method AddFavourite(id: UserId, favId: string) returns (r: Result<seq<string>>)
      requires Valid()
      modifies this
      ensures Valid()
      ensures (users, r) == AddEffect(old(users), id, Favourites, favId)
      ensures byName == old(byName) && nextId == old(nextId)
    {
      r := AddItem(id, Favourites, favId);
    }

    method RemoveFavourite(id: UserId, favId: string) returns (r: Result<seq<string>>)
      requires Valid()
      modifies this
      ensures Valid()
      ensures (users, r) == RemoveEffect(old(users), id, Favourites, favId)
      ensures byName == old(byName) && nextId == old(nextId)
    {
      r := RemoveItem(id, Favourites, favId);
    }

    method AddHistory(id: UserId, historyId: string) returns (r: Result<seq<string>>)
      requires Valid()
      modifies this
      ensures Valid()
      ensures (users, r) == AddEffect(old(users), id, History, historyId)
      ensures byName == old(byName) && nextId == old(nextId)
    {
      r := AddItem(id, History, historyId);
    }

    method RemoveHistory(id: UserId, historyId: string) returns (r: Result<seq<string>>)
      requires Valid()
      modifies this
      ensures Valid()
      ensures (users, r) == RemoveEffect(old(users), id, History, historyId)
      ensures byName == old(byName) && nextId == old(nextId)
    {
      r := RemoveItem(id, History, historyId);
    }
  }
}
