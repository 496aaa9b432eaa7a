# User-account service model

A Dafny model of the user-account service of a small Express/MongoDB
backend (`user-service.js`). The service keeps one collection of user
documents — a user name that a unique index keeps distinct, a bcrypt hash
of the password, and two string arrays, `favourites` and `history` — and
offers registration, a login check, and get / add / remove on each of the
two arrays.

The model has four modules:

- `MongoArrays` (`mongo_arrays.dfy`): the store-side array updates the
  service asks for. `AddToSet` is MongoDB's `$addToSet` (append unless
  present), `Pull` is `$pull` (drop every occurrence), and `AddWithCap` is
  the add path's length check (`>= 50` refuses) followed by `$addToSet`.
  `Step`/`Replay` run a sequence of adds and removes on one list, a refused
  add leaving the list as it was.
- `Bcrypt` (`bcrypt.dfy`): hashing kept abstract. A `Hasher` carries a
  `hash(password, rounds, salt)` and a `compare(password, stored)` function;
  the store receives it when it is built. The salt that bcrypt draws at
  random is a parameter of registration. `Agrees(h)` — a password matches
  its own hash — is the only property of bcrypt any result depends on, and
  it appears only as a hypothesis.
- `UserService` (`user_service.dfy`): the user document, the rejection
  reasons with their message strings (`Message`), and the class
  `UserStore`. Its fields are the collection `users` (id to document), the
  unique index `byName` (name to id) and `nextId`, the next fresh id.
  `Valid()` says the index matches the collection, every id is below
  `nextId`, and every list has at most 50 entries and no duplicates.
  Registration and the four list updates are methods that modify the store.
  The login check and the two reads are functions of the store. The
  favourites and history paths are one generic operation over a `Field`
  with thin wrappers. `AddEffect` and `RemoveEffect` are the pure
  specification of an update: the new collection and the answer.
- `Scenario` (`scenario.dfy`): two client methods, verified against the
  contracts of the store's methods and the definitions of its functions. One registers "alice", logs in with the right and a wrong
  password, and tries a duplicate and a mismatched registration. The other
  adds "item42" twice to an empty favourites list and removes it.

Every operation is atomic and sequential. A promise that resolves becomes
`Resolved(value)`, and a rejection becomes `Rejected(reason)`.
`Message(reason)` gives the exact string the service rejects with.

Three facts about the code that the model keeps:

- An add at 50 or more entries is refused even when the item is already
  present, because the length check at user-service.js:89 and :128 ignores
  membership (`SecondAdd`). The list itself ends up the same either way
  (`AddTwiceIsAddOnce`).
- Registration accepts any user name, including the empty one.
- Each add path checks the length of the list it updates
  (user-service.js:89, 128).

## Model

| member | source | states |
|---|---|---|
| `MongoArrays.AddToSet` | user-service.js:90-94 | the item is in the result; the members are the old ones plus the item; the old list is a prefix; the length grows by one exactly when the item was absent; no duplicate is introduced |
| `MongoArrays.Pull` | user-service.js:104-108 | the result holds exactly the old members other than the item and is no longer than the old list |
| `MongoArrays.PullCount` | user-service.js:104-108 | every other element keeps its number of occurrences; the item has none |
| `MongoArrays.PullKeepsOrder` | user-service.js:104-108 | the result is a subsequence of the old list, so the kept elements stay in their original order |
| `MongoArrays.PullAbsent` | user-service.js:143-148 | removing an absent item returns the list unchanged |
| `MongoArrays.PullDistinct` | user-service.js:143-148 | removing from a duplicate-free list keeps it duplicate-free |
| `MongoArrays.PullTwiceIsPullOnce` | user-service.js:104-109 | removing the same item twice gives the same list as removing it once |
| `MongoArrays.AddWithCap` | user-service.js:89-94 | refused exactly when the list has 50 or more entries, whatever the item; otherwise the result is `AddToSet` of the list and the item (append if absent, unchanged if present), and a list with at most 50 distinct entries stays that way |
| `MongoArrays.Step` | user-service.js:86-113 | one add or remove on a list: a list of at most 50 entries stays at most 50; after an add the item is present exactly when it was already there or the list was below 50, and no old member is lost; after a remove the item is gone and nothing new appears |
| `MongoArrays.Replay` | user-service.js:89 | a sequence of adds and removes on a list that starts with at most 50 entries never takes it past 50 entries, duplicates or not |
| `MongoArrays.StepKeepsWellFormed` | user-service.js:86-113 | one add or remove keeps a list at most 50 long and duplicate-free |
| `MongoArrays.ReplayKeepsWellFormed` | user-service.js:128-135 | from a list of at most 50 distinct entries, any sequence of adds and removes never exceeds 50 entries or introduces a duplicate |
| `MongoArrays.AddTwiceIsAddOnce` | user-service.js:89-96 | the list after adding the same item twice equals the list after adding it once |
| `MongoArrays.SecondAdd` | user-service.js:128-135 | after an add succeeds, the same add again succeeds with the unchanged list if the list is below 50, and is refused if the first add made it exactly 50 |
| `UserService.WithField` | user-service.js:92 | the field named in an update document (lines 92, 106, 131 and 145) is replaced, and the other field, the name and the hash stay as they were |
| `UserService.ReplaceListsKeepsInvariant` | user-service.js:12-20 | changing one user's lists without renaming it keeps the name index and the list bounds |
| `UserService.Digits` | user-service.js:98 | the id inside a message is a non-empty run of decimal digits without a leading zero (the model's ids are numbers, not ObjectId strings) |
| `UserService.DigitsInjective` | user-service.js:137 | different ids give different renderings |
| `UserService.Message` | user-service.js:63-150 | the user name of "Unable to find user <name>" (lines 63, 71) and "Incorrect password for user <name>" (67) is exactly what follows the fixed prefix; "Unable to get <field> for user with id: <id>" (81, 120) and "Unable to update <field> for user with id: <id>" (98, 111, 137, 150) split into prefix, field name, " for user with id: " and the id in decimal, each at a fixed position |
| `UserService.MessageInjective` | user-service.js:28-71 | no two different rejections share a message ("Passwords do not match" at line 28 and "User Name already taken" at 48 included), so the string alone gives the reason, the user name, the field and the id |
| `UserService.RegisteredMessage` | user-service.js:44 | the registration answer is "User " followed by the name and " successfully registered", so the name can be read back from it |
| `UserService.AddEffectTwiceIsOnce` | user-service.js:86-100 | adding the same item twice to a user's list leaves the whole collection as adding it once |
| `UserService.AddEffect` | user-service.js:86-100 | rejected with the update message exactly when the user is missing or the list has 50 or more entries, leaving the collection unchanged; otherwise the answer is the new list: the old list with the item appended if absent, unchanged if present; no other user, no other field, no name or hash changes |
| `UserService.RemoveEffect` | user-service.js:103-113 | rejected with the update message exactly when the user is missing, collection unchanged; otherwise the answer is the new list, without the item, with every other occurrence count and the order kept, and unchanged if the item was absent; nothing else changes |
| `UserService.UserStore.Valid` | user-service.js:13-16 | the store invariant implies that no two users share a user name |
| `UserService.UserStore.constructor` | user-service.js:22 | the store starts empty with the given hasher |
| `UserService.UserStore.RegisterUser` | user-service.js:25-56 | different passwords reject with "Passwords do not match"; a taken name rejects with "User Name already taken"; every rejection leaves the store unchanged; otherwise exactly one user is added under a fresh id, with the name, the hash of the password and empty lists, and the answer is "User <name> successfully registered"; with a hasher that agrees, that user then passes the login check with the same password |
| `UserService.UserStore.CheckUser` | user-service.js:59-74 | succeeds exactly when some user has that name and the password matches its stored hash, and returns that user with its id; rejects with "Unable to find user" exactly when no user has the name; otherwise rejects with "Incorrect password for user"; being a function of the store, it changes nothing |
| `UserService.UserStore.GetList` | user-service.js:77-83 | succeeds exactly when the id is a user, with that user's list; otherwise rejects with the get message for that field and id; a valid store's list is at most 50 long and duplicate-free |
| `UserService.UserStore.GetFavourites` | user-service.js:77-83 | the user's `favourites`, or the favourites get message when the id is no user |
| `UserService.UserStore.GetHistory` | user-service.js:116-122 | the user's `history`, or the history get message when the id is no user |
| `UserService.UserStore.AddItem` | user-service.js:86-100 | the new collection and the answer are those of `AddEffect`; the name index and the id counter are unchanged; the store invariant is kept |
| `UserService.UserStore.RemoveItem` | user-service.js:103-113 | the new collection and the answer are those of `RemoveEffect`; the name index and the id counter are unchanged; the store invariant is kept |
| `UserService.UserStore.AddFavourite` | user-service.js:86-100 | `AddEffect` on the `favourites` field |
| `UserService.UserStore.RemoveFavourite` | user-service.js:103-113 | `RemoveEffect` on the `favourites` field |
| `UserService.UserStore.AddHistory` | user-service.js:125-139 | `AddEffect` on the `history` field |
| `UserService.UserStore.RemoveHistory` | user-service.js:142-152 | `RemoveEffect` on the `history` field |

## Left out

- The database connection opened when the module loads (user-service.js:5-8) and the registration of the schema with mongoose. The model has one in-memory collection.
- bcrypt itself: the cost factor is passed as `SaltRounds` (10), but the hash, the salt generation, the 72-byte password truncation and the constant-time comparison are behind the abstract `Hasher`.
- The rejection when hashing fails (user-service.js:54) and the generic save failure (user-service.js:50). Both carry foreign error messages, and the abstract hasher and the in-memory collection never fail.
- The login check's rejection when the lookup fails (user-service.js:70-72), for the same reason. A rejected `bcrypt.compare`, which leaves the promise unsettled, is also left out.
- Store-assigned ObjectIds. Ids are natural numbers handed out by a counter, and rejection messages render them in decimal. A malformed id string is the same as a missing user in the source, and only the missing user is modelled.
- The read-then-write gap between `findById` and `findByIdAndUpdate` on the add paths (user-service.js:87-94, 126-134). Each operation is atomic, so concurrent adds that both pass the length check are not modelled.
- server.js: HTTP routing, CORS, JWT issuing and checking, and the mapping of rejections to status 422.
- UserService.UserStore.RegisterUser: does not state that the stored password differs from the plaintext, because with an abstract hasher the model cannot tell a hash from its input; it states only that the stored string is the hasher's output for that password, rounds and salt.
