# Wishlist bot: interaction handler model

A Dafny model of the webhook handler of a Discord bot that keeps a per-user
wishlist of game titles. The handler receives an interaction payload and
either answers it or finishes without answering. It does three things:

- it answers a PING with a PONG;
- it answers the `tesito` command with the fixed text `con pansito`;
- it runs the `add` command, which finds or creates the Game named by the
  `game` option, finds or creates the User with the caller's Discord id, and
  appends the Game to that User's wishlist unless it is already there.

The document store is abstracted into two maps. `games` maps a Game name to
its id. `users` maps a Discord id to the User record
`{name, discordId, wishlist}` (the shape of models/User.js). A counter stands
in for the store's id generator.

Modules:

- `Wishlist`: the store as a value (`Db`), its invariant `Valid`, and the
  three store steps of `add` as functions. It also holds the wishlist search
  as a loop.
- `Database`: the class `Store`, whose methods are the Mongoose calls the
  handler makes (`findOne`, `save` of a new document, `save` of a modified
  User). Each is proved against the `Wishlist` functions.
- `Discord`: the payload and response shapes, the protocol constants
  (PING = 1, APPLICATION_COMMAND = 2, PONG = 1,
  CHANNEL_MESSAGE_WITH_SOURCE = 4) and identity resolution. It also holds the
  option search, both as a function and as a loop.
- `App`: `Dispatch`, the whole handler as a function on a store snapshot;
  `HandleInteraction`, the handler as a method over a `Store`; and the
  lemmas.

A request ends in one of three ways (`Discord.Outcome`):

- `Answered`: a response is sent.
- `Unanswered`: the handler falls off its end without sending one. This
  happens for an unknown command name and for an interaction type other
  than PING or APPLICATION_COMMAND.
- `Threw`: an expression the handler evaluates throws. This happens for a
  missing `data`, a missing `user` or `member.user`, a missing `game` option,
  and the `list` branch.

Every throw happens before the first store write, so the store is unchanged
whenever a request is not answered. The user is resolved before the command
name is examined (app.js:57). So when the identity cannot be resolved,
`tesito` throws too.

The `list` branch (app.js:106-122) first reads the undeclared `wishList`,
which throws a ReferenceError. It is modelled as `Threw`.

## Model

| member | source | states |
|---|---|---|
| `Wishlist.FindOrCreateGame` | app.js:71-76 | afterwards the name maps to the returned id; the Game keys grow by that name only; existing Games keep their ids; Users are untouched; a known name changes nothing; an unknown one gets the next fresh id |
| `Wishlist.FindOrCreateUser` | app.js:78-84 | afterwards the Discord id maps to the returned User; no other key is added and no other User changes; Games are untouched; a known id changes nothing; an unknown one gets a User with the resolved name and an empty wishlist |
| `Wishlist.AddToWishlist` | app.js:86-96 | the flag holds iff the id is already on the wishlist, and then nothing changes; otherwise the User's wishlist becomes the old one with the id appended; every other User and all Games stay as they were |
| `Wishlist.ContainsId` | app.js:86 | the linear search of the wishlist returns true iff the id is in it |
| `Wishlist.AppendAbsentKeepsNoDuplicates` | app.js:95 | appending an absent id keeps the wishlist duplicate-free and leaves the earlier prefix as it was |
| `Wishlist.FindOrCreateGameKeepsValid` | app.js:71-76 | creating a Game keeps the invariant: ids are issued, distinct per name, and every wishlist entry refers to a Game |
| `Wishlist.FindOrCreateUserKeepsValid` | app.js:78-84 | creating a User keeps the invariant |
| `Wishlist.AddToWishlistKeepsValid` | app.js:86-96 | appending an existing Game keeps the invariant, including "no wishlist holds a Game twice" |
| `Wishlist.FindOrCreateGameIdempotent` | app.js:71-76 | a second find-or-create of the same name returns the same id and changes nothing |
| `Wishlist.FindOrCreateUserIdempotent` | app.js:78-84 | a second find-or-create of the same Discord id returns the same User and changes nothing |
| `Wishlist.AddToWishlistDedup` | app.js:86-93 | a second add of the same id reports it as present and leaves the store as the first add left it |
| `Discord.GetDiscordUser` | app.js:36-42 | outside a guild, the identity is the top-level user's id and global name; inside a guild, it is those of `member.user`; there is no identity exactly when the field read is missing |
| `Discord.GetDiscordUserIgnoresOtherShape` | app.js:36-42 | outside a guild the `member` field does not affect the result; inside a guild the top-level `user` does not |
| `Discord.FirstIndex` | app.js:69 | gives the first position whose option has the name, or the length when no option has it |
| `Discord.FirstNamed` | app.js:69 | is None iff no option has the name; otherwise it is the first option of the list with that name |
| `Discord.FindOption` | app.js:69 | the linear scan returns the result of `FirstNamed`, the first option with the name |
| `Database.Store.constructor` | app.js:7-8 | a new store has no Games and no Users, and satisfies the store invariant |
| `Database.Store.FindGame` | app.js:71 | finds a Game iff one has exactly that name, and returns its id |
| `Database.Store.CreateGame` | app.js:72-76 | the new store state and id are those of `FindOrCreateGame` on an unknown name |
| `Database.Store.FindUser` | app.js:78 | finds a User iff one has that Discord id, and returns its record |
| `Database.Store.CreateUser` | app.js:79-84 | the new store state and record are those of `FindOrCreateUser` on an unknown Discord id |
| `Database.Store.SaveUser` | app.js:95-96 | the User stored under the id is replaced by the written record; nothing else changes |
| `App.RepliesDiffer` | app.js:86-103 | the "already added" and "added" replies differ for the same name, and each determines the name |
| `App.AddArguments` | app.js:55-71 | an `add` reaches the store exactly when it is an APPLICATION_COMMAND named `add` with a resolved user and some `game` option; the value used is that of the first `game` option |
| `App.HandleInteraction` | app.js:46-124 | the store after the call and the outcome are those of `Dispatch` on the store before it; the store invariant is kept |
| `App.PingPongs` | app.js:49-53 | a PING yields exactly a PONG and leaves the store unchanged |
| `App.TesitoReplies` | app.js:55-66 | `tesito` leaves the store unchanged and yields CHANNEL_MESSAGE_WITH_SOURCE with `con pansito` whenever the user resolves, otherwise it throws |
| `App.ListThrows` | app.js:106-107 | `list` throws before touching the store |
| `App.UnansweredLeavesStore` | app.js:46-124 | a request that throws or falls off the end leaves the store unchanged; an unknown command name or interaction type falls off the end |
| `App.OnlyAddWrites` | app.js:46-124 | every request that is not an `add` reaching the store leaves it unchanged; one that is runs the add steps and is answered |
| `App.AddCommandGame` | app.js:69-76 | after `add` the named Game exists; no other Game is created; existing Games keep their ids |
| `App.AddCommandNewUser` | app.js:78-84 | for an unseen Discord id, exactly one User is created, with the resolved name and a wishlist holding only the added Game |
| `App.FreshIdOnNoWishlist` | app.js:72-76 | in a valid store, a newly created Game's id is on no wishlist |
| `App.AddCommandAlreadyPresent` | app.js:86-93 | in a valid store, the "already added" reply is given iff the named Game exists and is already on the user's wishlist, and in that case the store is unchanged |
| `App.AddCommandAppends` | app.js:95-103 | otherwise the reply is "The game **name** added to the wishlist", and the new wishlist is the old one (empty for a new User) with the Game's id appended at the end |
| `App.AddCommandOthersUnchanged` | app.js:78-103 | `add` leaves every other user's record unchanged |
| `App.AddCommandKeepsValid` | app.js:86-96 | `add` keeps the store invariant, so no wishlist ever holds the same Game twice |
| `App.AddCommandIdempotent` | app.js:68-104 | repeating the same `add` changes nothing and replies "already added" |
| `App.DispatchKeepsValid` | app.js:46-124 | every request keeps the store invariant |

## Left out

- Signature verification (app.js:22-34) is a call into the `discord-interactions` library. The model takes every parsed request, whatever the signature check concluded. On a bad signature `verify()` sends a 401 but does not throw, so the handler still runs.
- `HandleInteraction`: does not model what the runtime does after `Threw`. A throw inside the async handler is a rejected promise; whether that becomes an error reply or an unhandled rejection depends on the Express and Node versions, which are not part of this model. Sending a response after the 401 has already been sent is not modelled either.
- The database connection, Express and dotenv wiring (app.js:1-20, app.js:44), main.js and commands.js are start-up and network I/O.
- The `list` branch (app.js:106-122) is modelled as giving no response, because its first line throws. Pagination, button identifiers, rendering and component clicks are not in this code.
- models/Game.js is not part of this model. A Game is taken to be `{id, name}`, with name lookups by exact string equality.
- MongoDB ObjectIds are modelled as naturals issued by a counter. The `toString` comparison at app.js:86 becomes plain id equality.
- A `null` `global_name` and non-string option values are not modelled. Names and option values are strings.
- Store failures (a rejected `findOne` or `save`) and concurrent overlapping requests are not modelled. Each request runs alone and every store call succeeds.
- The store is keyed by Discord id and by Game name, so it cannot hold two Users with the same Discord id or two Games with the same name. A real collection without unique indexes could hold them, and `findOne` would then return one of them.
