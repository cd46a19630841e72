/** The Games and Users collections as the handler reaches them through
    Mongoose: `findOne` queries, `new Model(...).save()` inserts, and
    `user.save()` writes back a modified User document. */
module Database {
  import opened Wrappers
  import opened Wishlist

  class Store {
    var games: map<string, GameId>
    var users: map<string, UserRecord>
    var nextGameId: GameId

    /** The collections as a value. */
    function State(): Db
      reads this
    {
      Db(games, users, nextGameId)
    }

    /** Empty collections, before the first request. */
    constructor ()
      ensures State() == Db(map[], map[], 0) && Valid(State())
    {
      games, users, nextGameId := map[], map[], 0;
    }

    /** `Game.findOne({ name })`: exact-name lookup. */
    method FindGame(name: string) returns (g: Option<GameId>)
      ensures g.Some? <==> name in games
      ensures g.Some? ==> g.value == games[name]
    {
      g := if name in games then Some(games[name]) else None;
    }

    /** `new Game({ name }).save()`: insert a Game with a fresh id. */
    method CreateGame(name: string) returns (id: GameId)
      requires name !in games
      modifies this
      ensures State() == FindOrCreateGame(old(State()), name).0
      ensures id == FindOrCreateGame(old(State()), name).1
    {
      id := nextGameId;
      games := games[name := id];
      nextGameId := nextGameId + 1;
    }

    /** `User.findOne({ discord_id })`: lookup by Discord id. */
    method FindUser(discordId: string) returns (u: Option<UserRecord>)
      ensures u.Some? <==> discordId in users
      ensures u.Some? ==> u.value == users[discordId]
    {
      u := if discordId in users then Some(users[discordId]) else None;
    }

    /** `new User({ name, discord_id }).save()`: insert a User whose
        wishlist takes the schema default, the empty array. */
    method CreateUser(who: DiscordUser) returns (u: UserRecord)
      requires who.id !in users
      modifies this
      ensures State() == FindOrCreateUser(old(State()), who).0
      ensures u == FindOrCreateUser(old(State()), who).1
    {
      u := UserRecord(who.name, who.id, []);
      users := users[who.id := u];
    }

    /** `user.save()`: write a User document that was read under
        `discordId` back in its place. */
    method SaveUser(discordId: string, u: UserRecord)
      requires discordId in users
      modifies this
      ensures users == old(users)[discordId := u]
      ensures games == old(games) && nextGameId == old(nextGameId)
    {
      users := users[discordId := u];
    }
  }
}
