/** The document store of the bot, seen as a value: the Games collection
    (one Game per distinct name) and the Users collection (one User per
    Discord id, each with an ordered wishlist of Game references).
    The record shape follows models/User.js; a Game is `{id, name}`. */
module Wishlist {

  /** A Game document's identifier. The store issues a fresh one for every
      new Game; a counter stands in for MongoDB's ObjectId generator. */
  type GameId = nat

  /** A User document: display name, external Discord id, wishlist. */
  datatype UserRecord = UserRecord(name: string, discordId: string, wishlist: seq<GameId>)

  /** A snapshot of both collections. `games` maps a Game's name to its id,
      `users` maps a Discord id to the User document with that id, and
      `nextGameId` is the id the next created Game receives. */
  datatype Db = Db(games: map<string, GameId>, users: map<string, UserRecord>, nextGameId: GameId)

  /** The acting Discord user, as resolved from an interaction payload. */
  datatype DiscordUser = DiscordUser(id: string, name: string)

  predicate NoDuplicates(s: seq<GameId>)
  {
    forall i, j :: 0 <= i < j < |s| ==> s[i] != s[j]
  }

  /** Every issued id is below the counter. */
  predicate IdsIssued(db: Db)
  {
    forall n :: n in db.games ==> db.games[n] < db.nextGameId
  }

  /** No two Game names share an id. */
  predicate IdsDistinct(db: Db)
  {
    forall n, m :: n in db.games && m in db.games && n != m ==> db.games[n] != db.games[m]
  }

  /** Each User is filed under its own Discord id and its wishlist holds
      every Game at most once. */
  predicate UsersWellFormed(db: Db)
  {
    forall d :: d in db.users ==> db.users[d].discordId == d && NoDuplicates(db.users[d].wishlist)
  }

  /** Every wishlist entry refers to a Game of the store. */
  predicate WishlistsReferToGames(db: Db)
  {
    forall d, k :: d in db.users && 0 <= k < |db.users[d].wishlist| ==>
      db.users[d].wishlist[k] in db.games.Values
  }

  /** The invariant every request keeps. */
  predicate Valid(db: Db)
  {
    IdsIssued(db) && IdsDistinct(db) && UsersWellFormed(db) && WishlistsReferToGames(db)
  }

  /** Look a Game up by exact name; on a miss, create it with a fresh id.
      Returns the new snapshot and the Game's id. */
  function FindOrCreateGame(db: Db, name: string): (r: (Db, GameId))
    ensures name in r.0.games && r.0.games[name] == r.1
    ensures r.0.games.Keys == db.games.Keys + {name}
    ensures forall n :: n in db.games ==> r.0.games[n] == db.games[n]
    ensures r.0.users == db.users
    ensures name in db.games ==> r.0 == db
    ensures name !in db.games ==> r.1 == db.nextGameId && r.0.nextGameId == db.nextGameId + 1
  {
    if name in db.games then (db, db.games[name])
    else
      var id := db.nextGameId;
      (db.(games := db.games[name := id], nextGameId := id + 1), id)
  }

  /** Look a User up by Discord id; on a miss, create one with the resolved
      name and an empty wishlist. An existing User keeps its stored name. */
  function FindOrCreateUser(db: Db, who: DiscordUser): (r: (Db, UserRecord))
    ensures who.id in r.0.users && r.0.users[who.id] == r.1
    ensures r.0.users.Keys == db.users.Keys + {who.id}
    ensures forall d :: d in db.users ==> r.0.users[d] == db.users[d]
    ensures r.0.games == db.games && r.0.nextGameId == db.nextGameId
    ensures who.id in db.users ==> r.0 == db
    ensures who.id !in db.users ==> r.1 == UserRecord(who.name, who.id, [])
  {
    if who.id in db.users then (db, db.users[who.id])
    else
      var u := UserRecord(who.name, who.id, []);
      (db.(users := db.users[who.id := u]), u)
  }

  /** Append a Game id to a stored User's wishlist unless it is already
      there. The flag says whether it was already present. */
  function AddToWishlist(db: Db, discordId: string, id: GameId): (r: (Db, bool))
    requires discordId in db.users
    ensures discordId in r.0.users
    ensures r.1 <==> id in db.users[discordId].wishlist
    ensures r.1 ==> r.0 == db
    ensures !r.1 ==> r.0.users[discordId] ==
                     db.users[discordId].(wishlist := db.users[discordId].wishlist + [id])
    ensures r.0.users.Keys == db.users.Keys
    ensures forall d :: d in db.users && d != discordId ==> r.0.users[d] == db.users[d]
    ensures r.0.games == db.games && r.0.nextGameId == db.nextGameId
  {
    var u := db.users[discordId];
    if id in u.wishlist then (db, true)
    else (db.(users := db.users[discordId := u.(wishlist := u.wishlist + [id])]), false)
  }

  /** The wishlist search of the add branch (`Array.prototype.find` with an
      id comparison), as a linear scan. */
  method ContainsId(wishlist: seq<GameId>, id: GameId) returns (found: bool)
    ensures found <==> id in wishlist
  {
    var i := 0;
    while i < |wishlist|
      invariant 0 <= i <= |wishlist|
      invariant id !in wishlist[..i]
    {
      if wishlist[i] == id {
        return true;
      }
      i := i + 1;
    }
    assert wishlist[..i] == wishlist;
    return false;
  }

  /** Appending an element that is absent keeps a sequence duplicate-free,
      and keeps every earlier entry where it was. */
  lemma AppendAbsentKeepsNoDuplicates(s: seq<GameId>, id: GameId)
    requires NoDuplicates(s) && id !in s
    ensures NoDuplicates(s + [id])
    ensures (s + [id])[..|s|] == s
  {
    var t := s + [id];
    forall i, j | 0 <= i < j < |t| ensures t[i] != t[j] {
      if j == |s| {
        assert t[i] == s[i];
      } else {
        assert t[i] == s[i] && t[j] == s[j];
      }
    }
  }

  /** Finding or creating a Game keeps the store invariant. */
  lemma FindOrCreateGameKeepsValid(db: Db, name: string)
    requires Valid(db)
    ensures Valid(FindOrCreateGame(db, name).0)
  {
    var db' := FindOrCreateGame(db, name).0;
    if name !in db.games {
      forall d, k | d in db'.users && 0 <= k < |db'.users[d].wishlist|
        ensures db'.users[d].wishlist[k] in db'.games.Values
      {
        assert db'.users[d] == db.users[d];
        assert db.users[d].wishlist[k] in db.games.Values;
        var n :| n in db.games && db.games[n] == db.users[d].wishlist[k];
        assert db'.games[n] == db.games[n];
      }
    }
  }

  /** Finding or creating a User keeps the store invariant. */
  lemma FindOrCreateUserKeepsValid(db: Db, who: DiscordUser)
    requires Valid(db)
    ensures Valid(FindOrCreateUser(db, who).0)
  {
  }

  /** Adding a Game that is in the store keeps the store invariant; in
      particular no wishlist ever holds the same Game twice. */
  lemma AddToWishlistKeepsValid(db: Db, discordId: string, id: GameId)
    requires Valid(db) && discordId in db.users && id in db.games.Values
    ensures Valid(AddToWishlist(db, discordId, id).0)
  {
    var u := db.users[discordId];
    if id !in u.wishlist {
      AppendAbsentKeepsNoDuplicates(u.wishlist, id);
    }
  }

  /** Finding or creating a Game twice gives the same id and creates no
      second Game. */
  lemma FindOrCreateGameIdempotent(db: Db, name: string)
    ensures var (db1, id1) := FindOrCreateGame(db, name);
            FindOrCreateGame(db1, name) == (db1, id1)
  {
  }

  /** Finding or creating a User twice gives the same User and creates no
      second one. */
  lemma FindOrCreateUserIdempotent(db: Db, who: DiscordUser)
    ensures var (db1, u1) := FindOrCreateUser(db, who);
            FindOrCreateUser(db1, who) == (db1, u1)
  {
  }

  /** A second add of the same Game reports it as already present and
      leaves the store as the first add left it. */
  lemma AddToWishlistDedup(db: Db, discordId: string, id: GameId)
    requires discordId in db.users
    ensures var (db1, _) := AddToWishlist(db, discordId, id);
            discordId in db1.users && AddToWishlist(db1, discordId, id) == (db1, true)
  {
  }
}
