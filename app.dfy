/** The `/interactions` handler of app.js: PING, the `tesito` command and
    the `add` command, over the store of module Database. A request ends
    Answered, Unanswered (the handler falls off the end) or Threw (an
    expression the handler evaluates throws). */
module App {
  import opened Wrappers
  import opened Wishlist
  import opened Discord
  import Database

  const TesitoReply := "con pansito"

  function AlreadyAddedReply(name: string): string
  {
    "The game " + name + " had already been added to the wishlist"
  }

  function AddedReply(name: string): string
  {
    "The game **" + name + "** added to the wishlist"
  }

  /** The two `add` replies can be told apart for every game name. */
  lemma RepliesDiffer(name: string, other: string)
    ensures AlreadyAddedReply(name) != AddedReply(name)
    ensures AddedReply(name) == AddedReply(other) ==> name == other
    ensures AlreadyAddedReply(name) == AlreadyAddedReply(other) ==> name == other
  {
    assert |AlreadyAddedReply(name)| == |name| + 48;
    assert |AddedReply(name)| == |name| + 35;
    if AddedReply(name) == AddedReply(other) {
      assert name == AddedReply(name)[11..11 + |name|];
      assert other == AddedReply(other)[11..11 + |other|];
    }
    if AlreadyAddedReply(name) == AlreadyAddedReply(other) {
      assert name == AlreadyAddedReply(name)[9..9 + |name|];
      assert other == AlreadyAddedReply(other)[9..9 + |other|];
    }
  }

  /** The three store steps of the `add` command, in order: find or create
      the Game, find or create the User, append the Game unless present. */
  function AddCommand(db: Db, who: DiscordUser, name: string): (r: (Db, Response))
  {
    var (db1, id) := FindOrCreateGame(db, name);
    var (db2, _) := FindOrCreateUser(db1, who);
    var (db3, present) := AddToWishlist(db2, who.id, id);
    (db3, ChannelMessage(if present then AlreadyAddedReply(name) else AddedReply(name)))
  }

  /** The acting user and the value of the `game` option when the payload is
      an `add` command that reaches the store; None otherwise. */
  function AddArguments(body: Interaction): (r: Option<(DiscordUser, string)>)
    ensures r.Some? ==> body.kind == APPLICATION_COMMAND && body.data.Some? &&
                        body.data.value.name == "add" &&
                        GetDiscordUser(body) == Some(r.value.0) &&
                        CommandOption("game", r.value.1) in body.data.value.options
    ensures r.Some? ==> exists k :: 0 <= k < |body.data.value.options| &&
                          body.data.value.options[k] == CommandOption("game", r.value.1) &&
                          forall j :: 0 <= j < k ==> body.data.value.options[j].name != "game"
    ensures (body.kind == APPLICATION_COMMAND && body.data.Some? && body.data.value.name == "add" &&
             GetDiscordUser(body).Some? &&
             exists i :: 0 <= i < |body.data.value.options| && body.data.value.options[i].name == "game")
            ==> r.Some?
  {
    if body.kind == APPLICATION_COMMAND && body.data.Some? && body.data.value.name == "add" then
      match (GetDiscordUser(body), FirstNamed(body.data.value.options, "game"))
      case (Some(who), Some(option)) => Some((who, option.value))
      case _ => None
    else None
  }

  /** The whole handler on a store snapshot: the new snapshot and how the
      request ends. */
  function Dispatch(db: Db, body: Interaction): (r: (Db, Outcome))
  {
    if body.kind == PING then (db, Answered(Response(PONG, None)))
    else if body.kind == APPLICATION_COMMAND then
      match body.data
      // destructuring an absent `data` throws
      case None => (db, Threw)
      case Some(data) =>
        match GetDiscordUser(body)
        // resolving the user runs before the command name is looked at
        case None => (db, Threw)
        case Some(who) =>
          if data.name == "tesito" then (db, Answered(ChannelMessage(TesitoReply)))
          else if data.name == "add" then
            match FirstNamed(data.options, "game")
            // reading `value` of a missing option throws
            case None => (db, Threw)
            case Some(option) =>
              var (db', reply) := AddCommand(db, who, option.value);
              (db', Answered(reply))
          // `list` reads the undeclared `wishList` on its first line
          else if data.name == "list" then (db, Threw)
          else (db, Unanswered)
    else (db, Unanswered)
  }

  /** The handler itself, step by step against the store. */
  method HandleInteraction(store: Database.Store, body: Interaction) returns (r: Outcome)
    modifies store
    ensures (store.State(), r) == Dispatch(old(store.State()), body)
    ensures Valid(old(store.State())) ==> Valid(store.State())
  {
    DispatchKeepsValid(store.State(), body);
    if body.kind == PING {
      return Answered(Response(PONG, None));
    }
    if body.kind == APPLICATION_COMMAND {
      if body.data.None? {
        return Threw;
      }
      var data := body.data.value;
      var discordUser := GetDiscordUser(body);
      if discordUser.None? {
        return Threw;
      }
      var who := discordUser.value;
      if data.name == "tesito" {
        return Answered(ChannelMessage(TesitoReply));
      }
      if data.name == "add" {
        var option := FindOption(data.options, "game");
        if option.None? {
          return Threw;
        }
        var name := option.value.value;
        var game := store.FindGame(name);
        var gameId: GameId;
        if game.None? {
          gameId := store.CreateGame(name);
        } else {
          gameId := game.value;
        }
        var user := store.FindUser(who.id);
        var u: UserRecord;
        if user.None? {
          u := store.CreateUser(who);
        } else {
          u := user.value;
        }
        var present := ContainsId(u.wishlist, gameId);
        if present {
          return Answered(ChannelMessage(AlreadyAddedReply(name)));
        }
        store.SaveUser(who.id, u.(wishlist := u.wishlist + [gameId]));
        return Answered(ChannelMessage(AddedReply(name)));
      }
      if data.name == "list" {
        return Threw;
      }
      return Unanswered;
    }
    return Unanswered;
  }

  /** A PING gets a PONG and touches nothing. */
  lemma PingPongs(db: Db, body: Interaction)
    requires body.kind == PING
    ensures Dispatch(db, body) == (db, Answered(Response(PONG, None)))
  {
  }

  /** `tesito` gets its fixed message and touches nothing; it is answered
      only when the acting user can be resolved. */
  lemma TesitoReplies(db: Db, body: Interaction)
    requires body.kind == APPLICATION_COMMAND && body.data.Some? && body.data.value.name == "tesito"
    ensures Dispatch(db, body).0 == db
    ensures Dispatch(db, body).1 ==
            if GetDiscordUser(body).Some? then Answered(Response(CHANNEL_MESSAGE_WITH_SOURCE, Some("con pansito")))
            else Threw
  {
  }

  /** The `list` branch throws before it touches the store; so does any
      command whose acting user cannot be resolved. */
  lemma ListThrows(db: Db, body: Interaction)
    requires body.kind == APPLICATION_COMMAND && body.data.Some? && body.data.value.name == "list"
    ensures Dispatch(db, body) == (db, Threw)
  {
  }

  /** A request that is not answered, whether it throws or falls off the
      end, leaves the store unchanged; an unknown command or interaction
      type falls off the end. */
  lemma UnansweredLeavesStore(db: Db, body: Interaction)
    ensures !Dispatch(db, body).1.Answered? ==> Dispatch(db, body).0 == db
    ensures body.kind != PING && body.kind != APPLICATION_COMMAND ==> Dispatch(db, body) == (db, Unanswered)
    ensures (body.kind == APPLICATION_COMMAND && body.data.Some? && GetDiscordUser(body).Some? &&
             body.data.value.name != "tesito" && body.data.value.name != "add" &&
             body.data.value.name != "list")
            ==> Dispatch(db, body) == (db, Unanswered)
  {
  }

  /** Only an `add` that reaches the store changes it; such a request runs
      AddCommand and is always answered. */
  lemma OnlyAddWrites(db: Db, body: Interaction)
    ensures AddArguments(body).None? ==> Dispatch(db, body).0 == db
    ensures AddArguments(body).Some? ==>
      var (who, name) := AddArguments(body).value;
      Dispatch(db, body) == (AddCommand(db, who, name).0, Answered(AddCommand(db, who, name).1))
  {
  }

  /** After `add`, exactly the named Game is guaranteed to exist: it is in
      the store, no other Game is created, and existing Games keep their ids. */
  lemma AddCommandGame(db: Db, who: DiscordUser, name: string)
    ensures var db' := AddCommand(db, who, name).0;
      name in db'.games &&
      db'.games.Keys == db.games.Keys + {name} &&
      (forall n :: n in db.games ==> db'.games[n] == db.games[n])
  {
  }

  /** A previously unseen Discord id gets exactly one new User carrying the
      resolved name and a wishlist holding only the added Game. */
  lemma AddCommandNewUser(db: Db, who: DiscordUser, name: string)
    requires who.id !in db.users
    ensures var db' := AddCommand(db, who, name).0;
      db'.users.Keys == db.users.Keys + {who.id} &&
      db'.users[who.id] == UserRecord(who.name, who.id, [db'.games[name]])
  {
  }

  /** The wishlist the `add` command starts from. */
  function PriorWishlist(db: Db, who: DiscordUser): seq<GameId>
  {
    if who.id in db.users then db.users[who.id].wishlist else []
  }

  /** In a valid store, `add` answers "already added" exactly when the named
      Game exists and is on the user's wishlist, and then changes nothing. */
  lemma AddCommandAlreadyPresent(db: Db, who: DiscordUser, name: string)
    requires Valid(db)
    ensures var (db', reply) := AddCommand(db, who, name);
      (reply == ChannelMessage(AlreadyAddedReply(name)) <==>
         name in db.games && db.games[name] in PriorWishlist(db, who)) &&
      (reply == ChannelMessage(AlreadyAddedReply(name)) ==> db' == db)
  {
    RepliesDiffer(name, name);
    if name !in db.games {
      FreshIdOnNoWishlist(db, who);
    }
  }

  /** The id the next created Game receives is on no wishlist of a valid
      store. */
  lemma FreshIdOnNoWishlist(db: Db, who: DiscordUser)
    requires Valid(db)
    ensures db.nextGameId !in PriorWishlist(db, who)
  {
    if who.id in db.users {
      var w := db.users[who.id].wishlist;
      forall k | 0 <= k < |w| ensures w[k] != db.nextGameId {
        assert w[k] in db.games.Values;
      }
    }
  }

  /** When the Game is not yet on the wishlist, `add` appends it at the end,
      keeps every earlier entry in order, and says so. */
  lemma AddCommandAppends(db: Db, who: DiscordUser, name: string)
    requires Valid(db)
    requires !(name in db.games && db.games[name] in PriorWishlist(db, who))
    ensures var (db', reply) := AddCommand(db, who, name);
      reply == ChannelMessage(AddedReply(name)) &&
      db'.users[who.id].wishlist == PriorWishlist(db, who) + [db'.games[name]]
  {
    AddCommandAlreadyPresent(db, who, name);
  }

  /** `add` leaves every other user's record as it was. */
  lemma AddCommandOthersUnchanged(db: Db, who: DiscordUser, name: string)
    ensures var db' := AddCommand(db, who, name).0;
      forall d :: d in db.users && d != who.id ==> d in db'.users && db'.users[d] == db.users[d]
  {
  }

  /** `add` keeps the store invariant: no wishlist holds a Game twice. */
  lemma AddCommandKeepsValid(db: Db, who: DiscordUser, name: string)
    requires Valid(db)
    ensures Valid(AddCommand(db, who, name).0)
  {
    var (db1, id) := FindOrCreateGame(db, name);
    FindOrCreateGameKeepsValid(db, name);
    var (db2, _) := FindOrCreateUser(db1, who);
    FindOrCreateUserKeepsValid(db1, who);
    assert id in db2.games.Values by { assert db2.games[name] == id; }
    AddToWishlistKeepsValid(db2, who.id, id);
  }

  /** Repeating an `add` of the same Game by the same user creates nothing
      and changes nothing, and reports the Game as already added. */
  lemma AddCommandIdempotent(db: Db, who: DiscordUser, name: string)
    ensures var (db1, _) := AddCommand(db, who, name);
      AddCommand(db1, who, name) == (db1, ChannelMessage(AlreadyAddedReply(name)))
  {
  }

  /** Every request keeps the store invariant. */
  lemma DispatchKeepsValid(db: Db, body: Interaction)
    ensures Valid(db) ==> Valid(Dispatch(db, body).0)
  {
    OnlyAddWrites(db, body);
    if Valid(db) && AddArguments(body).Some? {
      var (who, name) := AddArguments(body).value;
      AddCommandKeepsValid(db, who, name);
    }
  }
}
