/** The shapes of an inbound interaction payload and of the response
    envelope, the constants of the Discord interaction protocol that the
    handler compares against, and the identity resolution of app.js. */
module Discord {
  import opened Wrappers
  import opened Wishlist

  /** Interaction types (the `type` field of an inbound payload). */
  const PING := 1
  const APPLICATION_COMMAND := 2

  /** Response types (the `type` field of an outbound response). */
  const PONG := 1
  const CHANNEL_MESSAGE_WITH_SOURCE := 4

  /** A Discord user object; only the fields the handler reads. */
  datatype UserObject = UserObject(id: string, globalName: string)

  /** A guild member object; its `user` field may be missing. */
  datatype Member = Member(user: Option<UserObject>)

  /** One option of a slash command, `{name, value}`. */
  datatype CommandOption = CommandOption(name: string, value: string)

  /** The `data` object of an APPLICATION_COMMAND interaction. */
  datatype CommandData = CommandData(name: string, options: seq<CommandOption>)

  /** An inbound interaction. `inGuild` is the truthiness of `body.guild`;
      the optional fields are the ones a payload may lack. */
  datatype Interaction = Interaction(
    kind: int,
    data: Option<CommandData>,
    inGuild: bool,
    user: Option<UserObject>,
    member: Option<Member>)

  /** An outbound response `{type, data: {content}}`; a PONG carries no data. */
  datatype Response = Response(kind: int, content: Option<string>)

  /** How a request ends: with a response sent, by falling off the end of
      the handler without sending one, or by an exception thrown inside the
      handler before any response was sent. */
  datatype Outcome = Answered(response: Response) | Unanswered | Threw

  function ChannelMessage(content: string): Response
  {
    Response(CHANNEL_MESSAGE_WITH_SOURCE, Some(content))
  }

  /** The acting user: the top-level `user` outside a guild, `member.user`
      inside one. None where the source would throw a TypeError because the
      field it reads is missing. */
  function GetDiscordUser(body: Interaction): (r: Option<DiscordUser>)
    ensures !body.inGuild ==>
      (r.Some? <==> body.user.Some?) &&
      (r.Some? ==> r.value.id == body.user.value.id && r.value.name == body.user.value.globalName)
    ensures body.inGuild ==>
      (r.Some? <==> body.member.Some? && body.member.value.user.Some?) &&
      (r.Some? ==> r.value.id == body.member.value.user.value.id &&
                   r.value.name == body.member.value.user.value.globalName)
  {
    var source := if !body.inGuild then body.user
                  else if body.member.Some? then body.member.value.user
                  else None;
    match source
    case None => None
    case Some(u) => Some(DiscordUser(u.id, u.globalName))
  }

  /** Outside a guild the `member` field plays no part; inside a guild the
      top-level `user` field plays none. */
  lemma GetDiscordUserIgnoresOtherShape(body: Interaction, u: Option<UserObject>, m: Option<Member>)
    ensures !body.inGuild ==> GetDiscordUser(body.(member := m)) == GetDiscordUser(body)
    ensures body.inGuild ==> GetDiscordUser(body.(user := u)) == GetDiscordUser(body)
  {
  }

  /** The position of the first option with the given name, or the
      length of `options` when none has it. */
  function FirstIndex(options: seq<CommandOption>, name: string): (k: nat)
    ensures k <= |options|
    ensures forall j :: 0 <= j < k ==> options[j].name != name
    ensures k < |options| ==> options[k].name == name
  {
    if |options| == 0 then 0
    else if options[0].name == name then 0
    else 1 + FirstIndex(options[1..], name)
  }

  /** The first option with the given name, as `Array.prototype.find`
      returns it; None when there is no such option. */
  function FirstNamed(options: seq<CommandOption>, name: string): (r: Option<CommandOption>)
    ensures r.None? <==> forall i :: 0 <= i < |options| ==> options[i].name != name
    ensures r.Some? ==> r.value.name == name && r.value in options
    ensures r.Some? ==> exists k :: 0 <= k < |options| && options[k] == r.value &&
                          forall j :: 0 <= j < k ==> options[j].name != name
  {
    var k := FirstIndex(options, name);
    if k < |options| then Some(options[k]) else None
  }

  /** `options.find(option => option.name === name)` as a linear scan. */
  method FindOption(options: seq<CommandOption>, name: string) returns (r: Option<CommandOption>)
    ensures r == FirstNamed(options, name)
  {
    var i := 0;
    while i < |options|
      invariant 0 <= i <= |options|
      invariant forall j :: 0 <= j < i ==> options[j].name != name
    {
      if options[i].name == name {
        return Some(options[i]);
      }
      i := i + 1;
    }
    return None;
  }
}
