/**
 * The `game` command of the status plugin: `set <game>` sets the game the
 * bot account is shown playing, `clear` removes it, anything else shows it.
 */
module Game {
  import opened JsString
  import opened Plugins

  datatype GameCommand = SetGame(game: string) | ClearGame | ShowGame

  /** The dispatch of `process`. */
  function ParseGame(suffix: string): (r: GameCommand)
    ensures r.SetGame? <==> SubCommand(suffix) == "set"
    ensures r.ClearGame? <==> SubCommand(suffix) == "clear"
    ensures r.SetGame? ==> IsTrimmed(r.game) && r.game == Trim(From(suffix, 3))
  {
    var command := SubCommand(suffix);
    if command == "set" then SetGame(Trim(From(suffix, |command|)))
    else if command == "clear" then ClearGame
    else ShowGame
  }

  /** The reply of the show branch for the current game, if any. */
  function ShowReply(game: Option<string>): Reply {
    match game
    case Some(name) => Wrapped(name)
    case None => Wrapped("<No game set>")
  }

  /** The client's view of the bot account's presence. */
  class Client {
    /** `client.user.game`: the name of the game shown, if any. */
    var game: Option<string>

    constructor (game: Option<string>)
      ensures this.game == game
    {
      this.game := game;
    }

    /** `process`: `set` and `clear` change the game shown, any other
        sub-command leaves it and replies with it. */
    method Process(suffix: string) returns (reply: Reply)
      modifies this
      ensures match ParseGame(suffix)
              case SetGame(g) => game == Some(g) && reply == Wrapped("Game set")
              case ClearGame => game == None && reply == Wrapped("Game cleared")
              case ShowGame => game == old(game) && reply == ShowReply(old(game))
    {
      var command := ToLower(FirstToken(suffix));
      if command == "set" {
        game := Some(Trim(From(suffix, |command|)));
        reply := Wrapped("Game set");
      } else if command == "clear" {
        game := None;
        reply := Wrapped("Game cleared");
      } else {
        reply := ShowReply(game);
      }
    }
  }

  // ---------------------------------------------------------------------
  // Properties.

  /** `set` is matched in any letter case, and the game is the trimmed rest. */
  lemma {:induction false} ParseSetLine(command: string, game: string)
    requires ToLower(command) == "set" && NoTokenBreak(command) && IsTrimmed(game)
    ensures ParseGame(command + " " + game) == SetGame(game)
  {
    var suffix := command + " " + game;
    TokenAndRest(command, game, suffix);
    assert |command| == 3;
    ParseGameParts(suffix, game);
  }

  lemma {:induction false} ParseGameParts(suffix: string, game: string)
    requires SubCommand(suffix) == "set" && Trim(From(suffix, 3)) == game
    ensures ParseGame(suffix) == SetGame(game)
  {
  }

  /** A first token other than `set` and `clear` only shows the game. */
  lemma {:induction false} ParseOtherShows(suffix: string)
    requires SubCommand(suffix) != "set" && SubCommand(suffix) != "clear"
    ensures ParseGame(suffix) == ShowGame
  {
  }

  /** Setting a game and then asking shows that game. */
  method SetThenShow(game: string) returns (reply: Reply)
    requires IsTrimmed(game)
    ensures reply == Wrapped(game)
  {
    var client := new Client(None);
    var line := "set" + " " + game;
    ParseSetLine("set", game);
    var first := client.Process(line);
    ParseOtherShows("");
    reply := client.Process("");
  }

  /** Clearing the game and then asking shows that none is set. */
  method ClearThenShow(game: Option<string>) returns (reply: Reply)
    ensures reply == Wrapped("<No game set>")
  {
    var client := new Client(game);
    ClearWord();
    var first := client.Process("CLEAR");
    ParseOtherShows("");
    reply := client.Process("");
  }

  /** `clear` is matched in any letter case. */
  lemma {:induction false} ClearWord()
    ensures ParseGame("CLEAR") == ClearGame
  {
    assert SubCommand("CLEAR") == "clear";
  }
}
