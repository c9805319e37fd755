/** The first server (server.js): the PIN and the roster live in two
    module-level variables that the four route handlers read and reassign. */
module LegacyServer {
  import opened Js
  import opened Pins

  datatype Reply =
    | PinReply(pin: string)
    | SuccessReply
    | ErrorReply(error: string)
    | PlayersReply(players: seq<Json>)

  datatype Response = Response(status: int, reply: Reply)

  /** `players.includes(name)`. */
  predicate Includes(players: seq<Json>, name: Json) {
    exists i | 0 <= i < |players| :: SameValueZero(players[i], name)
  }

  /** No two roster entries are the same value. */
  predicate Distinct(players: seq<Json>) {
    forall i, j | 0 <= i < j < |players| :: !SameValueZero(players[i], players[j])
  }

  class Server {
    /** `currentPin`: null until the first PIN request. */
    var currentPin: Option<string>
    /** `players`, in join order. */
    var players: seq<Json>

    ghost predicate Valid()
      reads this
    {
      (currentPin.Some? ==> IsPin(currentPin.value)) && Distinct(players)
    }

    constructor ()
      ensures Valid()
      ensures currentPin == None && players == []
    {
      currentPin := None;
      players := [];
    }

    /** GET /api/teacher/pin: mints a PIN only when none exists, so every
        later call answers the same PIN until a reset. */
    method GetPin() returns (r: Response)
      requires Valid()
      modifies this`currentPin
      ensures Valid()
      ensures old(currentPin).Some? ==> currentPin == old(currentPin)
      ensures currentPin.Some? && r == Response(200, PinReply(currentPin.value))
    {
      if !Present(currentPin) {
        var pin := ChoosePin();
        currentPin := Some(pin);
      }
      r := Response(200, PinReply(currentPin.value));
    }

    /** POST /api/play/join with body `{pin, name}`. The PIN is compared
        with `!==` first; the name is checked for a duplicate second. */
    method Join(body: Json) returns (r: Response)
      requires Valid()
      requires body.Obj? || body.Arr?
      modifies this`players
      ensures Valid()
      ensures !StrictEqualsStored(Get(body, "pin"), currentPin) ==>
                r == Response(400, ErrorReply("Incorrect PIN")) && players == old(players)
      ensures StrictEqualsStored(Get(body, "pin"), currentPin) && Includes(old(players), Get(body, "name")) ==>
                r == Response(400, ErrorReply("Name already taken")) && players == old(players)
      ensures StrictEqualsStored(Get(body, "pin"), currentPin) && !Includes(old(players), Get(body, "name")) ==>
                r == Response(200, SuccessReply) && players == old(players) + [Get(body, "name")]
    {
      var pin, name := Get(body, "pin"), Get(body, "name");
      if !StrictEqualsStored(pin, currentPin) {
        return Response(400, ErrorReply("Incorrect PIN"));
      }
      if Includes(players, name) {
        return Response(400, ErrorReply("Name already taken"));
      }
      AppendKeepsDistinct(players, name);
      players := players + [name];
      r := Response(200, SuccessReply);
    }

    /** GET /api/teacher/players: reads the roster and changes nothing. */
    method Players() returns (r: Response)
      ensures r == Response(200, PlayersReply(players))
    {
      r := Response(200, PlayersReply(players));
    }

    /** POST /api/teacher/reset: a fresh draw (which may repeat the old PIN)
        and an empty roster; the reply does not carry the PIN. */
    method Reset() returns (r: Response)
      requires Valid()
      modifies this
      ensures Valid()
      ensures currentPin.Some? && IsPin(currentPin.value)
      ensures players == []
      ensures r == Response(200, SuccessReply)
    {
      var pin := ChoosePin();
      currentPin := Some(pin);
      players := [];
      r := Response(200, SuccessReply);
    }
  }

  /** Before any PIN exists the stored side of `pin !== currentPin` is null:
      a body whose pin is JSON null gets past the check, every other pin is
      refused. This only names that edge of `Join`'s PIN clause, which
      already covers it through `StrictEqualsStored`. */
  lemma JoinBeforeAnyPin(pin: Json)
    ensures StrictEqualsStored(pin, None) <==> pin == Null
  {
  }

  /** Appending a name that is not yet included keeps the roster free of
      duplicates. */
  lemma AppendKeepsDistinct(players: seq<Json>, name: Json)
    requires Distinct(players) && !Includes(players, name)
    ensures Distinct(players + [name])
  {
    var p := players + [name];
    forall i, j | 0 <= i < j < |p| ensures !SameValueZero(p[i], p[j]) {
      if j == |players| {
        assert p[i] == players[i] && p[j] == name;
      }
    }
  }
}
