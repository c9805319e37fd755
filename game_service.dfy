/** The Redis-backed game service (src/server/services/gameService.js): the
    PIN key `game:current:pin` and the set `game:players`, read and written by
    static methods. The store is modelled as an optional string and a set. */
module RedisGame {
  import opened Js
  import opened Pins

  datatype Added = Added(added: bool) | StoreError(message: string)

  /** `names` lists the members of `s`, each exactly once. */
  ghost predicate Enumerates(names: seq<string>, s: set<string>) {
    && |names| == |s|
    && (forall x :: x in s <==> x in names)
    && (forall i, j | 0 <= i < j < |names| :: names[i] != names[j])
  }

  class GameService {
    /** The value of `game:current:pin`; None when the key is absent. */
    var pin: Option<string>
    /** The members of `game:players`. */
    var players: set<string>

    ghost predicate Valid()
      reads this
    {
      pin.Some? ==> IsPin(pin.value)
    }

    constructor ()
      ensures Valid() && pin == None && players == {}
    {
      pin := None;
      players := {};
    }

    /** What `validatePin(candidate)` answers in the current state. */
    predicate Accepts(candidate: Json)
      reads this
    {
      StrictEqualsStored(candidate, pin)
    }

    /** `generatePin`: returns the stored PIN, or draws, stores and returns a
        new one when the key is absent. */
    method GeneratePin() returns (p: string)
      requires Valid()
      modifies this`pin
      ensures Valid()
      ensures Present(old(pin)) ==> pin == old(pin) && p == old(pin).value
      ensures !Present(old(pin)) ==> IsPin(p) && pin == Some(p)
      ensures Accepts(Str(p))
    {
      if !Present(pin) {
        p := ChoosePin();
        pin := Some(p);
      } else {
        p := pin.value;
      }
    }

    /** `validatePin(candidate)`: strict equality with the stored PIN. With
        no PIN stored only `null` equals the missing value. */
    method ValidatePin(candidate: Json) returns (ok: bool)
      ensures pin.Some? ==> (ok <==> candidate == Str(pin.value))
      ensures pin.None? ==> (ok <==> candidate == Null)
      ensures ok == Accepts(candidate)
    {
      ok := StrictEqualsStored(candidate, pin);
    }

    /** `addPlayer(name)`: a set-membership test, then SADD. A name that is
        not a string is refused by the store client. */
    method AddPlayer(name: Json) returns (r: Added)
      modifies this`players
      ensures !name.Str? ==> r == StoreError(StoreArgumentError) && players == old(players)
      ensures name.Str? ==> r == Added(name.s !in old(players)) && players == old(players) + {name.s}
    {
      if !name.Str? {
        return StoreError(StoreArgumentError);
      }
      var isMember := name.s in players;
      if isMember {
        return Added(false);
      }
      players := players + {name.s};
      r := Added(true);
    }

    /** `getPlayers` (SMEMBERS): every member once, in no specified order. */
    method GetPlayers() returns (names: seq<string>)
      ensures Enumerates(names, players)
    {
      names := [];
      var rest := players;
      while rest != {}
        invariant rest <= players
        invariant forall x :: x in players <==> x in rest || x in names
        invariant forall x :: x in rest ==> x !in names
        invariant forall i, j | 0 <= i < j < |names| :: names[i] != names[j]
        invariant |names| + |rest| == |players|
        decreases rest
      {
        var x :| x in rest;
        names := names + [x];
        rest := rest - {x};
      }
    }

    /** `resetGame`: a fresh PIN overwrites the key, the players set is
        deleted, and the new PIN is returned as a bare string. */
    method ResetGame() returns (newPin: string)
      modifies this
      ensures Valid()
      ensures IsPin(newPin) && pin == Some(newPin) && players == {}
      ensures Accepts(Str(newPin))
    {
      newPin := ChoosePin();
      pin := Some(newPin);
      players := {};
    }

    /** A reset followed by `generatePin` answers the PIN the reset stored:
        the route for the PIN after a reset shows the new one. */
    method ResetThenGeneratePin() returns (reset: string, shown: string)
      requires Valid()
      modifies this
      ensures Valid() && shown == reset && IsPin(shown) && players == {}
    {
      reset := ResetGame();
      shown := GeneratePin();
    }

    /** The one-hour expiry of the PIN key elapsing; the players set has no
        expiry and survives it. */
    method Expire()
      modifies this`pin
      ensures Valid() && pin == None
    {
      pin := None;
    }
  }
}
