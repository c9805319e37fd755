/** The player's join page (src/components/PlayView.tsx): a name field, a PIN
    field that keeps only the first four digits typed, and the join request. */
module PlayView {
  import opened Js
  import opened Pins

  /** White space and line terminators as `String.prototype.trim` strips
      them. */
  predicate IsJsSpace(c: char) {
    var n := c as int;
    || 0x09 <= n <= 0x0D || n == 0x20 || n == 0xA0 || n == 0x1680
    || 0x2000 <= n <= 0x200A || n == 0x2028 || n == 0x2029 || n == 0x202F
    || n == 0x205F || n == 0x3000 || n == 0xFEFF
  }

  function TrimStart(s: string): (r: string)
    ensures |r| <= |s| && r == s[|s| - |r|..]
    ensures forall i | 0 <= i < |s| - |r| :: IsJsSpace(s[i])
    ensures r != [] ==> !IsJsSpace(r[0])
    ensures r == [] <==> forall i | 0 <= i < |s| :: IsJsSpace(s[i])
  {
    if s != [] && IsJsSpace(s[0]) then TrimStart(s[1..]) else s
  }

  function TrimEnd(s: string): (r: string)
    ensures |r| <= |s| && r == s[..|r|]
    ensures forall i | |r| <= i < |s| :: IsJsSpace(s[i])
    ensures r != [] ==> !IsJsSpace(r[|r| - 1])
    ensures r == [] <==> forall i | 0 <= i < |s| :: IsJsSpace(s[i])
  {
    if s != [] && IsJsSpace(s[|s| - 1]) then TrimEnd(s[..|s| - 1]) else s
  }

  /** `s.trim()`: the longest slice of `s` that neither starts nor ends with
      white space; empty exactly when `s` is all white space. */
  function Trim(s: string): (r: string)
    ensures r == [] <==> forall i | 0 <= i < |s| :: IsJsSpace(s[i])
    ensures r != [] ==> !IsJsSpace(r[0]) && !IsJsSpace(r[|r| - 1])
    ensures |r| <= |s|
    ensures exists a, b | 0 <= a <= b <= |s| ::
              && r == s[a..b]
              && (forall i | 0 <= i < a :: IsJsSpace(s[i]))
              && (forall i | b <= i < |s| :: IsJsSpace(s[i]))
  {
    var t := TrimStart(s);
    assert t != [] ==> !IsJsSpace(t[0]);
    var a := |s| - |t|;
    assert TrimEnd(t) == s[a..a + |TrimEnd(t)|];
    TrimEnd(t)
  }

  /** `value.replace(/\D/g, '')`: the ASCII digits of `s`, in order. */
  function DigitsOf(s: string): (r: string)
    ensures |r| <= |s|
    ensures forall i | 0 <= i < |r| :: IsDigit(r[i])
  {
    if s == [] then [] else (if IsDigit(s[0]) then [s[0]] else []) + DigitsOf(s[1..])
  }

  /** Every ASCII digit of `s` is kept, as often as it occurs, and nothing
      else. */
  lemma {:induction false} DigitsOfKeepsEveryDigit(s: string)
    ensures forall c :: multiset(DigitsOf(s))[c] == if IsDigit(c) then multiset(s)[c] else 0
  {
    if s != [] {
      DigitsOfKeepsEveryDigit(s[1..]);
      assert s == [s[0]] + s[1..];
      assert multiset(s) == multiset{s[0]} + multiset(s[1..]);
    }
  }

  /** The digits of a concatenation are the digits of each part in turn, so
      with `DigitsOf([c])` being `[c]` for a digit and empty otherwise, the
      digits keep their order in `s`. */
  lemma {:induction false} DigitsOfConcat(a: string, b: string)
    ensures DigitsOf(a + b) == DigitsOf(a) + DigitsOf(b)
  {
    if a == [] {
      assert a + b == b;
    } else {
      var head := if IsDigit(a[0]) then [a[0]] else [];
      assert (a + b)[0] == a[0] && (a + b)[1..] == a[1..] + b;
      assert DigitsOf(a + b) == head + DigitsOf(a[1..] + b);
      assert DigitsOf(a) == head + DigitsOf(a[1..]);
      DigitsOfConcat(a[1..], b);
    }
  }

  /** The PIN field's `onChange`: `replace(/\D/g, '').slice(0, 4)`. */
  function SanitizePin(s: string): (r: string)
    ensures |r| <= 4 && forall i | 0 <= i < |r| :: IsDigit(r[i])
    ensures |r| == if |DigitsOf(s)| < 4 then |DigitsOf(s)| else 4
    ensures r == DigitsOf(s)[..|r|]
  {
    var d := DigitsOf(s);
    if |d| <= 4 then d else d[..4]
  }

  lemma {:induction false} DigitsOfDigits(s: string)
    requires forall i | 0 <= i < |s| :: IsDigit(s[i])
    ensures DigitsOf(s) == s
  {
    if s != [] {
      DigitsOfDigits(s[1..]);
      assert [s[0]] + s[1..] == s;
    }
  }

  /** Sanitising twice is sanitising once, and the values it leaves alone are
      exactly the digit strings of length at most four. */
  lemma SanitizePinIdempotent(s: string)
    ensures SanitizePin(SanitizePin(s)) == SanitizePin(s)
  {
    DigitsOfDigits(SanitizePin(s));
  }

  lemma SanitizePinFixedPoints(s: string)
    ensures SanitizePin(s) == s <==> |s| <= 4 && forall i | 0 <= i < |s| :: IsDigit(s[i])
  {
    if |s| <= 4 && forall i | 0 <= i < |s| :: IsDigit(s[i]) {
      DigitsOfDigits(s);
    }
  }

  /** A sanitised PIN has no white space to trim. */
  lemma SanitizedPinIsTrimmed(s: string)
    ensures Trim(SanitizePin(s)) == SanitizePin(s)
  {
    var p := SanitizePin(s);
    assert p != [] ==> !IsJsSpace(p[0]) && !IsJsSpace(p[|p| - 1]);
  }

  const EnterName := "Please enter your name"
  const EnterValidPin := "Please enter a valid 4-digit PIN"
  const JoinFailed := "Failed to join the game"
  const ConnectFailed := "Failed to connect to the game server"

  /** The two checks of `handleJoin`, in order: the message shown, or None
      when the request is sent. */
  function JoinCheck(name: string, pin: string): (e: Option<string>)
    ensures e.None? <==> Trim(name) != "" && Trim(pin) != "" && |pin| == 4
    ensures Trim(name) == "" ==> e == Some(EnterName)
    ensures Trim(name) != "" && (Trim(pin) == "" || |pin| != 4) ==> e == Some(EnterValidPin)
  {
    if Trim(name) == "" then Some(EnterName)
    else if Trim(pin) == "" || |pin| != 4 then Some(EnterValidPin)
    else None
  }

  /** The Join button's `disabled`, negated. */
  predicate JoinButtonEnabled(name: string, pin: string) {
    Trim(name) != "" && |pin| == 4
  }

  /** For a PIN that came through the input the button and the checks agree;
      a four-space PIN taken from the page's address enables the button yet
      fails the check. */
  lemma ButtonMatchesCheck(name: string, typed: string)
    ensures JoinButtonEnabled(name, SanitizePin(typed)) <==> JoinCheck(name, SanitizePin(typed)).None?
    ensures JoinButtonEnabled(name, "    ") != JoinCheck(name, "    ").None? <==> Trim(name) != ""
  {
    SanitizedPinIsTrimmed(typed);
    FourSpacesTrimToEmpty();
  }

  lemma FourSpacesTrimToEmpty()
    ensures Trim("    ") == [] && |"    "| == 4
  {
    var blank := "    ";
    assert forall i | 0 <= i < |blank| :: IsJsSpace(blank[i]);
  }

  datatype JoinRequest = JoinRequest(name: string, pin: string)

  /** How the join `fetch` settles: rejected (or answered with a body that is
      not JSON), or answered with a status flag and a parsed body. */
  datatype FetchOutcome = Failed | Reply(ok: bool, data: Json)

  class Page {
    var name: string
    var pin: string
    var joined: bool
    /** The `error` state, which can hold whatever the server sent as
        `error`. */
    var error: Json

    /** The first render: the PIN comes from the `pin` query parameter,
        unsanitised, or is empty. */
    constructor (searchPin: Option<string>)
      ensures name == "" && !joined && error == Str("")
      ensures pin == if searchPin.Some? then searchPin.value else ""
    {
      name := "";
      pin := if searchPin.Some? then searchPin.value else "";
      joined := false;
      error := Str("");
    }

    method OnNameChange(value: string)
      modifies this`name
      ensures name == value
    {
      name := value;
    }

    method OnPinChange(value: string)
      modifies this`pin
      ensures pin == SanitizePin(value)
    {
      pin := SanitizePin(value);
    }

    /** `handleJoin` up to the request: a failed check sets its message and
        sends nothing; otherwise the trimmed name and PIN are sent. */
    method HandleJoin() returns (request: Option<JoinRequest>)
      modifies this`error
      ensures JoinCheck(name, pin).Some? ==>
                request.None? && error == Str(JoinCheck(name, pin).value)
      ensures JoinCheck(name, pin).None? ==>
                request == Some(JoinRequest(Trim(name), Trim(pin))) && error == old(error)
      ensures request.Some? ==> JoinButtonEnabled(name, pin)
    {
      var check := JoinCheck(name, pin);
      if check.Some? {
        error := Str(check.value);
        return None;
      }
      request := Some(JoinRequest(Trim(name), Trim(pin)));
    }

    /** The rest of `handleJoin`: only an ok reply joins and clears the
        error; a refusal shows the server's `error` or a fallback. */
    method ReceiveJoinResponse(outcome: FetchOutcome)
      modifies this`joined, this`error
      ensures outcome.Reply? && outcome.ok ==> joined && error == Str("")
      ensures !(outcome.Reply? && outcome.ok) ==> joined == old(joined)
      ensures outcome.Failed? ==> error == Str(ConnectFailed)
      ensures outcome.Reply? && !outcome.ok && Nullish(outcome.data) ==> error == Str(ConnectFailed)
      ensures outcome.Reply? && !outcome.ok && !Nullish(outcome.data) ==>
                error == if Truthy(Get(outcome.data, "error")) then Get(outcome.data, "error") else Str(JoinFailed)
    {
      if outcome.Failed? {
        error := Str(ConnectFailed);
      } else if !outcome.ok {
        if Nullish(outcome.data) {
          error := Str(ConnectFailed);
        } else {
          var message := Get(outcome.data, "error");
          error := if Truthy(message) then message else Str(JoinFailed);
        }
      } else {
        joined := true;
        error := Str("");
      }
    }
  }
}
