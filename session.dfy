/** The session rules of index.js: the login name derived from the clock,
    the classification of uncaught errors, the duplicate-login test of a kick
    reason, and the supervisor state around the current game client (its
    connect watchdog and the status-message dedupe of the periodic check).
    Creating the client, the relay and the timers themselves are not part of
    this model; the supervisor sees them as inputs and as calls. */
module Session {
  import opened Wrappers
  import opened Text
  import opened Relay
  import opened Monitors

  // ---------------------------------------------------------------------------
  // The login name
  // ---------------------------------------------------------------------------

  /** `${base}_${Date.now().toString().slice(-4)}`. */
  function LoginName(base: string, nowMs: nat): string {
    base + "_" + Last(Decimal(nowMs), 4)
  }

  function Pow10(k: nat): (p: nat)
    ensures p >= 1
  {
    if k == 0 then 1 else 10 * Pow10(k - 1)
  }

  /** The last `k` decimal digits of `n`, with leading zeros. */
  function Digits(n: nat, k: nat): (s: string)
    ensures |s| == k
  {
    if k == 0 then [] else Digits(n / 10, k - 1) + [DigitChar(n % 10)]
  }

  lemma {:induction false} DecimalLong(n: nat, k: nat)
    requires n >= Pow10(k)
    ensures |Decimal(n)| >= k + 1
    decreases k
  {
    if k > 0 {
      DecimalLong(n / 10, k - 1);
    }
  }

  /** From `10^(k-1)` on, the last `k` characters of the decimal text are
      the last `k` digits. */
  lemma {:induction false} LastIsDigits(n: nat, k: nat)
    requires k >= 1 && n >= Pow10(k - 1)
    ensures Last(Decimal(n), k) == Digits(n, k)
    decreases k
  {
    var x, c := Decimal(n / 10), DigitChar(n % 10);
    assert Digits(n, k) == Digits(n / 10, k - 1) + [c];
    if k == 1 {
      if n < 10 {
        assert Decimal(n) == [c];
      } else {
        assert Decimal(n) == x + [c];
        LastSnoc(x, c, 1);
      }
    } else {
      var p := Pow10(k - 2);
      assert Pow10(k - 1) == 10 * p;
      assert Decimal(n) == x + [c];
      assert n / 10 >= p;
      DecimalLong(n / 10, k - 2);
      LastIsDigits(n / 10, k - 1);
      LastSnoc(x, c, k);
    }
  }

  /** Taking the last `k` characters after appending one. */
  lemma LastSnoc(x: string, c: char, k: nat)
    requires 1 <= k <= |x| + 1
    ensures Last(x + [c], k) == Last(x, k - 1) + [c]
  {
    assert (x + [c])[|x| + 1 - k..] == x[|x| - (k - 1)..] + [c];
  }

  /** The last `k` digits depend only on the remainder modulo `10^k`. */
  lemma {:induction false} DigitsOfRemainder(n: nat, k: nat)
    ensures Digits(n % Pow10(k), k) == Digits(n, k)
    decreases k
  {
    if k > 0 {
      var p := Pow10(k - 1);
      assert Pow10(k) == 10 * p;
      var r := n % (10 * p);
      ModSplit(n, p);
      DivModUnique(r, 10, (n / 10) % p, n % 10);
      DigitsOfRemainder(n / 10, k - 1);
      assert Digits(r, k) == Digits(r / 10, k - 1) + [DigitChar(r % 10)];
    }
  }

  /** Equal digit strings come from equal remainders. */
  lemma {:induction false} DigitsDetermineRemainder(a: nat, b: nat, k: nat)
    requires Digits(a, k) == Digits(b, k)
    ensures a % Pow10(k) == b % Pow10(k)
    decreases k
  {
    if k > 0 {
      var da, db := Digits(a, k), Digits(b, k);
      assert DigitChar(a % 10) == da[k - 1] == db[k - 1] == DigitChar(b % 10);
      assert a % 10 == b % 10;
      assert Digits(a / 10, k - 1) == da[..k - 1] == db[..k - 1] == Digits(b / 10, k - 1);
      DigitsDetermineRemainder(a / 10, b / 10, k - 1);
      ModSplit(a, Pow10(k - 1));
      ModSplit(b, Pow10(k - 1));
    }
  }

  /** The remainder by `10 * p` is the remainder of `n / 10` by `p`, shifted,
      plus the last digit. */
  lemma ModSplit(n: nat, p: nat)
    requires p >= 1
    ensures n % (10 * p) == 10 * ((n / 10) % p) + n % 10
  {
    var q, r := (n / 10) / p, 10 * ((n / 10) % p) + n % 10;
    assert n / 10 == p * q + (n / 10) % p;
    assert n == 10 * (n / 10) + n % 10;
    assert n == (10 * p) * q + r;
    ModUnique(n, 10 * p, q, r);
  }

  lemma ModUnique(a: int, d: int, q: int, r: int)
    requires d > 0 && a == d * q + r && 0 <= r < d
    ensures a % d == r
  {
    DivModUnique(a, d, q, r);
  }

  /** Euclidean division has one quotient and one remainder. */
  lemma DivModUnique(a: int, d: int, q: int, r: int)
    requires d > 0 && a == d * q + r && 0 <= r < d
    ensures a / d == q && a % d == r
  {
    var q', r' := a / d, a % d;
    assert a == d * q' + r';
    assert d * (q - q') == r' - r;
    if q > q' {
      MulAtLeast(d, q - q');
    } else if q < q' {
      MulAtLeast(d, q' - q);
    }
  }

  lemma MulAtLeast(d: int, x: int)
    requires d > 0 && x >= 1
    ensures d * x >= d
  {
  }

  /** For any clock reading from 1000 ms on, the name is the base, `_`, and
      four digits. */
  lemma LoginNameShape(base: string, nowMs: nat)
    requires nowMs >= 1000
    ensures var name := LoginName(base, nowMs);
      && |name| == |base| + 5 && name[..|base|] == base && name[|base|] == '_'
      && forall i :: |base| < i < |name| ==> IsDigit(name[i])
  {
    assert Pow10(3) == 1000;
    LastIsDigits(nowMs, 4);
    DigitsAreDigits(nowMs, 4);
  }

  lemma {:induction false} DigitsAreDigits(n: nat, k: nat)
    ensures forall i :: 0 <= i < k ==> IsDigit(Digits(n, k)[i])
    decreases k
  {
    if k > 0 {
      DigitsAreDigits(n / 10, k - 1);
    }
  }

  /** Two logins (from 1000 ms on) get the same name exactly when their
      clock readings agree modulo 10000 ms: names repeat every ten seconds
      and are otherwise distinct. */
  lemma LoginNamesCollide(base: string, t1: nat, t2: nat)
    requires t1 >= 1000 && t2 >= 1000
    ensures LoginName(base, t1) == LoginName(base, t2) <==> t1 % 10000 == t2 % 10000
  {
    assert Pow10(3) == 1000;
    LastIsDigits(t1, 4);
    LastIsDigits(t2, 4);
    assert Pow10(4) == 10000;
    var n1, n2 := LoginName(base, t1), LoginName(base, t2);
    if n1 == n2 {
      assert Digits(t1, 4) == n1[|base| + 1..] == n2[|base| + 1..] == Digits(t2, 4);
      DigitsDetermineRemainder(t1, t2, 4);
    }
    if t1 % 10000 == t2 % 10000 {
      DigitsOfRemainder(t1, 4);
      DigitsOfRemainder(t2, 4);
    }
  }

  // ---------------------------------------------------------------------------
  // Uncaught errors and kicks
  // ---------------------------------------------------------------------------

  /** The markers of protocol noise. */
  const ProtocolMarkers: seq<string> := ["PartialReadError", "Read error", "Chunk size", "packet"]

  datatype Outcome = Swallowed | Exit(code: int)

  /** The `uncaughtException` handler: an error whose message (if any)
      mentions a protocol marker is logged and swallowed; anything else ends
      the process with code 1. The test is case-sensitive. */
  function OnUncaught(message: Option<string>): (o: Outcome)
    ensures o == Swallowed <==> message.Some? && MentionsAny(message.value, ProtocolMarkers)
    ensures o != Swallowed ==> o == Exit(1)
  {
    if message.Some? && message.value != "" && MentionsAny(message.value, ProtocolMarkers) then Swallowed
    else
      EmptyHasNoMarker();
      Exit(1)
  }

  lemma EmptyHasNoMarker()
    ensures !MentionsAny("", ProtocolMarkers)
  {
    forall k | 0 <= k < |ProtocolMarkers| ensures !Contains("", ProtocolMarkers[k]) {
      assert ProtocolMarkers[k] != [];
    }
  }

  /** An upper-case "PACKET" is not the marker "packet": the error ends the
      process. */
  lemma UpperCasePacketExits()
    ensures OnUncaught(Some("PACKET ERROR")) == Exit(1)
  {
    forall k | 0 <= k < |ProtocolMarkers| ensures !Contains("PACKET ERROR", ProtocolMarkers[k]) {
      PacketLacksMarker(k);
    }
  }

  lemma PacketLacksMarker(k: nat)
    requires k < |ProtocolMarkers|
    ensures !Contains("PACKET ERROR", ProtocolMarkers[k])
  {
    var c := if k == 2 then 'h' else if k == 3 then 'p' else 'e';
    assert c in ProtocolMarkers[k];
    AbsentCharExcludes("PACKET ERROR", ProtocolMarkers[k], c);
  }

  /** The kick handler flags a duplicate login when the serialised reason
      mentions `duplicate_login`; the flag is only logged. */
  function IsDuplicateLogin(reasonJson: string): (flagged: bool)
    ensures flagged <==> exists i :: OccursAt(reasonJson, "duplicate_login", i)
  {
    Contains(reasonJson, "duplicate_login")
  }

  // ---------------------------------------------------------------------------
  // The supervisor
  // ---------------------------------------------------------------------------

  /** Where the `try` of `initializeMinecraft` is left: not at all, at
      `createBot`, or after the new client was stored (while the handlers or
      the reconnection hook are being set up). */
  datatype InitFailure = NoFailure | CreateThrows | SetupThrows

  /** The notice sent when a client cannot be created. */
  const ConnectFailedNotice := "⚠️ **[MC]** Failed to connect to server. Will retry automatically..."

  /** The line of the periodic status check. */
  function StatusLine(players: nat): string {
    "🟢 Server Active - " + Decimal(players) + " players online"
  }

  /** The global client slot of index.js. Clients are numbered by creation;
      `armed` holds the clients whose 30 s watchdog has neither fired nor
      been cleared. `hasPlayer` and `lastStatusMessage` belong to the
      current client. */
  class Supervisor {
    var current: Option<nat>
    var created: nat
    var hasPlayer: bool
    var armed: set<nat>
    var lastStatusMessage: Option<string>

    constructor ()
      ensures current == None && created == 0 && !hasPlayer && armed == {} && lastStatusMessage == None
    {
      current := None;
      created := 0;
      hasPlayer := false;
      armed := {};
      lastStatusMessage := None;
    }

    /** Every armed watchdog belongs to a client created so far. */
    predicate Valid()
      reads this
    {
      (forall g :: g in armed ==> g < created) && (current.Some? ==> current.value < created)
    }

    /** `initializeMinecraft`. Everything from `createBot` to arming the
        watchdog runs in one `try`: when creating the client throws, the state
        is as it was; when a later step throws (registering the handlers or
        the reconnection hook), the new client has already replaced the
        global one but its watchdog is never armed. Either way the error is
        reported on the configured channel (if it can be reached) and the
        result is null. Otherwise the fresh client becomes current with its
        watchdog armed. */
    method InitializeMinecraft(failure: InitFailure, r: RelayView) returns (result: Option<nat>, notices: seq<string>)
      requires Valid()
      modifies this
      ensures Valid()
      ensures failure != NoFailure ==>
        && result == None
        && notices == (if CanSend(r) then [ConnectFailedNotice] else [])
        && armed == old(armed)
      ensures failure == CreateThrows ==>
        && current == old(current) && created == old(created) && hasPlayer == old(hasPlayer)
        && lastStatusMessage == old(lastStatusMessage)
      ensures failure != CreateThrows ==>
        && current == Some(old(created)) && created == old(created) + 1
        && !hasPlayer && lastStatusMessage == None
      ensures failure == NoFailure ==>
        && result == current && armed == old(armed) + {old(created)} && notices == []
    {
      notices := if CanSend(r) then [ConnectFailedNotice] else [];
      if failure == CreateThrows {
        return None, notices;
      }
      var g := created;
      created := created + 1;
      current := Some(g);
      hasPlayer := false;
      lastStatusMessage := None;
      if failure == SetupThrows {
        return None, notices;
      }
      armed := armed + {g};
      result, notices := Some(g), [];
    }

    /** The current client has logged in (its `player` is set). */
    method PlayerJoined()
      modifies this`hasPlayer
      ensures hasPlayer
    {
      hasPlayer := true;
    }

    /** The `spawn` of client `g` clears its watchdog. */
    method OnSpawn(g: nat)
      requires Valid()
      modifies this`armed
      ensures Valid()
      ensures armed == old(armed) - {g}
    {
      armed := armed - {g};
    }

    /** Client `g`'s watchdog fires after 30 s: it ends the session exactly
        when it was not cleared and the CURRENT client still has no player. */
    method WatchdogFires(g: nat) returns (endSession: bool)
      requires Valid()
      modifies this`armed
      ensures Valid()
      ensures endSession <==> g in old(armed) && !hasPlayer
      ensures armed == old(armed) - {g}
    {
      endSession := g in armed && !hasPlayer;
      armed := armed - {g};
    }

    /** The five-minute check: with the relay reachable, a current client
        that has a player, and more than one player online, the status line
        is stored on the client. Nothing is sent. */
    method StatusCheck(r: RelayView, players: nat)
      modifies this`lastStatusMessage
      ensures var due := CanSend(r) && current.Some? && hasPlayer && players > 1;
        && (due ==> lastStatusMessage == Some(StatusLine(players)))
        && (!due ==> lastStatusMessage == old(lastStatusMessage))
    {
      if CanSend(r) && current.Some? && hasPlayer && players > 1 {
        var status := StatusLine(players);
        if lastStatusMessage == None || lastStatusMessage.value == "" || lastStatusMessage.value != status {
          lastStatusMessage := Some(status);
        }
      }
    }
  }
}
