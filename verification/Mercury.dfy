/** The Mercury connection: connecting with backoff, and reconnecting after failures. */
module Mercury {
  import opened HttpRetry

  // ---------------------------------------------------------------- backoff

  function Min(a: real, b: real): real {
    if a <= b then a else b
  }

  /** The delay before retry `k`, as the loop arrives at it. */
  function Backoff(reset: real, max: real, k: nat): real {
    if k == 0 then reset else Min(Backoff(reset, max, k - 1) * 2.0, max)
  }

  /** The first `n` delays. */
  function Backoffs(reset: real, max: real, n: nat): (delays: seq<real>)
    ensures |delays| == n && forall k: nat | k < n :: delays[k] == Backoff(reset, max, k)
  {
    if n == 0 then [] else Backoffs(reset, max, n - 1) + [Backoff(reset, max, n - 1)]
  }

  /** The number of the first successful attempt, or `limit` when the first `limit` attempts all fail. */
  function FirstSuccess(attempts: seq<bool>, limit: nat): (n: nat)
    requires limit <= |attempts|
    ensures n <= limit
    ensures forall i | 0 <= i < n :: !attempts[i]
    ensures n < limit ==> attempts[n]
  {
    if limit == 0 then 0
    else
      var n := FirstSuccess(attempts, limit - 1);
      if n < limit - 1 || attempts[limit - 1] then n else limit
  }

  /**
   `_connect_with_backoff`; `attempts` says of each connection attempt in turn whether it succeeds. It stops at the
   first success, and gives up after `maxRetries + 1` failures, having slept once between any two attempts.
   */
  method ConnectWithBackoff(hasConnected: bool, retries: int, initialRetries: int, reset: real, max: real,
                            attempts: seq<bool>)
    returns (connected: bool, made: nat, sleeps: seq<real>)
    requires |attempts| > retries && |attempts| > initialRetries
    ensures var limit := (if hasConnected then retries else initialRetries) + 1;
            if limit <= 0 then !connected && made == 0 && sleeps == []
            else
              var n := FirstSuccess(attempts, limit);
              && connected == (n < limit)
              && made == (if n < limit then n + 1 else limit)
              && sleeps == Backoffs(reset, max, made - 1)
  {
    var maxRetries := if hasConnected then retries else initialRetries;
    var retryCount, backoff := 0, reset;
    made, sleeps := 0, [];
    while retryCount <= maxRetries
      invariant 0 <= retryCount == made && (maxRetries >= 0 ==> retryCount <= maxRetries)
      invariant retryCount <= |attempts|
      invariant forall i | 0 <= i < retryCount :: !attempts[i]
      invariant backoff == Backoff(reset, max, retryCount)
      invariant maxRetries < 0 ==> retryCount == 0
      invariant sleeps == Backoffs(reset, max, retryCount)
      decreases maxRetries - retryCount
    {
      made := made + 1;
      if attempts[retryCount] {
        return true, made, sleeps;
      }
      retryCount := retryCount + 1;
      if retryCount > maxRetries {
        break;
      }
      sleeps := sleeps + [backoff];
      backoff := Min(backoff * 2.0, max);
    }
    connected := false;
  }

  /** The reset time doubled `k` times. */
  function Doubled(reset: real, k: nat): real {
    if k == 0 then reset else 2.0 * Doubled(reset, k - 1)
  }

  lemma {:induction false} DoubledIsPower(reset: real, k: nat)
    ensures Doubled(reset, k) == reset * Pow2(k) as real
  {
    if k > 0 {
      DoubledIsPower(reset, k - 1);
      var p := Pow2(k - 1);
      TwiceAsLong(reset, p);
      assert Doubled(reset, k - 1) == reset * p as real;
      assert Pow2(k) == 2 * p;
    }
  }

  lemma TwiceAsLong(reset: real, p: nat)
    ensures reset * (2 * p) as real == 2.0 * (reset * p as real)
  {
    assert (2 * p) as real == 2.0 * p as real;
  }

  /** Delay k is reset * 2^k, cut at the maximum; only the first delay is never cut. */
  lemma BackoffClosedForm(reset: real, max: real, k: nat)
    requires reset >= 0.0 && max >= 0.0
    ensures Backoff(reset, max, k) == if k == 0 then reset else Min(reset * Pow2(k) as real, max)
  {
    BackoffDoubles(reset, max, k);
    DoubledIsPower(reset, k);
  }

  lemma {:induction false} BackoffDoubles(reset: real, max: real, k: nat)
    requires reset >= 0.0 && max >= 0.0
    ensures Backoff(reset, max, k) == if k == 0 then reset else Min(Doubled(reset, k), max)
    ensures Doubled(reset, k) >= 0.0
  {
    if k > 0 {
      BackoffDoubles(reset, max, k - 1);
    }
  }

  /** Delays never decrease exactly when the reset time does not exceed the maximum. */
  lemma BackoffMonotoneIff(reset: real, max: real)
    requires reset > 0.0 && max >= 0.0
    ensures (forall k: nat :: Backoff(reset, max, k) <= Backoff(reset, max, k + 1)) <==> reset <= max
  {
    if reset <= max {
      forall k: nat ensures Backoff(reset, max, k) <= Backoff(reset, max, k + 1) {
        BackoffBounded(reset, max, k);
      }
    } else {
      assert Backoff(reset, max, 0 + 1) == max < Backoff(reset, max, 0);
    }
  }

  lemma {:induction false} BackoffBounded(reset: real, max: real, k: nat)
    requires 0.0 <= reset <= max
    ensures 0.0 <= Backoff(reset, max, k) <= max
  {
    if k > 0 {
      BackoffBounded(reset, max, k - 1);
    }
  }

  /** All the sleeping of a failed connection takes at most `n` times the maximum delay. */
  lemma TotalBackoff(reset: real, max: real, n: nat)
    requires 0.0 <= reset <= max
    ensures Sum(Backoffs(reset, max, n)) <= n as real * max
  {
    forall k: nat | k < n ensures Backoffs(reset, max, n)[k] <= max {
      BackoffBounded(reset, max, k);
    }
    SumBounded(Backoffs(reset, max, n), max);
  }

  lemma {:induction false} SumBounded(xs: seq<real>, max: real)
    requires forall k: nat | k < |xs| :: xs[k] <= max
    ensures Sum(xs) <= |xs| as real * max
  {
    if xs != [] {
      var n := |xs| - 1;
      SumBounded(xs[..n], max);
      OneMore(Sum(xs[..n]), xs[n], n, max);
    }
  }

  lemma OneMore(total: real, last: real, n: nat, max: real)
    requires total <= n as real * max && last <= max
    ensures total + last <= (n + 1) as real * max
  {
    var m := n as real;
    assert (n + 1) as real == m + 1.0;
    assert (m + 1.0) * max == m * max + max;
  }

  // ---------------------------------------------------------------- reconnecting

  /** The flags of the connection. `reconnects` lists the reconnect tasks ever begun: true for those that are done. */
  datatype Link = Link(connected: bool, connecting: bool, closing: bool, hasConnected: bool, reconnects: seq<bool>,
                       published: nat)

  const UNCONNECTED := Link(false, false, false, false, [], 0)

  /** What happens to the connection between two suspensions. */
  datatype Happening =
    | ConnectCalled
    | ConnectFailed
    | Published
    | ReaderOrPingFailed
    | ReaderEnded
    | DisconnectCalled
    | ReconnectBegins
    | ReconnectEnds

  /** A reconnect task is under way. */
  predicate Reconnecting(l: Link) {
    |l.reconnects| > 0 && !l.reconnects[|l.reconnects| - 1]
  }

  /** `_start_reconnect` */
  function StartReconnect(l: Link): Link {
    if Reconnecting(l) then l else l.(reconnects := l.reconnects + [false])
  }

  /** `_handle_connection_error` */
  function ConnectionError(l: Link): Link {
    var broken := l.(connected := false);
    if l.connected && !l.closing then StartReconnect(broken) else broken
  }

  function Happen(l: Link, h: Happening): Link {
    match h
    case ConnectCalled => if l.connected || l.connecting then l else l.(connecting := true, closing := false)
    case ConnectFailed => l.(connecting := false)
    case Published => l.(connected := true, connecting := false, hasConnected := true, published := l.published + 1)
    case ReaderOrPingFailed => ConnectionError(l)
    case ReaderEnded => l.(connected := false)
    case DisconnectCalled =>
      if !l.connected && !l.connecting then l else l.(closing := true, connected := false, connecting := false)
    case ReconnectBegins => if Reconnecting(l) then l.(connecting := true) else l
    case ReconnectEnds =>
      if Reconnecting(l) then l.(connecting := false, reconnects := l.reconnects[|l.reconnects| - 1 := true]) else l
  }

  function HappenAll(l: Link, hs: seq<Happening>): Link {
    if hs == [] then l else Happen(HappenAll(l, hs[..|hs| - 1]), hs[|hs| - 1])
  }

  /** Each reconnect is paid for by one publication of the connected state, and only the last one can be unfinished. */
  ghost predicate Counted(l: Link) {
    && |l.reconnects| + (if l.connected then 1 else 0) <= l.published
    && (forall i | 0 <= i < |l.reconnects| - 1 :: l.reconnects[i])
    && (l.hasConnected <==> l.published > 0)
  }

  lemma HappenKeeps(l: Link, h: Happening)
    requires Counted(l)
    ensures Counted(Happen(l, h))
  {
  }

  /** This holds however failures of reader and ping interleave with connects, disconnects and reconnects. */
  lemma {:induction false} ReconnectsCounted(hs: seq<Happening>)
    ensures var l := HappenAll(UNCONNECTED, hs);
            && |l.reconnects| + (if l.connected then 1 else 0) <= l.published
            && (forall i | 0 <= i < |l.reconnects| - 1 :: l.reconnects[i])
            && (l.hasConnected <==> l.published > 0)
  {
    if hs != [] {
      ReconnectsCounted(hs[..|hs| - 1]);
      HappenKeeps(HappenAll(UNCONNECTED, hs[..|hs| - 1]), hs[|hs| - 1]);
    }
  }

  /** A failure on an established connection that is not being closed always leaves a reconnect under way. */
  lemma FailureReconnects(l: Link)
    ensures Reconnecting(ConnectionError(l)) <==> Reconnecting(l) || (l.connected && !l.closing)
    ensures |ConnectionError(l).reconnects| == |l.reconnects| + 1 <==> l.connected && !l.closing && !Reconnecting(l)
  {
    assert l.connected && !l.closing && !Reconnecting(l) ==>
             ConnectionError(l).reconnects[|l.reconnects|] == false;
  }

  /** While the client is closing, and nobody connects it, no failure begins a reconnect. */
  lemma {:induction false} ClosingBeginsNone(l: Link, hs: seq<Happening>)
    requires l.closing && ConnectCalled !in hs
    ensures HappenAll(l, hs).closing && |HappenAll(l, hs).reconnects| == |l.reconnects|
  {
    if hs != [] {
      ClosingBeginsNone(l, hs[..|hs| - 1]);
    }
  }

  /** The reconnect under way goes on, succeeds, and the new connection fails. */
  const RECONNECT_AND_FAIL := [ReconnectBegins, Published, ReconnectEnds, ReaderOrPingFailed]

  lemma IgnoredDisconnect(l: Link)
    requires Reconnecting(l) && !l.connected && !l.connecting && !l.closing
    ensures |HappenAll(Happen(l, DisconnectCalled), RECONNECT_AND_FAIL).reconnects| == |l.reconnects| + 1
  {
    var hs := RECONNECT_AND_FAIL;
    assert hs[..3] == [ReconnectBegins, Published, ReconnectEnds] && hs[..3][..2] == [ReconnectBegins, Published];
    assert hs[..3][..2][..1] == [ReconnectBegins] && hs[..3][..2][..1][..0] == [];
    assert HappenAll(l, []) == l;
    var l1 := Happen(l, ReconnectBegins);
    var l2 := Happen(l1, Published);
    var l3 := Happen(l2, ReconnectEnds);
    assert HappenAll(l, [ReconnectBegins]) == l1;
    assert HappenAll(l, [ReconnectBegins, Published]) == l2;
    assert HappenAll(l, [ReconnectBegins, Published, ReconnectEnds]) == l3;
    assert !Reconnecting(l3) && l3.connected && !l3.closing;
  }

  /**
   When a disconnect during a reconnect keeps further reconnects from being begun, until somebody connects again:
   exactly if the client is connected, connecting or closing at that moment. In the gap before a reconnect that was
   scheduled gets to run, it is none of these, and the disconnect is ignored.
   */
  lemma DisconnectStopsIff(l: Link)
    requires Reconnecting(l)
    ensures (forall hs | ConnectCalled !in hs ::
               |HappenAll(Happen(l, DisconnectCalled), hs).reconnects| == |l.reconnects|)
            <==> l.connected || l.connecting || l.closing
  {
    if l.connected || l.connecting || l.closing {
      forall hs | ConnectCalled !in hs
        ensures |HappenAll(Happen(l, DisconnectCalled), hs).reconnects| == |l.reconnects|
      {
        ClosingBeginsNone(Happen(l, DisconnectCalled), hs);
      }
    } else {
      IgnoredDisconnect(l);
      assert ConnectCalled !in RECONNECT_AND_FAIL;
    }
  }

  /** A connect that is accepted reopens a client that was closing, and it stays open until it is disconnected. */
  lemma {:induction false} StaysOpen(l: Link, hs: seq<Happening>)
    requires !l.connected && !l.connecting && DisconnectCalled !in hs
    ensures !HappenAll(Happen(l, ConnectCalled), hs).closing
  {
    if hs != [] {
      StaysOpen(l, hs[..|hs| - 1]);
    }
  }

  /**
   After a connect that is accepted, whatever happens but a disconnect, a failure of an established connection leaves a
   reconnect under way, even if the client had been closing before.
   */
  lemma ConnectReopens(l: Link, hs: seq<Happening>)
    requires !l.connected && !l.connecting && DisconnectCalled !in hs
    requires HappenAll(Happen(l, ConnectCalled), hs).connected
    ensures Reconnecting(Happen(HappenAll(Happen(l, ConnectCalled), hs), ReaderOrPingFailed))
  {
    StaysOpen(l, hs);
    FailureReconnects(HappenAll(Happen(l, ConnectCalled), hs));
  }

  /**
   Connecting is exclusive: from when a connect is accepted, or a reconnect begins, until that attempt is published or
   ends, a further connect changes nothing, and a disconnect takes effect.
   */
  lemma ConnectIsExclusive(l: Link, h: Happening)
    requires h == ConnectCalled || (h == ReconnectBegins && Reconnecting(l))
    ensures var l1 := Happen(l, h); Happen(l1, ConnectCalled) == l1 && Happen(l1, DisconnectCalled).closing
    ensures h == ConnectCalled && !l.connected && !l.connecting ==>
              var l4 := Happen(Happen(l, h), ConnectFailed); !l4.connected && !l4.connecting && !l4.closing
    ensures h == ReconnectBegins && !l.connected ==>
              var l2 := Happen(Happen(l, h), ReconnectEnds);
              !Reconnecting(l2) && Happen(l2, ConnectCalled).connecting && !Happen(l2, ConnectCalled).closing
    ensures var l3 := Happen(Happen(l, h), Published);
            l3.connected && !l3.connecting && Happen(l3, ConnectCalled) == l3
  {
  }

  /**
   After a disconnect that takes effect nothing is up or under way, and the client can be connected again. When the
   reader has ended, nothing is up, so that a late failure of the ping loop begins no reconnect.
   */
  lemma EndsOfConnections(l: Link)
    ensures l.connected || l.connecting ==>
              var l1 := Happen(l, DisconnectCalled);
              && l1.closing && !l1.connected && !l1.connecting
              && Happen(l1, ConnectCalled).connecting && !Happen(l1, ConnectCalled).closing
    ensures var l2 := Happen(l, ReaderEnded);
            !l2.connected && Happen(l2, ReaderOrPingFailed).reconnects == l.reconnects
  {
  }

  class MercuryClient {
    var connected: bool
    var connecting: bool
    var closing: bool
    var hasConnected: bool
    var reconnects: seq<bool>
    ghost var published: nat

    ghost function State(): Link
      reads this
    {
      Link(connected, connecting, closing, hasConnected, reconnects, published)
    }

    ghost predicate Valid()
      reads this
    {
      Counted(State())
    }

    constructor ()
      ensures State() == UNCONNECTED && Valid()
    {
      connected, connecting, closing, hasConnected, reconnects, published := false, false, false, false, [], 0;
    }

    /** The state published by `_attempt_connection`. */
    method Publish()
      requires Valid()
      modifies this
      ensures State() == Happen(old(State()), Published) && Valid()
    {
      connected := true;
      connecting := false;
      hasConnected := true;
      published := published + 1;
    }

    /** `_start_reconnect`: a lost connection that was published is there to pay for a new reconnect. */
    method StartReconnectTask()
      requires Valid() && !connected && |reconnects| < published
      modifies this`reconnects
      ensures State() == StartReconnect(old(State())) && Valid()
    {
      if |reconnects| > 0 && !reconnects[|reconnects| - 1] {
        return;
      }
      reconnects := reconnects + [false];
    }

    /** `_handle_connection_error` */
    method HandleConnectionError()
      requires Valid()
      modifies this
      ensures State() == Happen(old(State()), ReaderOrPingFailed) && Valid()
    {
      var wasConnected := connected;
      connected := false;
      if wasConnected && !closing {
        StartReconnectTask();
      }
    }

    /** The failure path of `_reader_loop`, its `finally` clause included. */
    method ReaderFails()
      requires Valid()
      modifies this
      ensures State() == Happen(Happen(old(State()), ReaderOrPingFailed), ReaderEnded)
      ensures State() == Happen(old(State()), ReaderOrPingFailed) && Valid()
    {
      HandleConnectionError();
      connected := false;
    }

    /** `disconnect`, up to the cancelling of the loops. */
    method Disconnect()
      requires Valid()
      modifies this
      ensures State() == Happen(old(State()), DisconnectCalled) && Valid()
    {
      if !connected && !connecting {
        return;
      }
      closing := true;
      connected := false;
      connecting := false;
    }

    /** `connect`, up to its first wait; false when it has nothing to do or refuses. */
    method Connect() returns (proceeds: bool)
      requires Valid()
      modifies this
      ensures State() == Happen(old(State()), ConnectCalled) && Valid()
      ensures proceeds == old(!connected && !connecting)
    {
      if connected || connecting {
        return false;
      }
      connecting := true;
      closing := false;
      return true;
    }

    /** `_reconnect` begins. */
    method BeginReconnect()
      requires Valid() && Reconnecting(State())
      modifies this
      ensures State() == Happen(old(State()), ReconnectBegins) && Valid()
    {
      connecting := true;
    }

    /** `_reconnect` ends. */
    method EndReconnect()
      requires Valid() && Reconnecting(State())
      modifies this
      ensures State() == Happen(old(State()), ReconnectEnds) && Valid()
    {
      connecting := false;
      reconnects := reconnects[|reconnects| - 1 := true];
    }

    method HappenOnce(h: Happening)
      requires Valid()
      modifies this
      ensures State() == Happen(old(State()), h) && Valid()
    {
      match h
      case ConnectCalled => var _ := Connect();
      case ConnectFailed => connecting := false;
      case Published => Publish();
      case ReaderOrPingFailed => HandleConnectionError();
      case ReaderEnded => connected := false;
      case DisconnectCalled => Disconnect();
      case ReconnectBegins =>
        if |reconnects| > 0 && !reconnects[|reconnects| - 1] {
          BeginReconnect();
        }
      case ReconnectEnds =>
        if |reconnects| > 0 && !reconnects[|reconnects| - 1] {
          EndReconnect();
        }
    }

    /** The event loop runs the client through whatever happens: it is the machine, and keeps its reconnects counted. */
    method Perform(hs: seq<Happening>)
      requires Valid()
      modifies this
      ensures State() == HappenAll(old(State()), hs) && Valid()
    {
      for n := 0 to |hs|
        invariant State() == HappenAll(old(State()), hs[..n]) && Valid()
      {
        HappenOnce(hs[n]);
        assert hs[..n + 1][..n] == hs[..n];
      }
      assert hs[..|hs|] == hs;
    }
  }
}
