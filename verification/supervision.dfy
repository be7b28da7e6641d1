/**
 * The connection supervisor: the body of the background loop that watches
 * the session to the coordination service, closes a session that has been
 * connecting for too long, opens a new one when the current one is closed,
 * and ticks the registered users while the session is connected.
 *
 * One turn of the loop is a function of the supervisor's state and of what
 * the environment does meanwhile: the state the session has settled in
 * after the pause, and whether opening a new session succeeded.
 */
module Supervision {
  import opened Wrappers

  /** The states a client session reports. */
  datatype ZkState =
    | CONNECTING
    | ASSOCIATING
    | CONNECTED
    | CONNECTEDREADONLY
    | CLOSED
    | AUTH_FAILED
    | NOT_CONNECTED

  /** A client session; `id` tells apart the sessions the supervisor opened. */
  datatype Session = Session(id: nat, state: ZkState)

  /** After this many turns spent connecting the session is closed and reopened. */
  const CONNECTING_LIMIT: nat := 10

  /**
   * The counter update for one observed session state: reset when
   * connected, count when connecting, and once the count passes the limit
   * reset it and ask for the session to be closed (the second component).
   */
  function CountConnecting(counter: nat, observed: Option<ZkState>): (r: (nat, bool))
    ensures r.1 <==> observed == Some(CONNECTING) && counter >= CONNECTING_LIMIT
    ensures observed == Some(CONNECTED) ==> r.0 == 0
    ensures observed != Some(CONNECTED) && observed != Some(CONNECTING) ==> r.0 == counter
    ensures counter <= CONNECTING_LIMIT ==> r.0 <= CONNECTING_LIMIT
  {
    if observed == Some(CONNECTED) then (0, false)
    else if observed == Some(CONNECTING) then
      if counter + 1 > CONNECTING_LIMIT then (0, true) else (counter + 1, false)
    else (counter, false)
  }

  /** The counter after observing `observed`, one state per turn, from 0. */
  function CounterAfter(observed: seq<Option<ZkState>>): nat
    decreases |observed|
  {
    if observed == [] then 0
    else CountConnecting(CounterAfter(observed[..|observed| - 1]), observed[|observed| - 1]).0
  }

  /** How many turns observed a connecting session since the last connected one. */
  function ConnectingSinceConnected(observed: seq<Option<ZkState>>): nat
    decreases |observed|
  {
    if observed == [] then 0
    else
      var last := observed[|observed| - 1];
      var before := ConnectingSinceConnected(observed[..|observed| - 1]);
      if last == Some(CONNECTED) then 0
      else if last == Some(CONNECTING) then before + 1
      else before
  }

  /**
   * The counter counts the turns spent connecting since the session was last
   * seen connected, wrapping to 0 each time it forces a close.
   */
  lemma {:induction false} CounterCountsConnecting(observed: seq<Option<ZkState>>)
    ensures CounterAfter(observed) == ConnectingSinceConnected(observed) % (CONNECTING_LIMIT + 1)
    decreases |observed|
  {
    if observed != [] {
      var front := observed[..|observed| - 1];
      CounterCountsConnecting(front);
      var k := ConnectingSinceConnected(front);
      if observed[|observed| - 1] == Some(CONNECTING) {
        if k % 11 == 10 {
          assert (k + 1) % 11 == 0;
        } else {
          assert (k + 1) % 11 == k % 11 + 1;
        }
      }
    }
  }

  /** Eleven turns in a row that see a connecting session always include a forced close. */
  lemma ElevenConnectingTurnsForceClose(observed: seq<Option<ZkState>>, first: nat)
    requires first + CONNECTING_LIMIT < |observed|
    requires forall i :: first <= i <= first + CONNECTING_LIMIT ==> observed[i] == Some(CONNECTING)
    ensures exists i ::
      first <= i <= first + CONNECTING_LIMIT && CountConnecting(CounterAfter(observed[..i]), observed[i]).1
  {
    var k := ConnectingSinceConnected(observed[..first]);
    var j := first + (CONNECTING_LIMIT - k % 11);
    ConnectingRun(observed, first, j);
    CounterCountsConnecting(observed[..j]);
    assert CounterAfter(observed[..j]) == 10;
  }

  /** Along a run of connecting turns the count grows by one per turn. */
  lemma {:induction false} ConnectingRun(observed: seq<Option<ZkState>>, first: nat, j: nat)
    requires first <= j <= |observed|
    requires forall i :: first <= i < j ==> observed[i] == Some(CONNECTING)
    ensures ConnectingSinceConnected(observed[..j]) == ConnectingSinceConnected(observed[..first]) + (j - first)
    decreases j
  {
    if j > first {
      ConnectingRun(observed, first, j - 1);
      assert observed[..j][..j - 1] == observed[..j - 1];
    }
  }

  /** The supervisor's own state: the current session, the next id, the counter and the closed flag. */
  datatype Supervisor = Supervisor(zk: Option<Session>, nextSessionId: nat, connectingCounter: nat, isClosed: bool)

  /** What one turn leaves: the new state, whether the loop ends, whether the users are ticked. */
  datatype Turn = Turn(after: Supervisor, exit: bool, tick: bool)

  /** The session state a turn starts by reading, if there is a session. */
  function Observed(s: Supervisor): Option<ZkState> {
    if s.zk.Some? then Some(s.zk.value.state) else None
  }

  /**
   * One turn of the loop. The session's state is read; the counter is
   * updated and may close the session; a closed session is replaced by a
   * new one in the CONNECTING state when `reopened` (opening can fail, and
   * then the closed session stays); during the pause that follows a session
   * that is not closed moves to `settled`; the users are ticked if the
   * session is then CONNECTED; and the loop ends if it has been closed.
   */
  function Step(s: Supervisor, settled: ZkState, reopened: bool): (t: Turn)
    ensures t.exit == s.isClosed && t.after.isClosed == s.isClosed
    ensures t.tick <==> t.after.zk.Some? && t.after.zk.value.state == CONNECTED
    ensures s.connectingCounter <= CONNECTING_LIMIT ==> t.after.connectingCounter <= CONNECTING_LIMIT
    ensures t.after.connectingCounter == CountConnecting(s.connectingCounter, Observed(s)).0
    ensures s.zk.None? ==> t.after == s
  {
    var (counter, forceClose) := CountConnecting(s.connectingCounter, Observed(s));
    var zk1 := if forceClose then Some(s.zk.value.(state := CLOSED)) else s.zk;
    var (zk2, next) :=
      if zk1.Some? && zk1.value.state == CLOSED && reopened
      then (Some(Session(s.nextSessionId, CONNECTING)), s.nextSessionId + 1)
      else (zk1, s.nextSessionId);
    var zk3 := if zk2.Some? && zk2.value.state != CLOSED then Some(zk2.value.(state := settled)) else zk2;
    Turn(Supervisor(zk3, next, counter, s.isClosed), s.isClosed, zk3.Some? && zk3.value.state == CONNECTED)
  }

  /** The sessions the supervisor opens carry ids it has not handed out before. */
  predicate IdsFresh(s: Supervisor) {
    s.zk.Some? ==> s.zk.value.id < s.nextSessionId
  }

  lemma StepKeepsIdsFresh(s: Supervisor, settled: ZkState, reopened: bool)
    requires IdsFresh(s)
    ensures IdsFresh(Step(s, settled, reopened).after)
  {
  }

  /**
   * A session found CLOSED is replaced when reopening succeeds: the new
   * session has the next id, and it is the one the pause then moves on.
   */
  lemma ClosedSessionIsReplaced(s: Supervisor, settled: ZkState)
    requires s.zk.Some? && s.zk.value.state == CLOSED
    ensures var a := Step(s, settled, true).after;
      && a.zk == Some(Session(s.nextSessionId, settled))
      && a.nextSessionId == s.nextSessionId + 1
      && a.connectingCounter == s.connectingCounter
  {
  }

  /** When reopening fails the closed session stays, and the users are not ticked. */
  lemma FailedReopenKeepsClosed(s: Supervisor, settled: ZkState)
    requires s.zk.Some? && s.zk.value.state == CLOSED
    ensures Step(s, settled, false).after.zk == s.zk && !Step(s, settled, false).tick
  {
  }

  /**
   * The eleventh connecting turn closes the session and resets the counter;
   * in the same turn the closed session is replaced if reopening succeeds.
   */
  lemma LongConnectingIsClosed(s: Supervisor, settled: ZkState, reopened: bool)
    requires s.zk.Some? && s.zk.value.state == CONNECTING && s.connectingCounter == CONNECTING_LIMIT
    ensures var a := Step(s, settled, reopened).after;
      && a.connectingCounter == 0
      && (reopened ==> a.zk == Some(Session(s.nextSessionId, settled)))
      && (!reopened ==> a.zk == Some(Session(s.zk.value.id, CLOSED)))
  {
  }

  /**
   * An ordinary connecting turn, below the limit: the count goes up by one,
   * the session is kept (and moves to `settled` in the pause), no new
   * session is opened, and the users are ticked only if it then connected.
   */
  lemma ConnectingTurnCounts(s: Supervisor, settled: ZkState, reopened: bool)
    requires s.zk.Some? && s.zk.value.state == CONNECTING && s.connectingCounter < CONNECTING_LIMIT
    ensures var t := Step(s, settled, reopened);
      && t.after.connectingCounter == s.connectingCounter + 1
      && t.after.zk == Some(Session(s.zk.value.id, settled))
      && t.after.nextSessionId == s.nextSessionId
      && (t.tick <==> settled == CONNECTED)
  {
  }

  /**
   * A session in any other state (ASSOCIATING, CONNECTEDREADONLY,
   * AUTH_FAILED, NOT_CONNECTED) is only read: it keeps its id and the
   * counter, no session is opened, and it moves to `settled` in the pause.
   */
  lemma OtherStateTurn(s: Supervisor, settled: ZkState, reopened: bool)
    requires s.zk.Some? && s.zk.value.state !in {CONNECTED, CONNECTING, CLOSED}
    ensures var t := Step(s, settled, reopened);
      && t.after.connectingCounter == s.connectingCounter
      && t.after.zk == Some(Session(s.zk.value.id, settled))
      && t.after.nextSessionId == s.nextSessionId
      && (t.tick <==> settled == CONNECTED)
  {
  }

  /** A connected session keeps its handle and resets the counter. */
  lemma ConnectedResetsCounter(s: Supervisor, settled: ZkState, reopened: bool)
    requires s.zk.Some? && s.zk.value.state == CONNECTED
    ensures var a := Step(s, settled, reopened).after;
      a.connectingCounter == 0 && a.zk == Some(Session(s.zk.value.id, settled)) && a.nextSessionId == s.nextSessionId
  {
  }
}
