/** Taking a lock or a connection without waiting past a guard's deadline
    (crates/baley-store-sqlite/src/queue.rs and store.rs). Times are
    nanoseconds of a monotone clock. */
module Acquire {
  import opened Wrappers

  const RETRY_PAUSE := 10_000_000

  datatype Attempt = Free | Occupied | Broken

  datatype Next = Block | Try | Retry(pause: nat) | Busy

  datatype Taken = Held | MustBlock | OutOfTime | Failed

  function SaturatingSub(a: nat, b: nat): nat {
    if a <= b then 0 else a - b
  }

  function Min(a: nat, b: nat): nat {
    if a <= b then a else b
  }

  /** `next`. */
  function NextStep(blocked: bool, remaining: Option<nat>): Next {
    match remaining
    case None => Block
    case Some(left) => if left == 0 then Busy else if blocked then Retry(Min(RETRY_PAUSE, left)) else Try
  }

  function GuardBusyTimeout(deadline: nat, now: nat): nat {
    SaturatingSub(deadline, now)
  }

  /** A wait that began at a reading. */
  datatype Wait = Wait(start: nat, length: nat)

  // ----- statements and the locks they meet -----

  /** A statement: the time the caller spends before it, how long the lock it
      meets stays taken once it starts, and how long it then runs. */
  datatype Statement = Statement(before: nat, lock: nat, work: nat)

  /** The wait of a statement that starts at a time under a busy timeout, and
      when it is over. Every statement waits anew. */
  function WaitOf(start: nat, timeout: nat, statement: Statement): Wait {
    Wait(start, Min(statement.lock, timeout))
  }

  function Ended(start: nat, timeout: nat, statement: Statement): nat {
    start + Min(statement.lock, timeout) + statement.work
  }

  /** The waits of statements that share one timeout; the first that is
      answered busy is the last. */
  function WaitsUnder(now: nat, timeout: nat, statements: seq<Statement>): seq<Wait>
    decreases |statements|
  {
    if statements == [] then []
    else
      var start := now + statements[0].before;
      [WaitOf(start, timeout, statements[0])]
      + if statements[0].lock > timeout then []
        else WaitsUnder(Ended(start, timeout, statements[0]), timeout, statements[1..])
  }

  predicate Crosses(wait: Wait, deadline: nat) {
    0 < wait.length && deadline < wait.start + wait.length
  }

  // ----- the loop against a clock and a lock it does not control -----

  /** The clock, the lock, a connection's busy timeout, and what has been asked
      of them. `drift` is how far the clock moves before each reading, `late`
      how much longer than asked each pause takes, and `answers` what each try
      of the lock finds. */
  class Surroundings {
    const drift: nat -> nat
    const late: nat -> nat
    const answers: nat -> Attempt
    var now: nat
    var readings: nat
    ghost var tries: seq<(nat, Attempt)>
    ghost var pauses: seq<Wait>
    ghost var waits: seq<Wait>
    var timeout: nat
    var tried: nat
    var paused: nat

    constructor (drift: nat -> nat, late: nat -> nat, answers: nat -> Attempt, now: nat, timeout: nat)
      ensures this.now == now && tries == [] && pauses == [] && waits == [] && readings == 0 && this.timeout == timeout
    {
      this.drift, this.late, this.answers := drift, late, answers;
      this.now, readings, tried, paused := now, 0, 0, 0;
      tries, pauses, waits := [], [], [];
      this.timeout := timeout;
    }

    method Now() returns (reading: nat)
      modifies this`now, this`readings
      ensures reading == now && old(now) <= now && readings == old(readings) + 1
    {
      now := now + drift(readings);
      readings := readings + 1;
      reading := now;
    }

    method Pause(length: nat)
      modifies this`now, this`paused, this`pauses
      ensures old(now) + length <= now && pauses == old(pauses) + [Wait(old(now), length)]
    {
      pauses := pauses + [Wait(now, length)];
      now := now + length + late(paused);
      paused := paused + 1;
    }

    method TryLock() returns (found: Attempt)
      modifies this`tried, this`tries
      ensures tries == old(tries) + [(now, found)]
    {
      found := answers(tried);
      tried := tried + 1;
      tries := tries + [(now, found)];
    }

    /** `acquire`. A bounded acquisition ends, holding the lock or out of time:
        it tries only before the deadline, never pauses across it and is never
        told to block. An unbounded one reads no clock and is told to block. */
    method Acquire(deadline: Option<nat>) returns (taken: Taken)
      modifies this`now, this`readings, this`tried, this`tries, this`paused, this`pauses
      ensures deadline.None? ==> taken == MustBlock && readings == old(readings) && tries == old(tries) && pauses == old(pauses)
      ensures deadline.Some? ==> taken != MustBlock
      ensures deadline.Some? ==> InTime(tries, |old(tries)|, deadline.value) && Short(pauses, |old(pauses)|, deadline.value)
      ensures old(tries) <= tries && old(pauses) <= pauses
      ensures taken == OutOfTime ==> deadline.Some? && deadline.value <= now && AllOccupied(tries, |old(tries)|)
      ensures taken == Held ==> |old(tries)| < |tries| && tries[|tries| - 1].1 == Free
                                && AllOccupied(tries[..|tries| - 1], |old(tries)|)
      ensures taken == Failed ==> |old(tries)| < |tries| && tries[|tries| - 1].1 == Broken
      ensures deadline.Some? ==> Alternate(tries[|old(tries)|..], pauses[|old(pauses)|..], deadline.value)
    {
      hide Alternate, LastBefore, InTime, Short, AllOccupied;
      var blocked := false;
      NothingTried(tries, pauses, now, if deadline.Some? then deadline.value else 0);
      while true
        invariant old(tries) <= tries && old(pauses) <= pauses
        invariant AllOccupied(tries, |old(tries)|)
        invariant deadline.Some? ==> InTime(tries, |old(tries)|, deadline.value) && Short(pauses, |old(pauses)|, deadline.value)
        invariant deadline.Some? ==> Alternate(tries[|old(tries)|..], pauses[|old(pauses)|..], deadline.value)
        invariant deadline.Some? ==> LastBefore(tries[|old(tries)|..], pauses[|old(pauses)|..], now)
        invariant deadline.Some? ==> |tries| - |old(tries)| == |pauses| - |old(pauses)| + if blocked then 1 else 0
        invariant deadline.None? ==> readings == old(readings) && tries == old(tries) && pauses == old(pauses) && !blocked
        decreases if deadline.Some? then SaturatingSub(deadline.value, now) else 0, if blocked then 0 else 1
      {
        var remaining := None;
        ghost var tried, waited, bound := tries, pauses, if deadline.Some? then deadline.value else 0;
        if deadline.Some? {
          LaterStill(tried[|old(tries)|..], waited[|old(pauses)|..], now);
          var reading := Now();
          remaining := Some(SaturatingSub(deadline.value, reading));
        }
        match NextStep(blocked, remaining)
        case Block => return MustBlock;
        case Busy => return OutOfTime;
        case Retry(length) =>
          ghost var start := now;
          Pause(length);
          blocked := false;
          OnePauseMore(tried, |old(tries)|, waited, |old(pauses)|, Wait(start, length), now, bound);
        case Try =>
          var found := TryLock();
          OneTryMore(tried, |old(tries)|, waited, |old(pauses)|, now, found, bound);
          match found
          case Free => return Held;
          case Occupied => blocked := true;
          case Broken => return Failed;
      }
    }

    /** `connection`: the connection and the busy timeout its statements wait
        under. */
    method Connection(deadline: Option<nat>) returns (refused: Option<Taken>)
      modifies this`now, this`readings, this`tried, this`tries, this`paused, this`pauses, this`timeout
      ensures deadline.None? ==> refused.None? && timeout == old(timeout) && readings == old(readings)
      ensures deadline.Some? && refused.None? ==> 0 < timeout && now + timeout == deadline.value
      ensures refused.Some? ==> deadline.Some? && (refused.value == OutOfTime || refused.value == Failed)
      ensures deadline.Some? && refused == Some(OutOfTime) ==> deadline.value <= now
      ensures refused == Some(Failed) ==> |old(tries)| < |tries| && tries[|tries| - 1].1 == Broken
      ensures deadline.Some? && refused.None? ==> |old(tries)| < |tries| && tries[|tries| - 1].1 == Free
      ensures deadline.Some? ==> InTime(tries, |old(tries)|, deadline.value) && Short(pauses, |old(pauses)|, deadline.value)
    {
      var taken := Acquire(deadline);
      match taken
      case MustBlock => refused := None;
      case Held =>
        var reading := Now();
        var left := GuardBusyTimeout(deadline.value, reading);
        if left == 0 {
          return Some(OutOfTime);
        }
        timeout := left;
        refused := None;
      case _ => refused := Some(taken);
    }

    /** `bounded`: the timeout set again, at a reading of its own. */
    method Bounded(deadline: Option<nat>)
      modifies this`now, this`readings, this`timeout
      ensures old(now) <= now && timeout == if deadline.Some? then GuardBusyTimeout(deadline.value, now) else old(timeout)
      ensures deadline.None? ==> now == old(now) && readings == old(readings)
    {
      if deadline.Some? {
        var reading := Now();
        timeout := GuardBusyTimeout(deadline.value, reading);
      }
    }

    method Elapse(length: nat)
      modifies this`now
      ensures now == old(now) + length
    {
      now := now + length;
    }

    /** A statement under the timeout in force: it waits for its lock that long
        at most, and is answered busy if the lock is taken longer. */
    method Execute(statement: Statement) returns (busy: bool)
      modifies this`now, this`waits
      ensures busy <==> statement.lock > timeout
      ensures waits == old(waits) + [WaitOf(old(now), timeout, statement)]
      ensures now == if busy then old(now) + timeout else Ended(old(now), timeout, statement)
    {
      waits := waits + [WaitOf(now, timeout, statement)];
      now := now + Min(statement.lock, timeout);
      busy := statement.lock > timeout;
      if !busy {
        now := now + statement.work;
      }
    }

    /** The way `open` and `create` run theirs, each one bounded: whatever
        locks they meet and however long they take, no wait crosses the
        deadline. */
    method RunBounded(deadline: nat, statements: seq<Statement>) returns (busy: bool)
      modifies this
      ensures old(waits) <= waits && |waits| <= |old(waits)| + |statements|
      ensures forall at :: |old(waits)| <= at < |waits| ==> !Crosses(waits[at], deadline)
      ensures !busy ==> |waits| == |old(waits)| + |statements|
      ensures busy ==> |old(waits)| < |waits| && deadline <= now
      ensures forall at :: |old(waits)| <= at < |waits| && !(busy && at == |waits| - 1) ==>
                waits[at].length == statements[at - |old(waits)|].lock
    {
      busy := false;
      for next := 0 to |statements|
        invariant old(waits) <= waits && |waits| == |old(waits)| + next
        invariant forall at :: |old(waits)| <= at < |waits| ==> !Crosses(waits[at], deadline)
        invariant forall at :: |old(waits)| <= at < |waits| ==> waits[at].length == statements[at - |old(waits)|].lock
      {
        Elapse(statements[next].before);
        Bounded(Some(deadline));
        busy := Execute(statements[next]);
        if busy {
          return;
        }
      }
    }

    /** The way `read`, `snapshot` and `write` run theirs: all under the one
        timeout that `connection` set. */
    method RunOnConnection(deadline: nat, statements: seq<Statement>) returns (refused: Option<Taken>, reading: nat)
      modifies this
      ensures refused.Some? ==> waits == old(waits)
      ensures refused.None? ==> reading < deadline && waits == old(waits) + WaitsUnder(reading, deadline - reading, statements)
    {
      refused := Connection(Some(deadline));
      reading := now;
      if refused.Some? {
        return;
      }
      assert statements[0..] == statements;
      assert old(waits) + WaitsUnder(now, timeout, statements) == waits + WaitsUnder(now, timeout, statements[0..]);
      for next := 0 to |statements|
        invariant timeout == deadline - reading
        invariant waits + WaitsUnder(now, timeout, statements[next..]) == old(waits) + WaitsUnder(reading, timeout, statements)
      {
        ghost var done, start := waits, now + statements[next].before;
        assert statements[next..][0] == statements[next] && statements[next..][1..] == statements[next + 1..];
        Elapse(statements[next].before);
        var busy := Execute(statements[next]);
        if busy {
          assert waits == old(waits) + WaitsUnder(reading, timeout, statements);
          return;
        }
        var rest := WaitsUnder(now, timeout, statements[next + 1..]);
        assert done + ([WaitOf(start, timeout, statements[next])] + rest) == done + [WaitOf(start, timeout, statements[next])] + rest;
      }
      assert statements[|statements|..] == [];
    }
  }

  /** Every try from an index on was made before the deadline. */
  ghost predicate InTime(tries: seq<(nat, Attempt)>, from: nat, deadline: nat) {
    forall at :: from <= at < |tries| ==> tries[at].0 < deadline
  }

  ghost predicate AllOccupied(tries: seq<(nat, Attempt)>, from: nat) {
    forall at :: from <= at < |tries| ==> tries[at].1 == Occupied
  }

  /** No pause from an index on crosses the deadline. */
  ghost predicate Short(pauses: seq<Wait>, from: nat, deadline: nat) {
    forall at :: from <= at < |pauses| ==> pauses[at].start + pauses[at].length <= deadline
  }

  /** Tries and pauses take turns, a try first: each pause follows a try that
      found the lock taken, lasts ten milliseconds or the time left, and is over
      before the next try. */
  ghost predicate Alternate(tries: seq<(nat, Attempt)>, pauses: seq<Wait>, deadline: nat) {
    && |pauses| <= |tries| <= |pauses| + 1
    && (forall at :: 0 <= at < |pauses| ==>
          && tries[at].1 == Occupied && tries[at].0 <= pauses[at].start < deadline
          && pauses[at].length == Min(10_000_000, deadline - pauses[at].start))
    && forall at :: 0 < at < |tries| ==> pauses[at - 1].start + pauses[at - 1].length <= tries[at].0
  }

  lemma NothingTried(tries: seq<(nat, Attempt)>, pauses: seq<Wait>, now: nat, deadline: nat)
    ensures Alternate(tries[|tries|..], pauses[|pauses|..], deadline) && LastBefore(tries[|tries|..], pauses[|pauses|..], now)
    ensures InTime(tries, |tries|, deadline) && Short(pauses, |pauses|, deadline) && AllOccupied(tries, |tries|)
  {
  }

  lemma LaterStill(tries: seq<(nat, Attempt)>, pauses: seq<Wait>, now: nat)
    ensures LastBefore(tries, pauses, now) ==> forall later: nat :: now <= later ==> LastBefore(tries, pauses, later)
  {
  }

  lemma OneTryMore(tries: seq<(nat, Attempt)>, from: nat, pauses: seq<Wait>, since: nat, now: nat, found: Attempt, deadline: nat)
    requires from <= |tries| && since <= |pauses| && |tries| - from == |pauses| - since && now < deadline
    requires Alternate(tries[from..], pauses[since..], deadline) && LastBefore(tries[from..], pauses[since..], now)
    requires InTime(tries, from, deadline) && AllOccupied(tries, from)
    ensures var more := tries + [(now, found)];
            && Alternate(more[from..], pauses[since..], deadline) && LastBefore(more[from..], pauses[since..], now)
            && InTime(more, from, deadline) && AllOccupied(more[..|tries|], from) && (found == Occupied ==> AllOccupied(more, from))
  {
    var more := tries + [(now, found)];
    assert more[from..] == tries[from..] + [(now, found)] && more[..|tries|] == tries;
  }

  lemma OnePauseMore(tries: seq<(nat, Attempt)>, from: nat, pauses: seq<Wait>, since: nat, wait: Wait, now: nat, deadline: nat)
    requires from <= |tries| && since <= |pauses| && |tries| - from == |pauses| - since + 1
    requires wait.start < deadline && wait.length == Min(10_000_000, deadline - wait.start) && wait.start + wait.length <= now
    requires Alternate(tries[from..], pauses[since..], deadline) && LastBefore(tries[from..], pauses[since..], wait.start)
    requires Short(pauses, since, deadline) && AllOccupied(tries, from)
    ensures var more := pauses + [wait];
            && Alternate(tries[from..], more[since..], deadline) && LastBefore(tries[from..], more[since..], now)
            && Short(more, since, deadline)
  {
    var more := pauses + [wait];
    assert more[since..] == pauses[since..] + [wait];
    var last := |tries| - 1 - from;
    assert tries[from..][last] == tries[|tries| - 1];
  }

  ghost predicate LastBefore(tries: seq<(nat, Attempt)>, pauses: seq<Wait>, now: nat) {
    && (tries != [] ==> tries[|tries| - 1].0 <= now)
    && (pauses != [] ==> pauses[|pauses| - 1].start + pauses[|pauses| - 1].length <= now)
  }

  // ----- one timeout for several statements -----

  /** Under a timeout that ends at the deadline from the reading it was set at,
      a statement's wait crosses the deadline if and only if the statement
      starts after that reading and the lock it meets is still taken at the
      deadline; and then by no more than the statement was late. */
  lemma {:induction false} LateStatementsCross(reading: nat, now: nat, deadline: nat, statements: seq<Statement>, at: nat)
    requires reading < deadline && reading <= now
    requires at < |WaitsUnder(now, deadline - reading, statements)|
    ensures at < |statements|
    ensures var wait := WaitsUnder(now, deadline - reading, statements)[at];
            && (Crosses(wait, deadline) <==>
                  reading < wait.start && 0 < statements[at].lock && deadline < wait.start + statements[at].lock)
            && wait.start + wait.length <= deadline + (wait.start - reading)
            && now <= wait.start
    decreases |statements|
  {
    if at > 0 {
      var ended := Ended(now + statements[0].before, deadline - reading, statements[0]);
      LateStatementsCross(reading, ended, deadline, statements[1..], at - 1);
    }
  }

  /** The statements a caller means to run, meeting given locks. */
  predicate SameSchedule(one: seq<Statement>, other: seq<Statement>) {
    |one| == |other| && forall at :: 0 <= at < |one| ==> one[at].before == other[at].before && one[at].work == other[at].work
  }

  predicate SomeCross(waits: seq<Wait>, deadline: nat) {
    exists at :: 0 <= at < |waits| && Crosses(waits[at], deadline)
  }

  ghost predicate CanCross(reading: nat, deadline: nat, statements: seq<Statement>)
    requires reading < deadline
  {
    exists meeting :: SameSchedule(meeting, statements) && SomeCross(WaitsUnder(reading, deadline - reading, meeting), deadline)
  }

  /** Some lock can make a guard wait past its deadline unless its connection
      runs no more than one statement and runs it at once. */
  lemma OneTimeoutBoundsOneStatement(reading: nat, deadline: nat, statements: seq<Statement>)
    requires reading < deadline
    ensures CanCross(reading, deadline, statements) <==> |statements| > 1 || (|statements| == 1 && statements[0].before > 0)
  {
    var timeout := deadline - reading;
    if |statements| > 1 {
      var first := statements[0].(lock := timeout);
      var second := statements[1].(lock := 1);
      var meeting := [first, second] + statements[2..];
      assert meeting[1..] == [second] + statements[2..];
      var later := WaitsUnder(Ended(reading + first.before, timeout, first), timeout, meeting[1..]);
      assert WaitsUnder(reading, timeout, meeting)[1] == later[0];
      assert Crosses(WaitsUnder(reading, timeout, meeting)[1], deadline);
      assert SameSchedule(meeting, statements);
    } else if |statements| == 1 && statements[0].before > 0 {
      var meeting := [statements[0].(lock := timeout)];
      assert Crosses(WaitsUnder(reading, timeout, meeting)[0], deadline);
      assert SameSchedule(meeting, statements);
    } else {
      forall meeting | SameSchedule(meeting, statements) ensures !SomeCross(WaitsUnder(reading, timeout, meeting), deadline) {
        assert |meeting| == 1 ==> meeting[1..] == [] && |WaitsUnder(reading, timeout, meeting)| == 1;
      }
    }
  }

  const MILLISECOND := 1_000_000

  /** Two seconds of storage time: a first statement half a second long, and a
      second that meets a lock held for three seconds and waits until half a
      second past the deadline. */
  lemma AGuardCanWaitPastItsDeadline()
    ensures var deadline := 2000 * MILLISECOND;
            var statements := [Statement(0, 0, 500 * MILLISECOND), Statement(0, 3000 * MILLISECOND, 0)];
            var waits := WaitsUnder(0, deadline, statements);
            |waits| == 2 && Crosses(waits[1], deadline) && waits[1] == Wait(500 * MILLISECOND, deadline)
  {
    var statements := [Statement(0, 0, 500 * MILLISECOND), Statement(0, 3000 * MILLISECOND, 0)];
    assert statements[1..] == [Statement(0, 3000 * MILLISECOND, 0)];
    assert WaitsUnder(500 * MILLISECOND, 2000 * MILLISECOND, statements[1..]) == [Wait(500 * MILLISECOND, 2000 * MILLISECOND)];
  }
}
