/** tx_timer.v: how long a PHY counts as busy after a task has been sent to it. */
module TxTimer {
  const LOW26 := 0x400_0000

  /** The registers timer, of 26 bits, and timer_busy. */
  datatype Timer = Timer(timer: nat, busy: bool)

  predicate Sized(t: Timer) { t.timer < LOW26 }

  /** One clock edge. */
  function Next(t: Timer, rst: bool, flush: bool, tout: nat, start: bool): (u: Timer)
    requires Sized(t)
    ensures Sized(u)
  {
    Timer(
      if rst || t.timer == tout || flush then 0
      else if start then 1
      else if t.timer != 0 && t.timer < tout then (1 + t.timer) % LOW26
      else t.timer,
      if rst then false
      else if start then true
      else if t.timer == tout % LOW26 && tout % LOW26 != 0 then false
      else t.busy)
  }

  /** A run between resets with one timeout; starts is timer_start cycle by cycle. */
  function Run(t: Timer, tout: nat, starts: seq<bool>): (u: Timer)
    requires Sized(t)
    ensures Sized(u)
    decreases |starts|
  {
    if |starts| == 0 then t else Run(Next(t, false, false, tout, starts[0]), tout, starts[1..])
  }

  /** A timer is never started while it is busy; the arbiter keeps this. */
  predicate NoRestart(t: Timer, tout: nat, starts: seq<bool>)
    requires Sized(t)
    decreases |starts|
  {
    |starts| > 0 ==> (starts[0] ==> !t.busy) && NoRestart(Next(t, false, false, tout, starts[0]), tout, starts[1..])
  }

  /** What every such run from reset keeps. */
  predicate Regular(t: Timer, tout: nat) {
    && Sized(t)
    && (t.busy && tout % LOW26 != 0 ==> 1 <= t.timer <= tout % LOW26)
    && (!t.busy && 0 < tout < LOW26 ==> t.timer == 0)
  }

  lemma RegularKeeps(t: Timer, tout: nat, start: bool)
    requires Regular(t, tout) && (start ==> !t.busy)
    ensures Regular(Next(t, false, false, tout, start), tout)
  {
    Low(tout);
  }

  lemma Low(n: nat)
    ensures n % LOW26 <= n && n % LOW26 < LOW26 && (n < LOW26 ==> n % LOW26 == n)
  {}

  /** The whole life of one start: counting from the cycle after it the timer stands at 1, 2, ... and the PHY is busy up to
      and including the cycle in which it stands at the timeout modulo 2^26; if that is zero, for ever. */
  lemma {:induction false} Counts(t: Timer, tout: nat, starts: seq<bool>, k: nat)
    requires Regular(t, tout) && t.busy && NoRestart(t, tout, starts) && k <= |starts|
    requires tout % LOW26 != 0 ==> t.timer + k <= tout % LOW26
    ensures var u := Run(t, tout, starts[..k]);
            && u.busy && Regular(u, tout) && (tout % LOW26 != 0 ==> u.timer == t.timer + k)
    decreases k
  {
    if k > 0 {
      Low(tout);
      var u := Next(t, false, false, tout, starts[0]);
      assert !starts[0];
      RegularKeeps(t, tout, starts[0]);
      assert tout % LOW26 != 0 ==> u.timer == t.timer + 1;
      Counts(u, tout, starts[1..], k - 1);
      assert starts[..k][1..] == starts[1..][..k - 1];
    }
  }

  /** After a start the PHY is busy for exactly so many cycles: the timeout modulo 2^26, or for ever when that is zero. */
  lemma BusyExactly(t: Timer, tout: nat, starts: seq<bool>, k: nat)
    requires Regular(t, tout) && !t.busy && |starts| > 0 && starts[0] && NoRestart(t, tout, starts)
    requires 1 <= k <= |starts| && (tout % LOW26 != 0 ==> k <= tout % LOW26 + 1)
    ensures Run(t, tout, starts[..k]).busy <==> tout % LOW26 == 0 || k <= tout % LOW26
  {
    var u := Next(t, false, false, tout, true);
    RegularKeeps(t, tout, true);
    Low(tout);
    assert u.busy && (tout % LOW26 != 0 ==> u.timer == 1);
    var rest := starts[1..];
    assert starts[..k][1..] == rest[..k - 1];
    if tout % LOW26 != 0 && k == tout % LOW26 + 1 {
      Counts(u, tout, rest, k - 2);
      RunOn(u, tout, rest, k - 2);
    } else {
      Counts(u, tout, rest, k - 1);
    }
  }

  /** One more cycle at the end of a run, which while the timer is busy brings no start. */
  lemma {:induction false} RunOn(t: Timer, tout: nat, starts: seq<bool>, k: nat)
    requires Sized(t) && NoRestart(t, tout, starts) && k < |starts|
    ensures Run(t, tout, starts[..k + 1]) == Next(Run(t, tout, starts[..k]), false, false, tout, starts[k])
    ensures starts[k] ==> !Run(t, tout, starts[..k]).busy
    decreases k
  {
    hide Next;
    assert starts[..k + 1][1..] == starts[1..][..k];
    if k > 0 {
      assert starts[..k][1..] == starts[1..][..k - 1];
      RunOn(Next(t, false, false, tout, starts[0]), tout, starts[1..], k - 1);
    } else {
      assert Run(Next(t, false, false, tout, starts[0]), tout, starts[1..][..0]) == Next(t, false, false, tout, starts[0]);
    }
  }

  /** One cycle of a busy timer. */
  lemma Nears(t: Timer, tout: nat)
    requires Regular(t, tout) && t.busy && 0 < tout < LOW26
    ensures var u := Next(t, false, false, tout, false);
            1 <= t.timer <= tout && if t.timer == tout then !u.busy else u.busy && u.timer == t.timer + 1
  {
    Low(tout);
  }

  /** A busy timer is free again one cycle after it has reached the timeout. */
  lemma FreeWhenDue(t: Timer, tout: nat, starts: seq<bool>)
    requires Regular(t, tout) && t.busy && 0 < tout < LOW26 && NoRestart(t, tout, starts) && |starts| == tout + 1 - t.timer
    ensures !Run(t, tout, starts).busy
  {
    Low(tout);
    var k := |starts| - 1;
    Counts(t, tout, starts, k);
    RunOn(t, tout, starts, k);
    assert starts[..k + 1] == starts;
  }

  /** From reset on every run is regular. */
  lemma {:induction false} RunRegular(t: Timer, tout: nat, starts: seq<bool>)
    requires Regular(t, tout) && NoRestart(t, tout, starts)
    ensures Regular(Run(t, tout, starts), tout)
    decreases |starts|
  {
    hide Next, Regular;
    if |starts| > 0 {
      RegularSized(t, tout);
      RegularKeeps(t, tout, starts[0]);
      RunRegular(Next(t, false, false, tout, starts[0]), tout, starts[1..]);
    }
  }

  lemma RegularSized(t: Timer, tout: nat)
    requires Regular(t, tout)
    ensures Sized(t)
  {}

  class TxTimer {
    var timer: nat
    var busy: bool

    ghost function View(): Timer
      reads this
    {
      Timer(timer, busy)
    }

    /** The edge with rst high. */
    constructor ()
      ensures View() == Timer(0, false)
    {
      timer, busy := 0, false;
    }

    method Step(rst: bool, flush: bool, tout: nat, start: bool)
      requires Sized(View())
      modifies this
      ensures View() == Next(old(View()), rst, flush, tout, start)
    {
      var t := timer;
      if rst || timer == tout || flush {
        t := 0;
      } else if start {
        t := 1;
      } else if timer != 0 && timer < tout {
        t := (1 + timer) % LOW26;
      }
      if rst {
        busy := false;
      } else if start {
        busy := true;
      } else if timer == tout % LOW26 && tout % LOW26 != 0 {
        busy := false;
      }
      timer := t;
    }
  }
}
