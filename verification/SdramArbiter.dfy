/** modules/sdram_arbiter.sv: one memory port shared by any number of
    requesters, by rotating priority. */
module SdramArbiter {
  import opened Machine

  datatype Regs = Regs(active: bool, cur: nat, rotate: nat, served: seq<bool>)

  predicate Shape(a: Regs, n: nat) {
    n > 0 && |a.served| == n && a.cur < n && a.rotate < n
  }

  function Reset(n: nat): (a: Regs)
    requires n > 0
    ensures Shape(a, n)
  {
    Regs(false, 0, 0, seq(n, _ => false))
  }

  // ---- rotating priority -------------------------------------------------

  /** Port number `rotate + k`, wrapped without a division. */
  function PortAt(rotate: nat, k: nat, n: nat): (p: nat)
    requires rotate < n && k < n
    ensures p < n
  {
    if rotate + k >= n then rotate + k - n else rotate + k
  }

  /** How far behind the front of the queue port `p` stands. */
  function Distance(rotate: nat, p: nat, n: nat): (d: nat)
    requires rotate < n && p < n
    ensures d < n && PortAt(rotate, d, n) == p
  {
    if p >= rotate then p - rotate else p + n - rotate
  }

  predicate Eligible(a: Regs, asking: seq<bool>, p: nat)
    requires |a.served| == |asking| && p < |asking|
  {
    asking[p] && !a.served[p]
  }

  /** The first eligible port at distance `k` or more. */
  function Scan(a: Regs, asking: seq<bool>, k: nat): (w: Option<nat>)
    requires Shape(a, |asking|) && k <= |asking|
    ensures w.Some? ==> w.value < |asking| && Eligible(a, asking, w.value)
    decreases |asking| - k
  {
    if k == |asking| then None
    else
      var p := PortAt(a.rotate, k, |asking|);
      if Eligible(a, asking, p) then Some(p) else Scan(a, asking, k + 1)
  }

  function Winner(a: Regs, asking: seq<bool>): (w: Option<nat>)
    requires Shape(a, |asking|)
  {
    Scan(a, asking, 0)
  }

  /** Nobody nearer the front is eligible, and somebody wins if anybody asks. */
  lemma {:induction false} ScanFindsNearest(a: Regs, asking: seq<bool>, k: nat, p: nat)
    requires Shape(a, |asking|) && p < |asking| && Eligible(a, asking, p)
    requires k <= Distance(a.rotate, p, |asking|)
    ensures Scan(a, asking, k).Some?
    ensures k <= Distance(a.rotate, Scan(a, asking, k).value, |asking|)
      <= Distance(a.rotate, p, |asking|)
    decreases |asking| - k
  {
    if !Eligible(a, asking, PortAt(a.rotate, k, |asking|)) {
      ScanFindsNearest(a, asking, k + 1, p);
    }
  }

  // ---- the grant ---------------------------------------------------------

  /** The port connected to the controller this clock. */
  function Selected(a: Regs, asking: seq<bool>): (s: Option<nat>)
    requires Shape(a, |asking|)
    ensures s.Some? ==> s.value < |asking|
  {
    if a.active then Some(a.cur) else Winner(a, asking)
  }

  /** The port, if any, that is told `ready` this clock. */
  function Completes(a: Regs, asking: seq<bool>, ready: bool): (s: Option<nat>)
    requires Shape(a, |asking|)
    ensures s.Some? ==> s.value < |asking|
  {
    if ready then Selected(a, asking) else None
  }

  function After(p: nat, n: nat): (q: nat)
    requires p < n
    ensures q < n
  {
    if p == n - 1 then 0 else p + 1
  }

  function Step(a: Regs, asking: seq<bool>, ready: bool): (b: Regs)
    requires Shape(a, |asking|)
    ensures Shape(b, |asking|)
  {
    var n := |asking|;
    var sel := Selected(a, asking);
    var done := Completes(a, asking, ready);
    var held := seq(n, p requires 0 <= p < n => asking[p] && a.served[p]);
    Regs(sel.Some? && !ready,
         if !a.active && sel.Some? then sel.value else a.cur,
         if done.Some? then After(done.value, n) else a.rotate,
         if done.Some? then held[done.value := true] else held)
  }

  // ---- fairness ----------------------------------------------------------

  /** An upper bound on the turns others can still take before port `p`. */
  function TurnsAhead(a: Regs, p: nat, n: nat): (t: nat)
    requires Shape(a, n) && p < n
    ensures t < n || (a.active && a.cur == p)
  {
    if a.active then Distance(After(a.cur, n), p, n) + 1 else Distance(a.rotate, p, n)
  }

  /** A waiting port's bound never grows, and falls with every turn another
      port completes. */
  lemma TurnsFall(a: Regs, asking: seq<bool>, ready: bool, p: nat)
    requires Shape(a, |asking|) && p < |asking| && Eligible(a, asking, p)
    requires !(a.active && a.cur == p)
    requires Completes(a, asking, ready) != Some(p)
    ensures var b := Step(a, asking, ready);
      (b.active && b.cur == p)
      || TurnsAhead(b, p, |asking|)
           + (if Completes(a, asking, ready).Some? then 1 else 0) <= TurnsAhead(a, p, |asking|)
    ensures !Step(a, asking, ready).served[p]
  {
    if !a.active {
      ScanFindsNearest(a, asking, 0, p);
    }
  }

  /** One run of the arbiter: who asked, and when memory was ready. */
  datatype Clock = Clock(asking: seq<bool>, ready: bool)

  ghost predicate IsRun(states: seq<Regs>, clocks: seq<Clock>, n: nat) {
    && |states| == |clocks| + 1
    && (forall k :: 0 <= k < |states| ==> Shape(states[k], n))
    && (forall k :: 0 <= k < |clocks| ==>
          |clocks[k].asking| == n
          && states[k + 1] == Step(states[k], clocks[k].asking, clocks[k].ready))
  }

  /** Port `p` asks in every one of these clocks and is never told ready. */
  ghost predicate Waits(states: seq<Regs>, clocks: seq<Clock>, n: nat, p: nat)
    requires IsRun(states, clocks, n) && p < n
  {
    forall k :: 0 <= k < |clocks| ==>
      clocks[k].asking[p] && Completes(states[k], clocks[k].asking, clocks[k].ready) != Some(p)
  }

  ghost function TurnsTaken(states: seq<Regs>, clocks: seq<Clock>, n: nat, k: nat): nat
    requires IsRun(states, clocks, n) && k <= |clocks|
  {
    if k == 0 then 0 else
      TurnsTaken(states, clocks, n, k - 1)
      + (if Completes(states[k - 1], clocks[k - 1].asking, clocks[k - 1].ready).Some? then 1 else 0)
  }

  lemma {:induction false} WaitingBudget(states: seq<Regs>, clocks: seq<Clock>, n: nat, p: nat, k: nat)
    requires IsRun(states, clocks, n) && p < n && k <= |clocks|
    requires Waits(states, clocks, n, p) && !states[0].served[p]
    ensures !states[k].served[p]
    ensures if states[k].active && states[k].cur == p then TurnsTaken(states, clocks, n, k) <= n - 1
      else TurnsTaken(states, clocks, n, k) + TurnsAhead(states[k], p, n) <= n - 1
  {
    if k > 0 {
      WaitingBudget(states, clocks, n, p, k - 1);
      var a, c := states[k - 1], clocks[k - 1];
      if !(a.active && a.cur == p) {
        TurnsFall(a, c.asking, c.ready, p);
      }
    }
  }

  /** NOBODY STARVES: while an unserved port keeps asking and is not answered,
      the others complete at most one turn each. */
  lemma AtMostOneTurnEach(states: seq<Regs>, clocks: seq<Clock>, n: nat, p: nat)
    requires IsRun(states, clocks, n) && p < n
    requires Waits(states, clocks, n, p) && !states[0].served[p]
    ensures TurnsTaken(states, clocks, n, |clocks|) <= n - 1
  {
    WaitingBudget(states, clocks, n, p, |clocks|);
  }

  /** The selection holds for the whole of an access. */
  lemma SelectionHolds(a: Regs, asking: seq<bool>, next: seq<bool>)
    requires Shape(a, |asking|) && |next| == |asking|
    requires Selected(a, asking).Some?
    ensures Selected(Step(a, asking, false), next) == Selected(a, asking)
  {
  }

  /** A request held past its ready is not offered again until it is dropped. */
  lemma {:induction false} ServedUntilDropped(states: seq<Regs>, clocks: seq<Clock>, n: nat, p: nat, k: nat)
    requires IsRun(states, clocks, n) && p < n && 0 < k <= |clocks|
    requires Completes(states[0], clocks[0].asking, clocks[0].ready) == Some(p)
    requires forall j :: 0 < j < k ==> clocks[j].asking[p]
    ensures states[k].served[p]
  {
    if k > 1 {
      ServedUntilDropped(states, clocks, n, p, k - 1);
    }
  }

  /** The arbiter itself. */
  class Arbiter {
    const n: nat
    var active: bool
    var cur: nat
    var rotate: nat
    const served: array<bool>

    ghost function View(): Regs
      reads this, served
    {
      Regs(active, cur, rotate, served[..])
    }

    ghost predicate Valid()
      reads this, served
    {
      Shape(View(), n)
    }

    constructor (ports: nat)
      requires ports > 0
      ensures n == ports && Valid() && View() == Reset(ports) && fresh(served)
    {
      n := ports;
      active, cur, rotate := false, 0, 0;
      served := new bool[ports](_ => false);
    }

    /** The scan of the combinational block: first eligible from `rotate`. */
    method FindWinner(asking: seq<bool>) returns (found: bool, winner: nat)
      requires Valid() && |asking| == n
      ensures Winner(View(), asking) == if found then Some(winner) else None
    {
      winner, found := 0, false;
      for k := 0 to n
        invariant if found then Winner(View(), asking) == Some(winner)
          else Winner(View(), asking) == Scan(View(), asking, k)
      {
        var s := rotate + k;
        var idx := if s >= n then s - n else s;
        if !found && asking[idx] && !served[idx] {
          winner, found := idx, true;
        }
      }
    }

    method Tick(asking: seq<bool>, ready: bool) returns (selValid: bool, sel: nat)
      requires Valid() && |asking| == n
      modifies this, served
      ensures Valid() && View() == Step(old(View()), asking, ready)
      ensures Selected(old(View()), asking) == if selValid then Some(sel) else None
    {
      ghost var was := View();
      var found, winner := FindWinner(asking);
      sel := if active then cur else winner;
      selValid := active || found;
      for p := 0 to n
        modifies served
        invariant forall q :: 0 <= q < p ==> served[q] == (asking[q] && was.served[q])
        invariant forall q :: p <= q < n ==> served[q] == was.served[q]
      {
        if !asking[p] { served[p] := false; }
      }
      if !active {
        if found {
          active, cur := true, winner;
          if ready {
            active := false;
            served[winner] := true;
            rotate := if winner == n - 1 then 0 else winner + 1;
          }
        }
      } else if ready {
        active := false;
        served[cur] := true;
        rotate := if cur == n - 1 then 0 else cur + 1;
      }
    }
  }
}
