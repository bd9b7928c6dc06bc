/** modules/bpred.sv: a direct-mapped table of tagged two-bit counters. */
module BranchPredictor {
  import opened Machine

  const ENTRIES: nat := 256
  const IP: nat := 0x1_0000

  datatype Slot = Slot(valid: bool, tag: nat, ctr: nat, target: nat)

  /** A conditional branch that has just resolved. */
  datatype Update = Update(ip: nat, taken: bool, target: nat)

  type Table = t: seq<Slot> | |t| == ENTRIES witness seq(ENTRIES, _ => Slot(false, 0, 1, 0))

  function IndexOf(ip: nat): (i: nat)
    ensures i < ENTRIES
  {
    ip % ENTRIES
  }

  function TagOf(ip: nat): nat { ip / ENTRIES }

  function Reset(): Table { seq(ENTRIES, _ => Slot(false, 0, 1, 0)) }

  predicate Hit(s: Slot, ip: nat) { s.valid && s.tag == TagOf(ip) }

  /** The predicted target, if the branch at `ip` is predicted taken. */
  function Predict(t: Table, ip: nat): Option<nat> {
    var s := t[IndexOf(ip)];
    if Hit(s, ip) && s.ctr >= 2 then Some(s.target) else None
  }

  /** Saturating; a miss allocates, weakly taken, only for a taken branch. */
  function NewSlot(s: Slot, u: Update): Slot {
    if Hit(s, u.ip) then
      if u.taken then s.(ctr := if s.ctr == 3 then 3 else s.ctr + 1, target := u.target)
      else s.(ctr := if s.ctr == 0 then 0 else s.ctr - 1)
    else if u.taken then Slot(true, TagOf(u.ip), 2, u.target)
    else s
  }

  function Step(t: Table, u: Update): Table { t[IndexOf(u.ip) := NewSlot(t[IndexOf(u.ip)], u)] }

  function After(log: seq<Update>): Table {
    if log == [] then Reset() else Step(After(log[..|log| - 1]), log[|log| - 1])
  }

  lemma IndexAndTag(a: nat, b: nat)
    ensures IndexOf(a) == IndexOf(b) && TagOf(a) == TagOf(b) ==> a == b
  {
    assert a == ENTRIES * TagOf(a) + IndexOf(a) && b == ENTRIES * TagOf(b) + IndexOf(b);
  }

  /** The last update of `log` that concerns the branch at `ip` and was taken. */
  function LastTaken(log: seq<Update>, ip: nat): Option<nat> {
    if log == [] then None
    else
      var u := log[|log| - 1];
      if u.ip == ip && u.taken then Some(u.target) else LastTaken(log[..|log| - 1], ip)
  }

  /** The counters saturate: they never leave their two bits. */
  lemma {:induction false} CountersStayInRange(log: seq<Update>, i: nat)
    requires i < ENTRIES
    ensures After(log)[i].ctr <= 3
  {
    if log != [] { CountersStayInRange(log[..|log| - 1], i); }
  }

  /** NO TARGET FROM ANOTHER BRANCH. Whatever has been learned, evicted and
      relearned, an entry that answers for `ip` holds the target `ip` itself last
      jumped to. */
  lemma {:induction false} EntriesAreTheirOwn(log: seq<Update>, ip: nat)
    ensures var s := After(log)[IndexOf(ip)];
      Hit(s, ip) ==> LastTaken(log, ip) == Some(s.target)
  {
    if log != [] {
      EntriesAreTheirOwn(log[..|log| - 1], ip);
      IndexAndTag(ip, log[|log| - 1].ip);
    }
  }

  lemma PredictsItsOwnLastTarget(log: seq<Update>, ip: nat)
    requires Predict(After(log), ip).Some?
    ensures LastTaken(log, ip) == Predict(After(log), ip)
  {
    EntriesAreTheirOwn(log, ip);
  }

  /** Hysteresis: one surprise does not turn a settled branch round. */
  lemma OneSurpriseIsForgiven(t: Table, u: Update)
    requires !u.taken && t[IndexOf(u.ip)].ctr == 3 && Predict(t, u.ip).Some?
    ensures Predict(Step(t, u), u.ip) == Predict(t, u.ip)
    ensures Predict(Step(Step(t, u), u), u.ip) == None
  {
  }

  /** A branch taken twice running is predicted, to where it last went, whatever
      the table held before. */
  lemma TwiceTakenIsPredicted(t: Table, u: Update, v: Update)
    requires u.taken && v.taken && u.ip == v.ip
    ensures Predict(Step(Step(t, u), v), u.ip) == Some(v.target)
  {
  }

  /** One that falls through twice running is not, if its counter is in range. */
  lemma TwiceNotTakenIsNotPredicted(t: Table, u: Update, v: Update)
    requires !u.taken && !v.taken && u.ip == v.ip && t[IndexOf(u.ip)].ctr <= 3
    ensures Predict(Step(Step(t, u), v), u.ip) == None
  {
  }

  /** Branches 256 apart share an entry, and no others do. */
  lemma OthersUnaffected(t: Table, u: Update, ip: nat)
    requires ip % 256 != u.ip % 256
    ensures Predict(Step(t, u), ip) == Predict(t, ip)
  {
  }

  class Predictor {
    const valid: array<bool>
    const tag: array<nat>
    const ctr: array<nat>
    const target: array<nat>

    ghost predicate Valid()
      reads this
    {
      && valid.Length == tag.Length == ctr.Length == target.Length == ENTRIES
      && tag != ctr && ctr != target && tag != target
      && valid as object != tag && valid as object != ctr && valid as object != target
    }

    /** The arrays hold table `t`. */
    ghost predicate Holds(t: Table)
      requires Valid()
      reads this, valid, tag, ctr, target
    {
      forall k :: 0 <= k < ENTRIES ==> t[k] == Slot(valid[k], tag[k], ctr[k], target[k])
    }

    constructor ()
      ensures Valid() && Holds(Reset())
      ensures fresh(valid) && fresh(tag) && fresh(ctr) && fresh(target)
    {
      valid := new bool[ENTRIES](_ => false);
      tag := new nat[ENTRIES](_ => 0);
      ctr := new nat[ENTRIES](_ => 1);
      target := new nat[ENTRIES](_ => 0);
    }

    method Lookup(ip: nat, ghost t: Table) returns (taken: bool, where_: nat)
      requires Valid() && Holds(t)
      ensures Predict(t, ip) == if taken then Some(where_) else None
    {
      var i := IndexOf(ip);
      taken := valid[i] && tag[i] == TagOf(ip) && ctr[i] >= 2;
      where_ := target[i];
    }

    method Learn(u: Update, ghost t: Table)
      requires Valid() && Holds(t)
      modifies valid, tag, ctr, target
      ensures Holds(Step(t, u))
    {
      var i := IndexOf(u.ip);
      if valid[i] && tag[i] == TagOf(u.ip) {
        if u.taken {
          if ctr[i] != 3 { ctr[i] := ctr[i] + 1; }
          target[i] := u.target;
        } else if ctr[i] != 0 {
          ctr[i] := ctr[i] - 1;
        }
      } else if u.taken {
        valid[i], tag[i], ctr[i], target[i] := true, TagOf(u.ip), 2, u.target;
      }
    }
  }
}
