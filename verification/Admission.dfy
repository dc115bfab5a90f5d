/**
 Admission control on the receive path, as an interleaving of atomic operations: any number of
 threads load, compare-and-swap, count drops and release charges, in any order.
 */
module Admission {
  /** The counters are 64-bit and unsigned. */
  const WORD := 0x1_0000_0000_0000_0000

  /** Where a thread is inside admit(). */
  datatype Thread =
    | Outside
    | Loaded(bytes: nat, seen: nat)  // about to test the budget against the value it last saw
    | Reserved(bytes: nat)           // its compare-and-swap succeeded; the token is not made yet
    | HalfCounted                    // refused: counted in the window, not yet in the total

  /** A charge, from the token that holds it to the destructor that gives it back. */
  datatype Charge =
    | Held(bytes: nat, copies: nat)
    | Releasing(bytes: nat)          // the last copy is gone; the subtraction is not done yet
    | Released(bytes: nat)

  datatype State = State(
    budget: nat, inFlight: nat, window: nat, total: nat, taken: nat, threads: seq<Thread>, charges: seq<Charge>)

  datatype Step =
    | Load(t: nat, bytes: nat)
    | Refuse(t: nat)
    | CountTotal(t: nat)
    | Swap(t: nat)
    | SwapFails(t: nat)
    | MakeToken(t: nat)
    | CopyToken(id: nat)
    | DropToken(id: nat)
    | Subtract(id: nat)
    | TakeDropped

  predicate OverBudget(s: State, th: Thread)
    requires th.Loaded?
  {
    (th.seen + th.bytes) % WORD > s.budget
  }

  predicate Enabled(s: State, e: Step) {
    match e
    case Load(t, bytes) => t < |s.threads| && s.threads[t].Outside?
    case Refuse(t) => t < |s.threads| && s.threads[t].Loaded? && OverBudget(s, s.threads[t])
    case CountTotal(t) => t < |s.threads| && s.threads[t].HalfCounted?
    case Swap(t) =>
      t < |s.threads| && s.threads[t].Loaded? && !OverBudget(s, s.threads[t]) && s.inFlight == s.threads[t].seen
    case SwapFails(t) => // the value moved, or the weak form failed for no reason
      t < |s.threads| && s.threads[t].Loaded? && !OverBudget(s, s.threads[t])
    case MakeToken(t) => t < |s.threads| && s.threads[t].Reserved?
    case CopyToken(id) => id < |s.charges| && s.charges[id].Held?
    case DropToken(id) => id < |s.charges| && s.charges[id].Held? && s.charges[id].copies > 0
    case Subtract(id) => id < |s.charges| && s.charges[id].Releasing?
    case TakeDropped => true
  }

  function Apply(s: State, e: Step): State
    requires Enabled(s, e)
  {
    match e
    case Load(t, bytes) => s.(threads := s.threads[t := Loaded(bytes, s.inFlight)])
    case Refuse(t) => s.(window := s.window + 1, threads := s.threads[t := HalfCounted])
    case CountTotal(t) => s.(total := s.total + 1, threads := s.threads[t := Outside])
    case Swap(t) =>
      var bytes := s.threads[t].bytes;
      s.(inFlight := (s.inFlight + bytes) % WORD, threads := s.threads[t := Reserved(bytes)])
    case SwapFails(t) => s.(threads := s.threads[t := s.threads[t].(seen := s.inFlight)])
    case MakeToken(t) =>
      s.(charges := s.charges + [Held(s.threads[t].bytes, 1)], threads := s.threads[t := Outside])
    case CopyToken(id) => s.(charges := s.charges[id := s.charges[id].(copies := s.charges[id].copies + 1)])
    case DropToken(id) =>
      var c := s.charges[id];
      s.(charges := s.charges[id := if c.copies == 1 then Releasing(c.bytes) else c.(copies := c.copies - 1)])
    case Subtract(id) =>
      s.(inFlight := (s.inFlight - s.charges[id].bytes) % WORD, charges := s.charges[id := Released(s.charges[id].bytes)])
    case TakeDropped => s.(taken := s.taken + s.window, window := 0)
  }

  function Start(budget: nat, threads: nat): State {
    State(budget, 0, 0, 0, 0, seq(threads, _ => Outside), [])
  }

  /** No thread asks for more than maxBytes. */
  predicate Asks(e: Step, maxBytes: nat) {
    e.Load? ==> e.bytes <= maxBytes
  }

  ghost predicate IsRun(s: State, steps: seq<Step>, maxBytes: nat)
    decreases |steps|
  {
    steps != [] ==>
      && Enabled(s, steps[0]) && Asks(steps[0], maxBytes)
      && IsRun(Apply(s, steps[0]), steps[1..], maxBytes)
  }

  ghost function Final(s: State, steps: seq<Step>, maxBytes: nat): State
    requires IsRun(s, steps, maxBytes)
    decreases |steps|
  {
    if steps == [] then s else Final(Apply(s, steps[0]), steps[1..], maxBytes)
  }

  // ---- What the counters stand for -----------------------------------------------------------

  function ReservedBytes(threads: seq<Thread>): nat {
    if threads == [] then 0
    else (if threads[0].Reserved? then threads[0].bytes else 0) + ReservedBytes(threads[1..])
  }

  function HalfCountedThreads(threads: seq<Thread>): nat {
    if threads == [] then 0 else (if threads[0].HalfCounted? then 1 else 0) + HalfCountedThreads(threads[1..])
  }

  /** Bytes of the charges not given back yet. */
  function ChargedBytes(charges: seq<Charge>): nat {
    if charges == [] then 0
    else (if charges[0].Released? then 0 else charges[0].bytes) + ChargedBytes(charges[1..])
  }

  /** What is really taken from the budget: live charges, and reservations whose token is not made yet. */
  function Outstanding(s: State): nat {
    ReservedBytes(s.threads) + ChargedBytes(s.charges)
  }

  /** A held charge has a copy. */
  ghost predicate NoneSpent(s: State) {
    forall i | 0 <= i < |s.charges| && s.charges[i].Held? :: s.charges[i].copies > 0
  }

  ghost predicate Inv(s: State, maxBytes: nat) {
    && s.inFlight == Outstanding(s) <= s.budget
    && s.taken + s.window == s.total + HalfCountedThreads(s.threads)
    && (forall t | 0 <= t < |s.threads| && s.threads[t].Loaded? ::
          s.threads[t].seen <= s.budget && s.threads[t].bytes <= maxBytes)
    && NoneSpent(s)
  }

  lemma {:induction false} ThreadUpdate(threads: seq<Thread>, t: nat, th: Thread)
    requires t < |threads|
    ensures ReservedBytes(threads[t := th])
         == ReservedBytes(threads) - (if threads[t].Reserved? then threads[t].bytes else 0)
                                   + (if th.Reserved? then th.bytes else 0)
    ensures HalfCountedThreads(threads[t := th])
         == HalfCountedThreads(threads) - (if threads[t].HalfCounted? then 1 else 0)
                                        + (if th.HalfCounted? then 1 else 0)
  {
    if t == 0 {
      assert threads[0 := th][1..] == threads[1..];
    } else {
      assert threads[t := th][1..] == threads[1..][t - 1 := th];
      ThreadUpdate(threads[1..], t - 1, th);
    }
  }

  lemma {:induction false} ChargeUpdate(charges: seq<Charge>, i: nat, c: Charge)
    requires i < |charges|
    ensures ChargedBytes(charges[i := c])
         == ChargedBytes(charges) - (if charges[i].Released? then 0 else charges[i].bytes)
                                  + (if c.Released? then 0 else c.bytes)
  {
    if i == 0 {
      assert charges[0 := c][1..] == charges[1..];
    } else {
      assert charges[i := c][1..] == charges[1..][i - 1 := c];
      ChargeUpdate(charges[1..], i - 1, c);
    }
  }

  lemma {:induction false} ChargeAdd(charges: seq<Charge>, c: Charge)
    ensures ChargedBytes(charges + [c]) == ChargedBytes(charges) + (if c.Released? then 0 else c.bytes)
  {
    if charges == [] {
      assert [] + [c] == [c] && [c][1..] == [];
    } else {
      assert (charges + [c])[1..] == charges[1..] + [c];
      ChargeAdd(charges[1..], c);
    }
  }

  lemma {:induction false} ChargeWithin(charges: seq<Charge>, i: nat)
    requires i < |charges| && !charges[i].Released?
    ensures charges[i].bytes <= ChargedBytes(charges)
  {
    if i > 0 {
      ChargeWithin(charges[1..], i - 1);
    }
  }

  lemma {:induction false} StepSpendsNone(s: State, e: Step)
    requires NoneSpent(s) && Enabled(s, e)
    ensures NoneSpent(Apply(s, e))
  {}

  /** Every atomic step of every thread keeps the counters true, while no sum can reach 2^64. */
  lemma {:induction false} StepKeepsInv(s: State, e: Step, maxBytes: nat)
    requires Inv(s, maxBytes) && Enabled(s, e) && Asks(e, maxBytes) && s.budget + maxBytes < WORD
    ensures Inv(Apply(s, e), maxBytes)
  {
    StepSpendsNone(s, e);
    if e.CopyToken? || e.DropToken? || e.Subtract? || e.TakeDropped? {
      ChargeStepKeepsInv(s, e, maxBytes);
    } else {
      ThreadStepKeepsInv(s, e, maxBytes);
    }
  }

  lemma {:induction false} ThreadStepKeepsInv(s: State, e: Step, maxBytes: nat)
    requires Inv(s, maxBytes) && Enabled(s, e) && Asks(e, maxBytes) && s.budget + maxBytes < WORD
    requires !(e.CopyToken? || e.DropToken? || e.Subtract? || e.TakeDropped?) && NoneSpent(Apply(s, e))
    ensures Inv(Apply(s, e), maxBytes)
  {
    hide ReservedBytes, HalfCountedThreads, ChargedBytes, NoneSpent;
    match e
    case Load(t, bytes) => ThreadUpdate(s.threads, t, Loaded(bytes, s.inFlight));
    case Refuse(t) => ThreadUpdate(s.threads, t, HalfCounted);
    case CountTotal(t) => ThreadUpdate(s.threads, t, Outside);
    case Swap(t) =>
      ThreadUpdate(s.threads, t, Reserved(s.threads[t].bytes));
      assert s.inFlight + s.threads[t].bytes < WORD;
    case SwapFails(t) => ThreadUpdate(s.threads, t, s.threads[t].(seen := s.inFlight));
    case MakeToken(t) =>
      ThreadUpdate(s.threads, t, Outside);
      ChargeAdd(s.charges, Held(s.threads[t].bytes, 1));
  }

  lemma {:induction false} ChargeStepKeepsInv(s: State, e: Step, maxBytes: nat)
    requires Inv(s, maxBytes) && Enabled(s, e) && s.budget < WORD
    requires (e.CopyToken? || e.DropToken? || e.Subtract? || e.TakeDropped?) && NoneSpent(Apply(s, e))
    ensures Inv(Apply(s, e), maxBytes)
  {
    hide ReservedBytes, HalfCountedThreads, ChargedBytes, NoneSpent;
    match e
    case CopyToken(id) => ChargeUpdate(s.charges, id, s.charges[id].(copies := s.charges[id].copies + 1));
    case DropToken(id) =>
      var c := s.charges[id];
      ChargeUpdate(s.charges, id, if c.copies == 1 then Releasing(c.bytes) else c.(copies := c.copies - 1));
    case Subtract(id) =>
      ChargeUpdate(s.charges, id, Released(s.charges[id].bytes));
      ChargeWithin(s.charges, id);
      assert 0 <= s.inFlight - s.charges[id].bytes < WORD;
    case TakeDropped =>
  }

  lemma {:induction false} StartInv(budget: nat, n: nat, maxBytes: nat)
    ensures Inv(Start(budget, n), maxBytes)
  {
    NobodyInside(n);
  }

  lemma {:induction false} NobodyInside(n: nat)
    ensures ReservedBytes(seq(n, _ => Outside)) == 0 && HalfCountedThreads(seq(n, _ => Outside)) == 0
  {
    if n > 0 {
      assert seq(n, _ => Outside)[1..] == seq(n - 1, _ => Outside);
      NobodyInside(n - 1);
    }
  }

  /** So does every interleaving. */
  lemma {:induction false} RunKeepsInv(s: State, steps: seq<Step>, maxBytes: nat)
    requires IsRun(s, steps, maxBytes) && Inv(s, maxBytes) && s.budget + maxBytes < WORD
    ensures Inv(Final(s, steps, maxBytes), maxBytes)
    decreases |steps|
  {
    hide Inv, Enabled, Apply;
    if steps != [] {
      StepKeepsInv(s, steps[0], maxBytes);
      ApplyKeepsBudget(s, steps[0]);
      RunKeepsInv(Apply(s, steps[0]), steps[1..], maxBytes);
    }
  }

  /** How many datagrams a run refuses. */
  function Refusals(steps: seq<Step>): nat {
    if steps == [] then 0 else (if steps[0].Refuse? then 1 else 0) + Refusals(steps[1..])
  }

  lemma {:induction false} StepCountsDrops(s: State, e: Step)
    requires Enabled(s, e)
    ensures var t, n := Apply(s, e), if e.Refuse? then 1 else 0;
            && t.taken + t.window == s.taken + s.window + n
            && t.total + HalfCountedThreads(t.threads) == s.total + HalfCountedThreads(s.threads) + n
  {
    if !(e.CopyToken? || e.DropToken? || e.Subtract? || e.TakeDropped?) {
      ThreadUpdate(s.threads, e.t, Apply(s, e).threads[e.t]);
    }
    hide ReservedBytes, HalfCountedThreads;
  }

  /** Every refusal is counted once in the window and once in the total, and no drop is counted but refusals. */
  lemma {:induction false} RunCountsDrops(s: State, steps: seq<Step>, maxBytes: nat)
    requires IsRun(s, steps, maxBytes)
    ensures var t := Final(s, steps, maxBytes);
            && t.taken + t.window == s.taken + s.window + Refusals(steps)
            && t.total + HalfCountedThreads(t.threads) == s.total + HalfCountedThreads(s.threads) + Refusals(steps)
    decreases |steps|
  {
    hide Enabled, Apply, HalfCountedThreads;
    if steps != [] {
      StepCountsDrops(s, steps[0]);
      RunCountsDrops(Apply(s, steps[0]), steps[1..], maxBytes);
    }
  }

  /** From the start, whatever the interleaving: the counters mean what they say and the budget holds. */
  lemma {:induction false} EveryInterleaving(budget: nat, n: nat, steps: seq<Step>, maxBytes: nat)
    requires IsRun(Start(budget, n), steps, maxBytes) && budget + maxBytes < WORD
    ensures
      var s := Final(Start(budget, n), steps, maxBytes);
      && s.inFlight == ReservedBytes(s.threads) + ChargedBytes(s.charges) <= budget
      && s.taken + s.window == s.total + HalfCountedThreads(s.threads) == Refusals(steps)
  {
    NobodyInside(n);
    RunCountsDrops(Start(budget, n), steps, maxBytes);
    StartInv(budget, n, maxBytes);
    RunKeepsInv(Start(budget, n), steps, maxBytes);
    FinalBudget(Start(budget, n), steps, maxBytes);
  }

  /** A run, and one step more. */
  lemma {:induction false} RunMore(s: State, steps: seq<Step>, e: Step, maxBytes: nat)
    requires IsRun(s, steps, maxBytes) && Enabled(Final(s, steps, maxBytes), e) && Asks(e, maxBytes)
    ensures IsRun(s, steps + [e], maxBytes)
    ensures Final(s, steps + [e], maxBytes) == Apply(Final(s, steps, maxBytes), e)
    ensures Refusals(steps + [e]) == Refusals(steps) + if e.Refuse? then 1 else 0
    decreases |steps|
  {
    hide Enabled, Apply;
    if steps == [] {
      assert steps + [e] == [e] && [e][1..] == [];
    } else {
      assert (steps + [e])[1..] == steps[1..] + [e];
      RunMore(Apply(s, steps[0]), steps[1..], e, maxBytes);
    }
  }

  /** Taking the drops gives all there have been since they were last taken, and leaves none. */
  lemma {:induction false} TakenIsAll(budget: nat, n: nat, steps: seq<Step>, maxBytes: nat)
    requires IsRun(Start(budget, n), steps, maxBytes)
    ensures IsRun(Start(budget, n), steps + [TakeDropped], maxBytes)
    ensures var s := Final(Start(budget, n), steps + [TakeDropped], maxBytes); s.taken == Refusals(steps) && s.window == 0
  {
    RunMore(Start(budget, n), steps, TakeDropped, maxBytes);
    RunCountsDrops(Start(budget, n), steps, maxBytes);
  }

  // ---- Who is admitted ------------------------------------------------------------------------------

  /** With nothing changed since it looked, a thread is admitted if and only if its bytes fit in the budget. */
  lemma {:induction false} AdmittedIffFits(s: State, t: nat, maxBytes: nat)
    requires Inv(s, maxBytes) && s.budget + maxBytes < WORD
    requires t < |s.threads| && s.threads[t].Loaded? && s.threads[t].seen == s.inFlight
    ensures Enabled(s, Swap(t)) <==> ReservedBytes(s.threads) + ChargedBytes(s.charges) + s.threads[t].bytes <= s.budget
    ensures Enabled(s, Refuse(t)) <==> ReservedBytes(s.threads) + ChargedBytes(s.charges) + s.threads[t].bytes > s.budget
  {
    hide ReservedBytes, ChargedBytes;
    assert s.threads[t].seen + s.threads[t].bytes < WORD;
  }

  /** A thread left alone is done after at most one more failed exchange. */
  lemma {:induction false} AloneItFinishes(s: State, t: nat)
    requires t < |s.threads| && s.threads[t].Loaded?
    ensures
      || Enabled(s, Refuse(t)) || Enabled(s, Swap(t))
      || (Enabled(s, SwapFails(t))
          && var s' := Apply(s, SwapFails(t)); Enabled(s', Refuse(t)) || Enabled(s', Swap(t)))
  {}

  /** The step with which thread t last looked at what is in flight. */
  predicate Looks(e: Step, t: nat) {
    (e.Load? && e.t == t) || e == SwapFails(t)
  }

  /** k steps into the run, thread t had just looked, and this is what it saw. */
  ghost predicate SawAt(s: State, steps: seq<Step>, maxBytes: nat, t: nat, k: nat, seen: nat) {
    && 0 < k <= |steps| && Looks(steps[k - 1], t)
    && IsRun(s, steps[..k], maxBytes) && Final(s, steps[..k], maxBytes).inFlight == seen
  }

  lemma {:induction false} RunLess(s: State, steps: seq<Step>, maxBytes: nat)
    requires IsRun(s, steps, maxBytes) && steps != []
    ensures IsRun(s, steps[..|steps| - 1], maxBytes)
    ensures var n := |steps| - 1; var before := Final(s, steps[..n], maxBytes);
            && Enabled(before, steps[n]) && Asks(steps[n], maxBytes)
            && Final(s, steps, maxBytes) == Apply(before, steps[n])
    decreases |steps|
  {
    hide Enabled, Apply;
    var n := |steps| - 1;
    if n == 0 {
      assert steps[1..] == [] && steps[..0] == [];
    } else {
      RunLess(Apply(s, steps[0]), steps[1..], maxBytes);
      assert steps[..n][1..] == steps[1..][..n - 1];
    }
  }

  /** What a thread goes by was in flight when it last looked. */
  lemma {:induction false} SeenWas(s: State, steps: seq<Step>, maxBytes: nat, t: nat) returns (k: nat)
    requires IsRun(s, steps, maxBytes) && (forall i | 0 <= i < |s.threads| :: !s.threads[i].Loaded?)
    requires var f := Final(s, steps, maxBytes); t < |f.threads| && f.threads[t].Loaded?
    ensures SawAt(s, steps, maxBytes, t, k, Final(s, steps, maxBytes).threads[t].seen)
    decreases |steps|
  {
    var n := |steps| - 1;
    assert steps != [];
    RunLess(s, steps, maxBytes);
    var before, e := Final(s, steps[..n], maxBytes), steps[n];
    assert steps[..n + 1] == steps;
    if Looks(e, t) {
      k := n + 1;
    } else {
      LooksOrSame(before, e, t);
      hide Enabled, Apply;
      k := SeenWas(s, steps[..n], maxBytes, t);
      assert steps[..n][..k] == steps[..k];
    }
  }

  lemma {:induction false} LooksOrSame(s: State, e: Step, t: nat)
    requires Enabled(s, e) && !Looks(e, t) && t < |Apply(s, e).threads| && Apply(s, e).threads[t].Loaded?
    ensures t < |s.threads| && s.threads[t] == Apply(s, e).threads[t]
  {}

  /** A datagram is refused only if it did not fit at the moment its thread last looked. */
  lemma {:induction false} RefusedDidNotFit(budget: nat, n: nat, steps: seq<Step>, maxBytes: nat, t: nat) returns (k: nat)
    requires IsRun(Start(budget, n), steps, maxBytes) && budget + maxBytes < WORD
    requires Enabled(Final(Start(budget, n), steps, maxBytes), Refuse(t))
    ensures 0 < k <= |steps| && Looks(steps[k - 1], t) && IsRun(Start(budget, n), steps[..k], maxBytes)
    ensures Outstanding(Final(Start(budget, n), steps[..k], maxBytes))
            + Final(Start(budget, n), steps, maxBytes).threads[t].bytes > budget
  {
    var s := Start(budget, n);
    var f := Final(s, steps, maxBytes);
    StartInv(budget, n, maxBytes);
    RunKeepsInv(s, steps, maxBytes);
    FinalBudget(s, steps, maxBytes);
    k := SeenWas(s, steps, maxBytes, t);
    RunKeepsInv(s, steps[..k], maxBytes);
    SeenFits(f, t, maxBytes);
    hide ReservedBytes, ChargedBytes, NoneSpent, HalfCountedThreads;
  }

  lemma {:induction false} SeenFits(s: State, t: nat, maxBytes: nat)
    requires Inv(s, maxBytes) && s.budget + maxBytes < WORD && t < |s.threads| && s.threads[t].Loaded?
    ensures OverBudget(s, s.threads[t]) <==> s.threads[t].seen + s.threads[t].bytes > s.budget
  {
    hide NoneSpent;
  }

  lemma {:induction false} ApplyKeepsBudget(s: State, e: Step)
    requires Enabled(s, e)
    ensures Apply(s, e).budget == s.budget
  {}

  // ---- A charge is given back exactly once --------------------------------------------------------

  /** How often a run takes step e. */
  ghost function Times(steps: seq<Step>, e: Step): nat {
    if steps == [] then 0 else (if steps[0] == e then 1 else 0) + Times(steps[1..], e)
  }

  /** Charge id has been given back. */
  predicate IsReleased(s: State, id: nat) {
    id < |s.charges| && s.charges[id].Released?
  }

  /** In any run a charge is subtracted once if it ends up released, and otherwise never. */
  lemma {:induction false} ReleasedOnce(s: State, steps: seq<Step>, maxBytes: nat, id: nat)
    requires IsRun(s, steps, maxBytes)
    ensures Times(steps, Subtract(id)) + (if IsReleased(s, id) then 1 else 0)
         == if IsReleased(Final(s, steps, maxBytes), id) then 1 else 0
    decreases |steps|
  {
    if steps != [] {
      ReleasedOnce(Apply(s, steps[0]), steps[1..], maxBytes, id);
    }
  }

  /** The copies of charge id that are alive. */
  function Copies(s: State, id: nat): nat {
    if id < |s.charges| && s.charges[id].Held? then s.charges[id].copies else 0
  }

  lemma {:induction false} StepCopies(s: State, e: Step, id: nat)
    requires NoneSpent(s) && Enabled(s, e) && id < |s.charges|
    ensures var t := Apply(s, e);
            && id < |t.charges|
            && Copies(s, id) + (if e == CopyToken(id) then 1 else 0) == Copies(t, id) + (if e == DropToken(id) then 1 else 0)
            && (!s.charges[id].Held? ==> !t.charges[id].Held?)
            && (t.charges[id].Held? ==> e != Subtract(id) && t.charges[id].bytes == s.charges[id].bytes)
  {}

  /**
   Over any run a charge's live copies are those it had and those made, less those dropped; and as long
   as one is left the charge is held in full and has not been given back.
   */
  lemma {:induction false} HeldUntilLastCopy(s: State, steps: seq<Step>, maxBytes: nat, id: nat)
    requires IsRun(s, steps, maxBytes) && NoneSpent(s) && id < |s.charges|
    ensures var t, copied, dropped := Final(s, steps, maxBytes), Times(steps, CopyToken(id)), Times(steps, DropToken(id));
            && id < |t.charges|
            && Copies(s, id) + copied == Copies(t, id) + dropped
            && (dropped < Copies(s, id) + copied <==> t.charges[id].Held?)
            && (t.charges[id].Held? ==>
                  s.charges[id].Held? && t.charges[id].bytes == s.charges[id].bytes && Times(steps, Subtract(id)) == 0)
    decreases |steps|
  {
    hide Enabled, Apply, Copies, NoneSpent;
    if steps != [] {
      StepSpendsNone(s, steps[0]);
      StepCopies(s, steps[0], id);
      HeldUntilLastCopy(Apply(s, steps[0]), steps[1..], maxBytes, id);
    } else {
      HeldMeansCopies(s, id);
    }
  }

  lemma {:induction false} HeldMeansCopies(s: State, id: nat)
    requires NoneSpent(s) && id < |s.charges|
    ensures s.charges[id].Held? <==> Copies(s, id) > 0
  {}

  /** Every held charge can be given back: its copies go, one by one, and then its bytes. */
  lemma {:induction false} CanBeReleased(s: State, maxBytes: nat, id: nat) returns (steps: seq<Step>)
    requires NoneSpent(s) && id < |s.charges| && s.charges[id].Held?
    ensures |steps| == s.charges[id].copies + 1 && IsRun(s, steps, maxBytes)
    ensures IsReleased(Final(s, steps, maxBytes), id)
    decreases s.charges[id].copies
  {
    var t := Apply(s, DropToken(id));
    if s.charges[id].copies == 1 {
      var u := Apply(t, Subtract(id));
      steps := [DropToken(id), Subtract(id)];
      assert steps[1..] == [Subtract(id)] && [Subtract(id)][1..] == [];
      assert IsRun(u, [], maxBytes) && Final(u, [], maxBytes) == u;
      assert IsRun(t, [Subtract(id)], maxBytes) && Final(t, [Subtract(id)], maxBytes) == u;
    } else {
      StepSpendsNone(s, DropToken(id));
      var rest := CanBeReleased(t, maxBytes, id);
      steps := [DropToken(id)] + rest;
      assert steps[1..] == rest;
    }
  }

  /** When every charge has been given back and nobody is inside admit(), nothing is in flight. */
  lemma {:induction false} Drained(s: State, maxBytes: nat)
    requires Inv(s, maxBytes)
    requires forall t | 0 <= t < |s.threads| :: s.threads[t].Outside?
    requires forall i | 0 <= i < |s.charges| :: s.charges[i].Released?
    ensures s.inFlight == 0 && s.taken + s.window == s.total
  {
    NothingReserved(s.threads);
    NothingCharged(s.charges);
  }

  lemma {:induction false} NothingReserved(threads: seq<Thread>)
    requires forall t | 0 <= t < |threads| :: threads[t].Outside?
    ensures ReservedBytes(threads) == 0 && HalfCountedThreads(threads) == 0
  {
    if threads != [] {
      NothingReserved(threads[1..]);
    }
  }

  lemma {:induction false} NothingCharged(charges: seq<Charge>)
    requires forall i | 0 <= i < |charges| :: charges[i].Released?
    ensures ChargedBytes(charges) == 0
  {
    if charges != [] {
      NothingCharged(charges[1..]);
    }
  }

  // ---- Exactly when the budget holds ------------------------------------------------------------------

  /** However many threads there are and however they interleave, no more than the budget is taken. */
  ghost predicate NeverExceeds(budget: nat, maxBytes: nat) {
    forall n: nat, steps: seq<Step> | IsRun(Start(budget, n), steps, maxBytes) ::
      Outstanding(Final(Start(budget, n), steps, maxBytes)) <= budget
  }

  /** One thread on its own admits `bytes`. */
  function AdmitSteps(bytes: nat): seq<Step> {
    [Load(0, bytes), Swap(0), MakeToken(0)]
  }

  /** The state after it. */
  function Admitted(s: State, bytes: nat): State {
    s.(inFlight := (s.inFlight + bytes) % WORD, charges := s.charges + [Held(bytes, 1)])
  }

  lemma {:induction false} AdmitRun(s: State, bytes: nat, rest: seq<Step>, maxBytes: nat)
    requires s.threads == [Outside] && bytes <= maxBytes && (s.inFlight + bytes) % WORD <= s.budget
    requires IsRun(Admitted(s, bytes), rest, maxBytes)
    ensures IsRun(s, AdmitSteps(bytes) + rest, maxBytes)
    ensures Final(s, AdmitSteps(bytes) + rest, maxBytes) == Final(Admitted(s, bytes), rest, maxBytes)
    ensures Outstanding(Admitted(s, bytes)) == Outstanding(s) + bytes
  {
    ChargeAdd(s.charges, Held(bytes, 1));
    hide ReservedBytes, ChargedBytes;
    var all := AdmitSteps(bytes) + rest;
    var s1 := Apply(s, Load(0, bytes));
    var s2 := Apply(s1, Swap(0));
    assert Apply(s2, MakeToken(0)) == Admitted(s, bytes);
    assert all[1..][1..][1..] == rest && all[1..][0] == Swap(0) && all[1..][1..][0] == MakeToken(0);
    assert IsRun(s2, all[1..][1..], maxBytes);
    assert IsRun(s1, all[1..], maxBytes);
    assert Final(s, all, maxBytes) == Final(s1, all[1..], maxBytes);
    assert Final(s1, all[1..], maxBytes) == Final(s2, all[1..][1..], maxBytes);
  }

  /** With room for the sum to pass 2^64, a thread can fill up to there and then wrap the counter. */
  lemma {:induction false} Overflow(s: State, maxBytes: nat) returns (steps: seq<Step>)
    requires s.threads == [Outside] && s.inFlight == Outstanding(s)
    requires 1 <= maxBytes < WORD && s.inFlight <= WORD - maxBytes <= s.budget < WORD
    ensures IsRun(s, steps, maxBytes) && Outstanding(Final(s, steps, maxBytes)) > s.budget
    decreases WORD - maxBytes - s.inFlight
  {
    hide ReservedBytes, ChargedBytes;
    var left := WORD - maxBytes - s.inFlight;
    if left == 0 {
      AdmitRun(s, maxBytes, [], maxBytes);
      steps := AdmitSteps(maxBytes) + [];
    } else {
      var bytes := if left < maxBytes then left else maxBytes;
      AdmitRun(s, bytes, [], maxBytes);
      var rest := Overflow(Admitted(s, bytes), maxBytes);
      AdmitRun(s, bytes, rest, maxBytes);
      steps := AdmitSteps(bytes) + rest;
    }
  }

  /**
   The budget is a limit in every interleaving if and only if it leaves room below 2^64 for one
   request of the largest size: beyond that the sum wraps around and the test lets it through.
   */
  lemma {:induction false} BudgetIsALimit(budget: nat, maxBytes: nat)
    requires budget < WORD && maxBytes < WORD
    ensures NeverExceeds(budget, maxBytes) <==> budget + maxBytes < WORD
  {
    if budget + maxBytes < WORD {
      forall n: nat, steps: seq<Step> | IsRun(Start(budget, n), steps, maxBytes)
        ensures Outstanding(Final(Start(budget, n), steps, maxBytes)) <= budget
      {
        StartInv(budget, n, maxBytes);
        RunKeepsInv(Start(budget, n), steps, maxBytes);
        FinalBudget(Start(budget, n), steps, maxBytes);
      }
    } else {
      var s := Start(budget, 1);
      assert s.threads == [Outside];
      NobodyInside(1);
      var steps := Overflow(s, maxBytes);
      assert !(Outstanding(Final(Start(budget, 1), steps, maxBytes)) <= budget);
    }
  }

  lemma {:induction false} FinalBudget(s: State, steps: seq<Step>, maxBytes: nat)
    requires IsRun(s, steps, maxBytes)
    ensures Final(s, steps, maxBytes).budget == s.budget
    decreases |steps|
  {
    hide Enabled, Apply;
    if steps != [] {
      ApplyKeepsBudget(s, steps[0]);
      FinalBudget(Apply(s, steps[0]), steps[1..], maxBytes);
    }
  }
}
