/**
 Rotation of one chain of log files: generation n becomes n + 1, one rename at a time, and any
 filesystem call on the way may fail and leave the chain half shifted.
 */
module Rotation {
  import opened Bytes
  import opened Chain
  import opened Options

  function Get(a: Generations, n: int): Option<Bytes> {
    if n in a then Some(a[n]) else None
  }

  /** rename(2): whatever was at `to` is gone. */
  function Renamed(a: Generations, from: nat, to: nat): Generations
    requires from in a
  {
    (a - {from})[to := a[from]]
  }

  // ---- What each step may do -------------------------------------------------------

  /** The oldest generation is deleted, or a file moves up into the empty place next to it. */
  ghost predicate RotationStep(a: Generations, b: Generations, maxFiles: nat) {
    || (maxFiles in a && b == a - {maxFiles})
    || exists n: nat | n < maxFiles :: n in a && n + 1 !in a && b == Renamed(a, n, n + 1)
  }

  /** Bytes go to the end of the active file, which is created when it is not there. */
  ghost predicate AppendStep(a: Generations, b: Generations, x: Bytes) {
    b == a[0 := (if 0 in a then a[0] else []) + x]
  }

  /** Some first part of x, perhaps all of it, is now at the end of the active file. */
  ghost predicate PartAppended(a: Generations, b: Generations, x: Bytes) {
    0 in a && exists n | 0 <= n <= |x| :: b == a[0 := a[0] + x[..n]]
  }

  /** history records the directory after every change; each change from index `from` on is one step. */
  ghost predicate Steps(history: seq<Generations>, from: nat, maxFiles: nat) {
    forall i | from < i < |history| :: RotationStep(history[i - 1], history[i], maxFiles)
  }

  /** A rename into an empty place leaves the files, in order, as they were. */
  lemma {:induction false} RenameKeepsOrder(a: Generations, n: nat, m: nat, k: nat)
    requires n < m && n in a && n + 1 !in a
    ensures Present(Renamed(a, n, n + 1), m, k) == Present(a, m, if k == n + 1 then n else k)
    decreases m + 1 - k
  {
    if k <= m {
      RenameKeepsOrder(a, n, m, k + 1);
      if k == n + 1 {
        assert Present(a, m, n) == Present(a, m, n + 1) + if a[n] != [] then [a[n]] else [];
        assert Present(a, m, n + 1) == Present(a, m, n + 2);
      }
    }
  }

  lemma {:induction false} DeleteDropsOldest(a: Generations, m: nat, k: nat)
    requires m in a && k <= m
    ensures Present(a, m, k) == (if a[m] != [] then [a[m]] else []) + Present(a - {m}, m, k)
    decreases m - k
  {
    if k < m {
      DeleteDropsOldest(a, m, k + 1);
    } else {
      assert Present(a, m, m + 1) == [] && Present(a - {m}, m, m + 1) == [];
    }
  }

  /** A step never reorders, duplicates or overwrites a file; it loses at most the oldest one whole. */
  lemma {:induction false} StepKeepsOrder(a: Generations, b: Generations, m: nat)
    requires RotationStep(a, b, m)
    ensures
      || Present(b, m, 0) == Present(a, m, 0)
      || (m in a && m !in b && Present(a, m, 0) == [a[m]] + Present(b, m, 0))
  {
    if m in a && b == a - {m} {
      DeleteDropsOldest(a, m, 0);
    } else {
      var n: nat :| n < m && n in a && n + 1 !in a && b == Renamed(a, n, n + 1);
      RenameKeepsOrder(a, n, m, 0);
    }
  }

  /** No step creates or changes a generation above maxFiles. */
  lemma {:induction false} StepStaysWithin(a: Generations, b: Generations, m: nat)
    requires RotationStep(a, b, m)
    ensures forall n | n > m :: Get(b, n) == Get(a, n)
    ensures forall n <- b :: exists n' <- a :: b[n] == a[n']
  {
    if m in a && b == a - {m} {
    } else {
      var k: nat :| k < m && k in a && k + 1 !in a && b == Renamed(a, k, k + 1);
      assert forall n <- b :: n == k + 1 || n in a;
    }
  }

  ghost predicate Suffix(s: seq<Bytes>, t: seq<Bytes>) {
    |s| <= |t| && s == t[|t| - |s|..]
  }

  /** Over any run of steps, through any number of aborted and resumed rotations, a suffix survives. */
  lemma {:induction false} RunKeepsOrder(history: seq<Generations>, m: nat)
    requires history != [] && Steps(history, 0, m)
    ensures forall i | 0 <= i < |history| :: Suffix(Present(history[i], m, 0), Present(history[0], m, 0))
    decreases |history|
  {
    if |history| > 1 {
      var n := |history| - 1;
      RunKeepsOrder(history[..n], m);
      assert RotationStep(history[n - 1], history[n], m);
      StepKeepsOrder(history[n - 1], history[n], m);
      assert history[..n][n - 1] == history[n - 1];
      hide Present;
      assert Suffix(Present(history[n], m, 0), Present(history[0], m, 0));
      assert forall i | 0 <= i < n :: history[..n][i] == history[i];
    }
  }

  // ---- The whole rotation ---------------------------------------------------------------

  const PROBE_CAP := 1000

  /** How many generations are probed: maxFiles of them, or a cap when nothing is to be deleted. */
  function ProbeLimit(maxFiles: nat): nat {
    if maxFiles > 0 then maxFiles else PROBE_CAP
  }

  /** What a finished rotation has put at generation k. */
  function ShiftedAt(a: Generations, k: nat, maxFiles: nat): Option<Bytes> {
    if k == 0 then None
    else if k <= ProbeLimit(maxFiles) then Get(a, k - 1)
    else if maxFiles == 0 && k == PROBE_CAP + 1 && PROBE_CAP in a then Some(a[PROBE_CAP])
    else Get(a, k)
  }

  ghost predicate IsShifted(a: Generations, b: Generations, maxFiles: nat) {
    forall k: nat :: Get(b, k) == ShiftedAt(a, k, maxFiles)
  }

  /** Generations above n have been shifted, the place n moves into is free, the others are untouched. */
  ghost predicate ShiftedAbove(a: Generations, b: Generations, n: nat, maxFiles: nat) {
    forall k: nat :: Get(b, k) ==
      if k <= n then Get(a, k)
      else if k == n + 1 && n + 1 <= ProbeLimit(maxFiles) then None
      else if k == n + 1 then Get(a, k)
      else ShiftedAt(a, k, maxFiles)
  }

  /** The directory of one chain. Every call may fail, and then changes nothing. */
  class Directory {
    var gens: Generations
    ghost var history: seq<Generations>
    ghost var failures: nat // calls that have failed

    ghost predicate Valid()
      reads this
    {
      history != [] && history[|history| - 1] == gens
    }

    constructor (initial: Generations)
      ensures Valid() && gens == initial && history == [initial] && failures == 0
    {
      gens := initial;
      history := [initial];
      failures := 0;
    }

    /** exists() with an error code: an absent file is not an error. */
    method Probe(n: nat) returns (found: Option<bool>)
      modifies this`failures
      ensures found == None || found == Some(n in gens)
      ensures failures == old(failures) + if found == None then 1 else 0
    {
      if * {
        failures := failures + 1;
        return None;
      }
      return Some(n in gens);
    }

    method Remove(n: nat) returns (ok: bool)
      requires Valid() && n in gens
      modifies this
      ensures Valid()
      ensures if ok then gens == old(gens) - {n} && history == old(history) + [gens]
              else gens == old(gens) && history == old(history)
      ensures failures == old(failures) + if ok then 0 else 1
    {
      if * {
        failures := failures + 1;
        return false;
      }
      gens := gens - {n};
      history := history + [gens];
      return true;
    }

    method Rename(from: nat, to: nat) returns (ok: bool)
      requires Valid() && from in gens
      modifies this
      ensures Valid()
      ensures if ok then gens == Renamed(old(gens), from, to) && history == old(history) + [gens]
              else gens == old(gens) && history == old(history)
      ensures failures == old(failures) + if ok then 0 else 1
    {
      if * {
        failures := failures + 1;
        return false;
      }
      gens := Renamed(gens, from, to);
      history := history + [gens];
      return true;
    }

    /** Opens the active file for appending, creating it if it is not there. */
    method OpenActive() returns (ok: bool)
      requires Valid()
      modifies this
      ensures Valid()
      ensures if ok && 0 !in old(gens)
              then gens == old(gens)[0 := []] && history == old(history) + [gens]
              else gens == old(gens) && history == old(history)
      ensures ok ==> 0 in gens
      ensures failures == old(failures) + if ok then 0 else 1
    {
      if * {
        failures := failures + 1;
        return false;
      }
      if 0 !in gens {
        gens := gens[0 := []];
        history := history + [gens];
      }
      return true;
    }

    method FileSize() returns (size: Option<nat>)
      requires 0 in gens
      modifies this`failures
      ensures size == None || size == Some(|gens[0]|)
      ensures failures == old(failures) + if size == None then 1 else 0
    {
      if * {
        failures := failures + 1;
        return None;
      }
      return Some(|gens[0]|);
    }

    /** Writes and flushes; a failure may leave any part of the data behind. */
    method Append(data: Bytes) returns (ok: bool)
      requires Valid() && 0 in gens
      modifies this
      ensures Valid()
      ensures ok ==> gens == old(gens)[0 := old(gens)[0] + data]
      ensures PartAppended(old(gens), gens, data)
      ensures history == old(history) + [gens]
      ensures failures == old(failures) + if ok then 0 else 1
    {
      var n :| 0 <= n <= |data|;
      gens := gens[0 := gens[0] + data[..n]];
      history := history + [gens];
      ok := n == |data|;
      failures := failures + if ok then 0 else 1;
      assert ok ==> data[..n] == data;
    }

    /** The highest generation there is, of those probed; it gives up only when a call has failed. */
    method FindHighest(maxFiles: nat) returns (ok: bool, highest: nat)
      modifies this`failures
      ensures failures == old(failures) + if ok then 0 else 1
      ensures ok ==>
                && highest <= ProbeLimit(maxFiles)
                && (highest > 0 ==> highest in gens)
                && forall k: nat | highest < k <= ProbeLimit(maxFiles) :: k !in gens
    {
      highest := 0;
      for n := 1 to ProbeLimit(maxFiles) + 1
        invariant highest < n && (highest > 0 ==> highest in gens) && failures == old(failures)
        invariant forall k: nat | highest < k < n :: k !in gens
      {
        var found := Probe(n);
        if found == None {
          return false, highest;
        }
        if found.value {
          highest := n;
        }
      }
      return true, highest;
    }

    /** Deletes the generations from `highest` down to maxFiles. */
    method DeleteFrom(highest: nat, maxFiles: nat) returns (ok: bool)
      requires Valid() && maxFiles >= 1 && highest == maxFiles && highest in gens
      modifies this
      ensures Valid() && old(history) <= history && Steps(history, |old(history)| - 1, maxFiles)
      ensures gens == old(gens) || gens == old(gens) - {maxFiles}
      ensures ok ==> gens == old(gens) - {maxFiles}
      ensures failures == old(failures) + if ok then 0 else 1
    {
      for n := highest + 1 downto maxFiles
        invariant maxFiles <= n <= highest + 1 && failures == old(failures)
        invariant Valid() && old(history) <= history && Steps(history, |old(history)| - 1, maxFiles)
        invariant gens == if n == highest + 1 then old(gens) else old(gens) - {maxFiles}
      {
        var found := Probe(n);
        if found == None {
          return false;
        }
        if !found.value {
          continue;
        }
        var removed := Remove(n);
        if !removed {
          return false;
        }
      }
      return true;
    }

    /**
     One rotation. A finished one moves every generation up by one, and with maxFiles drops what was at
     that generation; one is cut short only by a call that fails, and has then made only the single steps
     that never overwrite, reorder or lose anything but the oldest file.
     */
    method ShiftFiles(maxFiles: nat) returns (ok: bool)
      requires Valid()
      modifies this
      ensures Valid()
      ensures old(history) <= history
      ensures maxFiles >= 1 ==> Steps(history, |old(history)| - 1, maxFiles)
      ensures ok ==> IsShifted(old(gens), gens, maxFiles)
      ensures ok && maxFiles >= 1 ==>
                && 0 !in gens
                && (forall k: nat | k < maxFiles :: k + 1 in gens <==> k in old(gens))
                && (forall k: nat | k < maxFiles && k in old(gens) :: gens[k + 1] == old(gens)[k])
                && forall k: nat | k > maxFiles :: Get(gens, k) == Get(old(gens), k)
      ensures ok && maxFiles == 0 ==>
                && 0 !in gens && (forall k: nat | k < 1000 :: Get(gens, k + 1) == Get(old(gens), k))
                && Get(gens, 1001) == Get(old(gens), if 1000 in old(gens) then 1000 else 1001)
                && forall k: nat | k > 1001 :: Get(gens, k) == Get(old(gens), k)
      ensures failures == old(failures) + if ok then 0 else 1
    {
      ghost var a, h := gens, |history| - 1;
      var probed, highest := FindHighest(maxFiles);
      if !probed {
        return false;
      }

      if maxFiles > 0 && highest >= maxFiles {
        var deleted := DeleteFrom(highest, maxFiles);
        if !deleted {
          return false;
        }
        highest := maxFiles - 1;
      }
      assert ShiftedAbove(a, gens, highest, maxFiles);
      hide ShiftedAbove, IsShifted, ShiftedAt;

      for n := highest + 1 downto 1
        invariant Valid() && old(history) <= history && failures == old(failures)
        invariant maxFiles >= 1 ==> Steps(history, h, maxFiles)
        invariant ShiftedAbove(a, gens, n - 1, maxFiles)
      {
        ghost var was := gens;
        NextIsFree(a, was, n, maxFiles);
        var found := Probe(n);
        if found == None {
          return false;
        }
        if !found.value {
          MovedDown(a, was, was, n, maxFiles);
          continue;
        }
        var renamed := Rename(n, n + 1);
        if !renamed {
          return false;
        }
        MovedDown(a, was, gens, n, maxFiles);
      }

      NextIsFree(a, gens, 0, maxFiles);
      LastMove(a, gens, maxFiles);
      var found := Probe(0);
      if found == None {
        return false;
      }
      if found.value {
        var renamed := Rename(0, 1);
        if !renamed {
          return false;
        }
      }
      ShiftedMeans(a, gens, maxFiles);
      return true;
    }
  }

  lemma {:induction false} ShiftedMeans(a: Generations, b: Generations, m: nat)
    requires IsShifted(a, b, m)
    ensures m >= 1 ==>
              && 0 !in b
              && (forall k: nat | k < m :: k + 1 in b <==> k in a)
              && (forall k: nat | k < m && k in a :: b[k + 1] == a[k])
              && forall k: nat | k > m :: Get(b, k) == Get(a, k)
    ensures m == 0 ==>
              && 0 !in b && (forall k: nat | k < 1000 :: Get(b, k + 1) == Get(a, k))
              && Get(b, 1001) == Get(a, if 1000 in a then 1000 else 1001)
              && forall k: nat | k > 1001 :: Get(b, k) == Get(a, k)
  {
    assert Get(b, 0) == None;
    if m >= 1 {
      forall k: nat | k < m ensures (k + 1 in b <==> k in a) && (k in a ==> b[k + 1] == a[k]) {
        assert Get(b, k + 1) == Get(a, k);
      }
    }
  }

  lemma {:induction false} NextIsFree(a: Generations, was: Generations, n: nat, maxFiles: nat)
    requires ShiftedAbove(a, was, n, maxFiles)
    ensures n + 1 <= ProbeLimit(maxFiles) ==> n + 1 !in was
  {
    assert Get(was, n + 1) == if n + 1 <= ProbeLimit(maxFiles) then None else Get(a, n + 1);
  }

  lemma {:induction false} LastMove(a: Generations, was: Generations, maxFiles: nat)
    requires ShiftedAbove(a, was, 0, maxFiles)
    ensures IsShifted(a, if 0 in was then Renamed(was, 0, 1) else was, maxFiles)
  {
    assert Get(was, 0) == Get(a, 0) && Get(was, 1) == None;
  }

  /** Moving generation n up, or finding it absent, extends the shifted part down to n. */
  lemma {:induction false} MovedDown(a: Generations, was: Generations, now: Generations, n: nat, maxFiles: nat)
    requires 1 <= n <= ProbeLimit(maxFiles) && ShiftedAbove(a, was, n, maxFiles)
    requires now == if n in was then Renamed(was, n, n + 1) else was
    requires n < ProbeLimit(maxFiles) || maxFiles == 0
    ensures ShiftedAbove(a, now, n - 1, maxFiles)
  {
    assert Get(was, n) == Get(a, n);
    forall k: nat ensures Get(now, k) ==
      if k <= n - 1 then Get(a, k) else if k == n then None else ShiftedAt(a, k, maxFiles)
    {
      assert Get(now, k) == if n in was && k == n + 1 then Get(was, n) else if k == n then None else Get(was, k);
    }
  }

  /** A finished rotation loses nothing but the file it was told to delete, when it was told to. */
  lemma {:induction false} ShiftKeepsAllButOldest(a: Generations, b: Generations, m: nat)
    requires m >= 1 && IsShifted(a, b, m)
    ensures Present(a, m, 0) == (if m in a && a[m] != [] then [a[m]] else []) + Present(b, m, 0)
    ensures 0 !in b
  {
    ShiftPresent(a, b, m, m, 1);
    assert Get(b, 0) == None;
    PresentTop(a, m, 0);
  }

  lemma {:induction false} ShiftPresent(a: Generations, b: Generations, m: nat, top: nat, k: nat)
    requires IsShifted(a, b, m) && 1 <= k && top >= 1
    requires forall j | k <= j <= top :: Get(b, j) == Get(a, j - 1)
    ensures Present(b, top, k) == Present(a, top - 1, k - 1)
    decreases top + 1 - k
  {
    if k <= top {
      ShiftPresent(a, b, m, top, k + 1);
      assert Get(b, k) == Get(a, k - 1);
    }
  }

  lemma {:induction false} PresentTop(a: Generations, m: nat, k: nat)
    requires k <= m && m >= 1
    ensures Present(a, m, k) == (if m in a && a[m] != [] then [a[m]] else []) + Present(a, m - 1, k)
    decreases m - k
  {
    if k < m {
      PresentTop(a, m, k + 1);
    } else {
      assert Present(a, m, m + 1) == [];
    }
  }

  /**
   With maxFiles == 0 nothing is deleted, yet a rotation keeps every file if and only if the probe
   cap has not been passed: generation 1000 is renamed onto 1001, whatever is there.
   */
  lemma {:induction false} UnlimitedKeepsAll(a: Generations, b: Generations, cap: nat)
    requires cap == 1000 && IsShifted(a, b, 0)
    ensures Present(b, cap + 1, 0) == Present(a, cap + 1, 0)
            <==> !(cap in a && cap + 1 in a && a[cap + 1] != [])
  {
    hide Present;
    PresentTop(a, cap + 1, 0);
    PresentTop(b, cap + 1, 0);
    PresentTop(a, cap, 0);
    ShiftPresent(a, b, 0, cap, 1);
    assert Get(b, 0) == None && Get(b, cap + 1) == ShiftedAt(a, cap + 1, 0);
    NoActive(b, cap);
  }

  /** With generations 1000 and 1001 there, each with something in it, one rotation overwrites 1001. */
  lemma {:induction false} UnlimitedOverwrites(x: Bytes, y: Bytes, cap: nat)
    requires cap == 1000 && x != [] && y != []
    ensures var a, b: Generations := map[cap := x, cap + 1 := y], map[cap + 1 := x];
            IsShifted(a, b, 0) && Present(b, cap + 1, 0) != Present(a, cap + 1, 0)
  {
    var a, b: Generations := map[cap := x, cap + 1 := y], map[cap + 1 := x];
    assert IsShifted(a, b, 0);
    hide IsShifted, Present;
    UnlimitedKeepsAll(a, b, cap);
  }

  lemma {:induction false} NoActive(b: Generations, n: nat)
    requires 0 !in b
    ensures Present(b, n, 0) == Present(b, n, 1)
  {}
}
