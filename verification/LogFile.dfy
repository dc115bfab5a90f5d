/**
 One sink: a text file and a JSONL file that are written, rotated, taken out of service by any
 filesystem error, retried on a timer and closed for good at shutdown.
 */
module LogFile {
  import opened Bytes
  import opened Chain
  import opened Options
  import R = Rotation
  import RateLimit
  import TextEscape

  /** Which files the sink has, and its limits; a maxSize of 0 never rotates. */
  datatype Config = Config(hasText: bool, hasJsonl: bool, maxSize: nat, maxFiles: nat, includeMalformed: bool)

  /** What one change of a directory may be; `limit` is the size no file reaches. */
  ghost predicate DiskStep(a: Generations, b: Generations, cfg: Config, limit: nat) {
    || R.RotationStep(a, b, cfg.maxFiles)
    || exists x: Bytes :: R.AppendStep(a, b, x) && (cfg.maxSize > 0 ==> |b[0]| < limit)
  }

  /** `after` continues `before`, one such step at a time. */
  ghost predicate DiskSteps(before: seq<Generations>, after: seq<Generations>, cfg: Config, limit: nat) {
    && before <= after
    && (cfg.maxFiles >= 1 ==>
          forall i | 0 < |before| <= i < |after| :: DiskStep(after[i - 1], after[i], cfg, limit))
  }

  /** Opening for append creates the active file if it is not there. */
  ghost predicate Touched(a: Generations, b: Generations) {
    b == a || (0 !in a && b == a[0 := []])
  }

  function AsOpened(a: Generations): Generations {
    if 0 in a then a else a[0 := []]
  }

  function Active(a: Generations): Bytes {
    if 0 in a then a[0] else []
  }

  /** The active file now holds only the line, what it held is generation 1, and every other is one up. */
  ghost predicate MadeRoom(a: Generations, b: Generations, line: Bytes, maxFiles: nat) {
    && R.Get(b, 0) == Some(line) && R.Get(b, 1) == Some(Active(a))
    && (maxFiles >= 1 ==>
          && (forall k: nat | 0 < k < maxFiles :: R.Get(b, k + 1) == R.Get(a, k))
          && forall k: nat | k > maxFiles :: R.Get(b, k) == R.Get(a, k))
  }

  /** Whether the next message rotates first: an active file has reached the limit. */
  predicate Due(a: Generations, has: bool, maxSize: nat) {
    has && maxSize > 0 && 0 in a && |a[0]| >= maxSize
  }

  /** The directory after one message: `line` at the end of the active file, rotated first or not. */
  ghost predicate Wrote(a: Generations, b: Generations, rotated: bool, line: Bytes, maxFiles: nat) {
    forall k: nat :: R.Get(b, k) ==
      if k == 0 then Some((if rotated || 0 !in a then [] else a[0]) + line)
      else if rotated then R.ShiftedAt(a, k, maxFiles) else R.Get(a, k)
  }

  /** Creating the active file is a step. */
  lemma {:induction false} TouchIsStep(before: seq<Generations>, after: seq<Generations>, cfg: Config, limit: nat)
    requires before != [] && cfg.maxSize <= limit
    requires
      || after == before
      || (0 !in before[|before| - 1] && after == before + [before[|before| - 1][0 := []]])
    ensures DiskSteps(before, after, cfg, limit)
  {
    var n := |before| - 1;
    if after != before {
      var empty: Bytes := [];
      assert empty + [] == [];
      assert R.AppendStep(before[n], after[n + 1], []);
    }
  }

  lemma {:induction false} StepsJoin(before: seq<Generations>, between: seq<Generations>, after: seq<Generations>, cfg: Config, limit: nat)
    requires DiskSteps(before, between, cfg, limit) && DiskSteps(between, after, cfg, limit)
    ensures DiskSteps(before, after, cfg, limit)
  {
    if cfg.maxFiles >= 1 {
      forall i | 0 < |before| <= i < |after| ensures DiskStep(after[i - 1], after[i], cfg, limit) {
        if i < |between| {
          assert after[i - 1] == between[i - 1] && after[i] == between[i];
        }
      }
    }
  }

  lemma {:induction false} ShiftIsSteps(before: seq<Generations>, after: seq<Generations>, cfg: Config, limit: nat)
    requires before != [] && before <= after
    requires cfg.maxFiles >= 1 ==> R.Steps(after, |before| - 1, cfg.maxFiles)
    ensures DiskSteps(before, after, cfg, limit)
  {
    if cfg.maxFiles >= 1 {
      forall i | |before| - 1 < i < |after| ensures DiskStep(after[i - 1], after[i], cfg, limit) {
        assert R.RotationStep(after[i - 1], after[i], cfg.maxFiles);
      }
    }
  }

  /** Appending to an active file below the limit is a step, also when only part gets written. */
  lemma {:induction false} AppendIsStep(before: seq<Generations>, after: seq<Generations>, x: Bytes, cfg: Config, longest: nat)
    requires before != [] && var a := before[|before| - 1];
             0 in a && after == before + [a[0 := a[0] + x]] && (cfg.maxSize > 0 ==> |a[0]| < cfg.maxSize)
    requires |x| <= longest
    ensures DiskSteps(before, after, cfg, cfg.maxSize + longest)
  {
    assert R.AppendStep(before[|before| - 1], after[|before|], x);
  }

  lemma {:induction false} AppendedIsStep(before: seq<Generations>, after: seq<Generations>, x: Bytes, cfg: Config, longest: nat)
    requires before != [] && |x| <= longest && var a := before[|before| - 1];
             && 0 in a && (cfg.maxSize > 0 ==> |a[0]| < cfg.maxSize)
    requires |after| == |before| + 1 && before <= after && R.PartAppended(before[|before| - 1], after[|before|], x)
    ensures DiskSteps(before, after, cfg, cfg.maxSize + longest)
  {
    var a := before[|before| - 1];
    var n :| 0 <= n <= |x| && after[|before|] == a[0 := a[0] + x[..n]];
    assert after == before + [after[|before|]];
    AppendIsStep(before, after, x[..n], cfg, longest);
  }

  lemma {:induction false} WroteMore(a: Generations, b: Generations, rotated: bool, line: Bytes, maxFiles: nat)
    requires Wrote(a, b, rotated, [], maxFiles) && 0 in b
    ensures Wrote(a, b[0 := b[0] + line], rotated, line, maxFiles)
  {
    var c, was := b[0 := b[0] + line], if rotated || 0 !in a then [] else a[0];
    assert was + [] == was;
    assert R.Get(b, 0) == Some(was);
    forall k: nat | k > 0 ensures R.Get(c, k) == if rotated then R.ShiftedAt(a, k, maxFiles) else R.Get(a, k) {
      assert R.Get(c, k) == R.Get(b, k);
    }
  }

  lemma {:induction false} WroteNothing(a: Generations, maxFiles: nat)
    requires 0 in a
    ensures Wrote(a, a, false, [], maxFiles)
  {
    assert a[0] + [] == a[0];
  }

  lemma {:induction false} RotatedIsEmpty(a: Generations, b: Generations, maxFiles: nat)
    requires Wrote(a, b, true, [], maxFiles)
    ensures 0 in b && b[0] == []
  {
    var empty: Bytes := [];
    assert empty + [] == [];
    assert R.Get(b, 0) == Some(empty);
  }

  /** Opening a missing file makes no rotation due. */
  lemma {:induction false} DueAsOpened(a: Generations, has: bool, maxSize: nat)
    ensures Due(AsOpened(a), has, maxSize) == Due(a, has, maxSize) && 0 in AsOpened(a) && !Due(a, false, maxSize)
  {}

  lemma {:induction false} ShiftedThenTouched(a: Generations, b: Generations, c: Generations, maxFiles: nat)
    requires R.IsShifted(a, b, maxFiles) && Touched(b, c) && 0 in c
    ensures Wrote(a, c, true, [], maxFiles)
  {
    assert R.Get(b, 0) == None;
    var empty: Bytes := [];
    assert empty + [] == [];
    forall k: nat | k > 0 ensures R.Get(c, k) == R.ShiftedAt(a, k, maxFiles) {
      assert R.Get(c, k) == R.Get(b, k);
    }
  }

  /** Not rotated: the line at the end of the active file, and nothing else changed. */
  lemma {:induction false} WroteInPlace(a: Generations, b: Generations, line: Bytes, m: nat)
    requires Wrote(AsOpened(a), b, false, line, m)
    ensures b == a[0 := Active(a) + line]
  {
    var c := a[0 := Active(a) + line];
    forall k: nat ensures (k in b <==> k in c) && (k in b ==> b[k] == c[k]) {
      assert R.Get(b, k) == R.Get(c, k);
    }
  }

  /** Rotated: the active file holds only the line, and what it held is at generation 1. */
  lemma {:induction false} WroteRotated(a: Generations, b: Generations, line: Bytes, m: nat)
    requires Wrote(AsOpened(a), b, true, line, m)
    ensures MadeRoom(a, b, line, m)
  {
    var empty: Bytes := [];
    assert empty + line == line;
  }

  /** The active file made ready and the line appended. */
  lemma {:induction false} LineLaid(a: Generations, b: Generations, rotated: bool, line: Bytes, m: nat)
    requires Wrote(AsOpened(a), b, rotated, [], m) && 0 in b
    ensures var c := b[0 := b[0] + line];
            && Wrote(AsOpened(a), c, rotated, line, m)
            && if rotated then MadeRoom(a, c, line, m) else c == a[0 := Active(a) + line]
  {
    WroteMore(AsOpened(a), b, rotated, line, m);
    var c := b[0 := b[0] + line];
    hide Wrote, AsOpened, MadeRoom;
    if rotated {
      WroteRotated(a, c, line, m);
    } else {
      WroteInPlace(a, c, line, m);
    }
  }

  /** What a message finds full: a configured active file that has reached the limit, if there is one. */
  lemma {:induction false} DueMeans(a: Generations, has: bool, maxSize: nat)
    ensures Due(a, has, maxSize) <==> has && 0 in a && |a[0]| >= maxSize > 0
  {}

  // ---- The life of a sink ----------------------------------------------------------------

  /** In service or not, shut down or not, the failures of the outage, and the retry timer. */
  datatype Life = Life(closed: bool, shuttingDown: bool, failures: nat, armed: bool, fired: nat, cancelled: nat)

  const FRESH := Life(false, false, 0, false, 0, 0)

  /** A failure closes the sink and, unless it is shut down, arms a retry. */
  function FailedOnce(l: Life): Life {
    var c := l.(closed := true, failures := l.failures + 1);
    if l.shuttingDown then c else c.(cancelled := l.cancelled + (if l.armed then 1 else 0), armed := true)
  }

  function AfterWrite(l: Life, taken: bool, ok: bool): Life {
    if l.closed || !taken || ok then l else FailedOnce(l)
  }

  function AfterClose(l: Life): Life {
    l.(closed := true, shuttingDown := true, cancelled := l.cancelled + (if l.armed then 1 else 0), armed := false)
  }

  function AfterExpiry(l: Life): Life {
    l.(armed := false, fired := l.fired + 1)
  }

  function AfterRetry(l: Life, cancelled: bool, ok: bool): Life
    requires (if cancelled then l.cancelled else l.fired) > 0
  {
    if cancelled then l.(cancelled := l.cancelled - 1)
    else
      var left := l.(fired := l.fired - 1);
      if l.shuttingDown then left
      else if ok then left.(closed := false, failures := 0)
      else FailedOnce(left)
  }

  /**
   Out of service, and not shut down, exactly while an outage is counted and one retry is coming; shut
   down, closed for good with no retry armed.
   */
  ghost predicate LifeInv(l: Life) {
    if l.shuttingDown then l.closed && !l.armed && l.fired + l.cancelled <= 1
    else
      && l.cancelled == 0
      && (if l.armed then 1 else 0) + l.fired == (if l.closed then 1 else 0)
      && (l.closed <==> l.failures > 0)
  }

  class Sink {
    const cfg: Config
    /** The longest line any message is written as. */
    ghost const longest: nat
    const text: R.Directory
    const jsonl: R.Directory
    var textOpen: bool
    var jsonlOpen: bool
    var textSize: nat
    var jsonlSize: nat
    var startingUp: bool
    var closed: bool
    var shuttingDown: bool
    const policy: RateLimit.SinkRecovery
    var timerArmed: bool
    var timerFired: nat     // retry handlers queued without error
    var timerCancelled: nat // retry handlers queued with operation_aborted
    ghost var started: bool

    /** What the recovery policy has counted of the outage. */
    function Counted(): RateLimit.Recovery
      reads policy
    {
      policy.State()
    }

    ghost predicate Disks()
      reads text, jsonl
    {
      text != jsonl && text.Valid() && jsonl.Valid()
    }

    /** The tracked sizes are those of the files, for the streams that are open. */
    ghost predicate InStep()
      reads this, text, jsonl
    {
      && Disks()
      && (textOpen ==> cfg.hasText && 0 in text.gens && textSize == |text.gens[0]|)
      && (!textOpen ==> textSize == 0)
      && (jsonlOpen ==> cfg.hasJsonl && 0 in jsonl.gens && jsonlSize == |jsonl.gens[0]|)
      && (!jsonlOpen ==> jsonlSize == 0)
    }

    predicate AllOpen()
      reads this
    {
      textOpen == cfg.hasText && jsonlOpen == cfg.hasJsonl
    }

    predicate AllClosed()
      reads this
    {
      !textOpen && !jsonlOpen
    }

    /** Handlers of the retry timer that have not run. */
    function TimerWork(): nat
      reads this
    {
      (if timerArmed then 2 else 0) + timerFired + timerCancelled
    }

    /** Where the sink is in its life. */
    function Stage(): Life
      reads this, policy
    {
      Life(closed, shuttingDown, Counted().failures, timerArmed, timerFired, timerCancelled)
    }

    /** Neither a retry nor a shutdown is under way. */
    predicate Undisturbed()
      reads this
    {
      !shuttingDown && TimerWork() == 0
    }

    /**
     Between handlers: all streams open or all closed; out of service, and not shutting down,
     exactly when one retry is coming and an outage is counted; after shutdown, never a retry armed.
     */
    ghost predicate Valid()
      reads this, policy, text, jsonl
    {
      && InStep() && !startingUp
      && (if closed then AllClosed() else if started then AllOpen() else AllClosed())
      && LifeInv(Stage())
    }

    /** Both directories have only gone through steps that keep order and the size limit. */
    twostate predicate OnlySteps()
      reads text, jsonl
    {
      && DiskSteps(old(text.history), text.history, cfg, cfg.maxSize + longest)
      && DiskSteps(old(jsonl.history), jsonl.history, cfg, cfg.maxSize + longest)
    }

    /** What a failure leaves: a sink to be retried, or at startup one that never will be. */
    ghost predicate Failed(was: RateLimit.Recovery, atStartup: bool, now: int)
      reads this, policy, text, jsonl
    {
      && closed && startingUp == atStartup
      && if startingUp then InStep() && AllClosed() && Undisturbed() && Counted() == was
         else Valid() && Stage() == FailedOnce(FRESH.(failures := was.failures)) && Counted() == RateLimit.AfterFailure(was, now).0
    }

    /** What success leaves: everything as it was, with the streams open. */
    ghost predicate Opened(was: RateLimit.Recovery, atStartup: bool)
      reads this, policy, text, jsonl
    {
      && !closed && started && InStep() && AllOpen() && Undisturbed()
      && Counted() == was && startingUp == atStartup
    }

    constructor (cfg: Config, text: R.Directory, jsonl: R.Directory, ghost longest: nat)
      requires text != jsonl && text.Valid() && jsonl.Valid()
      ensures Valid() && !closed && !started && Undisturbed() && Counted().failures == 0
      ensures Stage() == FRESH && fresh(policy)
      ensures this.cfg == cfg && this.text == text && this.jsonl == jsonl && this.longest == longest
    {
      this.cfg, this.text, this.jsonl, this.longest := cfg, text, jsonl, longest;
      textOpen, jsonlOpen, textSize, jsonlSize := false, false, 0, 0;
      startingUp, closed, shuttingDown, started := false, false, false, false;
      policy := new RateLimit.SinkRecovery();
      timerArmed, timerFired, timerCancelled := false, 0, 0;
    }

    method CloseFiles()
      modifies this`textOpen, this`jsonlOpen, this`textSize, this`jsonlSize
      ensures AllClosed() && textSize == 0 && jsonlSize == 0
    {
      textOpen, jsonlOpen := false, false;
      textSize, jsonlSize := 0, 0;
    }

    method ScheduleRetry()
      modifies this`timerArmed, this`timerCancelled
      ensures if shuttingDown then timerArmed == old(timerArmed) && timerCancelled == old(timerCancelled)
              else timerArmed && timerCancelled == old(timerCancelled) + if old(timerArmed) then 1 else 0
    {
      if shuttingDown {
        return;
      }
      timerCancelled := timerCancelled + if timerArmed then 1 else 0;
      timerArmed := true;
    }

    /** Takes the sink out of service: one more failure counted, everything closed, one retry armed. */
    method FailSink(now: int)
      requires Disks() && Undisturbed()
      modifies this, policy
      ensures Failed(old(Counted()), old(startingUp), now)
    {
      if startingUp {
        closed := true;
        CloseFiles();
        return;
      }
      var decision := policy.OnFailure(now);
      closed := true;
      CloseFiles();
      ScheduleRetry();
    }

    /** Opens one stream for appending and reads back how long its file is. */
    method OpenStream(d: R.Directory) returns (isOpen: bool, size: Option<nat>)
      requires d.Valid()
      modifies d
      ensures d.Valid() && DiskSteps(old(d.history), d.history, cfg, cfg.maxSize + longest)
      ensures Touched(old(d.gens), d.gens)
      ensures isOpen ==> 0 in d.gens
      ensures size.Some? ==> isOpen && size.value == |d.gens[0]|
      ensures d.failures == old(d.failures) + if size == None then 1 else 0
    {
      size := None;
      isOpen := d.OpenActive();
      TouchIsStep(old(d.history), d.history, cfg, cfg.maxSize + longest);
      if isOpen {
        size := d.FileSize();
      }
    }

    /** The second half of OpenFiles: the JSONL file, after the text file. */
    method OpenJsonl(now: int)
      requires InStep() && textOpen == cfg.hasText && !jsonlOpen && !closed && Undisturbed()
      modifies this, policy, jsonl
      ensures if closed then Failed(old(Counted()), old(startingUp), now) else Opened(old(Counted()), old(startingUp))
      ensures DiskSteps(old(jsonl.history), jsonl.history, cfg, cfg.maxSize + longest)
      ensures Touched(old(jsonl.gens), jsonl.gens)
      ensures jsonl.failures == old(jsonl.failures) + if closed then 1 else 0
    {
      TouchIsStep(jsonl.history, jsonl.history, cfg, cfg.maxSize + longest);
      hide DiskSteps, Touched, Failed;
      if cfg.hasJsonl {
        var size: Option<nat>;
        jsonlOpen, size := OpenStream(jsonl);
        if size == None {
          FailSink(now);
          return;
        }
        jsonlSize := size.value;
      }
      started := true;
    }

    /** Opens every configured file, or takes the sink out of service at the first that fails. */
    method OpenFiles(now: int)
      requires InStep() && AllClosed() && !closed && Undisturbed()
      modifies this, policy, text, jsonl
      ensures if closed then Failed(old(Counted()), old(startingUp), now) else Opened(old(Counted()), old(startingUp))
      ensures OnlySteps()
      ensures Touched(old(text.gens), text.gens) && Touched(old(jsonl.gens), jsonl.gens)
      ensures text.failures + jsonl.failures == old(text.failures + jsonl.failures) + if closed then 1 else 0
    {
      TouchIsStep(text.history, text.history, cfg, cfg.maxSize + longest);
      TouchIsStep(jsonl.history, jsonl.history, cfg, cfg.maxSize + longest);
      hide DiskSteps, Touched, Failed, Opened;
      if cfg.hasText {
        var size: Option<nat>;
        textOpen, size := OpenStream(text);
        if size == None {
          FailSink(now);
          return;
        }
        textSize := size.value;
      }
      OpenJsonl(now);
    }

    /** The first open: a sink that fails here is not retried. */
    method OpenAtStartup(now: int) returns (ok: bool)
      requires Valid() && !closed && !started && Undisturbed()
      modifies this, policy, text, jsonl
      ensures ok == !closed && OnlySteps() && Counted() == old(Counted())
      ensures text.failures + jsonl.failures == old(text.failures + jsonl.failures) + if closed then 1 else 0
      ensures if ok then Valid() && started else AllClosed() && TimerWork() == 0
    {
      startingUp := true;
      OpenFiles(now);
      startingUp := false;
      ok := !closed;
    }

    method AttemptReopen(now: int)
      requires InStep() && AllClosed() && closed && !startingUp && Undisturbed() && Counted().failures > 0
      modifies this, policy, text, jsonl
      ensures Valid() && OnlySteps() && !shuttingDown
      ensures text.failures + jsonl.failures == old(text.failures + jsonl.failures) + if closed then 1 else 0
      ensures closed ==> timerArmed && timerFired == 0
      ensures closed ==> Counted() == RateLimit.AfterFailure(old(Counted()), now).0
      ensures !closed ==> started && Counted() == RateLimit.AfterRecovery(old(Counted()), now).0
    {
      closed := false;
      OpenFiles(now);
      if closed {
        return;
      }
      var outage := policy.OnRecovered(now);
    }

    /** Shifts the text chain, then the JSONL chain; the first call that fails takes the sink out of service. */
    method ShiftChains(now: int)
      requires InStep() && AllClosed() && !closed && !startingUp && Undisturbed()
      modifies this, policy, text, jsonl
      ensures OnlySteps()
      ensures text.failures + jsonl.failures == old(text.failures + jsonl.failures) + if closed then 1 else 0
      ensures closed ==> Failed(old(Counted()), old(startingUp), now)
      ensures !closed ==> InStep() && AllClosed() && !startingUp && Undisturbed() && Counted() == old(Counted())
      ensures !closed && cfg.hasText ==> R.IsShifted(old(text.gens), text.gens, cfg.maxFiles)
      ensures !closed && cfg.hasJsonl ==> R.IsShifted(old(jsonl.gens), jsonl.gens, cfg.maxFiles)
    {
      TouchIsStep(text.history, text.history, cfg, cfg.maxSize + longest);
      TouchIsStep(jsonl.history, jsonl.history, cfg, cfg.maxSize + longest);
      if cfg.hasText {
        var ok := text.ShiftFiles(cfg.maxFiles);
        ShiftIsSteps(old(text.history), text.history, cfg, cfg.maxSize + longest);
        if !ok {
          FailSink(now);
          return;
        }
      }
      hide R.IsShifted;
      if cfg.hasJsonl {
        var ok := jsonl.ShiftFiles(cfg.maxFiles);
        ShiftIsSteps(old(jsonl.history), jsonl.history, cfg, cfg.maxSize + longest);
        if !ok {
          FailSink(now);
          return;
        }
      }
    }

    /** Closes, shifts both chains, and opens again. */
    method Rotate(now: int)
      requires InStep() && AllOpen() && !closed && !startingUp && Undisturbed()
      modifies this, policy, text, jsonl
      ensures if closed then Failed(old(Counted()), old(startingUp), now) else Opened(old(Counted()), old(startingUp))
      ensures OnlySteps()
      ensures text.failures + jsonl.failures == old(text.failures + jsonl.failures) + if closed then 1 else 0
      ensures !closed && cfg.hasText ==> Wrote(old(text.gens), text.gens, true, [], cfg.maxFiles)
      ensures !closed && cfg.hasJsonl ==> Wrote(old(jsonl.gens), jsonl.gens, true, [], cfg.maxFiles)
    {
      hide DiskSteps, Touched, Wrote, R.IsShifted, Failed;
      CloseFiles();
      ShiftChains(now);
      if closed {
        return;
      }
      label Shifted:
      OpenFiles(now);
      StepsJoin(old(text.history), old@Shifted(text.history), text.history, cfg, cfg.maxSize + longest);
      StepsJoin(old(jsonl.history), old@Shifted(jsonl.history), jsonl.history, cfg, cfg.maxSize + longest);
      if !closed {
        if cfg.hasText {
          ShiftedThenTouched(old(text.gens), old@Shifted(text.gens), text.gens, cfg.maxFiles);
        }
        if cfg.hasJsonl {
          ShiftedThenTouched(old(jsonl.gens), old@Shifted(jsonl.gens), jsonl.gens, cfg.maxFiles);
        }
      }
    }

    method RotateIfNeeded(now: int)
      requires InStep() && !startingUp
      requires closed ==> AllClosed()
      requires !closed ==> AllOpen() && Undisturbed()
      modifies this, policy, text, jsonl
      ensures OnlySteps()
      ensures text.failures + jsonl.failures
              == old(text.failures + jsonl.failures) + if closed && !old(closed) then 1 else 0
      ensures var due := Due(old(text.gens), old(textOpen), cfg.maxSize) || Due(old(jsonl.gens), old(jsonlOpen), cfg.maxSize);
              && (!due ==> unchanged(this, policy, text, jsonl))
              && (!closed && cfg.maxSize > 0 ==> textSize < cfg.maxSize && jsonlSize < cfg.maxSize)
              && (due ==>
                    && (if closed then Failed(old(Counted()), old(startingUp), now) else Opened(old(Counted()), old(startingUp)))
                    && (!closed && cfg.hasText ==> Wrote(old(text.gens), text.gens, true, [], cfg.maxFiles))
                    && (!closed && cfg.hasJsonl ==> Wrote(old(jsonl.gens), jsonl.gens, true, [], cfg.maxFiles)))
    {
      if cfg.maxSize == 0 {
        return;
      }
      if textSize >= cfg.maxSize || jsonlSize >= cfg.maxSize {
        Rotate(now);
        hide Wrote;
        if !closed && cfg.hasText {
          RotatedIsEmpty(old(text.gens), text.gens, cfg.maxFiles);
        }
        if !closed && cfg.hasJsonl {
          RotatedIsEmpty(old(jsonl.gens), jsonl.gens, cfg.maxFiles);
        }
      }
    }

    method WriteText(line: Bytes, now: int)
      requires Opened(Counted(), false) && textOpen && |line| <= longest
      requires cfg.maxSize > 0 ==> textSize < cfg.maxSize
      modifies this, policy, text
      ensures if closed then Failed(old(Counted()), false, now) else Opened(old(Counted()), false)
      ensures DiskSteps(old(text.history), text.history, cfg, cfg.maxSize + longest)
      ensures text.failures == old(text.failures) + if closed then 1 else 0
      ensures !closed ==> text.gens == old(text.gens)[0 := old(text.gens)[0] + line]
    {
      hide DiskSteps;
      var ok := text.Append(line);
      AppendedIsStep(old(text.history), text.history, line, cfg, longest);
      if !ok {
        FailSink(now);
        return;
      }
      textSize := textSize + |line|;
    }

    method WriteJsonl(line: Bytes, now: int)
      requires Opened(Counted(), false) && jsonlOpen && |line| <= longest
      requires cfg.maxSize > 0 ==> jsonlSize < cfg.maxSize
      modifies this, policy, jsonl
      ensures if closed then Failed(old(Counted()), false, now) else Opened(old(Counted()), false)
      ensures DiskSteps(old(jsonl.history), jsonl.history, cfg, cfg.maxSize + longest)
      ensures jsonl.failures == old(jsonl.failures) + if closed then 1 else 0
      ensures !closed ==> jsonl.gens == old(jsonl.gens)[0 := old(jsonl.gens)[0] + line]
    {
      hide DiskSteps;
      var ok := jsonl.Append(line);
      AppendedIsStep(old(jsonl.history), jsonl.history, line, cfg, longest);
      if !ok {
        FailSink(now);
        return;
      }
      jsonlSize := jsonlSize + |line|;
    }

    /** What the next message finds: the files opened if they were not, and rotated if one is full. */
    ghost predicate Prepared(was: RateLimit.Recovery, a: Generations, b: Generations)
      reads this, policy, text, jsonl
    {
      var rotated := Due(a, cfg.hasText, cfg.maxSize) || Due(b, cfg.hasJsonl, cfg.maxSize);
      && (cfg.hasText || cfg.hasJsonl ==> Opened(was, false))
      && (cfg.maxSize > 0 ==> textSize < cfg.maxSize && jsonlSize < cfg.maxSize)
      && (cfg.hasText ==> Wrote(AsOpened(a), text.gens, rotated, [], cfg.maxFiles))
      && (cfg.hasJsonl ==> Wrote(AsOpened(b), jsonl.gens, rotated, [], cfg.maxFiles))
    }

    /** Opens the files on the first message. */
    method OpenIfNeeded(now: int)
      requires Valid() && !closed
      modifies this, policy, text, jsonl
      ensures OnlySteps()
      ensures text.failures + jsonl.failures == old(text.failures + jsonl.failures) + if closed then 1 else 0
      ensures closed ==> Failed(old(Counted()), false, now)
      ensures !closed ==> Valid() && AllOpen() && Counted() == old(Counted())
      ensures !closed && (cfg.hasText || cfg.hasJsonl) ==> Opened(old(Counted()), false)
      ensures !closed && cfg.hasText ==> text.gens == AsOpened(old(text.gens))
      ensures !closed && cfg.hasJsonl ==> jsonl.gens == AsOpened(old(jsonl.gens))
    {
      TouchIsStep(text.history, text.history, cfg, cfg.maxSize + longest);
      TouchIsStep(jsonl.history, jsonl.history, cfg, cfg.maxSize + longest);
      if (cfg.hasText && !textOpen) || (cfg.hasJsonl && !jsonlOpen) {
        OpenFiles(now);
      }
    }

    /** Opens the files on the first message, and rotates when the last one filled a file. */
    method Prepare(now: int)
      requires Valid() && !closed
      modifies this, policy, text, jsonl
      ensures OnlySteps()
      ensures text.failures + jsonl.failures == old(text.failures + jsonl.failures) + if closed then 1 else 0
      ensures closed ==> Failed(old(Counted()), false, now)
      ensures !closed ==> Prepared(old(Counted()), old(text.gens), old(jsonl.gens))
      ensures !closed ==> Valid() && Counted() == old(Counted())
    {
      OpenIfNeeded(now);
      label Ready:
      hide DiskSteps, Wrote;
      DueAsOpened(old(text.gens), cfg.hasText, cfg.maxSize);
      DueAsOpened(old(jsonl.gens), cfg.hasJsonl, cfg.maxSize);
      WroteNothing(AsOpened(old(text.gens)), cfg.maxFiles);
      WroteNothing(AsOpened(old(jsonl.gens)), cfg.maxFiles);
      hide AsOpened, Due;
      RotateIfNeeded(now);
      StepsJoin(old(text.history), old@Ready(text.history), text.history, cfg, cfg.maxSize + longest);
      StepsJoin(old(jsonl.history), old@Ready(jsonl.history), jsonl.history, cfg, cfg.maxSize + longest);
    }

    /** One line to each stream that is open; a failure on the way takes the sink out of service. */
    method WriteLines(raw: Bytes, record: Bytes, now: int)
      requires Valid() && (!closed && (cfg.hasText || cfg.hasJsonl) ==> Opened(Counted(), false))
      requires !closed && cfg.maxSize > 0 ==> textSize < cfg.maxSize && jsonlSize < cfg.maxSize
      requires |TextEscape.Escaped(raw)| < longest && |record| < longest
      modifies this, policy, text, jsonl
      ensures Valid() && OnlySteps()
      ensures text.failures + jsonl.failures
              == old(text.failures + jsonl.failures) + if closed && !old(closed) then 1 else 0
      ensures old(closed) ==> unchanged(this, policy, text, jsonl)
      ensures closed && !old(closed) ==> Failed(old(Counted()), false, now)
      ensures !closed ==> Counted() == old(Counted())
      ensures !closed && cfg.hasText ==>
                0 in old(text.gens)
                && text.gens == old(text.gens)[0 := old(text.gens)[0] + (TextEscape.Escaped(raw) + [LF])]
      ensures !closed && cfg.hasJsonl ==>
                0 in old(jsonl.gens) && jsonl.gens == old(jsonl.gens)[0 := old(jsonl.gens)[0] + (record + [LF])]
    {
      hide DiskSteps, TextEscape.Escaped, RateLimit.AfterFailure, FailedOnce;
      TouchIsStep(text.history, text.history, cfg, cfg.maxSize + longest);
      TouchIsStep(jsonl.history, jsonl.history, cfg, cfg.maxSize + longest);
      if textOpen {
        var escaped := TextEscape.EscapeControlChars(raw);
        WriteText(escaped + [LF], now);
        if closed {
          return;
        }
      }
      if jsonlOpen {
        WriteJsonl(record + [LF], now);
      }
    }

    /**
     One message. Unless the sink is out of service or does not take the message, the files are opened
     and rotated as needed and then hold the message's line at their end; a failure anywhere on the way
     takes the sink out of service and counts once.
     */
    method DoWrite(raw: Bytes, record: Bytes, malformed: bool, now: int)
      requires Valid()
      requires |TextEscape.Escaped(raw)| < longest && |record| < longest
      modifies this, policy, text, jsonl
      ensures Valid() && OnlySteps()
      ensures text.failures + jsonl.failures
              == old(text.failures + jsonl.failures) + if closed && !old(closed) then 1 else 0
      ensures Stage() == AfterWrite(old(Stage()), !malformed || cfg.includeMalformed, !closed)
      ensures
        if old(closed) || (malformed && !cfg.includeMalformed) then unchanged(this, policy, text, jsonl)
        else if closed then Counted() == RateLimit.AfterFailure(old(Counted()), now).0
        else
          var rotated := Due(old(text.gens), cfg.hasText, cfg.maxSize) || Due(old(jsonl.gens), cfg.hasJsonl, cfg.maxSize);
          && Counted() == old(Counted())
          && (cfg.hasText ==>
                Wrote(AsOpened(old(text.gens)), text.gens, rotated, TextEscape.Escaped(raw) + [LF], cfg.maxFiles))
          && (cfg.hasJsonl ==>
                Wrote(AsOpened(old(jsonl.gens)), jsonl.gens, rotated, record + [LF], cfg.maxFiles))
      ensures
        !closed && (!malformed || cfg.includeMalformed) ==>
          var full := cfg.maxSize > 0
            && ((cfg.hasText && 0 in old(text.gens) && |old(text.gens)[0]| >= cfg.maxSize)
                || (cfg.hasJsonl && 0 in old(jsonl.gens) && |old(jsonl.gens)[0]| >= cfg.maxSize));
          var textLine, jsonlLine := TextEscape.Escaped(raw) + [LF], record + [LF];
          && (!full && cfg.hasText ==> text.gens == old(text.gens)[0 := Active(old(text.gens)) + textLine])
          && (!full && cfg.hasJsonl ==> jsonl.gens == old(jsonl.gens)[0 := Active(old(jsonl.gens)) + jsonlLine])
          && (full && cfg.hasText ==> MadeRoom(old(text.gens), text.gens, textLine, cfg.maxFiles))
          && (full && cfg.hasJsonl ==> MadeRoom(old(jsonl.gens), jsonl.gens, jsonlLine, cfg.maxFiles))
    {
      hide DiskSteps, Wrote, TextEscape.Escaped, RateLimit.AfterFailure, Due, AsOpened, MadeRoom, Active;
      TouchIsStep(text.history, text.history, cfg, cfg.maxSize + longest);
      TouchIsStep(jsonl.history, jsonl.history, cfg, cfg.maxSize + longest);
      if closed {
        return;
      }
      if malformed && !cfg.includeMalformed {
        return;
      }
      Prepare(now);
      label Ready:
      WriteLines(raw, record, now);
      StepsJoin(old(text.history), old@Ready(text.history), text.history, cfg, cfg.maxSize + longest);
      StepsJoin(old(jsonl.history), old@Ready(jsonl.history), jsonl.history, cfg, cfg.maxSize + longest);
      ghost var rotated := Due(old(text.gens), cfg.hasText, cfg.maxSize) || Due(old(jsonl.gens), cfg.hasJsonl, cfg.maxSize);
      DueMeans(old(text.gens), cfg.hasText, cfg.maxSize);
      DueMeans(old(jsonl.gens), cfg.hasJsonl, cfg.maxSize);
      if !closed && cfg.hasText {
        LineLaid(old(text.gens), old@Ready(text.gens), rotated, TextEscape.Escaped(raw) + [LF], cfg.maxFiles);
      }
      if !closed && cfg.hasJsonl {
        LineLaid(old(jsonl.gens), old@Ready(jsonl.gens), rotated, record + [LF], cfg.maxFiles);
      }
    }

    /** The posted part of close(): the retry is cancelled unless its handler is already queued. */
    method OnClose()
      requires Valid()
      modifies this
      ensures Valid() && AllClosed() && Stage() == AfterClose(old(Stage()))
      ensures closed && shuttingDown && !timerArmed
    {
      shuttingDown := true;
      closed := true;
      timerCancelled := timerCancelled + if timerArmed then 1 else 0;
      timerArmed := false;
      CloseFiles();
    }

    /** The retry interval passes and the handler is queued. */
    method TimerExpires()
      requires Valid() && timerArmed
      modifies this`timerArmed, this`timerFired
      ensures Valid() && Stage() == AfterExpiry(old(Stage()))
    {
      timerArmed := false;
      timerFired := timerFired + 1;
    }

    /** A queued handler of the timer runs: at shutdown it opens nothing, otherwise it is one try to reopen. */
    method OnRetryTimer(cancelled: bool, now: int)
      requires Valid() && if cancelled then timerCancelled > 0 else timerFired > 0
      modifies this, policy, text, jsonl
      ensures Valid() && OnlySteps() && Stage() == AfterRetry(old(Stage()), cancelled, !closed)
      ensures old(shuttingDown) ==> unchanged(text, jsonl) && AllClosed()
      ensures text.failures + jsonl.failures
              == old(text.failures + jsonl.failures) + if closed && !old(shuttingDown) then 1 else 0
      ensures !old(shuttingDown) ==>
                if closed then Counted() == RateLimit.AfterFailure(old(Counted()), now).0
                else started && Counted() == RateLimit.AfterRecovery(old(Counted()), now).0
    {
      TouchIsStep(text.history, text.history, cfg, cfg.maxSize + longest);
      TouchIsStep(jsonl.history, jsonl.history, cfg, cfg.maxSize + longest);
      hide DiskSteps;
      if cancelled {
        timerCancelled := timerCancelled - 1;
      } else {
        timerFired := timerFired - 1;
      }
      if cancelled || shuttingDown {
        return;
      }
      AttemptReopen(now);
    }
  }

  // ---- Every run of a sink ---------------------------------------------------------------

  /** What the io_context holds for a sink besides its timer: messages and shutdowns posted to it. */
  datatype State = State(life: Life, writes: nat, closes: nat)

  const STARTED := State(FRESH, 0, 0)

  datatype Event =
    | CallWrite                          // write() posts a message
    | CallClose                          // close() posts a shutdown
    | RunWrite(taken: bool, ok: bool)    // a message the sink takes or not, without a failure or with one
    | RunClose
    | TimerFires
    | RunRetry(cancelled: bool, ok: bool)

  predicate CanHappen(s: State, e: Event) {
    match e
    case CallWrite => true
    case CallClose => true
    case RunWrite(_, _) => s.writes > 0
    case RunClose => s.closes > 0
    case TimerFires => s.life.armed
    case RunRetry(cancelled, _) => (if cancelled then s.life.cancelled else s.life.fired) > 0
  }

  function Happen(s: State, e: Event): State
    requires CanHappen(s, e)
  {
    match e
    case CallWrite => s.(writes := s.writes + 1)
    case CallClose => s.(closes := s.closes + 1)
    case RunWrite(taken, ok) => State(AfterWrite(s.life, taken, ok), s.writes - 1, s.closes)
    case RunClose => State(AfterClose(s.life), s.writes, s.closes - 1)
    case TimerFires => s.(life := AfterExpiry(s.life))
    case RunRetry(cancelled, ok) => s.(life := AfterRetry(s.life, cancelled, ok))
  }

  ghost predicate IsRun(s: State, events: seq<Event>)
    decreases |events|
  {
    events != [] ==> CanHappen(s, events[0]) && IsRun(Happen(s, events[0]), events[1..])
  }

  ghost function After(s: State, events: seq<Event>): State
    requires IsRun(s, events)
    decreases |events|
  {
    if events == [] then s else After(Happen(s, events[0]), events[1..])
  }

  lemma {:induction false} EventKeepsInv(s: State, e: Event)
    requires LifeInv(s.life) && CanHappen(s, e)
    ensures LifeInv(Happen(s, e).life) && (s.life.shuttingDown ==> Happen(s, e).life.shuttingDown)
  {}

  lemma {:induction false} RunKeepsInv(s: State, events: seq<Event>)
    requires LifeInv(s.life) && IsRun(s, events)
    ensures LifeInv(After(s, events).life) && (s.life.shuttingDown ==> After(s, events).life.shuttingDown)
    decreases |events|
  {
    hide LifeInv, Happen, CanHappen;
    if events != [] {
      EventKeepsInv(s, events[0]);
      RunKeepsInv(Happen(s, events[0]), events[1..]);
    }
  }

  /**
   Every run of a started sink, with any writes and retries failing: until close() has run, the sink is
   out of service exactly while an outage is counted and one retry is armed or queued; from then on it
   stays out of service, and no retry is armed.
   */
  lemma {:induction false} EveryRun(events: seq<Event>)
    requires IsRun(STARTED, events)
    ensures var l := After(STARTED, events).life;
            && (!l.shuttingDown ==>
                  && (l.closed <==> l.failures > 0) && l.cancelled == 0
                  && (if l.armed then 1 else 0) + l.fired == (if l.closed then 1 else 0))
            && (l.shuttingDown ==> l.closed && !l.armed && l.fired + l.cancelled <= 1)
  {
    hide After, IsRun, Happen, CanHappen;
    RunKeepsInv(STARTED, events);
  }

  function Times(events: seq<Event>, f: Event -> bool): nat {
    if events == [] then 0 else (if f(events[0]) then 1 else 0) + Times(events[1..], f)
  }

  /** Every call of write() and of close() queues one handler, which runs once. */
  lemma {:induction false} CallsRunOnce(s: State, events: seq<Event>)
    requires IsRun(s, events)
    ensures After(s, events).writes + Times(events, (e: Event) => e.RunWrite?)
         == s.writes + Times(events, (e: Event) => e.CallWrite?)
    ensures After(s, events).closes + Times(events, (e: Event) => e.RunClose?)
         == s.closes + Times(events, (e: Event) => e.CallClose?)
    decreases |events|
  {
    if events != [] {
      CallsRunOnce(Happen(s, events[0]), events[1..]);
    }
  }

  /** Handlers still to run after a shutdown. */
  function Work(s: State): nat {
    (if s.life.armed then 2 else 0) + s.life.fired + s.life.cancelled + s.writes + s.closes
  }

  lemma {:induction false} StoppedWorkShrinks(s: State, e: Event)
    requires LifeInv(s.life) && s.life.shuttingDown && CanHappen(s, e) && !e.CallWrite? && !e.CallClose?
    ensures Work(Happen(s, e)) < Work(s)
  {}

  /** After close() has run, what is queued runs out in any order, and the sink stays closed all the way. */
  lemma {:induction false} ShutdownEnds(s: State, events: seq<Event>)
    requires LifeInv(s.life) && s.life.shuttingDown && IsRun(s, events)
    requires forall i | 0 <= i < |events| :: !events[i].CallWrite? && !events[i].CallClose?
    ensures |events| + Work(After(s, events)) <= Work(s)
    ensures After(s, events).life.closed && !After(s, events).life.armed
    decreases |events|
  {
    ShutMeansClosed(s.life);
    hide LifeInv, Happen, CanHappen, Work;
    if events != [] {
      EventKeepsInv(s, events[0]);
      StoppedWorkShrinks(s, events[0]);
      ShutdownEnds(Happen(s, events[0]), events[1..]);
    }
  }

  lemma {:induction false} ShutMeansClosed(l: Life)
    requires LifeInv(l) && l.shuttingDown
    ensures l.closed && !l.armed
  {}

  /** No work left means no handler is queued and no timer armed; while some is left, something can happen. */
  lemma {:induction false} WorkIsOutstanding(s: State)
    requires LifeInv(s.life) && s.life.shuttingDown
    ensures Work(s) == 0 <==> s.life.fired + s.life.cancelled + s.writes + s.closes == 0
    ensures Work(s) > 0 ==> exists e: Event :: CanHappen(s, e) && !e.CallWrite? && !e.CallClose?
  {
    if s.writes > 0 {
      assert CanHappen(s, RunWrite(true, true));
    } else if s.closes > 0 {
      assert CanHappen(s, RunClose);
    } else if s.life.fired > 0 {
      assert CanHappen(s, RunRetry(false, true));
    } else if s.life.cancelled > 0 {
      assert CanHappen(s, RunRetry(true, true));
    }
  }

  // ---- How much a chain can hold ---------------------------------------------------------

  /** No generation up to maxFiles has reached the limit, and those above are as in `base`. */
  ghost predicate Within(a: Generations, base: Generations, maxFiles: nat, limit: nat) {
    && (forall k: nat | k <= maxFiles && k in a :: |a[k]| < limit)
    && (forall k: nat | k > maxFiles :: R.Get(a, k) == R.Get(base, k))
  }

  lemma {:induction false} RotationStaysSmall(a: Generations, b: Generations, base: Generations, maxFiles: nat, limit: nat)
    requires R.RotationStep(a, b, maxFiles) && Within(a, base, maxFiles, limit)
    ensures Within(b, base, maxFiles, limit)
  {
    R.StepStaysWithin(a, b, maxFiles);
    if !(maxFiles in a && b == a - {maxFiles}) {
      var n: nat :| n < maxFiles && n in a && n + 1 !in a && b == R.Renamed(a, n, n + 1);
      assert forall k: nat | k in b :: b[k] == if k == n + 1 then a[n] else a[k];
    }
  }

  lemma {:induction false} StepStaysSmall(a: Generations, b: Generations, base: Generations, cfg: Config, limit: nat)
    requires cfg.maxSize > 0 && DiskStep(a, b, cfg, limit) && Within(a, base, cfg.maxFiles, limit)
    ensures Within(b, base, cfg.maxFiles, limit)
  {
    if R.RotationStep(a, b, cfg.maxFiles) {
      hide R.RotationStep, Within;
      RotationStaysSmall(a, b, base, cfg.maxFiles, limit);
    } else {
      hide R.RotationStep;
      var x: Bytes :| R.AppendStep(a, b, x) && |b[0]| < limit;
      assert forall k: nat | k > 0 :: R.Get(b, k) == R.Get(a, k);
      forall k: nat | k <= cfg.maxFiles && k in b ensures |b[k]| < limit {
        assert k == 0 || (k in a && b[k] == a[k]);
      }
    }
  }

  /**
   Retention: whatever the sink does, failures and retries included, no file reaches maxSize plus one
   line, no generation above maxFiles appears, and so the chain stays below (maxFiles + 1) times that.
   */
  lemma {:induction false} RetentionBound(before: seq<Generations>, after: seq<Generations>, cfg: Config, limit: nat)
    requires DiskSteps(before, after, cfg, limit) && before != []
    requires limit >= cfg.maxSize > 0 && cfg.maxFiles >= 1
    requires Within(before[|before| - 1], before[|before| - 1], cfg.maxFiles, limit)
    ensures forall i | |before| - 1 <= i < |after| ::
              Within(after[i], before[|before| - 1], cfg.maxFiles, limit)
              && ChainOf(after[i], cfg.maxFiles).total < (cfg.maxFiles + 1) * limit
  {
    var base := before[|before| - 1];
    forall i | |before| - 1 <= i < |after|
      ensures Within(after[i], base, cfg.maxFiles, limit) && ChainOf(after[i], cfg.maxFiles).total < (cfg.maxFiles + 1) * limit
    {
      StaysWithin(before, after, i, cfg, limit);
      hide Within, DiskStep, DiskSteps, ChainOf;
      SmallFilesSmallChain(after[i], base, cfg.maxFiles, limit);
    }
  }

  lemma {:induction false} StaysWithin(before: seq<Generations>, after: seq<Generations>, i: nat, cfg: Config, limit: nat)
    requires DiskSteps(before, after, cfg, limit) && before != [] && |before| - 1 <= i < |after|
    requires limit >= cfg.maxSize > 0 && cfg.maxFiles >= 1
    requires Within(before[|before| - 1], before[|before| - 1], cfg.maxFiles, limit)
    ensures Within(after[i], before[|before| - 1], cfg.maxFiles, limit)
    decreases i
  {
    hide Within, DiskStep;
    if i >= |before| {
      StaysWithin(before, after, i - 1, cfg, limit);
      assert DiskStep(after[i - 1], after[i], cfg, limit);
      StepStaysSmall(after[i - 1], after[i], before[|before| - 1], cfg, limit);
    } else {
      assert after[i] == before[i];
    }
  }

  lemma {:induction false} SmallFilesSmallChain(a: Generations, base: Generations, m: nat, limit: nat)
    requires Within(a, base, m, limit) && limit > 0
    ensures ChainOf(a, m).total < (m + 1) * limit
  {
    PresentSmall(a, m, 0, limit);
  }

  lemma {:induction false} PresentSmall(a: Generations, m: nat, k: nat, limit: nat)
    requires limit > 0 && forall j: nat | j <= m && j in a :: |a[j]| < limit
    requires k <= m
    ensures |Flatten(Present(a, m, k))| < (m + 1 - k) * limit
    decreases m - k
  {
    hide Flatten;
    var p := if k in a && a[k] != [] then [a[k]] else [];
    FlattenOne(a, k);
    if k == m {
      assert Present(a, m, k + 1) == [];
      assert Present(a, m, k) == p;
    } else {
      PresentSmall(a, m, k + 1, limit);
      assert Present(a, m, k) == Present(a, m, k + 1) + p;
      hide Present;
      FlattenAppend(Present(a, m, k + 1), p);
      OneMore(m - k, limit);
    }
  }

  lemma {:induction false} OneMore(n: nat, limit: nat)
    ensures (n + 1) * limit == n * limit + limit
  {}

  lemma {:induction false} FlattenOne(a: Generations, k: nat)
    ensures Flatten(if k in a && a[k] != [] then [a[k]] else []) == if k in a then a[k] else []
  {}

  lemma {:induction false} FlattenAppend(a: seq<Bytes>, b: seq<Bytes>)
    ensures Flatten(a + b) == Flatten(a) + Flatten(b)
  {
    if a == [] {
      assert a + b == b;
    } else {
      assert (a + b)[1..] == a[1..] + b;
      var head := a[0];
      assert Flatten(a) == head + Flatten(a[1..]);
      assert Flatten(a + b) == head + Flatten(a[1..] + b);
      FlattenAppend(a[1..], b);
      Assoc(head, Flatten(a[1..]), Flatten(b));
    }
  }
}
