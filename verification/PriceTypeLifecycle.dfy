/** The price-type life cycle: a table of stages and transition rules, read as a state machine. */
module PriceTypeLifecycle {

  datatype Stage =
    | NewSnapshot
    | PrecloseSignal
    | RetentionWork
    | Isolate1m
    | RecoveryControl
    | QualityCheck
    | CreditCheck
    | DataCheck
    | ManualUpgradeApproval
    | ManualDowngradeApproval
    | ReadyFor1c
    | ClosedKeepCurrent
    | ClosedChanged
  {
    predicate Closed() { ClosedKeepCurrent? || ClosedChanged? }
  }

  /** TRANSITION_RULES, a constructor per row; the comment is the gist of its condition. */
  datatype Rule =
    | SourceNotClean // source_status != ready, duplicate or conflict
    | PrecloseRisk // preclose_risk_flag == yes
    | BelowNormHolding // below the retention norm, last month holds
    | BelowNormFailing // below the retention norm, last month fails
    | SleepingClient // three empty months, recovery month with terms kept
    | ProtectedHistory // comeback, historical b2b or rehab economics
    | QualityRisk // return quality D or E, or a quality dispute
    | CreditRisk // credit discipline D or E, or over the limit
    | UpgradeCandidate // upgrade, no stop factors
    | NothingToDo // no action required, no stop factors
    | MonthClosed // retention scenario confirmed
    | RecoveredBeforeClose // client recovered before month close
    | Retained // threshold reached or client retained
    | RetentionFailed // last month below the hold threshold
    | RecoveredInIsolation // client recovered or valid drop reason
    | IsolationOver // no recovery, manager action log full
    | ProtectiveFactor // history, economics or comeback
    | ClientProtected // keeps the current price type
    | DropConfirmed // protective scenario exhausted
    | QualityBlock // price type must not change
    | QualityResolved // upgrade candidate valid again
    | CreditBlock // price type must not change
    | CreditStopRemoved // upgrade allowed again
    | DataCleaned // requalification allowed
    | UpgradeApproved // approval_status == approved
    | UpgradeRejected // approval_status == rejected
    | DowngradeApproved // approval_status == approved
    | DowngradeRejected // approval_status == rejected
    | ExportConfirmed // export to 1C confirmed
  {
    function From(): Stage {
      match this
      case SourceNotClean => NewSnapshot
      case PrecloseRisk => NewSnapshot
      case BelowNormHolding => NewSnapshot
      case BelowNormFailing => NewSnapshot
      case SleepingClient => NewSnapshot
      case ProtectedHistory => NewSnapshot
      case QualityRisk => NewSnapshot
      case CreditRisk => NewSnapshot
      case UpgradeCandidate => NewSnapshot
      case NothingToDo => NewSnapshot
      case MonthClosed => PrecloseSignal
      case RecoveredBeforeClose => PrecloseSignal
      case Retained => RetentionWork
      case RetentionFailed => RetentionWork
      case RecoveredInIsolation => Isolate1m
      case IsolationOver => Isolate1m
      case ProtectiveFactor => Isolate1m
      case ClientProtected => RecoveryControl
      case DropConfirmed => RecoveryControl
      case QualityBlock => QualityCheck
      case QualityResolved => QualityCheck
      case CreditBlock => CreditCheck
      case CreditStopRemoved => CreditCheck
      case DataCleaned => DataCheck
      case UpgradeApproved => ManualUpgradeApproval
      case UpgradeRejected => ManualUpgradeApproval
      case DowngradeApproved => ManualDowngradeApproval
      case DowngradeRejected => ManualDowngradeApproval
      case ExportConfirmed => ReadyFor1c
    }

    function To(): Stage {
      match this
      case SourceNotClean => DataCheck
      case PrecloseRisk => PrecloseSignal
      case BelowNormHolding => RetentionWork
      case BelowNormFailing => Isolate1m
      case SleepingClient => Isolate1m
      case ProtectedHistory => RecoveryControl
      case QualityRisk => QualityCheck
      case CreditRisk => CreditCheck
      case UpgradeCandidate => ManualUpgradeApproval
      case NothingToDo => ClosedKeepCurrent
      case MonthClosed => RetentionWork
      case RecoveredBeforeClose => ClosedKeepCurrent
      case Retained => ClosedKeepCurrent
      case RetentionFailed => Isolate1m
      case RecoveredInIsolation => ClosedKeepCurrent
      case IsolationOver => ManualDowngradeApproval
      case ProtectiveFactor => RecoveryControl
      case ClientProtected => ClosedKeepCurrent
      case DropConfirmed => ManualDowngradeApproval
      case QualityBlock => ClosedKeepCurrent
      case QualityResolved => ManualUpgradeApproval
      case CreditBlock => ClosedKeepCurrent
      case CreditStopRemoved => ManualUpgradeApproval
      case DataCleaned => NewSnapshot
      case UpgradeApproved => ReadyFor1c
      case UpgradeRejected => ClosedKeepCurrent
      case DowngradeApproved => ReadyFor1c
      case DowngradeRejected => ClosedKeepCurrent
      case ExportConfirmed => ClosedChanged
    }

    predicate IsApproval() { UpgradeApproved? || DowngradeApproved? }

    /** The freeze is a stop factor, and of the rules that lead to an upgrade this one alone asks for none. */
    predicate ObeysFreeze() { !UpgradeCandidate? }

    /** The other two look at the check that was open, and not at stop factors. */
    predicate Reopens() { QualityResolved? || CreditStopRemoved? }
  }

  // ---------- runs ----------

  /** Rules taken one after the other. */
  predicate IsRun(run: seq<Rule>) {
    forall k: nat | k < |run| - 1 :: Joins(run, k)
  }

  predicate Joins(run: seq<Rule>, k: nat)
    requires k < |run| - 1
  {
    run[k].To() == run[k + 1].From()
  }

  predicate RunFromTo(run: seq<Rule>, from: Stage, to: Stage) {
    |run| > 0 && IsRun(run) && run[0].From() == from && run[|run| - 1].To() == to
  }

  function Detours(run: seq<Rule>): nat {
    if run == [] then 0 else Detours(run[..|run| - 1]) + (if run[|run| - 1].To() == DataCheck then 1 else 0)
  }

  /** The longest way from a stage to the end, one higher for the detour. */
  function Height(s: Stage): nat {
    match s
    case DataCheck => 8
    case NewSnapshot => 7
    case PrecloseSignal => 6
    case RetentionWork => 5
    case Isolate1m => 4
    case RecoveryControl => 3
    case QualityCheck => 3
    case CreditCheck => 3
    case ManualUpgradeApproval => 2
    case ManualDowngradeApproval => 2
    case ReadyFor1c => 1
    case ClosedKeepCurrent => 0
    case ClosedChanged => 0
  }

  /** What the table says about single rules. */
  lemma TableFacts(r: Rule)
    ensures !r.From().Closed()
    ensures r.To() == ClosedChanged ==> r.From() == ReadyFor1c
    ensures r.To() == ReadyFor1c <==> r.IsApproval()
    ensures r.IsApproval() ==> r.From() in {ManualUpgradeApproval, ManualDowngradeApproval}
    ensures r.To() == ManualDowngradeApproval ==> r.From() in {Isolate1m, RecoveryControl}
    ensures r.To() == DataCheck ==> r.From() == NewSnapshot
    ensures if r.To() == DataCheck then Height(r.To()) == Height(r.From()) + 1 else Height(r.To()) < Height(r.From())
  {
  }

  /** Closed stages are absorbing: in a run only the last step can close. */
  lemma ClosedIsAbsorbing(run: seq<Rule>, k: nat)
    requires IsRun(run) && k < |run| && run[k].To().Closed()
    ensures k == |run| - 1
  {
    if k < |run| - 1 {
      assert Joins(run, k);
      TableFacts(run[k + 1]);
    }
  }

  /** Every change was approved: the last two steps are an approval and the export. */
  lemma ChangeWasApproved(run: seq<Rule>)
    requires RunFromTo(run, NewSnapshot, ClosedChanged)
    ensures |run| >= 2 && run[|run| - 2].IsApproval() && run[|run| - 2].To() == ReadyFor1c
    ensures run[|run| - 2].From() in {ManualUpgradeApproval, ManualDowngradeApproval}
  {
    var n := |run|;
    TableFacts(run[n - 1]);
    assert Joins(run, n - 2);
    TableFacts(run[n - 2]);
  }

  /** A run that reaches the downgrade approval came straight from isolation or recovery control. */
  lemma DowngradeWasIsolated(run: seq<Rule>, k: nat)
    requires IsRun(run) && k < |run| && run[0].From() == NewSnapshot && run[k].To() == ManualDowngradeApproval
    ensures k > 0 && run[k - 1].To() in {Isolate1m, RecoveryControl}
  {
    TableFacts(run[k]);
    if k > 0 {
      assert Joins(run, k - 1);
    }
  }

  /** No step of a run asks for an upgrade while upgrades are frozen. */
  predicate Frozen(run: seq<Rule>) {
    forall k | 0 <= k < |run| :: run[k].ObeysFreeze()
  }

  /** A reopened upgrade goes on to its approval and the export, if the run changes the price type at all. */
  lemma {:induction false} ReopenedIsUpgraded(run: seq<Rule>, k: nat)
    requires RunFromTo(run, NewSnapshot, ClosedChanged) && k < |run| && run[k].Reopens()
    ensures k == |run| - 3 && run[|run| - 2] == UpgradeApproved
  {
    var n := |run|;
    assert k < n - 1;
    assert Joins(run, k);
    assert run[k + 1] in {UpgradeApproved, UpgradeRejected};
    if run[k + 1].To().Closed() {
      ClosedIsAbsorbing(run, k + 1);
    }
    assert Joins(run, k + 1);
    ClosedIsAbsorbing(run, k + 2);
  }

  /** The freeze holds exactly as far as the checks let it: a changed price type is an approved downgrade if and
      only if neither check was resolved on the way, and an approved upgrade otherwise. */
  lemma {:induction false} FreezeHoldsIff(run: seq<Rule>)
    requires RunFromTo(run, NewSnapshot, ClosedChanged) && Frozen(run)
    ensures |run| >= 3 && run[|run| - 2] in {UpgradeApproved, DowngradeApproved}
    ensures run[|run| - 2] == DowngradeApproved <==> forall k | 0 <= k < |run| :: !run[k].Reopens()
  {
    var n := |run|;
    ChangeWasApproved(run);
    assert Joins(run, n - 3);
    assert run[n - 3].To() == run[n - 2].From();
    if k :| 0 <= k < n && run[k].Reopens() {
      ReopenedIsUpgraded(run, k);
    }
  }

  /** Then the downgrade was prepared by isolation or recovery. */
  lemma {:induction false} FrozenChangesAreDowngrades(run: seq<Rule>)
    requires RunFromTo(run, NewSnapshot, ClosedChanged) && Frozen(run)
    requires forall k | 0 <= k < |run| :: !run[k].Reopens()
    ensures |run| >= 4 && run[|run| - 2] == DowngradeApproved && run[|run| - 3].From() in {Isolate1m, RecoveryControl}
  {
    var n := |run|;
    FreezeHoldsIff(run);
    assert Joins(run, n - 3);
    assert run[n - 3].To() == run[n - 2].From();
    DowngradeWasIsolated(run, n - 3);
  }

  /** Past the freeze in four steps. */
  const THAW: seq<Rule> := [QualityRisk, QualityResolved, UpgradeApproved, ExportConfirmed]

  lemma {:induction false} QualityCheckThaws()
    ensures RunFromTo(THAW, NewSnapshot, ClosedChanged) && Frozen(THAW) && THAW[|THAW| - 2] == UpgradeApproved
  {
    forall k: nat | k < |THAW| - 1 ensures Joins(THAW, k) {
    }
  }

  lemma {:induction false} HeightBounds(run: seq<Rule>)
    requires run != [] && IsRun(run)
    ensures |run| + Height(run[|run| - 1].To()) <= 2 * Detours(run) + Height(run[0].From())
  {
    var front, last := run[..|run| - 1], run[|run| - 1];
    TableFacts(last);
    if front != [] {
      forall k: nat | k < |front| - 1 ensures Joins(front, k) {
        assert Joins(run, k);
      }
      HeightBounds(front);
      assert Joins(run, |run| - 2);
    } else {
      assert Detours(front) == 0;
    }
  }

  /** With `k` detours through the data check a run has at most 2k + 7 steps. */
  lemma {:induction false} RunsAreShort(run: seq<Rule>)
    requires IsRun(run) && run != [] && run[0].From() == NewSnapshot && run[|run| - 1].To().Closed()
    ensures |run| <= 2 * Detours(run) + 7
  {
    HeightBounds(run);
  }

  // ---------- the bound is met, and no run is stuck ----------

  /** A way of seven steps, past every stage that can lie on one. */
  const LONGEST: seq<Rule> :=
    [PrecloseRisk, MonthClosed, RetentionFailed, ProtectiveFactor, DropConfirmed, DowngradeApproved, ExportConfirmed]

  const LOOP: seq<Rule> := [SourceNotClean, DataCleaned]

  function WithDetours(k: nat): seq<Rule> {
    if k == 0 then LONGEST else LOOP + WithDetours(k - 1)
  }

  lemma LongestRuns()
    ensures RunFromTo(LONGEST, NewSnapshot, ClosedChanged) && Detours(LONGEST) == 0
  {
    forall k: nat | k < |LONGEST| - 1 ensures Joins(LONGEST, k) {
    }
    NoDetours(LONGEST);
  }

  lemma {:induction false} NoDetours(run: seq<Rule>)
    requires forall k | 0 <= k < |run| :: run[k].To() != DataCheck
    ensures Detours(run) == 0
  {
    if run == [] {
    } else {
      NoDetours(run[..|run| - 1]);
    }
  }

  lemma {:induction false} DetoursConcat(a: seq<Rule>, b: seq<Rule>)
    ensures Detours(a + b) == Detours(a) + Detours(b)
  {
    if b == [] {
      assert a + b == a;
    } else {
      DetoursConcat(a, b[..|b| - 1]);
      assert (a + b)[..|a + b| - 1] == a + b[..|b| - 1];
    }
  }

  lemma {:induction false} RunsJoin(a: seq<Rule>, b: seq<Rule>)
    requires a != [] && b != [] && IsRun(a) && IsRun(b) && a[|a| - 1].To() == b[0].From()
    ensures IsRun(a + b)
  {
    var run := a + b;
    forall n: nat | n < |run| - 1 ensures Joins(run, n) {
      if n < |a| - 1 {
        assert Joins(a, n);
      } else if n >= |a| {
        assert Joins(b, n - |a|);
      }
    }
  }

  lemma LoopIsDetour()
    ensures IsRun(LOOP) && Detours(LOOP) == 1 && LOOP[0].From() == NewSnapshot == LOOP[1].To()
  {
    var first, second := LOOP[0], LOOP[1];
    assert Joins(LOOP, 0);
    NoDetours([second]);
    DetoursConcat([first], [second]);
    assert LOOP == [first] + [second];
    assert Detours([first]) == Detours([first][..0]) + 1;
  }

  /** For every number of detours some run has exactly 2k + 7 steps. */
  lemma {:induction false} BoundIsMet(k: nat)
    ensures RunFromTo(WithDetours(k), NewSnapshot, ClosedChanged)
    ensures Detours(WithDetours(k)) == k && |WithDetours(k)| == 2 * k + 7
  {
    if k == 0 {
      LongestRuns();
    } else {
      BoundIsMet(k - 1);
      LoopIsDetour();
      DetoursConcat(LOOP, WithDetours(k - 1));
      RunsJoin(LOOP, WithDetours(k - 1));
    }
  }

  /** A way out of every stage: from each one that is not closed some run of at most two steps closes. */
  lemma NobodyIsStuck(s: Stage) returns (run: seq<Rule>)
    requires !s.Closed()
    ensures 0 < |run| <= 2 && IsRun(run) && run[0].From() == s && run[|run| - 1].To().Closed()
  {
    match s
    case NewSnapshot => run := [NothingToDo];
    case PrecloseSignal => run := [RecoveredBeforeClose];
    case RetentionWork => run := [Retained];
    case Isolate1m => run := [RecoveredInIsolation];
    case RecoveryControl => run := [ClientProtected];
    case QualityCheck => run := [QualityBlock];
    case CreditCheck => run := [CreditBlock];
    case DataCheck => run := [DataCleaned, NothingToDo];
    case ManualUpgradeApproval => run := [UpgradeRejected];
    case ManualDowngradeApproval => run := [DowngradeRejected];
    case ReadyFor1c => run := [ExportConfirmed];
  }
}
