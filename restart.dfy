/**
 * The conditional restart: which file add_conditional_restart ends up watching, and
 * when the check that cond_restart runs on every filesystem event asks for a restart.
 */
module Restart {
  import opened Outcomes
  import opened Paths

  /** Why a restart is requested: the caller's reason, or a stat of the watched file that failed. */
  datatype RestartReason = Requested(reason: string) | CheckFailed(file: string)

  /** Walking up with dirname from `p` meets an existing path (otherwise the walk never ends). */
  ghost predicate ReachesExisting(existing: set<string>, p: string)
    decreases |p|
  {
    p in existing || (Dirname(p) != p && (DirnameShortens(p); ReachesExisting(existing, Dirname(p))))
  }

  /** The first existing path met walking up from `p` with dirname. */
  ghost function NearestExisting(existing: set<string>, p: string): string
    requires ReachesExisting(existing, p)
    decreases |p|
  {
    if p in existing then p
    else
      DirnameShortens(p);
      NearestExisting(existing, Dirname(p))
  }

  /** `p` after `k` applications of dirname. */
  function DirnameIterate(p: string, k: nat): string
    decreases k
  {
    if k == 0 then p else DirnameIterate(Dirname(p), k - 1)
  }

  lemma {:induction false} DirnameIterateIsPrefix(p: string, k: nat)
    ensures DirnameIterate(p, k) <= p
    decreases k
  {
    if k > 0 {
      DirnameIterateIsPrefix(Dirname(p), k - 1);
    }
  }

  /**
   * The watched file is an existing ancestor-or-self of `p`, reached by the dirname
   * walk, and no existing path on that walk is deeper than it.
   */
  lemma {:induction false} NearestExistingIsNearest(existing: set<string>, p: string, k: nat)
    requires ReachesExisting(existing, p)
    ensures NearestExisting(existing, p) in existing
    ensures NearestExisting(existing, p) <= p
    ensures exists steps: nat :: DirnameIterate(p, steps) == NearestExisting(existing, p)
    ensures DirnameIterate(p, k) in existing ==> DirnameIterate(p, k) <= NearestExisting(existing, p)
    decreases |p|
  {
    if p in existing {
      assert DirnameIterate(p, 0) == p;
      DirnameIterateIsPrefix(p, k);
    } else {
      DirnameShortens(p);
      var parent := Dirname(p);
      NearestExistingIsNearest(existing, parent, if k == 0 then 0 else k - 1);
      var steps: nat :| DirnameIterate(parent, steps) == NearestExisting(existing, parent);
      assert DirnameIterate(p, steps + 1) == NearestExisting(existing, p);
    }
  }

  /**
   * cond_restart, with a failed stat handled as the code evidently means to: as a
   * reason to restart. CondRestartAsWritten is the handler as it stands.
   */
  function CondRestart(mtime: map<string, int>, file: string, baseline: int, reason: string)
    : (r: Option<RestartReason>)
    ensures r.None? <==> file in mtime && mtime[file] == baseline
    ensures file !in mtime ==> r == Some(CheckFailed(file))
    ensures file in mtime && mtime[file] != baseline ==> r == Some(Requested(reason))
  {
    if file !in mtime then Some(CheckFailed(file))
    else if mtime[file] != baseline then Some(Requested(reason))
    else None
  }

  /** What one run of the check does when the exception it raises is part of the outcome. */
  datatype CheckResult = Unchanged | Restarts(why: RestartReason) | Raises(error: Error)

  /**
   * cond_restart as written: it catches IOError and RuntimeError, but os.stat of a
   * missing file raises OSError (a different class in Python 2), which escapes.
   */
  function CondRestartAsWritten(mtime: map<string, int>, file: string, baseline: int, reason: string)
    : (r: CheckResult)
    ensures r.Raises? <==> file !in mtime
    ensures r.Restarts? <==> file in mtime && mtime[file] != baseline
  {
    if file !in mtime then Raises(StatFailed(file))
    else if mtime[file] != baseline then Restarts(Requested(reason))
    else Unchanged
  }

  /** The discrepancy: once the watched file is deleted, the code as written raises instead of restarting. */
  lemma DeletedFileRaisesAsWritten(mtime: map<string, int>, file: string, baseline: int, reason: string)
    requires file !in mtime
    ensures CondRestartAsWritten(mtime, file, baseline, reason) == Raises(StatFailed(file))
    ensures CondRestart(mtime, file, baseline, reason) == Some(CheckFailed(file))
  {
  }

  /** Where stat succeeds, the two agree. */
  lemma CondRestartAgreesWhenStatSucceeds(mtime: map<string, int>, file: string, baseline: int, reason: string)
    requires file in mtime
    ensures CondRestartAsWritten(mtime, file, baseline, reason)
      == match CondRestart(mtime, file, baseline, reason)
         case None => Unchanged
         case Some(why) => Restarts(why)
  {
  }
}
