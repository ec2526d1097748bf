/** The epochs the mock server gives its hub (`epochFor`, frontend/mock/server.ts): never the same twice. */
module Epochs {
  import opened Common
  import opened Splitting
  import Decimal
  import opened Scheduler
  import opened Hub
  import opened HubInvariants
  import opened HubRuns

  /** The clock and the seed in base 36, and how often the server has restarted. */
  function EpochFor(now36: string, seed36: string, restarts: nat): string {
    now36 + "-" + seed36 + "-" + Decimal.Print(restarts)
  }

  /** Whatever the clock says, even the same thing twice, another restart is another epoch. */
  lemma EpochsDiffer(now36: string, later36: string, seed36: string, m: nat, n: nat)
    requires m != n
    ensures EpochFor(now36, seed36, m) != EpochFor(later36, seed36, n)
  {
    NoDash(m);
    NoDash(n);
    SplitLastAt(now36 + "-" + seed36, Decimal.Print(m), '-');
    SplitLastAt(later36 + "-" + seed36, Decimal.Print(n), '-');
    if Decimal.Print(m) == Decimal.Print(n) {
      Decimal.PrintInjective(m, n);
    }
  }

  lemma NoDash(n: nat)
    ensures '-' !in Decimal.Print(n)
  {
    assert forall c | c in Decimal.Print(n) :: Decimal.IsDigit(c);
  }

  ghost predicate IsEpoch(seed36: string, restarts: nat, epoch: string) {
    exists now36 :: epoch == EpochFor(now36, seed36, restarts)
  }

  lemma IsEpochUnique(seed36: string, m: nat, n: nat, e: string, f: string)
    requires IsEpoch(seed36, m, e) && IsEpoch(seed36, n, f) && m != n
    ensures e != f
  {
    hide EpochFor;
    var now36 :| e == EpochFor(now36, seed36, m);
    var later36 :| f == EpochFor(later36, seed36, n);
    EpochsDiffer(now36, later36, seed36, m, n);
  }

  /** The steps of a server run: each restart is given the epoch of its own number. */
  ghost predicate ServerSteps(seed36: string, restarts: nat, steps: seq<Step>)
    decreases |steps|
  {
    if steps == [] then true
    else if steps[0].Do? && steps[0].call.Restarts? then
      && IsEpoch(seed36, restarts + 1, steps[0].call.epoch)
      && ServerSteps(seed36, restarts + 1, steps[1..])
    else ServerSteps(seed36, restarts, steps[1..])
  }

  /** Only epochs of restarts so far have been used. */
  ghost predicate UsedUpTo(seed36: string, restarts: nat, used: set<string>) {
    forall e | e in used :: exists k: nat :: k <= restarts && IsEpoch(seed36, k, e)
  }

  lemma {:induction false} ServerEpochsAreFresh(seed36: string, restarts: nat, used: set<string>, steps: seq<Step>)
    requires ServerSteps(seed36, restarts, steps) && UsedUpTo(seed36, restarts, used)
    ensures FreshEpochs(used, steps)
    decreases |steps|
  {
    hide IsEpoch;
    if steps != [] {
      if steps[0].Do? && steps[0].call.Restarts? {
        var epoch := steps[0].call.epoch;
        UseEpoch(seed36, restarts, used, epoch);
        ServerEpochsAreFresh(seed36, restarts + 1, used + {epoch}, steps[1..]);
      } else {
        ServerEpochsAreFresh(seed36, restarts, used, steps[1..]);
      }
    }
  }

  lemma UseEpoch(seed36: string, restarts: nat, used: set<string>, epoch: string)
    requires UsedUpTo(seed36, restarts, used) && IsEpoch(seed36, restarts + 1, epoch)
    ensures epoch !in used && UsedUpTo(seed36, restarts + 1, used + {epoch})
  {
    hide IsEpoch;
    forall e | e in used ensures e != epoch && exists k: nat :: k <= restarts + 1 && IsEpoch(seed36, k, e) {
      var k: nat :| k <= restarts && IsEpoch(seed36, k, e);
      IsEpochUnique(seed36, k, restarts + 1, e, epoch);
    }
  }

  /** Through the server, a token from before a restart never resumes. */
  lemma RestartInvalidatesTokens(o: Options, s: Sys, seed36: string, restarts: nat, used: set<string>, epoch: string,
                                 steps: seq<Step>, r: Sys, token: Token)
    requires Inv(o, s) && Transparent(o) && Known(s, s.world.live)
    requires UsedUpTo(seed36, restarts, used) && token.epoch in used && IsEpoch(seed36, restarts + 1, epoch)
    requires Runs(o, Restart(s, epoch), steps, r) && ServerSteps(seed36, restarts + 1, steps)
    ensures !CanResume(r.world, Some(token))
  {
    hide IsEpoch, Runs, Inv, ServerSteps;
    RestartKeeps(o, s, epoch);
    UseEpoch(seed36, restarts, used, epoch);
    ServerEpochsAreFresh(seed36, restarts + 1, used + {epoch}, steps);
    StaleTokenNeverResumes(o, Restart(s, epoch), steps, r, used + {epoch}, token);
  }
}
