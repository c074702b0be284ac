/**
 * The end of the pipelines' `main`: when the sync made changes, `all([build_hugo(...),
 * git_operations(...)])`, which builds the list (running both steps) before testing it,
 * then the notification; without changes only the "no changes" notification.
 */
module Publish {
  import opened Wrappers
  import opened Shell

  /** How a `main` ends: with its return value, or with an exception escaping it. */
  datatype RunResult = Returned(ok: bool) | Crashed(message: string)

  /** What the tail of `main` returns, and the commands it issues, after both syncs succeeded. */
  function FinishSpec(world: World, h: seq<Call>, runner: Runner, cwd: string, stamp: string, d: DeployBranch, changes: bool)
    : (RunResult, seq<Call>)
  {
    if !changes then (Returned(true), [NotifyCall(true)])
    else PublishChangesSpec(world, h, runner, cwd, stamp, d)
  }

  /** Without changes nothing is built or published: only the "no changes" dialog is shown. */
  lemma FinishWithoutChanges(world: World, h: seq<Call>, runner: Runner, cwd: string, stamp: string, d: DeployBranch)
    ensures var (r, issued) := FinishSpec(world, h, runner, cwd, stamp, d, false);
      r == Returned(true) && HugoCall(cwd) !in issued && AddCall(cwd) !in issued
  {
    var issued := FinishSpec(world, h, runner, cwd, stamp, d, false).1;
    assert issued == [NotifyCall(true)];
    assert NotifyCall(true).argv[0] != HugoCall(cwd).argv[0] && NotifyCall(true).argv[0] != AddCall(cwd).argv[0];
  }

  /**
   * A build that runs but fails does not stop the git step: `git add` is issued right
   * after `hugo`, and `main` returns False.
   */
  lemma GitRunsAfterFailedBuild(world: World, h: seq<Call>, runner: Runner, cwd: string, stamp: string, d: DeployBranch)
    requires runner != NoCheck
    requires world(h, HugoCall(cwd)).Exited? && world(h, HugoCall(cwd)).code != 0
    ensures var (r, issued) := FinishSpec(world, h, runner, cwd, stamp, d, true);
      r == Returned(false) && |issued| >= 2 && issued[0] == HugoCall(cwd) && issued[1] == AddCall(cwd)
  {
    var g := GitSpec(world, h + [HugoCall(cwd)], runner, cwd, stamp, d);
    assert |g.issued| >= 1 && g.issued[0] == AddCall(cwd);
  }

  /**
   * With changes, `main` returns True exactly when the build succeeded and the git step
   * raised nothing; an exception from the build ends it before any git command.
   */
  lemma FinishSucceeds(world: World, h: seq<Call>, runner: Runner, cwd: string, stamp: string, d: DeployBranch)
    requires runner != NoCheck
    ensures var (r, issued) := FinishSpec(world, h, runner, cwd, stamp, d, true);
      var o := world(h, HugoCall(cwd));
      (r == Returned(true) <==>
        o.Exited? && o.code == 0 && !GitSpec(world, h + [HugoCall(cwd)], runner, cwd, stamp, d).raised)
      && (r.Crashed? <==> runner == RaiseOnLaunch && o.LaunchError?)
      && (r.Crashed? ==> issued == [HugoCall(cwd)])
  {
  }

  /** What the tail of `main` returns, and the commands it issues, when the sync made changes. */
  function PublishChangesSpec(world: World, h: seq<Call>, runner: Runner, cwd: string, stamp: string, d: DeployBranch)
    : (RunResult, seq<Call>)
  {
    var hugo := RunReply(runner, world(h, HugoCall(cwd)));
    if hugo.Err? then (Crashed(hugo.error), [HugoCall(cwd)])
    else
      var rest := AfterBuildSpec(world, h + [HugoCall(cwd)], runner, cwd, stamp, d, hugo.value.ok);
      (rest.0, [HugoCall(cwd)] + rest.1)
  }

  /** The git step, which runs whatever the build returned, and the final notification. */
  function AfterBuildSpec(world: World, h: seq<Call>, runner: Runner, cwd: string, stamp: string, d: DeployBranch, built: bool)
    : (RunResult, seq<Call>)
  {
    var g := GitSpec(world, h, runner, cwd, stamp, d);
    if built && !g.raised then (Returned(true), g.issued + [NotifyCall(false)])
    else (Returned(false), g.issued)
  }

  /** Runs the tail of `main` against the shell. */
  method Finish(shell: Shell, runner: Runner, cwd: string, stamp: string, d: DeployBranch, changes: bool)
    returns (r: RunResult)
    modifies shell`trace
    ensures var (res, issued) := FinishSpec(shell.world, old(shell.trace), runner, cwd, stamp, d, changes);
      r == res && shell.trace == old(shell.trace) + issued
  {
    if !changes {
      var _ := shell.Exec(NotifyCall(true));
      return Returned(true);
    }
    r := PublishChanges(shell, runner, cwd, stamp, d);
  }

  /** Builds the site; unless that raised, runs the git step. */
  method PublishChanges(shell: Shell, runner: Runner, cwd: string, stamp: string, d: DeployBranch)
    returns (r: RunResult)
    modifies shell`trace
    ensures var spec := PublishChangesSpec(shell.world, old(shell.trace), runner, cwd, stamp, d);
      r == spec.0 && shell.trace == old(shell.trace) + spec.1
  {
    ghost var h := shell.trace;
    var built := BuildHugo(shell, runner, cwd);
    if built.Err? {
      return Crashed(built.error);
    }
    ghost var spec := PublishChangesSpec(shell.world, h, runner, cwd, stamp, d);
    ghost var rest := AfterBuildSpec(shell.world, h + [HugoCall(cwd)], runner, cwd, stamp, d, built.value);
    assert spec == (rest.0, [HugoCall(cwd)] + rest.1);
    ghost var h1 := shell.trace;
    assert h1 == h + [HugoCall(cwd)];
    r := AfterBuild(shell, runner, cwd, stamp, d, built.value);
    AppendAfter(h, HugoCall(cwd), rest.1);
  }

  /** The trace after one call and then more is the old trace followed by all of them. */
  lemma AppendAfter(h: seq<Call>, c: Call, more: seq<Call>)
    ensures h + [c] + more == h + ([c] + more)
  {
  }

  /** Runs the git step whatever the build returned, then notifies when both succeeded. */
  method AfterBuild(shell: Shell, runner: Runner, cwd: string, stamp: string, d: DeployBranch, built: bool)
    returns (r: RunResult)
    modifies shell`trace
    ensures var spec := AfterBuildSpec(shell.world, old(shell.trace), runner, cwd, stamp, d, built);
      r == spec.0 && shell.trace == old(shell.trace) + spec.1
  {
    ghost var h := shell.trace;
    var pushed := GitOperations(shell, runner, cwd, stamp, d);
    if built && pushed {
      ghost var g := GitSpec(shell.world, h, runner, cwd, stamp, d);
      var _ := shell.Exec(NotifyCall(false));
      assert shell.trace == h + (g.issued + [NotifyCall(false)]);
      return Returned(true);
    }
    return Returned(false);
  }
}
