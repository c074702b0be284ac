/**
 * External commands. A command is an argument vector and a working directory; what it
 * does is decided by an oracle that sees every command issued before it, and the shell
 * records the commands in order. On top of that: the managers' `run_command` wrappers,
 * which differ in what they catch, and the git publish sequence they all share.
 */
module Shell {
  import opened Wrappers
  import opened Strings

  /** A command line and the directory it runs in (`""` when the caller gives none). */
  datatype Call = Call(argv: seq<string>, cwd: string)

  /** What `subprocess.run` observes: an exit with its code and output, or a failure to start. */
  datatype Outcome = Exited(code: int, stdout: string, stderr: string) | LaunchError(message: string)

  /**
   * The `run_command` flavours.
   *  - `RaiseOnLaunch`: `check=True`, catches only a non-zero exit; a failure to start escapes.
   *  - `CatchAll`: `check=True`, a non-zero exit gives `"Command failed: <stderr>"`, any
   *    other error `"Error: <message>"`.
   *  - `Verbose`: `check=True`, a non-zero exit gives the exit code with both outputs, any
   *    other error `"Error executing command: <message>"`.
   *  - `NoCheck`: no `check`, so every exit counts as success; a failure to start gives
   *    `"Error executing command: <message>"`.
   */
  datatype Runner = RaiseOnLaunch | CatchAll | Verbose | NoCheck

  /** The `(success, output)` pair `run_command` returns. */
  datatype Reply = Reply(ok: bool, output: string)

  /** `run_command`'s answer for an outcome, or the exception that escapes it. */
  function RunReply(runner: Runner, o: Outcome): (r: Result<Reply, string>)
    ensures r.Err? <==> runner == RaiseOnLaunch && o.LaunchError?
    ensures o.Exited? && o.code == 0 ==> r == Ok(Reply(true, o.stdout))
    ensures r.Ok? && runner != NoCheck ==> (r.value.ok <==> o.Exited? && o.code == 0)
    ensures r.Ok? && runner == NoCheck ==> (r.value.ok <==> o.Exited?)
  {
    match o
    case Exited(code, out, err) =>
      if code == 0 || runner == NoCheck then Ok(Reply(true, out))
      else if runner == Verbose then
        Ok(Reply(false, "Command failed with exit code " + IntToString(code) + ":\nstdout: " + out + "\nstderr: " + err))
      else if runner == CatchAll then Ok(Reply(false, "Command failed: " + err))
      else Ok(Reply(false, err))
    case LaunchError(m) =>
      if runner == RaiseOnLaunch then Err(m)
      else if runner == CatchAll then Ok(Reply(false, "Error: " + m))
      else Ok(Reply(false, "Error executing command: " + m))
  }

  /** The outside world: the outcome of a command, given every command issued before it. */
  type World = (seq<Call>, Call) -> Outcome

  class Shell {
    const world: World
    /** Every command issued so far, in order. */
    var trace: seq<Call>

    constructor (world: World)
      ensures this.world == world && trace == []
    {
      this.world := world;
      trace := [];
    }

    /** A bare `subprocess.run`: the outcome, whatever it is. */
    method Exec(c: Call) returns (o: Outcome)
      modifies this`trace
      ensures o == world(old(trace), c)
      ensures trace == old(trace) + [c]
    {
      o := world(trace, c);
      trace := trace + [c];
    }

    /** `run_command` of the given flavour. */
    method RunCommand(runner: Runner, c: Call) returns (r: Result<Reply, string>)
      modifies this`trace
      ensures r == RunReply(runner, world(old(trace), c))
      ensures trace == old(trace) + [c]
    {
      var o := Exec(c);
      r := RunReply(runner, o);
    }
  }

  // ---------------------------------------------------------------------------------------
  // the git publish sequence

  /** The local branch the site's `public` directory is split into and the remote branch it is pushed to. */
  datatype DeployBranch = DeployBranch(local: string, remote: string)

  function AddCall(cwd: string): Call { Call(["git", "add", "."], cwd) }
  function DiffCall(cwd: string): Call { Call(["git", "diff", "--cached", "--quiet"], cwd) }
  function CommitCall(cwd: string, stamp: string): Call {
    Call(["git", "commit", "-m", "New Blog Post on " + stamp], cwd)
  }
  function PushMainCall(cwd: string): Call { Call(["git", "push", "origin", "main"], cwd) }
  function DeleteBranchCall(cwd: string, d: DeployBranch): Call { Call(["git", "branch", "-D", d.local], cwd) }
  function SplitCall(cwd: string, d: DeployBranch): Call {
    Call(["git", "subtree", "split", "--prefix", "public", "-b", d.local], cwd)
  }
  function ForcePushCall(cwd: string, d: DeployBranch): Call {
    Call(["git", "push", "origin", d.local + ":" + d.remote, "--force"], cwd)
  }
  function HugoCall(cwd: string): Call { Call(["hugo"], cwd) }

  /** The commands a step issued, and whether an exception ended it. */
  datatype Run = Run(issued: seq<Call>, raised: bool)

  /** `run_command` on each call in turn, stopping at the first exception. */
  function RunAll(world: World, h: seq<Call>, runner: Runner, calls: seq<Call>): (r: Run)
    ensures |r.issued| <= |calls| && r.issued == calls[..|r.issued|]
    ensures !r.raised ==> r.issued == calls
    decreases |calls|
  {
    if |calls| == 0 then Run([], false)
    else if RunReply(runner, world(h, calls[0])).Err? then Run([calls[0]], true)
    else
      var rest := RunAll(world, h + [calls[0]], runner, calls[1..]);
      Run([calls[0]] + rest.issued, rest.raised)
  }

  lemma RunAllTwo(world: World, h: seq<Call>, runner: Runner, a: Call, b: Call)
    ensures RunAll(world, h, runner, [a, b]) ==
      if RunReply(runner, world(h, a)).Err? then Run([a], true)
      else if RunReply(runner, world(h + [a], b)).Err? then Run([a, b], true)
      else Run([a, b], false)
  {
    var calls := [a, b];
    assert calls[0] == a && calls[1..] == [b];
    if !RunReply(runner, world(h, a)).Err? {
      var rest := RunAll(world, h + [a], runner, [b]);
      assert RunAll(world, h, runner, calls) == Run([a] + rest.issued, rest.raised);
      if !RunReply(runner, world(h + [a], b)).Err? {
        assert [b][1..] == [];
        assert RunAll(world, h + [a] + [b], runner, []) == Run([], false);
        assert rest == Run([b], false);
      } else {
        assert rest == Run([b], true);
      }
      assert [a] + [b] == [a, b];
    }
  }

  lemma RunAllThree(world: World, h: seq<Call>, runner: Runner, a: Call, b: Call, c: Call)
    ensures RunAll(world, h, runner, [a, b, c]) ==
      if RunReply(runner, world(h, a)).Err? then Run([a], true)
      else if RunReply(runner, world(h + [a], b)).Err? then Run([a, b], true)
      else if RunReply(runner, world(h + [a, b], c)).Err? then Run([a, b, c], true)
      else Run([a, b, c], false)
  {
    assert [a, b, c][1..] == [b, c];
    RunAllTwo(world, h + [a], runner, b, c);
    assert h + [a] + [b] == h + [a, b];
    assert [a] + [b] == [a, b];
    assert [a] + [b, c] == [a, b, c];
  }

  /**
   * The branch deployment: delete the local branch (a bare run, errors discarded), split
   * `public` into it, force-push it, delete it again. `raised` is an exception caught by
   * the step itself, which then returns False.
   */
  function BranchSpec(world: World, h: seq<Call>, runner: Runner, cwd: string, d: DeployBranch): Run {
    var c0 := DeleteBranchCall(cwd, d);
    if world(h, c0).LaunchError? then Run([c0], true)
    else
      var rest := RunAll(world, h + [c0], runner, [SplitCall(cwd, d), ForcePushCall(cwd, d), DeleteBranchCall(cwd, d)]);
      Run([c0] + rest.issued, rest.raised)
  }

  /**
   * `git_operations`: stage everything, ask `git diff --cached --quiet`, and only when it
   * exits with 1 commit, push and deploy the branch. Command results are not looked at;
   * `raised` (the step returns False) is an exception in one of its own commands. The
   * branch deployment's own result is discarded.
   */
  function GitSpec(world: World, h: seq<Call>, runner: Runner, cwd: string, stamp: string, d: DeployBranch): Run {
    var add := AddCall(cwd);
    if RunReply(runner, world(h, add)).Err? then Run([add], true)
    else
      var diff := DiffCall(cwd);
      var o := world(h + [add], diff);
      if o.LaunchError? then Run([add, diff], true)
      else if o.code != 1 then Run([add, diff], false)
      else
        var p := PublishSpec(world, h + [add, diff], runner, cwd, stamp, d);
        Run([add, diff] + p.issued, p.raised)
  }

  /** The part of `git_operations` after the diff reported changes: commit, push, deploy the branch. */
  function PublishSpec(world: World, h: seq<Call>, runner: Runner, cwd: string, stamp: string, d: DeployBranch): Run {
    var m := RunAll(world, h, runner, [CommitCall(cwd, stamp), PushMainCall(cwd)]);
    if m.raised then m
    else
      var b := BranchSpec(world, h + m.issued, runner, cwd, d);
      Run(m.issued + b.issued, false)
  }

  /** Whether `git diff --cached --quiet` runs and reports staged changes (exit code 1). */
  predicate DiffReportsChanges(world: World, h: seq<Call>, runner: Runner, cwd: string) {
    RunReply(runner, world(h, AddCall(cwd))).Ok? &&
    var o := world(h + [AddCall(cwd)], DiffCall(cwd));
    o.Exited? && o.code == 1
  }

  /**
   * Something is committed exactly when the diff reports staged changes; otherwise only
   * `git add` and `git diff` are issued, and without an exception the step succeeds.
   */
  lemma GitCommitsOnlyOnChanges(world: World, h: seq<Call>, runner: Runner, cwd: string, stamp: string, d: DeployBranch)
    ensures var r := GitSpec(world, h, runner, cwd, stamp, d);
      (CommitCall(cwd, stamp) in r.issued <==> DiffReportsChanges(world, h, runner, cwd))
      && (!DiffReportsChanges(world, h, runner, cwd) ==> |r.issued| <= 2)
      && (DiffReportsChanges(world, h, runner, cwd) ==> r.issued[..3] == [AddCall(cwd), DiffCall(cwd), CommitCall(cwd, stamp)])
  {
    var r := GitSpec(world, h, runner, cwd, stamp, d);
    var add := AddCall(cwd);
    var diff := DiffCall(cwd);
    var commit := CommitCall(cwd, stamp);
    assert add.argv[1] != commit.argv[1] && diff.argv[1] != commit.argv[1];
    if DiffReportsChanges(world, h, runner, cwd) {
      var m := RunAll(world, h + [add, diff], runner, [commit, PushMainCall(cwd)]);
      assert m.issued[0] == commit;
      assert r.issued[2] == commit;
    }
  }

  /**
   * The step returns False only on an exception: `git add`, the commit or the push
   * escaping `run_command`, or `git diff` failing to start. With a catch-all `run_command`
   * only the bare diff can fail it.
   */
  lemma GitFailsOnlyOnException(world: World, h: seq<Call>, runner: Runner, cwd: string, stamp: string, d: DeployBranch)
    ensures var r := GitSpec(world, h, runner, cwd, stamp, d);
      (runner != RaiseOnLaunch ==>
        (r.raised <==> world(h + [AddCall(cwd)], DiffCall(cwd)).LaunchError?))
      && (r.raised ==> exists i :: 0 <= i < |r.issued| && world(h + r.issued[..i], r.issued[i]).LaunchError?)
  {
    var r := GitSpec(world, h, runner, cwd, stamp, d);
    var add := AddCall(cwd);
    var diff := DiffCall(cwd);
    if r.raised {
      if RunReply(runner, world(h, add)).Err? {
        assert h + r.issued[..0] == h;
      } else if world(h + [add], diff).LaunchError? {
        assert r.issued[..1] == [add];
      } else {
        var h2 := h + [add, diff];
        var calls := [CommitCall(cwd, stamp), PushMainCall(cwd)];
        var m := RunAll(world, h2, runner, calls);
        RunAllTwo(world, h2, runner, calls[0], calls[1]);
        assert r.issued == [add, diff] + m.issued;
        if RunReply(runner, world(h2, calls[0])).Err? {
          assert r.issued[..2] == [add, diff];
          assert h + r.issued[..2] == h2;
          assert world(h + r.issued[..2], r.issued[2]).LaunchError?;
        } else {
          var h3 := h2 + [calls[0]];
          assert r.issued[..3] == [add, diff, calls[0]];
          assert h + r.issued[..3] == h3;
          assert world(h + r.issued[..3], r.issued[3]).LaunchError?;
        }
      }
    }
  }

  /** When nothing fails to start and the diff reports changes, the full eight-command publish runs. */
  lemma GitFullPublish(world: World, h: seq<Call>, runner: Runner, cwd: string, stamp: string, d: DeployBranch)
    requires forall hist, c :: world(hist, c).Exited?
    requires world(h + [AddCall(cwd)], DiffCall(cwd)).code == 1
    ensures GitSpec(world, h, runner, cwd, stamp, d) ==
      Run([AddCall(cwd), DiffCall(cwd), CommitCall(cwd, stamp), PushMainCall(cwd),
           DeleteBranchCall(cwd, d), SplitCall(cwd, d), ForcePushCall(cwd, d), DeleteBranchCall(cwd, d)], false)
  {
    var h2 := h + [AddCall(cwd), DiffCall(cwd)];
    RunAllTwo(world, h2, runner, CommitCall(cwd, stamp), PushMainCall(cwd));
    var m := RunAll(world, h2, runner, [CommitCall(cwd, stamp), PushMainCall(cwd)]);
    var c0 := DeleteBranchCall(cwd, d);
    RunAllThree(world, h2 + m.issued + [c0], runner, SplitCall(cwd, d), ForcePushCall(cwd, d), DeleteBranchCall(cwd, d));
  }

  /**
   * Runs the git publish step against the shell.
   */
  method GitOperations(shell: Shell, runner: Runner, cwd: string, stamp: string, d: DeployBranch)
    returns (ok: bool)
    modifies shell`trace
    ensures var r := GitSpec(shell.world, old(shell.trace), runner, cwd, stamp, d);
      ok == !r.raised && shell.trace == old(shell.trace) + r.issued
  {
    var added := shell.RunCommand(runner, AddCall(cwd));
    if added.Err? {
      return false;
    }
    var diff := shell.Exec(DiffCall(cwd));
    assert shell.trace == old(shell.trace) + [AddCall(cwd), DiffCall(cwd)];
    if diff.LaunchError? {
      return false;
    }
    if diff.code == 1 {
      ok := Publish(shell, runner, cwd, stamp, d);
    } else {
      ok := true;
    }
  }

  /** The commit, push and branch deployment of `git_operations`, against the shell. */
  method Publish(shell: Shell, runner: Runner, cwd: string, stamp: string, d: DeployBranch)
    returns (ok: bool)
    modifies shell`trace
    ensures var r := PublishSpec(shell.world, old(shell.trace), runner, cwd, stamp, d);
      ok == !r.raised && shell.trace == old(shell.trace) + r.issued
  {
    ghost var h := shell.trace;
    RunAllTwo(shell.world, h, runner, CommitCall(cwd, stamp), PushMainCall(cwd));
    var committed := shell.RunCommand(runner, CommitCall(cwd, stamp));
    if committed.Err? {
      return false;
    }
    var pushed := shell.RunCommand(runner, PushMainCall(cwd));
    assert shell.trace == h + [CommitCall(cwd, stamp), PushMainCall(cwd)];
    if pushed.Err? {
      return false;
    }
    var _ := HandleBranchDeployment(shell, runner, cwd, d);
    ok := true;
  }

  /** Runs the branch deployment against the shell. */
  method HandleBranchDeployment(shell: Shell, runner: Runner, cwd: string, d: DeployBranch)
    returns (ok: bool)
    modifies shell`trace
    ensures var r := BranchSpec(shell.world, old(shell.trace), runner, cwd, d);
      ok == !r.raised && shell.trace == old(shell.trace) + r.issued
  {
    ghost var h := shell.trace;
    var deleted := shell.Exec(DeleteBranchCall(cwd, d));
    if deleted.LaunchError? {
      return false;
    }
    ghost var h1 := shell.trace;
    RunAllThree(shell.world, h1, runner, SplitCall(cwd, d), ForcePushCall(cwd, d), DeleteBranchCall(cwd, d));
    var split := shell.RunCommand(runner, SplitCall(cwd, d));
    if split.Err? {
      return false;
    }
    var pushed := shell.RunCommand(runner, ForcePushCall(cwd, d));
    assert shell.trace == h1 + [SplitCall(cwd, d), ForcePushCall(cwd, d)];
    if pushed.Err? {
      return false;
    }
    var cleaned := shell.RunCommand(runner, DeleteBranchCall(cwd, d));
    assert shell.trace == h1 + [SplitCall(cwd, d), ForcePushCall(cwd, d), DeleteBranchCall(cwd, d)];
    if cleaned.Err? {
      return false;
    }
    return true;
  }

  /** `build_hugo`: `hugo` in the site directory; its success, or the exception that escapes. */
  method BuildHugo(shell: Shell, runner: Runner, cwd: string) returns (r: Result<bool, string>)
    modifies shell`trace
    ensures var reply := RunReply(runner, shell.world(old(shell.trace), HugoCall(cwd)));
      shell.trace == old(shell.trace) + [HugoCall(cwd)]
      && (reply.Err? ==> r == Err(reply.error))
      && (reply.Ok? ==> r == Ok(reply.value.ok))
  {
    var reply := shell.RunCommand(runner, HugoCall(cwd));
    if reply.Err? {
      return Err(reply.error);
    }
    return Ok(reply.value.ok);
  }

  /** The macOS dialog every pipeline shows at the end; its outcome is ignored. */
  function NotifyCall(noChanges: bool): Call {
    Call(["osascript", "-e", "display dialog \"" +
      (if noChanges then "No changes detected!" else "Deployment completed successfully!") + "\""], "")
  }
}
