/**
 * `deployment/base_deployment_manager.py`: a base manager whose `run_command` takes no
 * working directory and does not check exit codes. Every step that passes `cwd=` to it
 * raises `TypeError` before starting a process.
 */
module BaseDeployment {
  import opened Wrappers
  import opened Strings
  import opened Shell
  import opened LatestPost
  import opened AgentHandoff

  const Branch := DeployBranch("deploy", "deploy")

  /** The exception a `run_command(..., cwd=...)` call raises. */
  const CwdTypeError := "BaseDeployManager.run_command() got an unexpected keyword argument 'cwd'"

  /**
   * The exception `Path(None)` raises, in the wording of the CPython versions whose
   * `os.fspath` reports `NoneType`; other versions word it differently.
   */
  const NonePathTypeError := "expected str, bytes or os.PathLike object, not NoneType"

  class BaseDeployManager {
    var changesMade: bool
    var blogUrlBase: Option<string>
    var postFilePath: Option<string>

    /** A fresh manager: no changes, no URL base, no post path. */
    constructor ()
      ensures !changesMade && blogUrlBase == None && postFilePath == None
    {
      changesMade := false;
      blogUrlBase := None;
      postFilePath := None;
    }

    /**
     * `run_command(command)`: without `check`, every exit is a success with its standard
     * output; only a command that cannot start fails.
     */
    method RunCommand(shell: Shell, argv: seq<string>) returns (ok: bool, output: string)
      modifies shell`trace
      ensures shell.trace == old(shell.trace) + [Call(argv, "")]
      ensures var o := shell.world(old(shell.trace), Call(argv, ""));
        (ok <==> o.Exited?) && (o.Exited? ==> output == o.stdout)
        && (o.LaunchError? ==> output == "Error executing command: " + o.message)
    {
      var r := shell.RunCommand(NoCheck, Call(argv, ""));
      ok, output := r.value.ok, r.value.output;
    }

    /** `build_hugo`: the `TypeError` escapes and nothing runs. */
    method BuildHugo(shell: Shell, sitePath: string) returns (r: Result<bool, string>)
      ensures r == Err(CwdTypeError)
    {
      return Err(CwdTypeError);
    }

    /** `git_operations`: the `TypeError` of the first call is caught; no git command runs. */
    method GitOperations(shell: Shell, sitePath: string) returns (ok: bool)
      ensures !ok
    {
      return false;
    }

    /**
     * `handle_branch_deployment`: the bare `git branch -D deploy` runs, then the first
     * `run_command` call raises and the step returns False.
     */
    method HandleBranchDeployment(shell: Shell, sitePath: string) returns (ok: bool)
      modifies shell`trace
      ensures !ok && shell.trace == old(shell.trace) + [DeleteBranchCall(sitePath, Branch)]
    {
      var _ := shell.Exec(DeleteBranchCall(sitePath, Branch));
      return false;
    }

    /**
     * `get_latest_file`: an unset or empty URL base, a post path of None and a missing
     * file are errors, in that order; otherwise the URL of the post under the base.
     */
    method GetLatestFile(existing: set<string>) returns (r: Result<string, string>)
      ensures r.Ok? <==> Truthy(blogUrlBase) && postFilePath.Some? && postFilePath.value in existing
      ensures !Truthy(blogUrlBase) ==> r == Err("Blog URL base not set")
      ensures Truthy(blogUrlBase) && postFilePath.None? ==> r == Err(NonePathTypeError)
      ensures Truthy(blogUrlBase) && postFilePath.Some? && postFilePath.value !in existing ==>
        r == Err("Post file not found at " + postFilePath.value)
      ensures r.Ok? ==> r.value == BlogUrl(blogUrlBase.value, postFilePath.value)
    {
      if !Truthy(blogUrlBase) {
        return Err("Blog URL base not set");
      }
      if postFilePath.None? {
        return Err(NonePathTypeError);
      }
      var path := postFilePath.value;
      if path !in existing {
        return Err("Post file not found at " + path);
      }
      return Ok(blogUrlBase.value + "/" + Lower(Stem(path)) + "/");
    }
  }

  /** A fresh base manager has no URL base, so its latest-file lookup always fails. */
  method FreshLookupFails(existing: set<string>) returns (r: Result<string, string>)
    ensures r == Err("Blog URL base not set")
  {
    var m := new BaseDeployManager();
    r := m.GetLatestFile(existing);
  }
}
