/**
 * The shell hooks of deckhand/events.go (`shellEvents`): every file of the
 * handler directory whose name starts with the event's status is run with
 * the container id as its only argument, until one fails.
 *
 * Reading the directory and running a command are inputs to the model:
 * the directory's entry names (None when it cannot be opened or read) and
 * a function telling whether a command run with an argument succeeds.
 */
module Events {
  import opened Wrappers
  import opened Text

  /**
   * The commands shellEvents runs for an event with this status, in
   * directory order: each selected name appended directly to the
   * directory name.
   */
  function Commands(dir: string, names: seq<string>, status: string): seq<string>
    decreases |names|
  {
    if names == [] then []
    else (if HasPrefix(names[0], status) then [dir + names[0]] else []) + Commands(dir, names[1..], status)
  }

  /** A command is selected exactly when it is dir + a name that starts with the status. */
  lemma {:induction false} CommandsExact(dir: string, names: seq<string>, status: string, c: string)
    ensures c in Commands(dir, names, status) <==> exists n | n in names :: HasPrefix(n, status) && c == dir + n
    decreases |names|
  {
    if names != [] {
      CommandsExact(dir, names[1..], status, c);
      var head := if HasPrefix(names[0], status) then [dir + names[0]] else [];
      assert Commands(dir, names, status) == head + Commands(dir, names[1..], status);
      if exists n | n in names :: HasPrefix(n, status) && c == dir + n {
        var n :| n in names && HasPrefix(n, status) && c == dir + n;
        if n != names[0] {
          assert n in names[1..];
        }
      }
    }
  }

  /** The empty status is a prefix of every name, so it selects every handler. */
  lemma {:induction false} EmptyStatusSelectsAll(dir: string, names: seq<string>)
    ensures |Commands(dir, names, "")| == |names|
    ensures forall i | 0 <= i < |names| :: Commands(dir, names, "")[i] == dir + names[i]
    decreases |names|
  {
    if names != [] {
      EmptyStatusSelectsAll(dir, names[1..]);
      assert HasPrefix(names[0], "");
      var rest := Commands(dir, names[1..], "");
      assert Commands(dir, names, "") == [dir + names[0]] + rest;
    }
  }

  /**
   * Running the commands with argument id until the first failure, which
   * ends the process: the commands run, and whether one failed.
   */
  function RunUntilFailure(cmds: seq<string>, id: string, run: (string, string) -> bool): (seq<string>, bool)
    decreases |cmds|
  {
    if cmds == [] then ([], false)
    else if !run(cmds[0], id) then ([cmds[0]], true)
    else
      var r := RunUntilFailure(cmds[1..], id, run);
      ([cmds[0]] + r.0, r.1)
  }

  /**
   * The commands run are a prefix of the selected ones; the run is fatal
   * exactly when some selected command fails, and then it stops at the
   * first failing one; otherwise every command ran and succeeded.
   */
  lemma {:induction false} RunUntilFailureExact(cmds: seq<string>, id: string, run: (string, string) -> bool)
    ensures var r := RunUntilFailure(cmds, id, run);
      r.0 <= cmds &&
      (r.1 <==> exists i | 0 <= i < |cmds| :: !run(cmds[i], id)) &&
      (forall i | 0 <= i < |r.0| - 1 :: run(r.0[i], id)) &&
      (r.1 ==> r.0 != [] && !run(r.0[|r.0| - 1], id)) &&
      (!r.1 ==> r.0 == cmds)
    decreases |cmds|
  {
    if cmds != [] && run(cmds[0], id) {
      var rest := RunUntilFailure(cmds[1..], id, run);
      RunUntilFailureExact(cmds[1..], id, run);
      var r := RunUntilFailure(cmds, id, run);
      assert r.0 == [cmds[0]] + rest.0;
      forall i | 0 <= i < |r.0| - 1
        ensures run(r.0[i], id)
      {
        if i > 0 {
          assert r.0[i] == rest.0[i - 1];
        }
      }
      if exists i | 0 <= i < |cmds| :: !run(cmds[i], id) {
        var i :| 0 <= i < |cmds| && !run(cmds[i], id);
        assert cmds[1..][i - 1] == cmds[i];
      }
      if exists i | 0 <= i < |cmds| - 1 :: !run(cmds[1..][i], id) {
        var i :| 0 <= i < |cmds| - 1 && !run(cmds[1..][i], id);
        assert cmds[i + 1] == cmds[1..][i];
      }
      if rest.1 {
        assert r.0[|r.0| - 1] == rest.0[|rest.0| - 1];
      }
    }
  }

  /**
   * The outcome of shellEvents: no command when the directory cannot be
   * read; otherwise the selected commands run until the first failure.
   */
  function ShellOutcome(dir: string, entries: Option<seq<string>>, status: string, id: string,
                        run: (string, string) -> bool): (seq<string>, bool)
  {
    match entries
    case None => ([], false)
    case Some(names) => RunUntilFailure(Commands(dir, names, status), id, run)
  }

  /** `shellEvents` for an event with this status and container id; `fatal` is the `log.Fatal` exit. */
  method ShellEvents(dir: string, entries: Option<seq<string>>, status: string, id: string,
                     run: (string, string) -> bool)
    returns (ran: seq<string>, fatal: bool)
    ensures (ran, fatal) == ShellOutcome(dir, entries, status, id, run)
  {
    ran, fatal := [], false;
    if entries.None? {
      return;
    }
    var handlers := entries.value;
    ghost var total := RunUntilFailure(Commands(dir, handlers, status), id, run);
    var i := 0;
    assert handlers[0..] == handlers;
    assert ran + total.0 == total.0;
    while i < |handlers|
      invariant 0 <= i <= |handlers|
      invariant var r := RunUntilFailure(Commands(dir, handlers[i..], status), id, run);
        (ran + r.0, r.1) == total
    {
      assert handlers[i..][1..] == handlers[i + 1..];
      var fname := handlers[i];
      ghost var cs := Commands(dir, handlers[i + 1..], status);
      i := i + 1;
      if HasPrefix(fname, status) {
        var cname := dir + fname;
        assert Commands(dir, handlers[i - 1..], status) == [cname] + cs;
        assert ([cname] + cs)[1..] == cs;
        ghost var r := RunUntilFailure(cs, id, run);
        assert (ran + [cname]) + r.0 == ran + ([cname] + r.0);
        ran := ran + [cname];
        if !run(cname, id) {
          fatal := true;
          return;
        }
      } else {
        assert Commands(dir, handlers[i - 1..], status) == cs;
      }
    }
    assert handlers[i..] == [];
    assert ran + [] == ran;
  }
}
