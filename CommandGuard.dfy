/**
 * The guard processCommand of 493793/ideal2_test.go: an empty command and a
 * command holding ';' or '&' are refused with fixed messages; any other
 * command is handed to the executor, whose error is returned as it is.
 * The executor is a function parameter and errors are their messages
 * (None is a nil error).
 */
module CommandGuard {
  import opened Wrappers

  const EmptyMessage: string := "command cannot be empty"
  const UnsafeMessage: string := "command contains potentially unsafe characters"

  /** Which error came back and the commands the executor was asked to run. */
  datatype Outcome = Outcome(err: Option<string>, executed: seq<string>)

  /** A command the guard lets through. */
  predicate Safe(command: string) {
    command != "" && ';' !in command && '&' !in command
  }

  function ProcessCommand(command: string, execute: string -> Option<string>): (o: Outcome)
    ensures o.executed == (if Safe(command) then [command] else [])
    ensures Safe(command) ==> o.err == execute(command)
    ensures command == "" ==> o.err == Some(EmptyMessage)
    ensures command != "" && !Safe(command) ==> o.err == Some(UnsafeMessage)
  {
    if command == "" then Outcome(Some(EmptyMessage), [])
    else if ';' in command || '&' in command then Outcome(Some(UnsafeMessage), [])
    else Outcome(execute(command), [command])
  }

  /** The guard refuses exactly the commands that are empty or hold ';' or '&'. */
  lemma RefusedIffUnsafe(command: string, execute: string -> Option<string>)
    ensures ProcessCommand(command, execute).err in {Some(EmptyMessage), Some(UnsafeMessage)}
            && ProcessCommand(command, execute).executed == []
            <==> !Safe(command)
  {
    if Safe(command) {
      assert ProcessCommand(command, execute).executed == [command];
    }
  }

  /** The executor of the table-driven test: only "invalid_command" fails. */
  function MockExecute(command: string): Option<string> {
    if command == "invalid_command" then Some("execution failed") else None
  }

  /** The four cases of the test table. */
  lemma TestTable()
    ensures ProcessCommand("ls", MockExecute) == Outcome(None, ["ls"])
    ensures ProcessCommand("", MockExecute) == Outcome(Some(EmptyMessage), [])
    ensures ProcessCommand("ls; rm -rf /", MockExecute) == Outcome(Some(UnsafeMessage), [])
    ensures ProcessCommand("invalid_command", MockExecute) == Outcome(Some("execution failed"), ["invalid_command"])
  {
    assert "ls; rm -rf /"[2] == ';';
  }
}
