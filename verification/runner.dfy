/**
 * The `CommandRunner` controller: it keeps the `$commands` array between
 * calls, fills it by discovery, and dispatches a request to the command
 * stored under its name.
 */
module Runner {
  import opened Wrappers
  import opened Php
  import opened Commands
  import opened Discovery
  import opened Arguments

  /** What reaches the operator's terminal: `CLI::error($text)` and `CLI::newLine()`. */
  datatype Output = ErrorLine(text: string) | BlankLine

  /**
   * The value a command's `run($params)` returns, left opaque: it stands for
   * "what the class stored under the name returned when run with these parameters".
   */
  datatype Outcome = Run(className: string, params: seq<string>)

  /** The report for a name that has no command: one error line naming it, then one blank line. */
  function NotFound(command: string): (r: seq<Output>)
    ensures |r| == 2 && r[0].ErrorLine? && r[1] == BlankLine
    ensures var text := r[0].text; |text| == |command| + 20 && text[9..9 + |command|] == command
    ensures r[0].text[..9] == "Command '" && r[0].text[9 + |command|..] == "' not found"
  {
    [ErrorLine("Command '" + command + "' not found"), BlankLine]
  }

  /**
   * What `runCommand` does with a name, as values: the outcome of running the
   * class stored under the name, and the lines reported when there is none.
   */
  function Dispatch(t: Table, command: string, params: seq<string>): (r: (Option<Outcome>, seq<Output>))
    ensures r.0.None? <==> command !in t.entries
    ensures r.0.Some? ==> r.0.value == Run(t.entries[command].className, params) && r.1 == []
    ensures r.0.None? ==> r.1 == NotFound(command)
  {
    if command in t.entries then (Some(Run(t.entries[command].className, params)), [])
    else (None, NotFound(command))
  }

  class CommandRunner {
    /** `$this->commands`: the commands found so far, never cleared. */
    var commands: Table
    /** Everything written to the terminal so far. */
    var output: seq<Output>

    ghost predicate Valid()
      reads this
    {
      commands.Valid()
    }

    constructor ()
      ensures Valid()
      ensures commands == EmptyTable && output == []
    {
      commands := EmptyTable;
      output := [];
    }

    /**
     * `_remap($method, ...$params)`: drops an empty first parameter and hands
     * the rest to `index`, whose result it does not return.
     */
    method Remap(methodName: string, params: seq<string>, files: seq<Candidate>)
      requires Valid()
      modifies this
      ensures Valid()
      ensures commands == Discover(old(commands), files)
      ensures var q := Route(params);
        output == old(output) + Dispatch(commands, q.command, q.params).1
    {
      var rest := DropLeadingEmpty(params);
      var _ := Index(rest, files);
    }

    /**
     * `index($params)`: the first parameter names the command (`help` when
     * there is none), discovery runs, and the command is dispatched with the
     * remaining parameters.
     */
    method Index(params: seq<string>, files: seq<Candidate>) returns (r: Option<Outcome>)
      requires Valid()
      modifies this
      ensures Valid()
      ensures commands == Discover(old(commands), files)
      ensures var q := RequestOf(params);
        var d := Dispatch(commands, q.command, q.params);
        r == d.0 && output == old(output) + d.1
    {
      var shifted := Shift(params);
      CreateCommandList(files);
      var command := if shifted.head.None? then "help" else shifted.head.value;
      r := RunCommand(command, shifted.rest);
    }

    /**
     * `runCommand($command, $params)`: reports a name that has no command and
     * returns nothing; otherwise returns what the stored class's `run` returns.
     */
    method RunCommand(command: string, params: seq<string>) returns (r: Option<Outcome>)
      modifies this
      ensures commands == old(commands)
      ensures command !in commands.entries ==> r.None? && output == old(output) + NotFound(command)
      ensures command in commands.entries ==>
        r == Some(Run(commands.entries[command].className, params)) && output == old(output)
    {
      if command !in commands.entries {
        output := output + [ErrorLine("Command '" + command + "' not found")];
        output := output + [BlankLine];
        return None;
      }
      var className := commands.entries[command].className;
      r := Some(Run(className, params));
    }

    /**
     * `createCommandList()`: does nothing when the locator lists no file;
     * otherwise stores every loadable command that has a group under its name,
     * a later one overwriting an earlier one, and then applies `asort`.
     */
    method CreateCommandList(files: seq<Candidate>)
      requires Valid()
      modifies this
      ensures Valid()
      ensures commands == Discover(old(commands), files)
      ensures output == old(output)
    {
      if files == [] {
        return;
      }
      for i := 0 to |files|
        invariant commands.Valid()
        invariant commands == Register(old(commands), files[..i])
        invariant output == old(output)
      {
        assert files[..i + 1][..i] == files[..i];
        var file := files[i];
        if Empty(file.className) || !file.classExists {
          continue;
        }
        if file.group.Some? {
          commands := commands.Set(file.name,
            Entry(file.className.value, file.file, file.group.value, file.description));
        }
      }
      assert files[..|files|] == files;
      commands := ASort(commands);
    }

    /** `getCommands()`: the commands found so far, in their stored order. */
    method GetCommands() returns (t: Table)
      ensures t == commands
    {
      t := commands;
    }
  }

  /** The listing of the scenario below: `serve` first, then a file the locator cannot resolve, then `migrate`. */
  const ServeFile := Candidate("Commands/Serve.php", Some("Serve"), true, "serve", Some("CLI"), "Serves the app")
  const BrokenFile := Candidate("Commands/Broken.php", None, false, "", None, "")
  const MigrateFile := Candidate("Commands/Migrate.php", Some("Migrate"), true, "migrate", Some("Database"), "Migrates")

  /** The scan keeps `serve` and `migrate`, in listing order, and skips the unresolvable file. */
  lemma ScenarioScan()
    ensures Register(EmptyTable, [ServeFile, BrokenFile, MigrateFile]).keys == ["serve", "migrate"]
  {
    var files := [ServeFile, BrokenFile, MigrateFile];
    assert Eligible(ServeFile) && !Eligible(BrokenFile) && Eligible(MigrateFile);
    assert files[..2] == [ServeFile, BrokenFile] && files[..2][..1] == [ServeFile] && [ServeFile][..0] == [];
    var r1 := Register(EmptyTable, [ServeFile]);
    assert Register(EmptyTable, []) == EmptyTable;
    assert r1 == Step(EmptyTable, ServeFile);
    assert Step(EmptyTable, ServeFile) == EmptyTable.Set("serve", EntryOf(ServeFile));
    assert "serve" !in EmptyTable.entries;
    assert r1.keys == ["serve"];
    assert Register(EmptyTable, files[..2]) == r1;
  }

  /** Two keys whose records are out of order are swapped. */
  lemma SortTwo(m: map<string, Entry>, a: string, b: string)
    requires a in m && b in m && !EntryLe(m[a], m[b])
    ensures SortKeys(m, [a, b]) == [b, a]
  {
  }

  /** `asort` puts `migrate` (class `Migrate`) before `serve` (class `Serve`). */
  lemma ScenarioSort()
    ensures Discover(EmptyTable, [ServeFile, BrokenFile, MigrateFile]).keys == ["migrate", "serve"]
  {
    var files := [ServeFile, BrokenFile, MigrateFile];
    var r := Register(EmptyTable, files);
    ScenarioScan();
    RegisterLastWins(EmptyTable, files, 0);
    RegisterLastWins(EmptyTable, files, 2);
    var m := r.entries;
    assert m["serve"] == EntryOf(ServeFile) && m["migrate"] == EntryOf(MigrateFile);
    assert "Serve"[0] == 'S' && "Migrate"[0] == 'M';
    assert !EntryLe(m["serve"], m["migrate"]);
    SortTwo(m, "serve", "migrate");
  }

  /**
   * Two command files and one the locator cannot resolve, listed `serve`
   * first: discovery keeps the two commands, ordered by their records, and
   * the list `["", "serve", "--port", "8080"]` runs the `serve` class with
   * `["--port", "8080"]`.
   */
  lemma ServeScenario()
    ensures var t := Discover(EmptyTable, [ServeFile, BrokenFile, MigrateFile]);
      var q := Route(["", "serve", "--port", "8080"]);
      t.keys == ["migrate", "serve"] &&
      Dispatch(t, q.command, q.params) == (Some(Run("Serve", ["--port", "8080"])), [])
  {
    var files := [ServeFile, BrokenFile, MigrateFile];
    ScenarioSort();
    RegisterLastWins(EmptyTable, files, 0);
    assert Discover(EmptyTable, files).entries["serve"].className == "Serve";
    assert Route(["", "serve", "--port", "8080"]) == Request("serve", ["--port", "8080"]);
  }

  /**
   * A call with nothing after the routing token asks for `help`; when no
   * `help` command was found, the one thing reported is that it was not found.
   */
  lemma HelpScenario(t: Table)
    requires "help" !in t.entries
    ensures var q := Route([""]);
      q == Request("help", []) &&
      Dispatch(t, q.command, q.params) == (None, [ErrorLine("Command 'help' not found"), BlankLine])
  {
    assert "Command '" + "help" + "' not found" == "Command 'help' not found";
  }
}
