# CodeIgniter 4 CLI command runner, modelled in Dafny

This project models `CodeIgniter\CLI\CommandRunner`, the controller behind
`php spark <command> [args...]`. It covers three parts:

- **Argument handling** (`_remap`, `index`), in `arguments.dfy`. An un-routed
  call's parameter list loses its first element when PHP's `empty()` holds of
  it: the element is missing, `""` or `"0"`. The next element names the
  command and the rest become its parameters. Only a missing name becomes
  `help`; an empty-string name is looked up as it is.
- **Discovery** (`createCommandList`), in `commands.dfy` and `discovery.dfy`.
  The `$commands` field is an ordered PHP array. It is modelled as
  `Commands.Table`: a map from command name to the record
  `{class, file, group, description}`, plus the order of its keys. The
  locator's listing is a sequence of `Discovery.Candidate` values. Each one
  holds the file, the class name it resolves to (possibly none), whether
  that class exists, and the `name`, `group` and `description` that the
  instantiated class carries.
  - Candidates whose class name is empty or whose class does not exist are
    skipped.
  - Candidates whose group is null are not stored.
  - Other candidates are stored under their name. Assigning to an existing
    key keeps that key's position, and the last candidate with a name wins.
  - Finally `asort` reorders the keys by their records. PHP compares the
    records field by field: `class`, then `file`, `group` and `description`.
  - An empty listing returns before anything happens, so the array is not
    even re-sorted.
- **Dispatch** (`runCommand`, `getCommands`), in `runner.dfy`. The class
  `Runner.CommandRunner` keeps `commands` and the terminal output as fields.
  A name that is not a key produces one error line
  `Command '<name>' not found`, then one blank line, and no result. A known
  name runs the stored class with the parameters. The result is the opaque
  value `Run(className, params)`, returned unchanged.

`php.dfy` holds the two pieces of PHP semantics these rely on: `empty()` on
a value that may be missing, and PHP's ordering of two non-numeric strings.
The project proves this ordering total, antisymmetric and transitive.

Three behaviours of the code are easy to misread:

- The registry is never cleared. Each discovery pass adds to what earlier
  passes on the same object found. An empty listing leaves the registry
  exactly as it was, not empty.
- `asort` orders the registry by the stored records (class name first), not
  by command name.
- `index` returns the command's result, but `_remap` calls `index` without
  returning what it gives back. A call routed through `_remap` therefore
  yields nothing to its caller. `Runner.CommandRunner.Remap` has no result
  for this reason.

## Model

| member | source | states |
|---|---|---|
| `Arguments.Shift` | system/CLI/CommandRunner.php:74 | `array_shift` yields no head exactly on an empty list, and putting the head back in front of the rest gives the original list |
| `Arguments.ShiftUnshift` | system/CLI/CommandRunner.php:74 | shifting undoes putting a head back, so `Shift` loses nothing in either direction |
| `Arguments.DropLeadingEmpty` | system/CLI/CommandRunner.php:59-67 | the result is the input or the input minus its first element; an element is dropped exactly when the list is non-empty and its first element is `""` or `"0"`; an empty list stays empty |
| `Arguments.RequestOf` | system/CLI/CommandRunner.php:72-83 | an empty list asks for `help` with no parameters; otherwise the command name followed by the parameters is exactly the original list, in order |
| `Arguments.EmptyNameIsNotHelp` | system/CLI/CommandRunner.php:78-81 | a present empty-string first element is looked up as `""`, not replaced by `help` |
| `Arguments.Route` | system/CLI/CommandRunner.php:59-83 | the request `_remap` hands to `index`: a PHP-empty first element is skipped and the rest read by `index`; any other list is read whole; an empty list or a single empty element asks for `help` |
| `Arguments.RouteDropsOnlyOnce` | system/CLI/CommandRunner.php:62-65 | only one leading empty element is dropped; a second `""` or `"0"` becomes the command name |
| `Arguments.RouteServe` | system/CLI/CommandRunner.php:59-83 | `["", "serve", "--port", "8080"]` names `serve` with parameters `["--port", "8080"]` |
| `Php.StrLeTotal` | system/CLI/CommandRunner.php:156 | any two strings are comparable under PHP's string order |
| `Php.StrLeAntisymmetric` | system/CLI/CommandRunner.php:156 | two strings each at most the other are equal |
| `Php.StrLeTransitive` | system/CLI/CommandRunner.php:156 | PHP's string order is transitive |
| `Commands.EntryLeTotal` | system/CLI/CommandRunner.php:156 | any two stored records are comparable under the field-by-field order `asort` uses |
| `Commands.EntryLeTransitive` | system/CLI/CommandRunner.php:156 | that field-by-field record order is transitive |
| `Commands.Table.Set` | system/CLI/CommandRunner.php:144-149 | storing under a name keeps every key exactly once in the key order; an existing name keeps its position and takes the new record; a new name is appended last |
| `Commands.Insert` | system/CLI/CommandRunner.php:156 | inserting a key into a key order adds exactly that key and keeps all the others |
| `Commands.SortKeys` | system/CLI/CommandRunner.php:156 | sorting a key order is a permutation of it |
| `Commands.InsertSorted` | system/CLI/CommandRunner.php:156 | inserting into a sorted key order keeps it sorted |
| `Commands.SortKeysSorted` | system/CLI/CommandRunner.php:156 | sorting yields keys whose records never decrease |
| `Commands.ASort` | system/CLI/CommandRunner.php:156 | `asort` keeps every key with its own record, only permutes the key order, and leaves the records in non-decreasing order |
| `Commands.SortKeysOfSorted` | system/CLI/CommandRunner.php:156 | sorting an already sorted key order returns it unchanged |
| `Commands.ASortOfSorted` | system/CLI/CommandRunner.php:156 | `asort` on an array already in order changes nothing |
| `Discovery.Step` | system/CLI/CommandRunner.php:132-150 | one pass of the scan loop: a loadable candidate with a group stores exactly its record under its name, keeping the array well formed; any other candidate leaves the array as it was |
| `Discovery.Register` | system/CLI/CommandRunner.php:130-154 | the scan loop keeps the array well formed and never removes a key |
| `Discovery.Discover` | system/CLI/CommandRunner.php:118-157 | an empty listing leaves the array unchanged (not even re-sorted); any other listing leaves it well formed and sorted by record |
| `Discovery.RegisterKeys` | system/CLI/CommandRunner.php:132-150 | after the scan a name is a key exactly when it was one before or some loadable candidate with a non-null group carries it |
| `Discovery.RegisterUntouched` | system/CLI/CommandRunner.php:144 | a key that no eligible candidate names keeps its old record |
| `Discovery.RegisterLastWins` | system/CLI/CommandRunner.php:144-149 | the last eligible candidate with a name decides that name's record, which is exactly `{class, file, group, description}` of that candidate |
| `Discovery.RegisterIgnoresIneligible` | system/CLI/CommandRunner.php:134-142 | removing every candidate whose class is unresolvable, missing, or has a null group leaves the scan's result identical |
| `Discovery.RegisterOverrides` | system/CLI/CommandRunner.php:130-154 | the records after a scan are the old records overridden by the records the same scan produces from an empty array |
| `Discovery.RegisterKnownNames` | system/CLI/CommandRunner.php:144 | when every eligible name is already a key, the scan moves no key and appends none |
| `Discovery.RegisterAgain` | system/CLI/CommandRunner.php:130-154 | scanning again an array that already holds a scan's records leaves it unchanged |
| `Discovery.DiscoverIdempotent` | system/CLI/CommandRunner.php:118-157 | a second discovery over the same listing leaves the array exactly as the first left it |
| `Discovery.GrouplessNeverStored` | system/CLI/CommandRunner.php:142-150 | a name carried only by candidates without a group, or without a loadable class, never becomes a key |
| `Runner.NotFound` | system/CLI/CommandRunner.php:97-98 | the not-found report is one error line, `Command '` then the name then `' not found`, followed by one blank line |
| `Runner.Dispatch` | system/CLI/CommandRunner.php:95-107 | there is no result exactly when the name is not a key; then the report is the not-found lines; a found name yields the stored class run with the parameters unchanged and reports nothing |
| `Runner.CommandRunner.constructor` | system/CLI/CommandRunner.php:48 | a new runner starts with an empty, well-formed registry and no output |
| `Runner.CommandRunner.Remap` | system/CLI/CommandRunner.php:59-68 | discovery runs over the listing, and the output grows by what dispatching the routed request reports; no result is returned |
| `Runner.CommandRunner.Index` | system/CLI/CommandRunner.php:72-84 | discovery runs before the lookup, whatever the name; the result and the new output are those of dispatching the request the list names against the new registry |
| `Runner.CommandRunner.RunCommand` | system/CLI/CommandRunner.php:93-108 | the registry is unchanged; an unknown name appends exactly the not-found lines and returns nothing; a known name returns the stored class run with the parameters and writes nothing |
| `Runner.CommandRunner.CreateCommandList` | system/CLI/CommandRunner.php:118-157 | the registry becomes the discovery of the listing from its old contents, and nothing is written to the terminal |
| `Runner.CommandRunner.GetCommands` | system/CLI/CommandRunner.php:166-169 | returns the registry as it stands, records and key order |
| `Runner.ServeScenario` | system/CLI/CommandRunner.php:72-157 | with `serve`, an unresolvable file and `migrate` listed in that order, discovery orders the keys `migrate`, `serve`, and `["", "serve", "--port", "8080"]` runs the `serve` class with `["--port", "8080"]` |
| `Runner.HelpScenario` | system/CLI/CommandRunner.php:78-99 | `[""]` asks for `help`; without a `help` command the only output is `Command 'help' not found` and a blank line, and there is no result |

## Left out

- The service locator (`listFiles`, `findQualifiedNameFromPath`) and the filesystem scan are outside calls. Their results are the `Candidate` sequence passed in.
- PHP autoloading, `class_exists` and `new $className($this->logger, $this)` are reflection. The candidate record carries whether the class exists and the metadata the instance would expose. Construction is treated as free of side effects.
- The bodies of the commands' `run` methods are opaque. The model returns `Run(className, params)` in their place, and exceptions they might throw are not modelled.
- `CLI::error` writes to standard error and `CLI::newLine` writes a line break; how and where they print is left out. The model appends `ErrorLine` and `BlankLine` events to the `output` field.
- The logger and the `Controller` base class play no part in the behaviour and are not modelled. The `$method` argument of `_remap` is kept as an unused parameter, as in the source.
- `createCommandList` is called with an argument it does not declare. PHP ignores the argument, so the model's `CreateCommandList` does not take it.
- Commands.EntryLe: PHP compares two numeric strings (such as `"10"` and `"9"`) as numbers. The model compares every string character by character. Class names and file paths are not numeric in practice.
- PHP stores a numeric-string key such as `"5"` as an integer key. Lookups are the same either way, so the model keeps every key a string.
- Commands.ASort: the model breaks ties in a stable way, as PHP 8 does; older PHP versions did not promise a tie order. A tie needs two names with identical records (class, file, group and description all equal).
- The candidates' `name`, `group` and `description` are typed as strings (with `group` possibly null). PHP would accept other types in these properties.
