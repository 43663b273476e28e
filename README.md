# A verified model of `KubeManager` (ansible_kube)

`kube.py` is an Ansible module that drives `kubectl`. Its `KubeManager` class
does three things, and this project models each of them in Dafny:

- It assembles an argument vector from sparse options (`_flags`).
- It runs that vector and reads the exit code, stdout and stderr into the
  `results` record: `changed`, `meta` and `msg` (`_execute`).
- It decides whether a probe runs and whether the main command runs, and
  with which verb (`_exists`, `create`, `delete`).

The project has two modules:

- `text.dfy`, module `Text`: the Python 2 `str` operations the manager relies
  on, over `seq<char>`. These are `split()`, `splitlines()`, `strip()`,
  `sep.join`, the substring test `x in y` and `str(int)`. Each one comes with
  properties that characterise it:
  - `split()` and `' '.join` form a round trip over words;
  - `sep.join` adds the separator and the next string at each step;
  - `splitlines()` gives back lines ended by `\n`, `\r\n` or `\r`, and keeps an
    unterminated last line;
  - `str(n)` has no leading zero and reads back as `n`;
  - `strip()` is pinned down by what it removes.
- `kube.dfy`, module `Kube`: the parameters, the `results` record and the
  outcome of a process launch as datatypes. `KubeManager` is a class:
  - the options are `const` fields, fixed by the constructor;
  - `command`, `results` and the log `issued` of launched argument vectors
    are `var` fields that the methods update.

The world outside the module is passed to the constructor:

- `runCommand(n, args)` is what the n-th call of `module.run_command(args)`
  reports. It is either an exit with `(rc, out, err)` or a raised exception.
- `findAll(pattern, text)` is what `re.findall` returns, or the error it
  raises.
- `isDirectory` answers `os.path.isdir`.
- The path that `get_bin_path` finds is a plain argument.

A call of `fail_json` ends the run. Here it is a `Fail`/`Err` value that each
caller returns at once.

The model follows the code wherever it differs from the module's
documentation or from what a reader might expect:

- The changed test at kube.py:184 asks whether some stdout token lies INSIDE a
  change word (`x in item`), not the reverse. So output as short as `e` marks
  the run changed (`LoneLetterScenario`). No token longer than eight
  characters ever does, e.g. `configured` or `unchanged`
  (`LongTokensKeepChanged`).
- `filter` is Python 2's, which returns a list, so the test is whether the
  list is non-empty.
- A probe (`exists=True`) tolerates every non-zero exit, not only
  "not found". Any tolerated exit other than "not found" overwrites `meta`.
- The probe also sets `changed` and `msg`, like any unfiltered run.
- `create` probes even when the verb is a read-only one.
- `changed` is never reset to false.
- The success message names `self.command`, even after a probe. So a
  `present` on an existing resource with `command` `apply` launches only
  `get`, yet reports "successfully ran kubectl (apply) command"
  (`ProbeReportsCommand`).
- A probe that finds nothing leaves `changed` as it was, so `absent` on a
  missing resource reports no change (`EmptyProbeKeepsChanged`).
- The guard `meta != []` on line 184 adds nothing beyond the token test:
  `splitlines` of an output is empty only when the output is empty, and then
  there are no tokens (`MarksChangeHasLines`).

## Model

| member | source | states |
|---|---|---|
| Kube.KubeManager.constructor | kube.py:136-169 | the binary is the `kubectl` option or else the looked-up path; `resource`, `keyvars` and `filename` are the parameters stripped element by element; `isdir` holds iff there is a first file and it is a directory; `results` starts as `{changed: False, meta: [], msg: ''}`; nothing has been launched |
| Kube.KubeManager.HasTarget | kube.py:199-200 | there is something to act on: a file or a resource type |
| Kube.StripEach | kube.py:143-147 | the list comprehension `[x.strip() for x in xs]` keeps the length and strips every element in place |
| Text.Strip | kube.py:143-147 | the result is empty iff the input is all whitespace; otherwise it begins and ends with non-whitespace and occurs in the input with only whitespace before and after it |
| Text.StripIdempotent | kube.py:143-147 | stripping a stripped string changes nothing |
| Kube.KubeManager.Flags | kube.py:198-233 | fails with "filename or resource required" exactly when there is neither a file nor a resource; otherwise returns the vector `ArgVector(cmd, probe)` |
| Kube.KubeManager.ArgVector | kube.py:198-233 | the vector is longer than `cmd` and starts with `cmd`, and it extends the positional-then-options body |
| Kube.KubeManager.AppendPositional | kube.py:201-212 | after `cmd` come the resources (only the first on a probe), the name if set, the key=value pairs (none on a probe), then one `--filename=` token with the files comma-joined |
| Kube.KubeManager.AppendOptions | kube.py:213-230 | the option flags follow in the fixed order kubeconfig, namespace, selector, server, ignore-not-found, overwrite, force, all, `--v=`, each only when its option is set |
| Kube.KubeManager.AppendValueOptions | kube.py:213-220 | the four valued options follow the positional tokens in the order kubeconfig, namespace, selector, server, each as `--name=value` and only when set |
| Kube.KubeManager.OptionFlagPresence | kube.py:213-230 | each option flag is among the option tokens exactly when its option is set; a log level of 0 emits no `--v=` token |
| Kube.KubeManager.InOptionTokens | kube.py:213-230 | a token is among the option flags iff it is one of the nine flags and that flag's option is set |
| Kube.KubeManager.NoHeadersExactlyForGet | kube.py:231-232 | `--no-headers` is appended, as the last token, exactly when the verb is `get`; otherwise the vector ends with the options |
| Kube.KubeManager.ProbeNarrowsMain | kube.py:201-210 | the probe names only the first resource and no key=value pair, so it is shorter than the main vector by the extra resources and the pairs; with at most one resource and no pairs the two are equal |
| Kube.KubeManager.ApplyFileScenario | kube.py:211-212 | `apply` on the single file `pod.yml` gives `apply --filename=pod.yml`; `get` adds `--no-headers` |
| Kube.KubeManager.Interpret | kube.py:171-188 | a raised launch fails with the exception message; a non-zero exit that neither a probe nor a directory tolerates fails with the rc/out/err message; a probe answered "not found" returns with the results untouched; a filtered run sets `meta` to the regex matches; an unfiltered run sets `meta` to the lines of stdout and `msg` to the success message, and sets `changed` iff it was set already or a stdout token lies inside a change word; a failure never alters the results |
| Kube.KubeManager.Execute | kube.py:171-188 | launches `base_cmd + cmd` exactly once, logging it, and leaves the status and results that `Interpret` gives for that launch's outcome |
| Kube.FailureMessage | kube.py:176 | the failure message reports the space-joined command line, the exit code in decimal, stdout and stderr |
| Kube.ExceptionMessage | kube.py:188 | the exception message reports the space-joined command line and the exception text |
| Kube.SuccessMessage | kube.py:186 | the success message names the manager's `command`; on a probe that is not the verb that ran (`get`) |
| Kube.SuccessMessageNamesVerb | kube.py:186 | two success messages are equal exactly when they name the same verb |
| Kube.KubeManager.NotFoundAnswer | kube.py:177-178 | any stderr whose last two whitespace-separated tokens are `not` and `found`, whatever precedes them, makes a failing probe return with the results unchanged |
| Kube.KubeManager.NotFoundLine | kube.py:177-178 | words followed by `not found` and trailing whitespace, such as a newline, make a failing probe return with the results unchanged |
| Kube.KubeManager.ReportLineScenario | kube.py:182-186 | a newline-ended report line such as `replicationcontroller "nginx" created` whose words include a change word marks the results changed, becomes the only line of `meta` and sets the success message |
| Kube.KubeManager.ReportLineLines | kube.py:183 | words joined by spaces and ended by a newline are exactly one line |
| Kube.KubeManager.ReportLineMarksChange | kube.py:184 | such a line with a change word among its words passes the changed test |
| Kube.KubeManager.MarksChange | kube.py:184 | the changed test: some token of stdout lies inside some change word |
| Kube.KubeManager.MarksChangeIsFilter | kube.py:184 | the test as written, a non-empty Python 2 `filter` over the change words, holds exactly when some stdout token lies inside some change word |
| Kube.KubeManager.LongTokensKeepChanged | kube.py:184-185 | output whose tokens are all longer than every change word leaves `changed` as it was |
| Kube.KubeManager.MarksChangeHasLines | kube.py:184 | an output that passes the token test always has a line, so the `meta != []` guard never decides the outcome |
| Kube.KubeManager.LoneLetterScenario | kube.py:184-185 | the one-letter output `e` marks the results changed, on a probe too, because the test is token-inside-word |
| Kube.KubeManager.Exists | kube.py:190-196 | fails as `_flags` does without a target; otherwise it launches exactly the `get` probe vector and reports whether `meta` is non-empty after it, or the probe's failure |
| Kube.KubeManager.RunMain | kube.py:243-245 | the shared tail of `create` and `delete`: fails without a target and launches nothing; otherwise launches exactly `[command] + flags` once and leaves what `Interpret` gives for it |
| Kube.KubeManager.Create | kube.py:238-245 | the verb `delete` is refused before anything runs; with `check` the probe runs first, even for read-only verbs, and the main command is skipped exactly when the probe found something and the verb is not read-only; otherwise `[command] + flags` runs; at most two launches |
| Kube.KubeManager.Delete | kube.py:247-253 | unless forced, the probe runs first, and an empty probe ends the call with one launch and `command` unchanged; otherwise `command` becomes `delete` and a vector starting with `delete` runs |
| Kube.KubeManager.EmptyProbeKeepsChanged | kube.py:182-184 | a probe that passes with an empty `meta` leaves `changed` as it was, so `delete` on a missing resource reports no change |
| Kube.KubeManager.ProbeReportsCommand | kube.py:186 | a passing unfiltered probe launches `get` but reports the success message of the manager's `command`, which differs from that of `get` unless `command` is `get` |
| Kube.AnyTokenIn | kube.py:184 | `any(x in item for x in tokens)` holds iff some token occurs inside `item` |
| Kube.WordsHit | kube.py:184 | Python 2 `filter` keeps exactly the change words that some token lies inside |
| Text.Contains | kube.py:184 | `needle in hay` holds iff the needle occurs at some position of the haystack |
| Text.ContainsNeedsRoom | kube.py:184 | a token longer than a word never lies inside it |
| Text.Split | kube.py:177 | `str.split()` yields non-empty whitespace-free tokens, and none at all iff the string is all whitespace |
| Text.SplitJoin | kube.py:177 | splitting words joined by single spaces gives the words back |
| Text.SplitJoinThen | kube.py:177 | words joined by single spaces, then text that is empty or starts with whitespace, split into those words followed by the words of the text |
| Text.SplitJoinNewline | kube.py:184 | a newline-ended line of space-joined words splits into exactly those words |
| Text.SplitSkipsSpace | kube.py:177 | leading whitespace does not change the tokens of `split()` |
| Text.Join | kube.py:212 | `sep.join` of no strings is empty and of one string is that string |
| Text.JoinSnoc | kube.py:176 | `sep.join` of a non-empty list with one more string is the old join, the separator, then the new string |
| Text.LastTwo | kube.py:177 | `xs[-2:]` has the last two elements, or all of them when there are fewer |
| Text.EndsWithNotFound | kube.py:177 | the test `' '.join(err.split()[-2:]) == 'not found'` |
| Text.EndsWithNotFoundMeans | kube.py:177 | `' '.join(err.split()[-2:]) == 'not found'` holds iff `err` has at least two tokens and the last two are `not` and `found` |
| Text.EndsWithNotFoundJoin | kube.py:177 | any words followed by `not found` and trailing whitespace pass that test |
| Text.SplitLines | kube.py:183 | `splitlines()` is empty iff the text is empty, and no line holds a line boundary |
| Text.SplitLinesOneLine | kube.py:183 | a non-empty text without line boundaries is one line |
| Text.SplitLinesNewline | kube.py:183 | a line without line boundaries, ended by `\n`, is one line |
| Text.SplitLinesAfter | kube.py:183 | a line, one terminator, then more text splits into that line followed by the lines of the text; when the terminator is `\r`, the text must not start with `\n`, since `\r\n` is one boundary |
| Text.JoinedWordsOneLine | kube.py:183 | words joined by spaces contain no line boundary |
| Text.SplitLinesTerminated | kube.py:183 | lines ended by `\n`, by `\r\n` (one boundary) or by `\r` split back into those lines, and a last line without a terminator is kept as one more line |
| Text.NatToString | kube.py:176 | the decimal notation is non-empty, made of digits, and starts with `0` only for 0, whose notation is exactly `0` |
| Text.ParseNatToString | kube.py:230 | the decimal notation of a natural number reads back as that number |
| Text.IntToStringReadsBack | kube.py:230 | `str(i)` starts with `-` exactly for negative `i`, followed by the digits of the magnitude, and is canonical: no leading zero after the sign, and `0` only for zero, which is written `0` |

## Left out

- `module.run_command`, `module.get_bin_path`, `os.path.isdir` and `re.findall` are process, filesystem and regex machinery. They are oracles or constructor arguments (see above). The `_filter` helper (kube.py:235-236) is the `findAll` oracle.
- Kube.KubeManager.constructor: a failing `get_bin_path('kubectl', True)` is not modelled; the path is taken as given.
- `main` (kube.py:255-293) is not modelled: the `AnsibleModule` argument spec, its defaults and mutual exclusions, the `state` dispatch and `exit_json`. The `latest` branch assigns to an undefined `self`, so it raises `NameError` before `create(check=False)`. `Create(false)` models only the call itself.
- The `DOCUMENTATION` and `EXAMPLES` strings are not modelled.
- Kube.FailureMessage: the contract states what the message reports, not its exact wording around those parts; the wording is in the definition.
- Kube.ExceptionMessage: the same; the contract names the parts the message reports.
- Kube.SuccessMessage: the same; the contract says only that the verb is named.
- Whitespace and line boundaries are those of a Python 2 byte string (ASCII). Unicode whitespace and the extra line boundaries of `unicode.splitlines` are not modelled.
- An unset string option (`None`) and the empty string are one value `""`, because the manager only tests them for truth. An unset list is `[]`.
- `issued` is a real field rather than a ghost log, because it also numbers the launches that `runCommand` answers.
- Kube.KubeManager.Flags: the body of `_flags` is split into `AppendPositional` and `AppendOptions`. Together they append the same tokens in the same order. The result is a new sequence rather than the caller's list mutated in place; no caller reuses that list.
- The import side effects of `json` and `re` (kube.py:167-169) have no observable behaviour and are left out.
