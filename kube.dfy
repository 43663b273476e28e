/**
 A model of `KubeManager` from kube.py, the Ansible module that runs `kubectl`.

 The manager turns a sparse set of options into a `kubectl` argument vector
 (`Flags`), runs it and reads the exit code and output into the `results`
 record (`Execute`), probes whether the target already exists (`Exists`) and
 decides, for `state: present` and `state: absent`, whether the main command
 runs at all (`Create`, `Delete`).

 The world outside the module is given to the manager when it is built:
 `runCommand(n, args)` is what the n-th call of `module.run_command(args)`
 reports, `findAll(pattern, text)` is what `re.findall` returns (or the error
 it raises), and `isDirectory` answers `os.path.isdir`. Every argument vector
 handed to `run_command` is appended to `issued`, so the contracts can say
 how many external invocations an operation makes and which ones.
 A call of `fail_json`, which ends the module run, is a `Fail`/`Err` value that
 each caller hands straight back.
 */
module Kube {
  import opened Text

  datatype Option<T> = None | Some(value: T)

  /** The end of a step: carry on, or stop the run through `fail_json(msg)`. */
  datatype Status = Pass | Fail(msg: string)

  /** A value, or the message of the `fail_json` call that replaced it. */
  datatype Result<T> = Ok(value: T) | Err(msg: string)

  /** What `module.run_command(args)` does: the process exits with a code and
      its captured stdout and stderr, or the call raises an exception. */
  datatype Launch = Exited(rc: int, out: string, err: string) | Raised(reason: string)

  /** The `results` dictionary that the module finally hands to `exit_json`. */
  datatype Results = Results(changed: bool, meta: seq<string>, msg: string)

  /** A status together with the results it leaves behind. */
  datatype Step = Step(status: Status, results: Results)

  /** The module parameters the manager reads. An unset string option (None)
      and an empty string are alike to the manager, which only tests them for
      truth, so both are "" here; an unset list is []. Only `kubectl` tells
      None apart from a value. */
  datatype Params = Params(
    kubectl: Option<string>,
    command: string,
    resource: seq<string>,
    name: string,
    keyvars: seq<string>,
    filter: string,
    filename: seq<string>,
    namespace: string,
    labels: string,
    server: string,
    kubeconfig: string,
    ignore: bool,
    overwrite: bool,
    force: bool,
    all: bool,
    logLevel: int)

  const TargetRequired := "filename or resource required"
  const DeleteViaAbsent := "use state=absent instead of command=delete"

  /** The message of `fail_json` after a non-zero exit that nothing tolerates:
      it reports the command line, the exit code, stdout and stderr. */
  function FailureMessage(args: seq<string>, rc: int, out: string, err: string): (r: string)
    ensures Contains(r, Join(" ", args)) && Contains(r, IntToString(rc))
    ensures Contains(r, out) && Contains(r, err)
  {
    var cmd, code := Join(" ", args), IntToString(rc);
    var p1 := "error running kubectl (" + cmd;
    var p2 := p1 + ") command (rc=";
    var p3 := p2 + code;
    var p4 := p3 + "), out='";
    var p5 := p4 + out;
    var p6 := p5 + "', err='";
    var p7 := p6 + err;
    ContainsEnd("error running kubectl (", cmd);
    ContainsEnd(p2, code);
    ContainsEnd(p4, out);
    ContainsEnd(p6, err);
    ContainsGrows(p1, ") command (rc=");
    ContainsGrows(p2, code);
    ContainsGrows(p3, "), out='");
    ContainsGrows(p4, out);
    ContainsGrows(p5, "', err='");
    ContainsGrows(p6, err);
    ContainsGrows(p7, "'");
    p7 + "'"
  }

  /** The message of `fail_json` when running or reading the command raised:
      it reports the command line and the exception. */
  function ExceptionMessage(args: seq<string>, reason: string): (r: string)
    ensures Contains(r, Join(" ", args)) && Contains(r, reason)
  {
    var cmd := Join(" ", args);
    var p1 := "error running kubectl (" + cmd;
    var p2 := p1 + ") command: ";
    ContainsEnd("error running kubectl (", cmd);
    ContainsGrows(p1, ") command: ");
    ContainsGrows(p2, reason);
    ContainsEnd(p2, reason);
    p2 + reason
  }

  /** The `msg` of a successful run: it names the verb. */
  function SuccessMessage(verb: string): (r: string)
    ensures Contains(r, verb)
  {
    ContainsEnd("successfully ran kubectl (", verb);
    ContainsGrows("successfully ran kubectl (" + verb, ") command");
    "successfully ran kubectl (" + verb + ") command"
  }

  /** Different verbs give different success messages. */
  lemma SuccessMessageNamesVerb(a: string, b: string)
    ensures SuccessMessage(a) == SuccessMessage(b) <==> a == b
  {
    var m, n := SuccessMessage(a), SuccessMessage(b);
    var k := |"successfully ran kubectl ("|;
    assert |m| == k + |a| + |") command"|;
    assert |n| == k + |b| + |") command"|;
    assert m[k..k + |a|] == a;
    assert n[k..k + |b|] == b;
  }

  /** The list comprehension `[x.strip() for x in xs]`. */
  function StripEach(xs: seq<string>): (r: seq<string>)
    ensures |r| == |xs|
    ensures forall i :: 0 <= i < |xs| ==> r[i] == Strip(xs[i])
  {
    seq(|xs|, i requires 0 <= i < |xs| => Strip(xs[i]))
  }

  /** A token that is emitted only when its option is set. */
  function When(on: bool, token: string): seq<string> {
    if on then [token] else []
  }

  /** Python's `any(x in item for x in tokens)`. */
  function AnyTokenIn(tokens: seq<string>, item: string): (r: bool)
    ensures r <==> exists k :: 0 <= k < |tokens| && Contains(item, tokens[k])
  {
    if tokens == [] then false
    else Contains(item, tokens[0]) || AnyTokenIn(tokens[1..], item)
  }

  /** Python 2's `filter(lambda item: any(x in item for x in tokens), words)`:
      the words that contain at least one of the tokens. */
  function WordsHit(words: seq<string>, tokens: seq<string>): (r: seq<string>)
    ensures |r| <= |words|
    ensures forall k :: 0 <= k < |r| ==> r[k] in words && AnyTokenIn(tokens, r[k])
    ensures forall k :: 0 <= k < |words| && AnyTokenIn(tokens, words[k]) ==> words[k] in r
  {
    if words == [] then []
    else When(AnyTokenIn(tokens, words[0]), words[0]) + WordsHit(words[1..], tokens)
  }

  class KubeManager {
    // the options, fixed once the manager is built
    const kubectl: string
    const baseCmd: seq<string>
    const resource: seq<string>
    const name: string
    const keyvars: seq<string>
    const filter: string
    const filename: seq<string>
    const namespace: string
    const selector: string      // the `label` option, sent as --selector
    const server: string
    const kubeconfig: string
    const ignore: bool
    const overwrite: bool
    const force: bool
    const all: bool
    const logLevel: int
    const isDir: bool
    const safeCommands: seq<string> := ["api-versions", "cluster-info", "describe", "explain", "get", "logs", "version"]
    const changedWords: seq<string> := ["created", "deleted", "labeled", "modified"]

    // the world outside the module
    const runCommand: (nat, seq<string>) -> Launch
    const findAll: (string, string) -> Result<seq<string>>

    // state the manager changes
    var command: string
    var results: Results
    var issued: seq<seq<string>>

    constructor (params: Params, binPath: string, isDirectory: string -> bool,
                 runCommand: (nat, seq<string>) -> Launch,
                 findAll: (string, string) -> Result<seq<string>>)
      ensures kubectl == (if params.kubectl.Some? then params.kubectl.value else binPath)
      ensures baseCmd == [kubectl]
      ensures command == params.command
      ensures |resource| == |params.resource|
      ensures forall i :: 0 <= i < |resource| ==> resource[i] == Strip(params.resource[i])
      ensures |keyvars| == |params.keyvars|
      ensures forall i :: 0 <= i < |keyvars| ==> keyvars[i] == Strip(params.keyvars[i])
      ensures |filename| == |params.filename|
      ensures forall i :: 0 <= i < |filename| ==> filename[i] == Strip(params.filename[i])
      ensures name == params.name && filter == params.filter
      ensures namespace == params.namespace && selector == params.labels
      ensures server == params.server && kubeconfig == params.kubeconfig
      ensures ignore == params.ignore && overwrite == params.overwrite
      ensures force == params.force && all == params.all && logLevel == params.logLevel
      ensures isDir <==> filename != [] && isDirectory(filename[0])
      ensures this.runCommand == runCommand && this.findAll == findAll
      ensures results == Results(false, [], "")
      ensures issued == []
    {
      var bin := if params.kubectl.Some? then params.kubectl.value else binPath;
      var files := StripEach(params.filename);
      kubectl := bin;
      baseCmd := [bin];
      command := params.command;
      resource := StripEach(params.resource);
      name := params.name;
      keyvars := StripEach(params.keyvars);
      filter := params.filter;
      filename := files;
      namespace := params.namespace;
      selector := params.labels;
      server := params.server;
      kubeconfig := params.kubeconfig;
      ignore := params.ignore;
      overwrite := params.overwrite;
      force := params.force;
      all := params.all;
      logLevel := params.logLevel;
      results := Results(false, [], "");
      isDir := files != [] && isDirectory(files[0]);
      this.runCommand := runCommand;
      this.findAll := findAll;
      issued := [];
    }

    // -------------------------------------------------------------------------
    // Argument assembly
    // -------------------------------------------------------------------------

    /** Something to act on: a file or a resource type. */
    predicate HasTarget() {
      filename != [] || resource != []
    }

    /** The resource types to name: only the first on a probe. */
    function ResourceTokens(probe: bool): seq<string> {
      if resource == [] then [] else if probe then [resource[0]] else resource
    }

    /** The key=value pairs to pass: none on a probe. */
    function KeyvarTokens(probe: bool): seq<string> {
      if probe then [] else keyvars
    }

    /** One `--filename=` token with the files comma-joined, when there are files. */
    function FilenameTokens(): seq<string> {
      When(filename != [], "--filename=" + Join(",", filename))
    }

    /** The option flags, in their fixed order, each present only when set. */
    function OptionTokens(): seq<string> {
      When(kubeconfig != "", "--kubeconfig=" + kubeconfig)
      + When(namespace != "", "--namespace=" + namespace)
      + When(selector != "", "--selector=" + selector)
      + When(server != "", "--server=" + server)
      + When(ignore, "--ignore-not-found")
      + When(overwrite, "--overwrite")
      + When(force, "--force")
      + When(all, "--all")
      + When(logLevel != 0, "--v=" + IntToString(logLevel))
    }

    /** The vector before the trailing `--no-headers`: the given tokens, the
        resources, the name, the key=value pairs, the file list, the options. */
    function Body(cmd: seq<string>, probe: bool): seq<string> {
      cmd + ResourceTokens(probe) + When(name != "", name) + KeyvarTokens(probe)
        + FilenameTokens() + OptionTokens()
    }

    /** The argument vector `_flags(cmd, exists=probe)` returns. */
    function ArgVector(cmd: seq<string>, probe: bool): (v: seq<string>)
      requires HasTarget()
      ensures |v| > |cmd| && v[..|cmd|] == cmd
      ensures Body(cmd, probe) <= v
    {
      var b := Body(cmd, probe);
      assert |ResourceTokens(probe) + FilenameTokens()| > 0;
      b + When(b[0] == "get", "--no-headers")
    }

    /** Appending a token when its option is set keeps `v` equal to the
        positional part followed by the option tokens so far. */
    static lemma AppendWhen(v: seq<string>, positional: seq<string>, opts: seq<string>, on: bool, token: string)
      requires v == positional + opts
      ensures (if on then v + [token] else v) == positional + (opts + When(on, token))
    {
    }

    /** The option part of `_flags`: each flag appended, in its fixed order,
        when its option is set. */
    method AppendOptions(positional: seq<string>) returns (v: seq<string>)
      ensures v == positional + OptionTokens()
    {
      var valued := AppendValueOptions(positional);
      ghost var opts := valued[|positional|..];
      assert valued == positional + opts;
      v := valued;
      AppendWhen(v, positional, opts, ignore, "--ignore-not-found");
      if ignore {
        v := v + ["--ignore-not-found"];
      }
      opts := opts + When(ignore, "--ignore-not-found");
      AppendWhen(v, positional, opts, overwrite, "--overwrite");
      if overwrite {
        v := v + ["--overwrite"];
      }
      opts := opts + When(overwrite, "--overwrite");
      AppendWhen(v, positional, opts, force, "--force");
      if force {
        v := v + ["--force"];
      }
      opts := opts + When(force, "--force");
      AppendWhen(v, positional, opts, all, "--all");
      if all {
        v := v + ["--all"];
      }
      opts := opts + When(all, "--all");
      AppendWhen(v, positional, opts, logLevel != 0, "--v=" + IntToString(logLevel));
      if logLevel != 0 {
        v := v + ["--v=" + IntToString(logLevel)];
      }
      opts := opts + When(logLevel != 0, "--v=" + IntToString(logLevel));
      assert opts == OptionTokens();
    }

    /** The first four options of `_flags`, those that carry a value. */
    method AppendValueOptions(positional: seq<string>) returns (v: seq<string>)
      ensures v == positional
        + (When(kubeconfig != "", "--kubeconfig=" + kubeconfig)
           + When(namespace != "", "--namespace=" + namespace)
           + When(selector != "", "--selector=" + selector)
           + When(server != "", "--server=" + server))
    {
      v := positional;
      ghost var opts: seq<string> := [];
      AppendWhen(v, positional, opts, kubeconfig != "", "--kubeconfig=" + kubeconfig);
      if kubeconfig != "" {
        v := v + ["--kubeconfig=" + kubeconfig];
      }
      assert [] + When(kubeconfig != "", "--kubeconfig=" + kubeconfig) == When(kubeconfig != "", "--kubeconfig=" + kubeconfig);
      opts := When(kubeconfig != "", "--kubeconfig=" + kubeconfig);
      AppendWhen(v, positional, opts, namespace != "", "--namespace=" + namespace);
      if namespace != "" {
        v := v + ["--namespace=" + namespace];
      }
      opts := opts + When(namespace != "", "--namespace=" + namespace);
      AppendWhen(v, positional, opts, selector != "", "--selector=" + selector);
      if selector != "" {
        v := v + ["--selector=" + selector];
      }
      opts := opts + When(selector != "", "--selector=" + selector);
      AppendWhen(v, positional, opts, server != "", "--server=" + server);
      if server != "" {
        v := v + ["--server=" + server];
      }
    }

    /** The positional part of `_flags`: the resources (only the first when
        probing), the name, the key=value pairs (not when probing) and the
        comma-joined file list. */
    method AppendPositional(cmd: seq<string>, probe: bool) returns (v: seq<string>)
      ensures v == cmd + ResourceTokens(probe) + When(name != "", name) + KeyvarTokens(probe) + FilenameTokens()
    {
      v := cmd;
      if resource != [] {
        if probe {
          v := v + [resource[0]];
        } else {
          for i := 0 to |resource|
            invariant v == cmd + resource[..i]
          {
            v := v + [resource[i]];
          }
        }
      }
      assert v == cmd + ResourceTokens(probe);
      if name != "" {
        v := v + [name];
      }
      if keyvars != [] {
        if !probe {
          ghost var before := v;
          for i := 0 to |keyvars|
            invariant v == before + keyvars[..i]
          {
            v := v + [keyvars[i]];
          }
        }
      }
      assert v == cmd + ResourceTokens(probe) + When(name != "", name) + KeyvarTokens(probe);
      if filename != [] {
        v := v + ["--filename=" + Join(",", filename)];
      }
    }

    /** `_flags`: appends to `cmd` the tokens the options call for, or fails
        when there is neither a file nor a resource to act on. */
    method Flags(cmd: seq<string>, probe: bool) returns (r: Result<seq<string>>)
      ensures r.Err? <==> !HasTarget()
      ensures r.Err? ==> r.msg == TargetRequired
      ensures r.Ok? ==> HasTarget() && r.value == ArgVector(cmd, probe)
    {
      if filename == [] && resource == [] {
        return Err(TargetRequired);
      }
      var v := AppendPositional(cmd, probe);
      v := AppendOptions(v);
      assert v == Body(cmd, probe);
      if v[0] == "get" {
        v := v + ["--no-headers"];
      }
      r := Ok(v);
    }

    /** The probe differs from the main vector only in what it leaves out: it
        names the first resource type alone and no key=value pair; with at
        most one resource and no pairs the two vectors are the same. */
    lemma ProbeNarrowsMain(cmd: seq<string>)
      requires HasTarget() && cmd != []
      ensures resource != [] ==> ArgVector(cmd, true)[|cmd|] == resource[0]
      ensures |ArgVector(cmd, false)| == |ArgVector(cmd, true)|
        + (if resource == [] then 0 else |resource| - 1) + |keyvars|
      ensures |resource| <= 1 && keyvars == [] ==> ArgVector(cmd, true) == ArgVector(cmd, false)
    {
      var p, m := Body(cmd, true), Body(cmd, false);
      assert p[0] == cmd[0] && m[0] == cmd[0];
      var rest := |When(name != "", name)| + |FilenameTokens()| + |OptionTokens()|;
      assert |p| == |cmd| + |ResourceTokens(true)| + rest;
      assert |m| == |cmd| + |ResourceTokens(false)| + |keyvars| + rest;
      if |resource| <= 1 && keyvars == [] {
        assert ResourceTokens(true) == ResourceTokens(false);
      }
    }

    /** `--no-headers` is added, as the last token, exactly when the verb is
        `get`; otherwise the vector ends with the option flags. */
    lemma NoHeadersExactlyForGet(cmd: seq<string>, probe: bool)
      requires HasTarget() && cmd != []
      ensures var v := ArgVector(cmd, probe);
        cmd[0] == "get" <==> |v| == |Body(cmd, probe)| + 1
      ensures cmd[0] == "get" ==> ArgVector(cmd, probe)[|ArgVector(cmd, probe)| - 1] == "--no-headers"
      ensures cmd[0] != "get" ==> ArgVector(cmd, probe) == Body(cmd, probe)
    {
      assert Body(cmd, probe)[0] == cmd[0];
    }

    /** The first characters that tell the option flags apart. */
    static function FlagKey(t: string): (char, char) {
      if |t| < 5 then (' ', ' ') else (t[2], t[4])
    }

    /** The option tokens, each with the key that identifies it. */
    lemma OptionKeys()
      ensures FlagKey("--kubeconfig=" + kubeconfig) == ('k', 'b')
      ensures FlagKey("--namespace=" + namespace) == ('n', 'm')
      ensures FlagKey("--selector=" + selector) == ('s', 'l')
      ensures FlagKey("--server=" + server) == ('s', 'r')
      ensures FlagKey("--ignore-not-found") == ('i', 'n')
      ensures FlagKey("--overwrite") == ('o', 'e')
      ensures FlagKey("--force") == ('f', 'r')
      ensures FlagKey("--all") == ('a', 'l')
      ensures FlagKey("--v=" + IntToString(logLevel)).0 == 'v'
    {
      assert |IntToString(logLevel)| >= 1;
    }

    /** Membership in the option tokens, option by option. */
    lemma InOptionTokens(x: string)
      ensures x in OptionTokens() <==>
        || (kubeconfig != "" && x == "--kubeconfig=" + kubeconfig)
        || (namespace != "" && x == "--namespace=" + namespace)
        || (selector != "" && x == "--selector=" + selector)
        || (server != "" && x == "--server=" + server)
        || (ignore && x == "--ignore-not-found")
        || (overwrite && x == "--overwrite")
        || (force && x == "--force")
        || (all && x == "--all")
        || (logLevel != 0 && x == "--v=" + IntToString(logLevel))
    {
      var p := When(kubeconfig != "", "--kubeconfig=" + kubeconfig);
      InAppendWhen(x, p, namespace != "", "--namespace=" + namespace);
      p := p + When(namespace != "", "--namespace=" + namespace);
      InAppendWhen(x, p, selector != "", "--selector=" + selector);
      p := p + When(selector != "", "--selector=" + selector);
      InAppendWhen(x, p, server != "", "--server=" + server);
      p := p + When(server != "", "--server=" + server);
      InAppendWhen(x, p, ignore, "--ignore-not-found");
      p := p + When(ignore, "--ignore-not-found");
      InAppendWhen(x, p, overwrite, "--overwrite");
      p := p + When(overwrite, "--overwrite");
      InAppendWhen(x, p, force, "--force");
      p := p + When(force, "--force");
      InAppendWhen(x, p, all, "--all");
      p := p + When(all, "--all");
      InAppendWhen(x, p, logLevel != 0, "--v=" + IntToString(logLevel));
      p := p + When(logLevel != 0, "--v=" + IntToString(logLevel));
      assert p == OptionTokens();
    }

    static lemma InAppendWhen(x: string, s: seq<string>, on: bool, token: string)
      ensures x in s + When(on, token) <==> x in s || (on && x == token)
    {
    }

    /** Each option flag is emitted exactly when its option is set; a log
        level of 0 emits no `--v=` token. */
    lemma OptionFlagPresence()
      ensures ("--kubeconfig=" + kubeconfig in OptionTokens()) <==> kubeconfig != ""
      ensures ("--namespace=" + namespace in OptionTokens()) <==> namespace != ""
      ensures ("--selector=" + selector in OptionTokens()) <==> selector != ""
      ensures ("--server=" + server in OptionTokens()) <==> server != ""
      ensures ("--ignore-not-found" in OptionTokens()) <==> ignore
      ensures ("--overwrite" in OptionTokens()) <==> overwrite
      ensures ("--force" in OptionTokens()) <==> force
      ensures ("--all" in OptionTokens()) <==> all
      ensures ("--v=" + IntToString(logLevel) in OptionTokens()) <==> logLevel != 0
    {
      OptionKeys();
      InOptionTokens("--kubeconfig=" + kubeconfig);
      InOptionTokens("--namespace=" + namespace);
      InOptionTokens("--selector=" + selector);
      InOptionTokens("--server=" + server);
      InOptionTokens("--ignore-not-found");
      InOptionTokens("--overwrite");
      InOptionTokens("--force");
      InOptionTokens("--all");
      InOptionTokens("--v=" + IntToString(logLevel));
    }

    /** An example: `apply` on one file gives
        `apply --filename=pod.yml`, and `get` on it adds `--no-headers`. */
    lemma ApplyFileScenario()
      requires resource == [] && name == "" && keyvars == [] && filename == ["pod.yml"]
      requires kubeconfig == "" && namespace == "" && selector == "" && server == ""
      requires !ignore && !overwrite && !force && !all && logLevel == 0
      ensures ArgVector(["apply"], false) == ["apply", "--filename=pod.yml"]
      ensures ArgVector(["get"], false) == ["get", "--filename=pod.yml", "--no-headers"]
    {
      assert Join(",", filename) == "pod.yml";
      assert "--filename=" + "pod.yml" == "--filename=pod.yml";
      assert FilenameTokens() == ["--filename=pod.yml"];
      assert OptionTokens() == [];
      assert Body(["apply"], false) == ["apply", "--filename=pod.yml"];
      assert Body(["get"], false) == ["get", "--filename=pod.yml"];
      assert "apply"[0] != "get"[0];
    }

    // -------------------------------------------------------------------------
    // Result interpretation
    // -------------------------------------------------------------------------

    /** Some whitespace token of `out` occurs inside one of the change words. */
    predicate MarksChange(out: string) {
      var tokens := Split(out);
      exists i, k :: 0 <= i < |changedWords| && 0 <= k < |tokens| && Contains(changedWords[i], tokens[k])
    }

    /** The changed test as written, `filter(...)` over the change words being
        non-empty, holds exactly when some token lies inside some change word. */
    lemma MarksChangeIsFilter(out: string)
      ensures MarksChange(out) <==> WordsHit(changedWords, Split(out)) != []
    {
      var tokens := Split(out);
      if MarksChange(out) {
        var i, k :| 0 <= i < |changedWords| && 0 <= k < |tokens| && Contains(changedWords[i], tokens[k]);
        assert AnyTokenIn(tokens, changedWords[i]);
        assert changedWords[i] in WordsHit(changedWords, tokens);
      }
      if WordsHit(changedWords, tokens) != [] {
        var w := WordsHit(changedWords, tokens)[0];
        assert w in changedWords && AnyTokenIn(tokens, w);
      }
    }

    /** The guard `meta != []` never decides the changed test: an output with a
        token in it has at least one line. */
    lemma MarksChangeHasLines(out: string)
      requires MarksChange(out)
      ensures SplitLines(out) != []
    {
      assert Split(out) != [];
    }

    /** The exit was tolerated and was not a "not found" answer to a probe, so
        `meta` is overwritten from stdout. */
    predicate Overwrites(o: Launch, probe: bool) {
      o.Exited? && (o.rc == 0 || ((probe || isDir) && !(probe && EndsWithNotFound(o.err))))
    }

    /** What `_execute` makes of one outcome of `run_command(args)`, given the
        results so far and the verb the success message names. */
    function Interpret(o: Launch, args: seq<string>, probe: bool, prior: Results, verb: string): (s: Step)
      ensures o.Raised? ==> s == Step(Fail(ExceptionMessage(args, o.reason)), prior)
      ensures o.Exited? && o.rc != 0 && !probe && !isDir ==>
        s == Step(Fail(FailureMessage(args, o.rc, o.out, o.err)), prior)
      ensures o.Exited? && o.rc != 0 && probe && EndsWithNotFound(o.err) ==> s == Step(Pass, prior)
      ensures s.status.Fail? ==> s.results == prior
      ensures prior.changed ==> s.results.changed
      ensures !Overwrites(o, probe) ==> s.results == prior
      ensures Overwrites(o, probe) && filter != "" ==>
        s == match findAll(filter, o.out)
             case Ok(matches) => Step(Pass, prior.(meta := matches))
             case Err(reason) => Step(Fail(ExceptionMessage(args, reason)), prior)
      ensures Overwrites(o, probe) && filter == "" ==>
        && s.status == Pass
        && s.results.meta == SplitLines(o.out)
        && s.results.msg == SuccessMessage(verb)
        && (s.results.changed <==> prior.changed || MarksChange(o.out))
    {
      match o
      case Raised(reason) => Step(Fail(ExceptionMessage(args, reason)), prior)
      case Exited(rc, out, err) =>
        if rc != 0 && !(probe || isDir) then
          Step(Fail(FailureMessage(args, rc, out, err)), prior)
        else if rc != 0 && probe && EndsWithNotFound(err) then
          Step(Pass, prior)
        else if filter != "" then
          match findAll(filter, out)
          case Ok(matches) => Step(Pass, prior.(meta := matches))
          case Err(reason) => Step(Fail(ExceptionMessage(args, reason)), prior)
        else
          var lines := SplitLines(out);
          var tokens := Split(out);
          var hit := lines != [] && WordsHit(changedWords, tokens) != [];
          MarksChangeIsFilter(out);
          assert MarksChange(out) ==> lines != [] by {
            if MarksChange(out) {
              MarksChangeHasLines(out);
            }
          }
          Step(Pass, Results(if hit then true else prior.changed, lines, SuccessMessage(verb)))
    }

    /** `_execute`: runs `kubectl` with `cmd` and folds the outcome into
        `results`, or stops the run. */
    method Execute(cmd: seq<string>, probe: bool) returns (st: Status)
      modifies this
      ensures issued == old(issued) + [baseCmd + cmd]
      ensures command == old(command)
      ensures Step(st, results) ==
        Interpret(runCommand(|old(issued)|, baseCmd + cmd), baseCmd + cmd, probe, old(results), command)
    {
      var args := baseCmd + cmd;
      var o := runCommand(|issued|, args);
      issued := issued + [args];
      match o
      case Raised(reason) =>
        st := Fail(ExceptionMessage(args, reason));
      case Exited(rc, out, err) =>
        if rc != 0 && !(probe || isDir) {
          st := Fail(FailureMessage(args, rc, out, err));
        } else if rc != 0 && probe && EndsWithNotFound(err) {
          st := Pass;
        } else if filter != "" {
          var found := findAll(filter, out);
          match found
          case Err(reason) =>
            st := Fail(ExceptionMessage(args, reason));
          case Ok(matches) =>
            results := results.(meta := matches);
            st := Pass;
        } else {
          results := results.(meta := SplitLines(out));
          if results.meta != [] && WordsHit(changedWords, Split(out)) != [] {
            results := results.(changed := true);
          }
          results := results.(msg := SuccessMessage(command));
          st := Pass;
        }
    }

    /** A probe whose stderr ends in the words "not found", whatever comes
        before them and however they are spaced, leaves the results as they
        were. */
    lemma NotFoundAnswer(rc: int, out: string, err: string, args: seq<string>, prior: Results, verb: string)
      requires rc != 0
      requires |Split(err)| >= 2
      requires Split(err)[|Split(err)| - 2] == "not" && Split(err)[|Split(err)| - 1] == "found"
      ensures Interpret(Exited(rc, out, err), args, true, prior, verb) == Step(Pass, prior)
    {
      EndsWithNotFoundMeans(err);
    }

    /** The usual shape of that answer: words, then "not found", then a
        newline or other trailing whitespace. */
    lemma NotFoundLine(rc: int, out: string, prefix: seq<string>, tail: string,
                       args: seq<string>, prior: Results, verb: string)
      requires rc != 0
      requires forall k :: 0 <= k < |prefix| ==> IsWord(prefix[k])
      requires AllSpace(tail)
      ensures Interpret(Exited(rc, out, Join(" ", prefix + ["not", "found"]) + tail), args, true, prior, verb)
        == Step(Pass, prior)
    {
      EndsWithNotFoundJoin(prefix, tail);
    }

    /** A report line such as `replicationcontroller "nginx" created`, ended
        by a newline, whose words include a change word: the results become
        changed, the line is the only line of `meta`, and `msg` names the verb. */
    lemma ReportLineScenario(words: seq<string>, k: nat, args: seq<string>, probe: bool, prior: Results, verb: string)
      requires filter == ""
      requires forall j :: 0 <= j < |words| ==> IsWord(words[j])
      requires k < |words| && words[k] in changedWords
      ensures Interpret(Exited(0, Join(" ", words) + "\n", ""), args, probe, prior, verb)
        == Step(Pass, Results(true, [Join(" ", words)], SuccessMessage(verb)))
    {
      ReportLineLines(words);
      ReportLineMarksChange(words, k);
      assert Overwrites(Exited(0, Join(" ", words) + "\n", ""), probe);
    }

    /** A newline-ended report line is one line of `meta`. */
    lemma ReportLineLines(words: seq<string>)
      requires forall j :: 0 <= j < |words| ==> IsWord(words[j])
      ensures SplitLines(Join(" ", words) + "\n") == [Join(" ", words)]
    {
      JoinedWordsOneLine(words);
      SplitLinesNewline(Join(" ", words));
    }

    /** A newline-ended report line with a change word among its words passes
        the changed test. */
    lemma ReportLineMarksChange(words: seq<string>, k: nat)
      requires forall j :: 0 <= j < |words| ==> IsWord(words[j])
      requires k < |words| && words[k] in changedWords
      ensures MarksChange(Join(" ", words) + "\n")
    {
      var out := Join(" ", words) + "\n";
      SplitJoinNewline(words);
      var i :| 0 <= i < |changedWords| && changedWords[i] == words[k];
      ContainsSelf(words[k]);
      MarksChangeAt(out, i, k);
    }

    /** A token inside one change word is enough for the changed test. */
    lemma MarksChangeAt(out: string, i: nat, k: nat)
      requires i < |changedWords| && k < |Split(out)|
      requires Contains(changedWords[i], Split(out)[k])
      ensures MarksChange(out)
    {
    }

    /** Output whose every token is longer than the longest change word never
        marks the results changed; kubectl's "configured" and "unchanged"
        reports are such tokens. */
    lemma LongTokensKeepChanged(out: string, args: seq<string>, probe: bool, prior: Results, verb: string)
      requires filter == ""
      requires forall k :: 0 <= k < |Split(out)| ==> |Split(out)[k]| > 8
      ensures Interpret(Exited(0, out, ""), args, probe, prior, verb).results.changed == prior.changed
    {
      var tokens := Split(out);
      forall i, k | 0 <= i < |changedWords| && 0 <= k < |tokens|
        ensures !Contains(changedWords[i], tokens[k])
      {
        assert |changedWords[i]| <= 8;
        ContainsNeedsRoom(changedWords[i], tokens[k]);
      }
    }

    /** Because a token only has to lie inside a change word, output as short
        as "e" marks the results changed, on a probe as well. */
    lemma LoneLetterScenario(args: seq<string>, probe: bool, verb: string)
      requires filter == ""
      ensures Interpret(Exited(0, "e", ""), args, probe, Results(false, [], ""), verb).results.changed
    {
      SplitJoin(["e"]);
      assert OccursAt(changedWords[0], "e", 2);
    }

    /** A probe that passes and leaves `meta` empty leaves `changed` as it
        was: no output, no token, nothing to match a change word. This is why
        `absent` on a missing resource reports no change. */
    lemma EmptyProbeKeepsChanged(o: Launch, args: seq<string>, prior: Results, verb: string)
      requires Interpret(o, args, true, prior, verb).status == Pass
      requires Interpret(o, args, true, prior, verb).results.meta == []
      ensures Interpret(o, args, true, prior, verb).results.changed == prior.changed
    {
      if Overwrites(o, true) && filter == "" {
        assert o.out == [];
        assert Split(o.out) == [];
      }
    }

    /** A passing probe reports the success message of the manager's
        `command`, not of the `get` it launched: unless `command` is `get`, the
        message names a verb that never ran. */
    lemma ProbeReportsCommand(out: string, prior: Results)
      requires filter == "" && HasTarget()
      ensures ProbeArgs()[|baseCmd|] == "get"
      ensures Interpret(Exited(0, out, ""), ProbeArgs(), true, prior, command).results.msg
        == SuccessMessage(command)
      ensures command != "get" ==>
        Interpret(Exited(0, out, ""), ProbeArgs(), true, prior, command).results.msg
        != SuccessMessage("get")
    {
      assert ProbeArgs()[|baseCmd|] == ArgVector(["get"], true)[0];
      SuccessMessageNamesVerb(command, "get");
    }

    // -------------------------------------------------------------------------
    // Lifecycle
    // -------------------------------------------------------------------------

    /** The full argument vector of the `get` probe. */
    function ProbeArgs(): seq<string>
      requires HasTarget()
    {
      baseCmd + ArgVector(["get"], true)
    }

    /** The full argument vector of the main command with `verb`. */
    function MainArgs(verb: string): seq<string>
      requires HasTarget()
    {
      baseCmd + ArgVector([verb], false)
    }

    /** The step that the n-th invocation, with `args`, leads to. */
    function Run(n: nat, args: seq<string>, probe: bool, prior: Results, verb: string): Step {
      Interpret(runCommand(n, args), args, probe, prior, verb)
    }

    /** `_exists`: runs the `get` probe and reports whether `meta` is non-empty
        afterwards. */
    method Exists() returns (r: Result<bool>)
      modifies this
      ensures command == old(command)
      ensures !HasTarget() ==> r == Err(TargetRequired) && issued == old(issued) && results == old(results)
      ensures HasTarget() ==>
        var p := Run(|old(issued)|, ProbeArgs(), true, old(results), command);
        && issued == old(issued) + [ProbeArgs()]
        && results == p.results
        && r == (if p.status.Fail? then Err(p.status.msg) else Ok(p.results.meta != []))
    {
      var flags := Flags(["get"], true);
      match flags
      case Err(msg) =>
        return Err(msg);
      case Ok(cmd) =>
        var st := Execute(cmd, true);
        if st.Fail? {
          return Err(st.msg);
        }
        return Ok(results.meta != []);
    }

    /** The tail that `create` and `delete` share: `_flags([command])`, then
        `_execute` on it. */
    method RunMain() returns (st: Status)
      modifies this
      ensures command == old(command)
      ensures !HasTarget() ==> st == Fail(TargetRequired) && issued == old(issued) && results == old(results)
      ensures HasTarget() ==>
        var m := Run(|old(issued)|, MainArgs(command), false, old(results), command);
        st == m.status && results == m.results && issued == old(issued) + [MainArgs(command)]
    {
      var flags := Flags([command], false);
      match flags
      case Err(msg) =>
        st := Fail(msg);
      case Ok(cmd) =>
        st := Execute(cmd, false);
    }

    /** `create` (state present, or latest with `check` false): refuses the
        `delete` verb; with `check` it probes first, even for a read-only verb,
        and stops when the probe found something and the verb is not
        read-only; otherwise it runs the verb. */
    method Create(check: bool) returns (st: Status)
      modifies this
      ensures command == old(command)
      ensures |old(issued)| <= |issued| <= |old(issued)| + 2
      ensures old(command) == "delete" ==>
        st == Fail(DeleteViaAbsent) && issued == old(issued) && results == old(results)
      ensures old(command) != "delete" && !HasTarget() ==>
        st == Fail(TargetRequired) && issued == old(issued) && results == old(results)
      ensures old(command) != "delete" && HasTarget() && !check ==>
        var m := Run(|old(issued)|, MainArgs(command), false, old(results), command);
        st == m.status && results == m.results && issued == old(issued) + [MainArgs(command)]
      ensures old(command) != "delete" && HasTarget() && check ==>
        var p := Run(|old(issued)|, ProbeArgs(), true, old(results), command);
        if p.status.Fail? then
          st == p.status && results == p.results && issued == old(issued) + [ProbeArgs()]
        else if p.results.meta != [] && command !in safeCommands then
          st == Pass && results == p.results && issued == old(issued) + [ProbeArgs()]
        else
          var m := Run(|old(issued)| + 1, MainArgs(command), false, p.results, command);
          st == m.status && results == m.results && issued == old(issued) + [ProbeArgs(), MainArgs(command)]
    {
      if command == "delete" {
        return Fail(DeleteViaAbsent);
      }
      if check {
        var found := Exists();
        match found
        case Err(msg) =>
          return Fail(msg);
        case Ok(present) =>
          if present && command !in safeCommands {
            return Pass;
          }
      }
      st := RunMain();
    }

    /** `delete` (state absent): unless forced, probes first and does nothing
        more when the probe found nothing; otherwise switches the verb to
        `delete` and runs it. */
    method Delete() returns (st: Status)
      modifies this
      ensures force ==> command == "delete"
      ensures !force && !HasTarget() ==>
        st == Fail(TargetRequired) && command == old(command)
        && issued == old(issued) && results == old(results)
      ensures force && !HasTarget() ==>
        st == Fail(TargetRequired) && issued == old(issued) && results == old(results)
      ensures force && HasTarget() ==>
        var m := Run(|old(issued)|, MainArgs("delete"), false, old(results), "delete");
        st == m.status && results == m.results && issued == old(issued) + [MainArgs("delete")]
      ensures !force && HasTarget() ==>
        var p := Run(|old(issued)|, ProbeArgs(), true, old(results), old(command));
        if p.status.Fail? then
          st == p.status && command == old(command) && results == p.results
          && issued == old(issued) + [ProbeArgs()]
        else if p.results.meta == [] then
          st == Pass && command == old(command) && results == p.results
          && issued == old(issued) + [ProbeArgs()]
        else
          var m := Run(|old(issued)| + 1, MainArgs("delete"), false, p.results, "delete");
          st == m.status && command == "delete" && results == m.results
          && issued == old(issued) + [ProbeArgs(), MainArgs("delete")]
    {
      if !force {
        var found := Exists();
        match found
        case Err(msg) =>
          return Fail(msg);
        case Ok(present) =>
          if !present {
            return Pass;
          }
      }
      command := "delete";
      st := RunMain();
    }
  }
}
