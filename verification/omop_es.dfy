/**
 * The command-line and git-ref plumbing of the omop_es workflow: the SHA
 * format check, the optional docker compose flags, the argument lists of the
 * image build and of the container run, the environment the run receives, and
 * the decisions taken while resolving a git ref to a commit SHA.  `docker`
 * and `git` are oracles: the model receives their return codes and output.
 */
module OmopEs {
  import opened Wrappers
  import opened Text
  import opened Subprocess

  // ---------------------------------------------------------------------
  // is_valid_sha: re.match(r"^[a-fA-F0-9]{7,40}$", sha)
  // ---------------------------------------------------------------------

  predicate IsHexDigit(c: char) {
    '0' <= c <= '9' || 'a' <= c <= 'f' || 'A' <= c <= 'F'
  }

  predicate AllHex(s: string) {
    forall k :: 0 <= k < |s| ==> IsHexDigit(s[k])
  }

  /** How many hex digits the greedy `[a-fA-F0-9]{..,limit}` consumes from the front of `s`. */
  function HexRun(s: string, limit: nat): (n: nat)
    ensures n <= limit && n <= |s|
    ensures AllHex(s[..n])
    ensures n < limit && n < |s| ==> !IsHexDigit(s[n])
  {
    if limit == 0 || s == [] || !IsHexDigit(s[0]) then 0
    else 1 + HexRun(s[1..], limit - 1)
  }

  /** Python's `$` without MULTILINE: the end of `s`, or just before a newline that ends it. */
  predicate EndAnchorAt(s: string, k: nat) {
    k == |s| || (k == |s| - 1 && s[k] == '\n')
  }

  /**
   * `is_valid_sha`.  The quantifier first takes as many hex digits as it can
   * (at most 40); giving any back cannot help, since the character it would
   * then face is a hex digit and `$` never matches before one.
   */
  predicate IsValidSha(sha: string)
    ensures IsValidSha(sha) ==> 7 <= |sha| <= 41 && IsHexDigit(sha[0])
  {
    var n := HexRun(sha, 40);
    7 <= n && EndAnchorAt(sha, n)
  }

  /** The pattern read literally: some repetition count from 7 to 40 is followed by `$`. */
  ghost predicate ShaPatternMatches(s: string) {
    exists n :: 7 <= n <= 40 && n <= |s| && AllHex(s[..n]) && EndAnchorAt(s, n)
  }

  /** The greedy reading agrees with the literal reading of the pattern. */
  lemma {:induction false} IsValidShaMatchesPattern(s: string)
    ensures IsValidSha(s) <==> ShaPatternMatches(s)
  {
    var g := HexRun(s, 40);
    if ShaPatternMatches(s) {
      var n :| 7 <= n <= 40 && n <= |s| && AllHex(s[..n]) && EndAnchorAt(s, n);
      assert n == g;
    }
  }
  /**
   * What `is_valid_sha` accepts: 7 to 40 hex digits and nothing else, or the
   * same followed by one final newline (which `$` lets through).
   */
  lemma {:induction false} ValidShaShape(s: string)
    ensures IsValidSha(s) <==>
            (7 <= |s| <= 40 && AllHex(s)) ||
            (8 <= |s| <= 41 && s[|s| - 1] == '\n' && AllHex(s[..|s| - 1]))
  {
    var g := HexRun(s, 40);
    assert s[..|s|] == s;
    if 8 <= |s| <= 41 && s[|s| - 1] == '\n' && AllHex(s[..|s| - 1]) {
      assert g == |s| - 1;
    }
  }
  /** Without a newline in it, a string is a valid SHA exactly when it is 7 to 40 hex digits. */
  lemma {:induction false} ValidShaWithoutNewline(s: string)
    requires '\n' !in s
    ensures IsValidSha(s) <==> 7 <= |s| <= 40 && AllHex(s)
  {
    ValidShaShape(s);
    if |s| > 0 {
      assert s[|s| - 1] in s;
    }
  }

  /** `$` lets one trailing newline through, but not two, and not a newline elsewhere. */
  lemma {:induction false} TrailingNewlineAccepted(h: string)
    requires 7 <= |h| <= 40 && AllHex(h)
    ensures IsValidSha(h + "\n")
    ensures !IsValidSha(h + "\n\n")
  {
    var one, two := h + "\n", h + "\n\n";
    ValidShaShape(one);
    assert one[..|one| - 1] == h;
    ValidShaShape(two);
    assert two[|h|] == '\n' && !IsHexDigit(two[|h|]);
    assert two[|h|] == two[..|two| - 1][|h|];
  }
  // ---------------------------------------------------------------------
  // dry_run_if, use_prod_if and the argument lists
  // ---------------------------------------------------------------------

  /** `dry_run_if`: the flags it yields. */
  function DryRunIf(condition: bool): (flags: seq<string>)
    ensures |flags| <= 1
    ensures condition <==> "--dry-run" in flags
  {
    if condition then ["--dry-run"] else []
  }

  /** `use_prod_if`: the flags it yields. */
  function UseProdIf(condition: bool): (flags: seq<string>)
    ensures condition <==> "docker-compose.prod.yml" in flags
    ensures flags != [] ==> |flags| == 2 && flags[0] == "-f"
  {
    if condition then ["-f", "docker-compose.prod.yml"] else []
  }

  /** Splicing each generator into a command, as the flag tests do. */
  lemma {:induction false} FlagsSplice(condition: bool, before: seq<string>, after: seq<string>)
    ensures before + DryRunIf(condition) + after ==
            if condition then before + ["--dry-run"] + after else before + after
    ensures before + UseProdIf(condition) + after ==
            if condition then before + ["-f", "docker-compose.prod.yml"] + after else before + after
    ensures |DryRunIf(condition)| == (if condition then 1 else 0)
    ensures |UseProdIf(condition)| == (if condition then 2 else 0)
  {
    assert before + [] + after == before + after;
  }

  /** The argument list `build_docker` hands to `run_subprocess`. */
  function BuildDockerArgs(isProd: bool, dryRun: bool, projectName: string, version: string): (args: seq<string>)
    ensures |args| == 8 + |UseProdIf(isProd)| + |DryRunIf(dryRun)|
    ensures args[0] == "docker" && args[|args| - 1] == "OMOP_ES_VERSION=" + version
  {
    ["docker", "compose"] + UseProdIf(isProd) + DryRunIf(dryRun)
    + ["--project-name", projectName, "build", "omop_es", "--build-arg", "OMOP_ES_VERSION=" + version]
  }

  /**
   * The build command: `docker compose`, then the production flags, then the
   * dry-run flag, then the project name, the service and the version build
   * argument, in that order.
   */
  lemma {:induction false} BuildDockerArgsShape(isProd: bool, dryRun: bool, projectName: string, version: string)
    ensures var args := BuildDockerArgs(isProd, dryRun, projectName, version);
      var flags := (if isProd then 2 else 0) + (if dryRun then 1 else 0);
      && |args| == 8 + flags
      && args[..2] == ["docker", "compose"]
      && args[2..2 + flags] == UseProdIf(isProd) + DryRunIf(dryRun)
      && args[2 + flags..] ==
         ["--project-name", projectName, "build", "omop_es", "--build-arg", "OMOP_ES_VERSION=" + version]
  {
    FlagsSplice(isProd, [], []);
    FlagsSplice(dryRun, [], []);
  }

  /** Different build requests never produce the same command line. */
  lemma {:induction false} BuildDockerArgsInjective(
    p1: bool, d1: bool, n1: string, v1: string,
    p2: bool, d2: bool, n2: string, v2: string)
    requires BuildDockerArgs(p1, d1, n1, v1) == BuildDockerArgs(p2, d2, n2, v2)
    ensures p1 == p2 && d1 == d2 && n1 == n2 && v1 == v2
  {
    var args := BuildDockerArgs(p1, d1, n1, v1);
    BuildDockerArgsShape(p1, d1, n1, v1);
    BuildDockerArgsShape(p2, d2, n2, v2);
    assert |args| - 8 == (if p1 then 2 else 0) + (if d1 then 1 else 0);
    assert |args| - 8 == (if p2 then 2 else 0) + (if d2 then 1 else 0);
    var tail := args[|args| - 6..];
    assert tail[1] == n1 && tail[1] == n2;
    var prefix := "OMOP_ES_VERSION=";
    assert tail[5] == prefix + v1 && tail[5] == prefix + v2;
    assert v1 == (prefix + v1)[|prefix|..];
    assert v2 == (prefix + v2)[|prefix|..];
  }

  /** `build_docker` with the build's return code supplied: `None`, or the raised error. */
  function BuildDocker(isProd: bool, dryRun: bool, projectName: string, version: string, returnCode: int): (r: Outcome<CalledProcessError>)
    ensures r.Pass? <==> returnCode == 0
    ensures r.Fail? ==> r.error == CalledProcessError(returnCode, BuildDockerArgs(isProd, dryRun, projectName, version), [], [])
  {
    match RunSubprocess(BuildDockerArgs(isProd, dryRun, projectName, version), returnCode)
    case Success(_) => Pass
    case Failure(e) => Fail(e)
  }

  // ---------------------------------------------------------------------
  // run_omop_es_docker: environment overlay and run command
  // ---------------------------------------------------------------------

  /** The process environment, as a dictionary from variable name to value. */
  type Env = map<string, string>

  /** The variables `run_omop_es_docker` sets, in the order it sets and forwards them. */
  const OverlayKeys: seq<string> := ["SETTINGS_ID", "OMOP_ES_VERSION", "BATCHED", "OUTPUT_DIRECTORY", "ZIP_OUTPUT"]

  /** Python's `str(b)` for a boolean. */
  function PyBool(b: bool): string {
    if b then "True" else "False"
  }

  /** All five overlay variables are set. */
  predicate HasOverlay(env: Env) {
    && "SETTINGS_ID" in env && "OMOP_ES_VERSION" in env && "BATCHED" in env
    && "OUTPUT_DIRECTORY" in env && "ZIP_OUTPUT" in env
  }

  /** The argument list of `run_omop_es_docker`, whose `--env` values are read back from `env`. */
  function RunDockerArgs(isProd: bool, settingsId: string, env: Env): (args: seq<string>)
    requires HasOverlay(env)
    ensures |args| == 19 + |UseProdIf(isProd)|
    ensures args[0] == "docker" && args[|args| - 1] == "omop_es"
  {
    ["docker", "compose"] + UseProdIf(isProd)
    + ["--project-name", settingsId,
       "run",
       "--env", "SETTINGS_ID=" + env["SETTINGS_ID"],
       "--env", "OMOP_ES_VERSION=" + env["OMOP_ES_VERSION"],
       "--env", "BATCHED=" + env["BATCHED"],
       "--env", "OUTPUT_DIRECTORY=" + env["OUTPUT_DIRECTORY"],
       "--env", "ZIP_OUTPUT=" + env["ZIP_OUTPUT"],
       "--env", "DEBUG",
       "--rm", "omop_es"]
  }

  /** `--env NAME=VALUE` for each name in `keys`, in order. */
  function EnvFlags(keys: seq<string>, env: Env): (flags: seq<string>)
    requires forall k :: k in keys ==> k in env
    ensures |flags| == 2 * |keys|
  {
    if keys == [] then []
    else ["--env", keys[0] + "=" + env[keys[0]]] + EnvFlags(keys[1..], env)
  }

  /** The `i`-th pair of `EnvFlags` forwards the `i`-th name with its value in `env`. */
  lemma {:induction false} EnvFlagsAt(keys: seq<string>, env: Env, i: nat)
    requires forall k :: k in keys ==> k in env
    requires i < |keys|
    ensures EnvFlags(keys, env)[2 * i] == "--env"
    ensures EnvFlags(keys, env)[2 * i + 1] == keys[i] + "=" + env[keys[i]]
  {
    if i > 0 {
      EnvFlagsAt(keys[1..], env, i - 1);
    }
  }

  /**
   * The run command is the table-driven one: after the project name and `run`
   * come `--env NAME=VALUE` for the five overlay variables in order, then the
   * `DEBUG` pass-through and `--rm omop_es`.
   */
  lemma {:induction false} RunDockerArgsFromTable(isProd: bool, settingsId: string, env: Env)
    requires HasOverlay(env)
    ensures forall k :: k in OverlayKeys ==> k in env
    ensures RunDockerArgs(isProd, settingsId, env) ==
            ["docker", "compose"] + UseProdIf(isProd) + ["--project-name", settingsId, "run"]
            + EnvFlags(OverlayKeys, env) + ["--env", "DEBUG", "--rm", "omop_es"]
  {
    OverlayFlags(env);
  }

  /** The five `--env` pairs, spelled out. */
  lemma {:induction false} OverlayFlags(env: Env)
    requires HasOverlay(env)
    ensures forall k :: k in OverlayKeys ==> k in env
    ensures EnvFlags(OverlayKeys, env) ==
            ["--env", "SETTINGS_ID=" + env["SETTINGS_ID"],
             "--env", "OMOP_ES_VERSION=" + env["OMOP_ES_VERSION"],
             "--env", "BATCHED=" + env["BATCHED"],
             "--env", "OUTPUT_DIRECTORY=" + env["OUTPUT_DIRECTORY"],
             "--env", "ZIP_OUTPUT=" + env["ZIP_OUTPUT"]]
  {
    var k4 := ["ZIP_OUTPUT"];
    var k3 := ["OUTPUT_DIRECTORY"] + k4;
    var k2 := ["BATCHED"] + k3;
    var k1 := ["OMOP_ES_VERSION"] + k2;
    var f4 := ["--env", "ZIP_OUTPUT=" + env["ZIP_OUTPUT"]];
    var f3 := ["--env", "OUTPUT_DIRECTORY=" + env["OUTPUT_DIRECTORY"]] + f4;
    var f2 := ["--env", "BATCHED=" + env["BATCHED"]] + f3;
    var f1 := ["--env", "OMOP_ES_VERSION=" + env["OMOP_ES_VERSION"]] + f2;
    var f0 := ["--env", "SETTINGS_ID=" + env["SETTINGS_ID"]] + f1;
    assert "ZIP_OUTPUT" + "=" == "ZIP_OUTPUT=";
    assert "OUTPUT_DIRECTORY" + "=" == "OUTPUT_DIRECTORY=";
    assert "BATCHED" + "=" == "BATCHED=";
    assert "OMOP_ES_VERSION" + "=" == "OMOP_ES_VERSION=";
    assert "SETTINGS_ID" + "=" == "SETTINGS_ID=";
    assert EnvFlags([], env) == [];
    EnvFlagsCons("ZIP_OUTPUT", [], env);
    assert ["ZIP_OUTPUT"] + [] == k4 && f4 + [] == f4;
    assert EnvFlags(k4, env) == f4;
    EnvFlagsCons("OUTPUT_DIRECTORY", k4, env);
    assert EnvFlags(k3, env) == f3;
    EnvFlagsCons("BATCHED", k3, env);
    assert EnvFlags(k2, env) == f2;
    EnvFlagsCons("OMOP_ES_VERSION", k2, env);
    assert EnvFlags(k1, env) == f1;
    EnvFlagsCons("SETTINGS_ID", k1, env);
    assert OverlayKeys == ["SETTINGS_ID"] + k1;
    assert EnvFlags(OverlayKeys, env) == f0;
  }

  lemma {:induction false} EnvFlagsCons(key: string, keys: seq<string>, env: Env)
    requires key in env && forall k :: k in keys ==> k in env
    ensures EnvFlags([key] + keys, env) == ["--env", key + "=" + env[key]] + EnvFlags(keys, env)
  {
    assert ([key] + keys)[1..] == keys;
  }

  /** Where things sit in the run command, and how long it is. */
  lemma {:induction false} RunDockerArgsShape(isProd: bool, settingsId: string, env: Env, i: nat)
    requires HasOverlay(env)
    requires i < |OverlayKeys|
    ensures |RunDockerArgs(isProd, settingsId, env)| == 19 + (if isProd then 2 else 0)
    ensures RunDockerArgs(isProd, settingsId, env)[ProjectEnd(isProd) + 2 * i] == "--env"
    ensures RunDockerArgs(isProd, settingsId, env)[ProjectEnd(isProd) + 2 * i + 1] ==
            OverlayKeys[i] + "=" + env[OverlayKeys[i]]
    ensures RunDockerArgs(isProd, settingsId, env)[15 + (if isProd then 2 else 0)..] ==
            ["--env", "DEBUG", "--rm", "omop_es"]
  {
    RunDockerArgsFromTable(isProd, settingsId, env);
    EnvFlagsAt(OverlayKeys, env, i);
    var head := ["docker", "compose"] + UseProdIf(isProd) + ["--project-name", settingsId, "run"];
    assert |head| == ProjectEnd(isProd);
    var flags := EnvFlags(OverlayKeys, env);
    var args := RunDockerArgs(isProd, settingsId, env);
    assert args == head + flags + ["--env", "DEBUG", "--rm", "omop_es"];
    assert args[|head| + 2 * i] == flags[2 * i];
    assert args[|head| + 2 * i + 1] == flags[2 * i + 1];
  }

  /** The position just after `run`, where the `--env` pairs start. */
  function ProjectEnd(isProd: bool): nat {
    if isProd then 7 else 5
  }

  /**
   * `run_omop_es_docker` with the container's return code supplied: copy the
   * ambient environment, overwrite the five variables one by one, build the
   * run command from the result and run it.
   */
  method RunOmopEsDocker(
    ambient: Env, isProd: bool, settingsId: string, version: string,
    batched: bool, outputDirectory: string, zipOutput: bool, returnCode: int)
    returns (env: Env, args: seq<string>, r: Result<CompletedProcess, CalledProcessError>)
    ensures env.Keys == ambient.Keys + {"SETTINGS_ID", "OMOP_ES_VERSION", "BATCHED", "OUTPUT_DIRECTORY", "ZIP_OUTPUT"}
    ensures HasOverlay(env)
    ensures forall k :: k in ambient && k !in OverlayKeys ==> env[k] == ambient[k]
    ensures env["SETTINGS_ID"] == settingsId && env["OMOP_ES_VERSION"] == version
    ensures env["BATCHED"] == PyBool(batched) && env["OUTPUT_DIRECTORY"] == outputDirectory
    ensures env["ZIP_OUTPUT"] == PyBool(zipOutput)
    ensures args == RunDockerArgs(isProd, settingsId, env)
    ensures r.Success? <==> returnCode == 0
    ensures r.Success? ==> r.value == CompletedProcess(args, 0, [], [])
    ensures r.Failure? ==> r.error == CalledProcessError(returnCode, args, [], [])
  {
    env := ambient;
    env := env["SETTINGS_ID" := settingsId];
    env := env["OMOP_ES_VERSION" := version];
    env := env["BATCHED" := PyBool(batched)];
    env := env["OUTPUT_DIRECTORY" := outputDirectory];
    env := env["ZIP_OUTPUT" := PyBool(zipOutput)];
    args := RunDockerArgs(isProd, settingsId, env);
    r := RunSubprocess(args, returnCode);
  }

  // ---------------------------------------------------------------------
  // validate_ref and get_latest_commit_sha, with git as an oracle
  // ---------------------------------------------------------------------

  /** The `RuntimeError`s raised while resolving a ref. */
  datatype GitError =
    | FetchFailed(ref: string, repoUrl: string)
    | LsRemoteFailed(repoUrl: string, ref: string, detail: string)
    | InvalidShaFormat(repoUrl: string, ref: string, sha: string)

  /** The text of each `RuntimeError`; `detail` is the text of the underlying `CalledProcessError`. */
  function Message(e: GitError): (text: string)
    ensures e.FetchFailed? <==> |text| >= 25 && text[..25] == "Failed to fetch reference"
  {
    match e
    case FetchFailed(ref, url) => "Failed to fetch reference " + ref + " from " + url
    case LsRemoteFailed(url, ref, detail) =>
      var text := "Failed to get latest commit SHA for " + url + "/" + ref + ": " + detail;
      assert text[10] == 'g';
      assert |text| >= 25 ==> text[..25][10] == 'g';
      text
    case InvalidShaFormat(url, ref, sha) =>
      var text := "Invalid SHA format for " + url + "/" + ref + ": " + sha;
      assert text[0] == 'I';
      assert |text| >= 25 ==> text[..25][0] == 'I';
      text
  }
  /** What `git ls-remote` did: its standard output, or its failure. */
  datatype LsRemoteOutcome =
    | LsRemoteOk(stdout: string)
    | LsRemoteError(stderr: string, detail: string)

  function GitFetch(repoUrl: string, ref: string): seq<string> {
    ["git", "fetch", repoUrl, ref]
  }

  function GitLsRemote(repoUrl: string, ref: string): seq<string> {
    ["git", "ls-remote", repoUrl, ref]
  }

  /** `result.stdout.strip().split("\t")[0]`: the SHA column of the first line of `ls-remote`. */
  function ShaFromListing(stdout: string): (sha: string)
    ensures '\t' !in sha
    ensures |sha| <= |Strip(stdout)| && sha == Strip(stdout)[..|sha|]
    ensures |sha| < |Strip(stdout)| ==> Strip(stdout)[|sha|] == '\t'
  {
    FirstField(Strip(stdout), '\t')
  }

  /** A listing whose first line is `<sha>\t<ref name>` yields that SHA, whatever follows. */
  lemma {:induction false} ShaFromListingLine(sha: string, rest: string)
    requires 7 <= |sha| <= 40 && AllHex(sha)
    ensures ShaFromListing(sha + "\t" + rest) == sha
    ensures IsValidSha(ShaFromListing(sha + "\t" + rest))
  {
    var tail := "\t" + rest;
    SeqAssoc(sha, "\t", rest);
    HexHasNoSpace(sha);
    StripKeepsTrimmedPrefix(sha, tail);
    var kept := RStrip(tail);
    assert kept == [] || kept[0] == tail[0];
    FirstFieldBeforeTab(sha, kept);
    ValidShaWithoutNewline(sha);
  }

  /** Hex digits are neither whitespace, tabs nor newlines. */
  lemma {:induction false} HexHasNoSpace(sha: string)
    requires sha != [] && AllHex(sha)
    ensures Trimmed(sha) && '\t' !in sha && '\n' !in sha
  {
    assert IsHexDigit(sha[0]) && IsHexDigit(sha[|sha| - 1]);
    forall k | 0 <= k < |sha| ensures sha[k] != '\t' && sha[k] != '\n' {
      assert IsHexDigit(sha[k]);
    }
  }

  /** The first tab-separated field of `field` followed by nothing or by a tab and more. */
  lemma {:induction false} FirstFieldBeforeTab(field: string, tail: string)
    requires '\t' !in field
    requires tail == [] || tail[0] == '\t'
    ensures FirstField(field + tail, '\t') == field
  {
    if tail == [] {
      FirstFieldOfJoined(field, '\t', []);
      assert field + tail == field;
    } else {
      FirstFieldOfJoined(field, '\t', tail[1..]);
      assert field + tail == field + ['\t'] + tail[1..];
    }
  }
  /**
   * `validate_ref` with the outcome of `git fetch` supplied: a valid SHA
   * shorter than 40 characters cannot be fetched, so it is let through with a
   * warning; anything else is fetched and a failed fetch is raised.
   */
  method ValidateRef(repoUrl: string, ref: string, fetchSucceeds: bool)
    returns (calls: seq<seq<string>>, logs: seq<LogRecord>, r: Outcome<GitError>)
    ensures calls == [] <==> IsValidSha(ref) && |ref| < 40
    ensures calls != [] ==> calls == [GitFetch(repoUrl, ref)] && logs == []
    ensures calls == [] ==> logs == [LogRecord(Warning, "Short SHA provided, impossible to validate.")]
    ensures r.Fail? <==> calls != [] && !fetchSucceeds
    ensures r.Fail? ==> r.error == FetchFailed(ref, repoUrl)
  {
    if IsValidSha(ref) && |ref| < 40 {
      calls := [];
      logs := [LogRecord(Warning, "Short SHA provided, impossible to validate.")];
      r := Pass;
      return;
    }
    calls := [GitFetch(repoUrl, ref)];
    logs := [];
    if !fetchSucceeds {
      r := Fail(FetchFailed(ref, repoUrl));
    } else {
      r := Pass;
    }
  }

  /**
   * `get_latest_commit_sha` with the outcomes of `git fetch` and
   * `git ls-remote` supplied.  The ref is validated first; a valid SHA is
   * returned as it is; otherwise the first column of the listing is returned
   * if it is a valid SHA.
   */
  method GetLatestCommitSha(repoUrl: string, ref: string, fetchSucceeds: bool, listing: LsRemoteOutcome)
    returns (calls: seq<seq<string>>, logs: seq<LogRecord>, r: Result<string, GitError>)
    ensures r.Success? ==> IsValidSha(r.value)
    ensures IsValidSha(ref) && |ref| < 40 ==> calls == [] && r == Success(ref)
    ensures IsValidSha(ref) && |ref| < 40 ==>
              logs == [LogRecord(Warning, "Short SHA provided, impossible to validate.")]
    ensures !(IsValidSha(ref) && |ref| < 40) && (!fetchSucceeds || IsValidSha(ref)) ==> logs == []
    ensures !(IsValidSha(ref) && |ref| < 40) && !fetchSucceeds ==>
              calls == [GitFetch(repoUrl, ref)] && r == Failure(FetchFailed(ref, repoUrl))
    ensures IsValidSha(ref) && 40 <= |ref| && fetchSucceeds ==>
              calls == [GitFetch(repoUrl, ref)] && r == Success(ref)
    ensures !IsValidSha(ref) && fetchSucceeds ==>
              && calls == [GitFetch(repoUrl, ref), GitLsRemote(repoUrl, ref)]
              && r == match listing
                      case LsRemoteError(_, detail) => Failure(LsRemoteFailed(repoUrl, ref, detail))
                      case LsRemoteOk(out) =>
                        if IsValidSha(ShaFromListing(out)) then Success(ShaFromListing(out))
                        else Failure(InvalidShaFormat(repoUrl, ref, ShaFromListing(out)))
    ensures !IsValidSha(ref) && fetchSucceeds ==>
              logs == (if listing.LsRemoteError? then [LogRecord(Error, listing.stderr)] else [])
  {
    var validated;
    calls, logs, validated := ValidateRef(repoUrl, ref, fetchSucceeds);
    if validated.Fail? {
      r := Failure(validated.error);
      return;
    }
    if IsValidSha(ref) {
      r := Success(ref);
      return;
    }
    assert calls == [GitFetch(repoUrl, ref)];
    calls := calls + [GitLsRemote(repoUrl, ref)];
    assert calls == [GitFetch(repoUrl, ref), GitLsRemote(repoUrl, ref)];
    match listing
    case LsRemoteError(stderr, detail) =>
      logs := logs + [LogRecord(Error, stderr)];
      r := Failure(LsRemoteFailed(repoUrl, ref, detail));
    case LsRemoteOk(out) =>
      var sha := ShaFromListing(out);
      if IsValidSha(sha) {
        r := Success(sha);
      } else {
        r := Failure(InvalidShaFormat(repoUrl, ref, sha));
      }
  }
}
