# crdm-tools: the omop_es workflow plumbing and its subprocess helper, in Dafny

This project models the two Python modules that launch the omop_es data
extraction:

- `prefect/run_subprocess.py`:
  - `run_subprocess` runs a command. It logs the command line first. On a
    non-zero exit status it raises `CalledProcessError`; otherwise it returns
    a `CompletedProcess`.
  - `log` classifies one output line by the first bracketed tag in it, such
    as `[WARNING]`, and hands the stripped line to the matching logger
    method.
  - `extract_log_level` finds that tag with the regular expression
    `\[(.*?)\]`.
- `prefect/run_omop_es.py`:
  - `is_valid_sha` checks the commit-SHA format.
  - `dry_run_if` and `use_prod_if` are the optional docker compose flags.
  - `build_docker` is the image build command.
  - `run_omop_es_docker` is the container run command and the environment
    it passes.
  - `validate_ref` and `get_latest_commit_sha` resolve a branch, tag or SHA
    to a commit SHA with `git fetch` and `git ls-remote`.

The model has four modules:

- `Wrappers` holds `Option`, `Result` and `Outcome`. Every raised exception
  is returned as a `Failure`/`Fail` value.
- `Text` holds Python's `str.strip()`, using Python's full `isspace` set,
  plus `split(sep)[0]` and `sep.join`.
- `Subprocess` covers the helper module. A logger call is modelled as the
  `LogRecord` it would receive, meaning its level and its message.
- `OmopEs` covers the workflow module.

External programs are oracles: parameters that stand in for what the
outside world returns.

- `docker` supplies only its return code.
- `git fetch` supplies whether it succeeded.
- `git ls-remote` supplies either its standard output, or its standard
  error and the text of the exception.

The methods that call `git` also return the list of commands they would run
(`calls`) and the records they would log (`logs`).

`extract_log_level` is modelled exactly, with Python regular-expression
semantics:

- the leftmost `[` that has a closing `]` wins;
- the lazy `.*?` stops at the first `]`;
- `.` does not match a newline, so a `[` whose `]` only appears after a
  newline does not match.

`is_valid_sha` is also modelled as written. `re.match` anchors at the start,
and Python's `$` matches at the very end or just before one final newline.
So 7 to 40 hex digits followed by one newline are accepted, and by two are
not (`OmopEs.TrailingNewlineAccepted`). The
docstring speaks of 7- or 40-character SHAs, but the pattern accepts every
length from 7 to 40, and the model follows the pattern.

Two behaviours of this revision's code are easy to assume otherwise, and
the model follows the code:

- **Output handling.** `run_subprocess` neither streams nor captures the
  child's output. The child writes straight to the parent's streams, and
  the returned `CompletedProcess` and the raised `CalledProcessError` both
  carry empty stdout and stderr lists.
- **Tag matching.** The `match` statement in `log` compares tags
  case-sensitively, so `[warning]` is logged at INFO
  (`Subprocess.LowerCaseTagIsInfo`).

## Model

| member | source | states |
|---|---|---|
| Text.LStrip | prefect/run_subprocess.py:44 | the result is a suffix of the input, everything removed is Python whitespace, and the result is empty or starts with a non-space |
| Text.RStrip | prefect/run_subprocess.py:44 | the result is a prefix of the input, everything removed is Python whitespace, and the result is empty or ends with a non-space |
| Text.Strip | prefect/run_subprocess.py:44 | `str.strip()` never lengthens the string, and its result is trimmed: empty, or non-space at both ends |
| Text.StripUnique | prefect/run_subprocess.py:44 | whitespace padding around a trimmed string is exactly what `strip()` removes: `Strip(a + m + b) == m` |
| Text.StripIdempotent | prefect/run_subprocess.py:44 | stripping twice is stripping once |
| Text.StripIgnoresPadding | prefect/run_subprocess.py:44 | adding whitespace on either side of a line does not change what `strip()` returns |
| Text.StripKeepsTrimmedPrefix | prefect/run_omop_es.py:203 | when the text starts with a non-empty trimmed field, `strip()` keeps that field and only right-strips the rest |
| Text.FirstField | prefect/run_omop_es.py:203 | `split(sep)[0]` is the longest prefix without the separator: it contains no separator and is followed by one or by the end |
| Text.FirstFieldOfJoined | prefect/run_omop_es.py:203 | a field followed by the separator, or standing alone, is returned unchanged by `split(sep)[0]` |
| Text.Join | prefect/run_subprocess.py:31 | `sep.join(xs)` is empty for no items, has length equal to the items plus the separators between them, and starts with the first item |
| Text.JoinSingle | prefect/run_subprocess.py:31 | joining one item gives that item |
| Text.JoinSplit | prefect/run_subprocess.py:31 | cutting the items at any point cuts the joined text at exactly one separator, so every item appears in order with one separator between neighbours |
| Subprocess.CloseFrom | prefect/run_subprocess.py:63-65 | the lazy scan from a `[` returns the first `]` reachable without crossing a newline, or reports that none exists |
| Subprocess.SearchFrom | prefect/run_subprocess.py:63-65 | `re.search` returns the leftmost `[` that has a matching `]`, and reports no match exactly when no position from the start has one |
| Subprocess.ExtractLogLevel | prefect/run_subprocess.py:62-65 | the result is `None` exactly when no bracketed tag exists; otherwise it is the text between the leftmost matching `[` and its first `]`, with no `]` and no newline in it |
| Subprocess.FirstBracketTag | prefect/run_subprocess.py:62-65 | on a single line, the tag is the text between the first `[` and the first `]` after it |
| Subprocess.NoTagIffNoBracketPair | prefect/run_subprocess.py:62-65 | on a single line, no tag is extracted exactly when no `[` is followed by a `]` |
| Subprocess.TagAtStart | prefect/run_subprocess.py:62-65 | a line starting with `[tag]` yields `tag` |
| Subprocess.NewlineBreaksTag | prefect/run_subprocess.py:63 | when a newline comes before the next `]` after a `[`, no match starts at that `[` (a later `[` may still match) |
| Subprocess.ExtractUnknownTag | prefect/test_subprocess_utilities.py:39-40 | the unknown tags `[UNKNOWN]` and `[FLIBBLE]` are returned verbatim whatever message follows, which includes the test table's two messages |
| Subprocess.LevelOf | prefect/run_subprocess.py:47-59 | the level is INFO exactly when the tag is absent or is none of DEBUG, WARNING, WARN, ERROR and CRITICAL |
| Subprocess.LevelOfName | prefect/run_subprocess.py:47-57 | each level's own name maps back to that level, and WARN is an alias of WARNING |
| Subprocess.LowerCaseTagIsInfo | prefect/run_subprocess.py:47-59 | any tag with a lower-case letter falls through to INFO, because the comparison is case-sensitive |
| Subprocess.Log | prefect/run_subprocess.py:42-59 | the record's message is the stripped line, and its level is the level of the leftmost tag found anywhere in the stripped line (INFO when there is none) |
| Subprocess.LogTaggedLine | prefect/run_subprocess.py:42-59 | a line starting with `[tag]` is logged at `LevelOf(tag)`, and its message is the line with trailing whitespace removed |
| Subprocess.LogRecoversLevel | prefect/run_subprocess.py:42-59 | a line tagged with a level's name is logged at that level, whatever follows the tag |
| Subprocess.LogIgnoresPadding | prefect/run_subprocess.py:42-59 | surrounding whitespace changes neither the level nor the message of the record |
| Subprocess.Announcement | prefect/run_subprocess.py:31 | the announcement is logged at INFO, and its text is the fixed prefix followed by the arguments joined with single spaces |
| Subprocess.RunSubprocess | prefect/run_subprocess.py:26-39 | the call succeeds exactly when the return code is 0; success carries the arguments, code 0 and empty outputs; failure carries the code, the arguments and empty outputs |
| OmopEs.HexRun | prefect/run_omop_es.py:248 | the greedy `[a-fA-F0-9]{7,40}` run stops at the bound, at the end, or at the first non-hex character |
| OmopEs.IsValidSha | prefect/run_omop_es.py:238-249 | an accepted string has 7 to 41 characters and starts with a hex digit; `OmopEs.ValidShaShape` gives the exact set |
| OmopEs.IsValidShaMatchesPattern | prefect/run_omop_es.py:238-249 | the greedy-run check agrees with the regular expression's declarative meaning: some hex run of length 7..40 from the start followed by the end anchor |
| OmopEs.ValidShaShape | prefect/run_omop_es.py:238-249 | a string is accepted exactly when it is 7..40 hex digits, optionally followed by one newline |
| OmopEs.ValidShaWithoutNewline | prefect/run_omop_es.py:238-249 | without newlines, acceptance is exactly "7 to 40 hexadecimal digits" |
| OmopEs.TrailingNewlineAccepted | prefect/run_omop_es.py:248-249 | for every string of 7 to 40 hex digits, that string followed by one newline is accepted and followed by two is not |
| OmopEs.DryRunIf | prefect/run_omop_es.py:40-43 | yields at most one flag, and yields `--dry-run` exactly when asked to; `OmopEs.FlagsSplice` states the splice |
| OmopEs.UseProdIf | prefect/run_omop_es.py:46-50 | yields `docker-compose.prod.yml` exactly in production, and then yields two flags starting with `-f`; `OmopEs.FlagsSplice` states the splice |
| OmopEs.FlagsSplice | prefect/run_omop_es.py:40-50 | `--dry-run` is spliced in only when asked for, `-f docker-compose.prod.yml` only in production, and nothing else is added |
| OmopEs.BuildDockerArgs | prefect/run_omop_es.py:117-128 | the build command starts with `docker`, has 8 words plus the optional flags, and ends with `OMOP_ES_VERSION=<version>`; `OmopEs.BuildDockerArgsShape` gives every position |
| OmopEs.BuildDockerArgsShape | prefect/run_omop_es.py:117-128 | the build command has 8 fixed words plus the optional flags, with the project name and `OMOP_ES_VERSION=<version>` at fixed positions after them |
| OmopEs.BuildDockerArgsInjective | prefect/run_omop_es.py:117-128 | different settings (production, dry run, project name, version) always give different build commands |
| OmopEs.BuildDocker | prefect/run_omop_es.py:110-129 | the build passes exactly when docker returns 0; a failure is exactly the raised `CalledProcessError` with docker's return code, the build command and empty output lists |
| OmopEs.EnvFlagsAt | prefect/run_omop_es.py:154-163 | each environment key becomes the pair `--env`, `KEY=<value from the environment>`, in key order |
| OmopEs.RunDockerArgs | prefect/run_omop_es.py:147-168 | the run command starts with `docker`, has 19 words plus the production flags, and ends with the service `omop_es`; `OmopEs.RunDockerArgsFromTable` and `OmopEs.RunDockerArgsShape` give every position |
| OmopEs.RunDockerArgsFromTable | prefect/run_omop_es.py:147-168 | the run command is its head, then the five `--env` pairs in source order, then `--env DEBUG --rm omop_es` |
| OmopEs.RunDockerArgsShape | prefect/run_omop_es.py:147-168 | the run command has 19 words, or 21 in production; the i-th overlay key's pair sits at a fixed position; the command ends with `--env DEBUG --rm omop_es` |
| OmopEs.RunOmopEsDocker | prefect/run_omop_es.py:133-169 | the environment is the ambient one with the five keys overwritten (booleans as `True`/`False`) and every other key unchanged; the run command forwards those values; the result is success exactly on return code 0 |
| OmopEs.Message | prefect/run_omop_es.py:201-235 | only a failed fetch produces a message starting "Failed to fetch reference" |
| OmopEs.ShaFromListing | prefect/run_omop_es.py:203 | the extracted SHA is the longest tab-free prefix of the stripped ls-remote output: it contains no tab and is followed by a tab or by the end |
| OmopEs.ShaFromListingLine | prefect/run_omop_es.py:203-205 | for an ls-remote line `<sha>\t<ref>` the extracted value is exactly the SHA, and it passes the format check |
| OmopEs.ValidateRef | prefect/run_omop_es.py:210-235 | the fetch is skipped, with a warning, exactly for a valid SHA shorter than 40 characters; otherwise one `git fetch` runs, and the call fails exactly when that fetch fails, with the fetch-failure error |
| OmopEs.GetLatestCommitSha | prefect/run_omop_es.py:172-207 | every SHA returned passes the format check; a short valid SHA is returned without git; a failed fetch raises the fetch error; a full valid SHA is returned after the fetch; otherwise ls-remote runs, its stderr is logged at ERROR on failure, and its first field is returned only if it is a valid SHA; the short-SHA path logs exactly the warning, and the fetch-failure, full-SHA and successful ls-remote paths log nothing |

## Left out

- Spawning processes, their working directory, and standard input and output are not modelled. `docker` and `git` are represented only by their return code, their success flag, or their ls-remote output, passed in as parameters.
- The missing-executable case (`FileNotFoundError` when `docker` or `git` is absent) is not modelled. The oracles only cover programs that start.
- The byte decoding in `log` (`line.decode()`) is not modelled. The model takes the decoded text, so `UnicodeDecodeError` on malformed UTF-8 is not covered.
- The logger objects are not modelled. A call is represented by the level and message it receives, and `run_subprocess`'s own announcement is a separate `Announcement` record.
- `OmopEs.Message`: the `{e}` part of the ls-remote failure message is the text of the caught exception. It is taken as a given string (`detail`), not rebuilt from the exit status.
- Dictionary insertion order of the copied environment is not modelled. The environment is a map, and only its keys and values are stated.
- `IS_PROD` is read once at import time and is passed as the parameter `isProd`. `ROOT_PATH` and `DEPLOYMENT_NAME` are also read at import time and are not modelled.
- The process environment is copied at the start of each `run_omop_es_docker` call. It is passed as the parameter `ambient`, the environment as it stands at that moment.
- `name_with_timestamp` reads the clock, so it is not modelled.
- The `run_omop_es` flow and `pin_omop_es_version` are not modelled. They are scheduler glue: `.env` loading, the `GITHUB_PAT` check, URL assembly, and re-raising with a log line.
- The scheduler's `@task` retry policies (`retries=10` and `retries=5`) belong to the workflow framework and are not modelled.
- `OmopEs.DryRunIf` and `OmopEs.UseProdIf` are generators in the source. They are modelled as the sequences they yield, with their properties stated by `OmopEs.FlagsSplice`.
