/**
 * The subprocess helper: the log-line classifier (`extract_log_level` and
 * `log`) and the return-code decision of `run_subprocess`.  The logger is
 * modelled by returning the record it would receive; the process itself is
 * an oracle that supplies only its return code.
 */
module Subprocess {
  import opened Wrappers
  import opened Text

  /** The five logger methods `log` can call. */
  datatype Level = Debug | Info | Warning | Error | Critical

  /** One logger call: the method used and the message passed to it. */
  datatype LogRecord = LogRecord(level: Level, text: string)

  // ---------------------------------------------------------------------
  // extract_log_level: re.search(r"\[(.*?)\]", message)
  // ---------------------------------------------------------------------

  /**
   * The pattern matches with its `[` at `p` and its `]` at `q`: `.*?` is lazy
   * and `.` matches neither a newline nor (being lazy) anything past the first
   * `]`, so nothing strictly between them is `]` or a newline.
   */
  predicate ClosesAt(s: string, p: int, q: int) {
    && 0 <= p < q < |s|
    && s[p] == '[' && s[q] == ']'
    && forall k :: p < k < q ==> s[k] != ']' && s[k] != '\n'
  }

  /** No match of the pattern starts at a position in `[lo, hi)`. */
  ghost predicate NoTagBetween(s: string, lo: int, hi: int) {
    forall p, q :: lo <= p < hi ==> !ClosesAt(s, p, q)
  }

  /** The match `re.search` reports: the leftmost start position that matches. */
  ghost predicate LeftmostTag(s: string, p: int, q: int) {
    ClosesAt(s, p, q) && NoTagBetween(s, 0, p)
  }

  /** A start position determines its match. */
  lemma CloseIsUnique(s: string, p: int, q1: int, q2: int)
    requires ClosesAt(s, p, q1) && ClosesAt(s, p, q2)
    ensures q1 == q2
  {
  }

  /**
   * With the `[` at `p` and no `]` or newline in `s[p+1..j]`, the lazy
   * `.*?` extends one character at a time from `j` until it meets `]`
   * (a match) or a newline or the end (no match at `p`).
   */
  function CloseFrom(s: string, p: nat, j: nat): (r: Option<nat>)
    requires p < j <= |s| && s[p] == '['
    requires forall k :: p < k < j ==> s[k] != ']' && s[k] != '\n'
    decreases |s| - j
    ensures r.Some? ==> ClosesAt(s, p, r.value)
    ensures r.None? ==> forall q :: !ClosesAt(s, p, q)
  {
    if j == |s| then None
    else if s[j] == ']' then Some(j)
    else if s[j] == '\n' then None
    else CloseFrom(s, p, j + 1)
  }

  /** The search proper: try each start position from `i` on, left to right. */
  function SearchFrom(s: string, i: nat): (r: Option<(nat, nat)>)
    requires i <= |s|
    decreases |s| - i
    ensures r.Some? ==> i <= r.value.0 && ClosesAt(s, r.value.0, r.value.1)
    ensures r.Some? ==> NoTagBetween(s, i, r.value.0)
    ensures r.None? ==> NoTagBetween(s, i, |s|)
  {
    if i == |s| then None
    else if s[i] == '[' && CloseFrom(s, i, i + 1).Some? then Some((i, CloseFrom(s, i, i + 1).value))
    else SearchFrom(s, i + 1)
  }

  /**
   * `extract_log_level`: the text of the first bracketed group, verbatim, or
   * `None` when the line has no match.
   */
  function ExtractLogLevel(message: string): (tag: Option<string>)
    ensures tag.None? <==> NoTagBetween(message, 0, |message|)
    ensures tag.Some? ==> exists p, q :: LeftmostTag(message, p, q) && tag.value == message[p + 1..q]
    ensures tag.Some? ==> ']' !in tag.value && '\n' !in tag.value
  {
    match SearchFrom(message, 0)
    case None => None
    case Some((p, q)) =>
      assert LeftmostTag(message, p, q);
      Some(message[p + 1..q])
  }

  /**
   * On a line without newlines the tag is the text strictly between the first
   * `[` and the first `]` after it, whatever that text is (possibly empty).
   */
  lemma {:induction false} FirstBracketTag(s: string, p: nat, q: nat)
    requires '\n' !in s
    requires p < q < |s| && s[p] == '[' && s[q] == ']'
    requires '[' !in s[..p] && ']' !in s[p + 1..q]
    ensures ExtractLogLevel(s) == Some(s[p + 1..q])
  {
    forall k | p < k < q ensures s[k] != ']' && s[k] != '\n' {
      assert s[k] == s[p + 1..q][k - p - 1];
    }
    assert ClosesAt(s, p, q);
    forall k | 0 <= k < p ensures s[k] != '[' {
      assert s[k] == s[..p][k];
    }
    var tag := ExtractLogLevel(s);
    var p', q' :| LeftmostTag(s, p', q') && tag.value == s[p' + 1..q'];
    assert p' == p;
    CloseIsUnique(s, p, q, q');
  }
  /**
   * On a line without newlines there is no tag exactly when no `[` is
   * followed, anywhere later, by a `]`.
   */
  lemma {:induction false} NoTagIffNoBracketPair(s: string)
    requires '\n' !in s
    ensures ExtractLogLevel(s).None? <==>
            forall i, j :: 0 <= i < j < |s| && s[i] == '[' ==> s[j] != ']'
  {
    if exists i, j :: 0 <= i < j < |s| && s[i] == '[' && s[j] == ']' {
      var i, j :| 0 <= i < j < |s| && s[i] == '[' && s[j] == ']';
      var q := FirstFrom(s, i + 1, ']', j);
      forall k | i < k < q ensures s[k] != ']' && s[k] != '\n' {
        assert s[k] in s;
      }
      assert ClosesAt(s, i, q);
    }
  }

  /** The first index at or after `from` holding `c`, given that `bound` holds one. */
  lemma {:induction false} FirstFrom(s: string, from: nat, c: char, bound: nat) returns (q: nat)
    requires from <= bound < |s| && s[bound] == c
    ensures from <= q <= bound && s[q] == c
    ensures forall k :: from <= k < q ==> s[k] != c
    decreases bound - from
  {
    if s[from] == c {
      q := from;
    } else {
      q := FirstFrom(s, from + 1, c, bound);
    }
  }

  /**
   * A newline before the next `]` breaks the match at that `[`: `.` does not
   * match it, so no match starts there (a later `[` may still match).
   */
  lemma {:induction false} NewlineBreaksTag(s: string, p: nat, j: nat)
    requires p < j < |s| && s[p] == '[' && s[j] == '\n'
    requires forall k :: p < k < j ==> s[k] != ']'
    ensures forall q :: !ClosesAt(s, p, q)
  {
  }
  // ---------------------------------------------------------------------
  // log: strip the line, extract the tag, call exactly one logger method
  // ---------------------------------------------------------------------

  /**
   * The `match` of `log`: an exact, case-sensitive comparison of the tag
   * with the six known names; every other tag, and no tag, means `info`.
   */
  function LevelOf(tag: Option<string>): (level: Level)
    ensures level == Info <==>
            !(tag.Some? && tag.value in {"DEBUG", "WARNING", "WARN", "ERROR", "CRITICAL"})
  {
    match tag
    case None => Info
    case Some(t) =>
      if t == "DEBUG" then Debug
      else if t == "INFO" then Info
      else if t == "WARNING" || t == "WARN" then Warning
      else if t == "ERROR" then Error
      else if t == "CRITICAL" then Critical
      else Info
  }

  /** The canonical tag for each level, as the tests write it. */
  function LevelName(level: Level): (name: string)
    ensures ']' !in name && '\n' !in name
  {
    match level
    case Debug => "DEBUG"
    case Info => "INFO"
    case Warning => "WARNING"
    case Error => "ERROR"
    case Critical => "CRITICAL"
  }

  /** Every level is reached from its own name, and `WARN` is an alias of `WARNING`. */
  lemma {:induction false} LevelOfName(level: Level)
    ensures LevelOf(Some(LevelName(level))) == level
    ensures LevelOf(Some("WARN")) == Warning
  {
  }

  /** The comparison is case-sensitive: a tag with a lower-case letter means `info`. */
  lemma {:induction false} LowerCaseTagIsInfo(tag: string, k: nat)
    requires k < |tag| && 'a' <= tag[k] <= 'z'
    ensures LevelOf(Some(tag)) == Info
  {
    assert !AllUpper(tag);
    assert AllUpper("DEBUG") && AllUpper("WARNING") && AllUpper("WARN");
    assert AllUpper("ERROR") && AllUpper("CRITICAL");
  }

  /** Every character is an upper-case ASCII letter. */
  predicate AllUpper(s: string) {
    forall i :: 0 <= i < |s| ==> 'A' <= s[i] <= 'Z'
  }
  /**
   * `log`: one logger call per line, on the stripped line, at the level
   * its tag names.
   */
  function Log(line: string): (record: LogRecord)
    ensures record.text == Strip(line)
    ensures record.level == LevelOf(ExtractLogLevel(record.text))
    ensures record.level != Info ==> ExtractLogLevel(record.text).Some?
  {
    var stripped := Strip(line);
    LogRecord(LevelOf(ExtractLogLevel(stripped)), stripped)
  }

  /**
   * A line that starts with a bracketed tag is logged at the level the tag
   * names, with the tag kept in the text and only trailing whitespace removed.
   */
  lemma {:induction false} LogTaggedLine(tag: string, rest: string)
    requires ']' !in tag && '\n' !in tag
    ensures Log("[" + tag + "]" + rest) ==
            LogRecord(LevelOf(Some(tag)), "[" + tag + "]" + RStrip(rest))
  {
    var head := "[" + tag + "]";
    assert Trimmed(head) by {
      assert head[0] == '[' && head[|head| - 1] == ']';
    }
    StripKeepsTrimmedPrefix(head, rest);
    TagAtStart(tag, RStrip(rest));
  }

  /** A line that opens with `[tag]` yields `tag`, whatever follows. */
  lemma {:induction false} TagAtStart(tag: string, rest: string)
    requires ']' !in tag && '\n' !in tag
    ensures ExtractLogLevel("[" + tag + "]" + rest) == Some(tag)
  {
    var text := "[" + tag + "]" + rest;
    var q := |tag| + 1;
    forall k | 0 < k < q ensures text[k] != ']' && text[k] != '\n' {
      assert text[k] == tag[k - 1];
    }
    LeadingTag(text, q);
    assert text[1..q] == tag;
  }

  /** A line that opens with `[` whose first `]` is at `q`, with no newline before it, yields the text between. */
  lemma {:induction false} LeadingTag(text: string, q: nat)
    requires 0 < q < |text| && text[0] == '[' && text[q] == ']'
    requires forall k :: 0 < k < q ==> text[k] != ']' && text[k] != '\n'
    ensures ExtractLogLevel(text) == Some(text[1..q])
  {
    assert ClosesAt(text, 0, q);
    var found := ExtractLogLevel(text);
    var p', q' :| LeftmostTag(text, p', q') && found.value == text[p' + 1..q'];
    assert p' == 0;
    CloseIsUnique(text, 0, q, q');
  }

  /** Tagging a line with a level's name and logging it recovers that level. */
  lemma {:induction false} LogRecoversLevel(level: Level, rest: string)
    ensures Log("[" + LevelName(level) + "]" + rest).level == level
  {
    LogTaggedLine(LevelName(level), rest);
    LevelOfName(level);
  }

  /** Surrounding whitespace, such as the line terminator, does not change the call. */
  lemma {:induction false} LogIgnoresPadding(a: string, line: string, b: string)
    requires AllSpace(a) && AllSpace(b)
    ensures Log(a + line + b) == Log(line)
  {
    StripIgnoresPadding(a, line, b);
  }

  /**
   * From `extract_log_level`'s test table: the unknown tags `[UNKNOWN]` and
   * `[FLIBBLE]` are returned verbatim, whatever message text follows them.
   */
  lemma {:induction false} ExtractUnknownTag(message: string)
    ensures ExtractLogLevel("[UNKNOWN]" + message) == Some("UNKNOWN")
    ensures ExtractLogLevel("[FLIBBLE]" + message) == Some("FLIBBLE")
  {
    assert "[" + "UNKNOWN" + "]" == "[UNKNOWN]";
    TagAtStart("UNKNOWN", message);
    assert "[" + "FLIBBLE" + "]" == "[FLIBBLE]";
    TagAtStart("FLIBBLE", message);
  }

  // ---------------------------------------------------------------------
  // run_subprocess: announce, run (oracle), decide on the return code
  // ---------------------------------------------------------------------

  /** `subprocess.CompletedProcess(args, returncode, stdout, stderr)`. */
  datatype CompletedProcess =
    CompletedProcess(args: seq<string>, returncode: int, stdout: seq<string>, stderr: seq<string>)

  /** `subprocess.CalledProcessError(returncode, cmd, output, stderr)`. */
  datatype CalledProcessError =
    CalledProcessError(returncode: int, cmd: seq<string>, output: seq<string>, stderr: seq<string>)

  /** The `info` record `run_subprocess` logs before it starts the process. */
  function Announcement(args: seq<string>): (record: LogRecord)
    ensures record.level == Info
    ensures record.text == "Running subprocess without logs: " + Join(args, " ")
    ensures args != [] ==> |record.text| >= 33 + |args[0]| && record.text[33..33 + |args[0]|] == args[0]
  {
    var prefix := "Running subprocess without logs: ";
    var joined := Join(args, " ");
    assert |prefix| == 33;
    assert (prefix + joined)[33..] == joined;
    LogRecord(Info, prefix + joined)
  }
  /**
   * `run_subprocess` once the process has exited with `returnCode`: exactly
   * one of a completed process or a raised error, both carrying the same
   * arguments, and neither carrying output (this version captures none).
   */
  function RunSubprocess(args: seq<string>, returnCode: int): (r: Result<CompletedProcess, CalledProcessError>)
    ensures r.Success? <==> returnCode == 0
    ensures r.Success? ==> r.value == CompletedProcess(args, 0, [], [])
    ensures r.Failure? ==> r.error == CalledProcessError(returnCode, args, [], [])
  {
    if returnCode != 0 then Failure(CalledProcessError(returnCode, args, [], []))
    else Success(CompletedProcess(args, returnCode, [], []))
  }
}
