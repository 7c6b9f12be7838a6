/**
 * How the refactoring loop turns the output of its two checkers into lists:
 * the PHPStan JSON report, already decoded, into error records, and the
 * matches of the Pest failure pattern into failure records.
 */
module RalphReports {
  import opened Wrappers
  import opened OrderedMaps
  import opened PhpStrings
  import opened PhpValues

  // ---------------------------------------------------------------------
  // PHPStan
  // ---------------------------------------------------------------------

  /** One error record of runPhpStan. */
  datatype PhpStanError = PhpStanError(file: Key, line: Value, message: Value, ignorable: Value)

  const UnknownError := "Unknown error"

  /** The entries foreach visits for `$a[$k] ?? []`: none when the value is missing, null or not an array. */
  function EntriesAt(v: Value, k: string): (es: Assoc<Key, Value>)
    ensures Index(v, StrKey(k)).Some? && Index(v, StrKey(k)).value.Arr? ==> es == Index(v, StrKey(k)).value.entries
    ensures !(Index(v, StrKey(k)).Some? && Index(v, StrKey(k)).value.Arr?) ==> es == []
  {
    var o := Index(v, StrKey(k));
    if o.Some? && o.value.Arr? then o.value.entries else []
  }

  /** The record built for one entry of a file's messages: absent or null fields take their defaults. */
  function ErrorRecord(file: Key, error: Value): (e: PhpStanError)
    ensures e.file == file
    ensures e.line == if IsSet(Index(error, StrKey("line"))) then Index(error, StrKey("line")).value else Int(0)
    ensures e.message == if IsSet(Index(error, StrKey("message"))) then Index(error, StrKey("message")).value else Str(UnknownError)
    ensures e.ignorable == if IsSet(Index(error, StrKey("ignorable"))) then Index(error, StrKey("ignorable")).value else Bool(false)
  {
    PhpStanError(file,
      Coalesce(Index(error, StrKey("line")), Int(0)),
      Coalesce(Index(error, StrKey("message")), Str(UnknownError)),
      Coalesce(Index(error, StrKey("ignorable")), Bool(false)))
  }

  /** The records of one file, in the order of its messages. */
  function FileErrors(file: Key, messages: Assoc<Key, Value>): seq<PhpStanError>
    decreases |messages|
  {
    if messages == [] then []
    else FileErrors(file, messages[..|messages| - 1]) + [ErrorRecord(file, messages[|messages| - 1].1)]
  }

  /** The records of all files, file by file. */
  function AllErrors(files: Assoc<Key, Value>): seq<PhpStanError>
    decreases |files|
  {
    if files == [] then []
    else
      var last := files[|files| - 1];
      AllErrors(files[..|files| - 1]) + FileErrors(last.0, EntriesAt(last.1, "messages"))
  }

  /** The error list of runPhpStan, given the decoded report or None when the output was empty or not JSON. */
  function PhpStanErrors(decoded: Option<Value>): (r: seq<PhpStanError>)
    ensures decoded.None? ==> r == []
  {
    if decoded.None? then [] else AllErrors(EntriesAt(decoded.value, "files"))
  }

  /** runPhpStan after the process has run: the nested foreach over files and their messages. */
  method RunPhpStan(decoded: Option<Value>) returns (errors: seq<PhpStanError>)
    ensures errors == PhpStanErrors(decoded)
  {
    if decoded.None? {
      return [];
    }
    errors := [];
    var files := EntriesAt(decoded.value, "files");
    for i := 0 to |files|
      invariant errors == AllErrors(files[..i])
    {
      var file := files[i].0;
      var messages := EntriesAt(files[i].1, "messages");
      ghost var before := errors;
      for j := 0 to |messages|
        invariant errors == before + FileErrors(file, messages[..j])
      {
        var record := ErrorRecord(file, messages[j].1);
        FileErrorsStep(file, messages, j);
        AppendAssoc(before, FileErrors(file, messages[..j]), record);
        errors := errors + [record];
      }
      assert messages[..|messages|] == messages;
      AllErrorsStep(files, i);
    }
    assert files[..|files|] == files;
  }

  /** One more message adds its record at the end. */
  lemma FileErrorsStep(file: Key, messages: Assoc<Key, Value>, j: nat)
    requires j < |messages|
    ensures FileErrors(file, messages[..j + 1]) == FileErrors(file, messages[..j]) + [ErrorRecord(file, messages[j].1)]
  {
    assert messages[..j + 1][..j] == messages[..j];
  }

  /** One more file adds its records at the end. */
  lemma AllErrorsStep(files: Assoc<Key, Value>, i: nat)
    requires i < |files|
    ensures AllErrors(files[..i + 1]) == AllErrors(files[..i]) + FileErrors(files[i].0, EntriesAt(files[i].1, "messages"))
  {
    assert files[..i + 1][..i] == files[..i];
  }

  lemma AppendAssoc<T>(a: seq<T>, b: seq<T>, x: T)
    ensures a + b + [x] == a + (b + [x])
  {
  }

  /** A file contributes exactly one record per message, in order. */
  lemma {:induction false} FileErrorsEntries(file: Key, messages: Assoc<Key, Value>)
    ensures |FileErrors(file, messages)| == |messages|
    ensures forall k :: 0 <= k < |messages| ==> FileErrors(file, messages)[k] == ErrorRecord(file, messages[k].1)
    decreases |messages|
  {
    if messages != [] {
      var prefix := messages[..|messages| - 1];
      FileErrorsEntries(file, prefix);
      assert forall k :: 0 <= k < |prefix| ==> prefix[k] == messages[k];
    }
  }

  /** Every record comes from one message of one file. */
  lemma {:induction false} AllErrorsOrigin(files: Assoc<Key, Value>, k: nat) returns (i: nat, j: nat)
    requires k < |AllErrors(files)|
    ensures i < |files| && j < |EntriesAt(files[i].1, "messages")|
    ensures AllErrors(files)[k] == ErrorRecord(files[i].0, EntriesAt(files[i].1, "messages")[j].1)
    decreases |files|
  {
    var prefix := files[..|files| - 1];
    var last := files[|files| - 1];
    var messages := EntriesAt(last.1, "messages");
    if k < |AllErrors(prefix)| {
      i, j := AllErrorsOrigin(prefix, k);
      assert prefix[i] == files[i];
    } else {
      FileErrorsEntries(last.0, messages);
      i, j := |files| - 1, k - |AllErrors(prefix)|;
    }
  }

  /** Every message of every file gives a record. */
  lemma {:induction false} AllErrorsComplete(files: Assoc<Key, Value>, i: nat, j: nat) returns (k: nat)
    requires i < |files| && j < |EntriesAt(files[i].1, "messages")|
    ensures k < |AllErrors(files)|
    ensures AllErrors(files)[k] == ErrorRecord(files[i].0, EntriesAt(files[i].1, "messages")[j].1)
    decreases |files|
  {
    var prefix := files[..|files| - 1];
    var last := files[|files| - 1];
    if i < |files| - 1 {
      assert prefix[i] == files[i];
      k := AllErrorsComplete(prefix, i, j);
    } else {
      FileErrorsEntries(last.0, EntriesAt(last.1, "messages"));
      k := |AllErrors(prefix)| + j;
    }
  }

  /** The number of messages over all files. */
  function MessageCount(files: Assoc<Key, Value>): nat
    decreases |files|
  {
    if files == [] then 0
    else MessageCount(files[..|files| - 1]) + |EntriesAt(files[|files| - 1].1, "messages")|
  }

  /** The error count is the number of messages in the report. */
  lemma {:induction false} AllErrorsCount(files: Assoc<Key, Value>)
    ensures |AllErrors(files)| == MessageCount(files)
    decreases |files|
  {
    if files != [] {
      var last := files[|files| - 1];
      AllErrorsCount(files[..|files| - 1]);
      FileErrorsEntries(last.0, EntriesAt(last.1, "messages"));
    }
  }

  // ---------------------------------------------------------------------
  // Pest
  // ---------------------------------------------------------------------

  /** The three groups of one match of the failure pattern: test name, file and line digits. */
  datatype PestMatch = PestMatch(test: string, file: string, line: string)

  /** One Pest run: whether the process succeeded, and the matches of the failure pattern in its output. */
  datatype PestRun = PestRun(successful: bool, matches: seq<PestMatch>)

  /** One failure record of parsePestOutput. */
  datatype PestFailure = PestFailure(test: string, message: string, file: string, line: PhpInt)

  const TestFailed := "Test failed"

  /** The record of one match: trimmed name and file, the line cast to int, and a fixed message. */
  function FailureOf(m: PestMatch): PestFailure {
    PestFailure(Trim(m.test), TestFailed, Trim(m.file), IntCast(Str(m.line)))
  }

  /** f applied to every element of s, in order. */
  function Map<A, B>(f: A -> B, s: seq<A>): (r: seq<B>)
    ensures |r| == |s| && forall k :: 0 <= k < |s| ==> r[k] == f(s[k])
  {
    seq(|s|, k requires 0 <= k < |s| => f(s[k]))
  }

  lemma MapAppend<A, B>(f: A -> B, s: seq<A>, i: nat)
    requires i < |s|
    ensures Map(f, s[..i + 1]) == Map(f, s[..i]) + [f(s[i])]
  {
  }

  /** One record per match, in order. */
  function MatchFailures(matches: seq<PestMatch>): (r: seq<PestFailure>)
    ensures |r| == |matches|
  {
    Map(FailureOf, matches)
  }

  /** The failure list of runPest. */
  function PestFailures(run: PestRun): (r: seq<PestFailure>)
    ensures run.successful ==> r == []
  {
    if run.successful then [] else MatchFailures(run.matches)
  }

  /** parsePestOutput: one record per match. */
  method ParsePestOutput(matches: seq<PestMatch>) returns (failures: seq<PestFailure>)
    ensures failures == MatchFailures(matches)
  {
    failures := [];
    for i := 0 to |matches|
      invariant failures == Map(FailureOf, matches[..i])
    {
      MapAppend(FailureOf, matches, i);
      failures := failures + [FailureOf(matches[i])];
    }
    assert matches[..|matches|] == matches;
  }

  /** runPest after the process has run. */
  method RunPest(run: PestRun) returns (failures: seq<PestFailure>)
    ensures failures == PestFailures(run)
  {
    if run.successful {
      return [];
    }
    failures := ParsePestOutput(run.matches);
  }

  /** The failure count is 0 for a successful run and the number of matches otherwise. */
  lemma PestFailureCount(run: PestRun)
    ensures |PestFailures(run)| == if run.successful then 0 else |run.matches|
    ensures forall k :: 0 <= k < |PestFailures(run)| ==>
      PestFailures(run)[k].message == TestFailed &&
      PestFailures(run)[k].test == Trim(run.matches[k].test) &&
      PestFailures(run)[k].file == Trim(run.matches[k].file)
  {
  }

  /** A failed run whose output matches the pattern nowhere reports no failures. */
  lemma UnmatchedFailureIsSilent(run: PestRun)
    requires !run.successful && run.matches == []
    ensures PestFailures(run) == []
  {
  }
}
