/**
 * The repair prompt the refactoring loop sends: fixed instructions, the
 * PHPStan errors and Pest failures when there are any, the current code in
 * a php block, and the heading the reply is to continue.
 */
module RalphPrompt {
  import opened PhpStrings
  import opened PhpValues
  import opened RalphReports

  /** The fixed texts a prompt is assembled from. */
  datatype Wording = Wording(
    instructions: string,
    errorsHeading: string,
    failuresHeading: string,
    codeHeading: string,
    codeClosing: string,
    fixedCodeHeading: string)

  /** The texts generateRefactorPrompt uses. */
  const Texts := Wording(
    "Je bent een expert PHP 8.4 developer. Je taak is om de onderstaande code te fixen\n" +
    "zodat deze voldoet aan PHPStan Level 9 en alle tests passeert.\n" +
    "\n" +
    "REQUIREMENTS:\n" +
    "- Gebruik declare(strict_types=1);\n" +
    "- Gebruik PHP 8.4 features waar mogelijk (constructor promotion, readonly, etc.)\n" +
    "- Fix ALLE gemelde errors\n" +
    "- Behoud de bestaande functionaliteit\n" +
    "- Retourneer ALLEEN de gefixte code, geen uitleg\n",
    "\n\n## PHPSTAN ERRORS:\n",
    "\n\n## TEST FAILURES:\n",
    "\n\n## CURRENT CODE:\n```php\n",
    "\n```",
    "\n\n## FIXED CODE:\n")

  /** sprintf("- Line %d: %s\n", line, message). */
  function ErrorLine(e: PhpStanError): string {
    "- Line " + IntToString(IntCast(e.line)) + ": " + StringCast(e.message) + "\n"
  }

  /** sprintf("- %s (Line %d): %s\n", test, line, message). */
  function FailureLine(f: PestFailure): string {
    "- " + f.test + " (Line " + IntToString(f.line) + "): " + f.message + "\n"
  }

  /** Lines joined in order. */
  function Joined(lines: seq<string>): string
    decreases |lines|
  {
    if lines == [] then "" else Joined(lines[..|lines| - 1]) + lines[|lines| - 1]
  }

  /** Joining one more line appends it. */
  lemma JoinedStep(lines: seq<string>, i: nat)
    requires i < |lines|
    ensures Joined(lines[..i + 1]) == Joined(lines[..i]) + lines[i]
  {
    assert lines[..i + 1][..i] == lines[..i];
  }

  /** A section: nothing for no lines, else the heading and the lines. */
  function Section(heading: string, lines: seq<string>): (r: string)
    ensures lines == [] ==> r == ""
    ensures lines != [] ==> |r| >= |heading| && r[..|heading|] == heading
  {
    if lines == [] then "" else heading + Joined(lines)
  }

  /** The PHPSTAN ERRORS section of the texts w. */
  function ErrorSection(w: Wording, errors: seq<PhpStanError>): string {
    Section(w.errorsHeading, Map(ErrorLine, errors))
  }

  /** The TEST FAILURES section of the texts w. */
  function FailureSection(w: Wording, failures: seq<PestFailure>): string {
    Section(w.failuresHeading, Map(FailureLine, failures))
  }

  /** Everything before the code: the instructions and the two sections. */
  function Head(w: Wording, errors: seq<PhpStanError>, failures: seq<PestFailure>): string {
    w.instructions + ErrorSection(w, errors) + FailureSection(w, failures)
  }

  /** The CURRENT CODE heading and the code in its php block. */
  function CodeBlock(w: Wording, code: string): string {
    w.codeHeading + code + w.codeClosing
  }

  /** The prompt assembled from the texts w. */
  function PromptOf(w: Wording, code: string, errors: seq<PhpStanError>, failures: seq<PestFailure>): string {
    Head(w, errors, failures) + CodeBlock(w, code) + w.fixedCodeHeading
  }

  /** The prompt generateRefactorPrompt returns. */
  function PromptText(code: string, errors: seq<PhpStanError>, failures: seq<PestFailure>): string {
    PromptOf(Texts, code, errors, failures)
  }

  /** generateRefactorPrompt: the prompt grows by `.=` one piece at a time. */
  method GenerateRefactorPrompt(code: string, errors: seq<PhpStanError>, failures: seq<PestFailure>)
    returns (prompt: string)
    ensures prompt == PromptText(code, errors, failures)
  {
    prompt := Assemble(Texts, code, errors, failures);
  }

  method Assemble(w: Wording, code: string, errors: seq<PhpStanError>, failures: seq<PestFailure>)
    returns (prompt: string)
    ensures prompt == PromptOf(w, code, errors, failures)
  {
    prompt := w.instructions;
    prompt := AppendErrors(prompt, w.errorsHeading, errors);
    prompt := AppendFailures(prompt, w.failuresHeading, failures);
    prompt := prompt + CodeBlock(w, code);
    prompt := prompt + w.fixedCodeHeading;
  }

  /** The `if (count($phpstanErrors) > 0)` block: the heading, then one line per error. */
  method AppendErrors(prompt: string, heading: string, errors: seq<PhpStanError>) returns (r: string)
    ensures r == prompt + Section(heading, Map(ErrorLine, errors))
  {
    r := AppendSection(prompt, heading, ErrorLine, errors);
  }

  /** The `if (count($pestFailures) > 0)` block: the heading, then one line per failure. */
  method AppendFailures(prompt: string, heading: string, failures: seq<PestFailure>) returns (r: string)
    ensures r == prompt + Section(heading, Map(FailureLine, failures))
  {
    r := AppendSection(prompt, heading, FailureLine, failures);
  }

  /** Appends the heading and then the line format gives each item, when there are items. */
  method AppendSection<T>(prompt: string, heading: string, format: T -> string, items: seq<T>) returns (r: string)
    ensures r == prompt + Section(heading, Map(format, items))
  {
    r := prompt;
    if |items| > 0 {
      r := r + heading;
      ghost var lines := Map(format, items);
      for i := 0 to |items|
        invariant r == prompt + heading + Joined(lines[..i])
      {
        assert lines[..i + 1][..i] == lines[..i];
        r := r + format(items[i]);
      }
      assert lines[..|items|] == lines;
      ConcatAssoc(prompt, heading, Joined(lines));
    }
  }

  // ---------------------------------------------------------------------
  // Properties of the prompt
  // ---------------------------------------------------------------------

  lemma Assoc4(x: string, y: string, z: string, u: string)
    ensures x + y + z + u == x + (y + z + u)
  {
    ConcatAssoc(x, y, z);
    ConcatAssoc(x, y + z, u);
    ConcatAssoc(x + y, z, u);
  }

  lemma PrefixOf(a: string, b: string, n: nat)
    requires n <= |a|
    ensures (a + b)[..n] == a[..n]
  {
  }

  /** Each line of a joined list sits at some position of it. */
  lemma {:induction false} JoinedHas(lines: seq<string>, k: nat) returns (pos: nat)
    requires k < |lines|
    ensures pos + |lines[k]| <= |Joined(lines)| && Joined(lines)[pos..pos + |lines[k]|] == lines[k]
    decreases |lines|
  {
    var prefix := lines[..|lines| - 1];
    var last := lines[|lines| - 1];
    assert Joined(lines) == Joined(prefix) + last;
    if k == |lines| - 1 {
      pos := |Joined(prefix)|;
    } else {
      assert prefix[k] == lines[k];
      pos := JoinedHas(prefix, k);
      PrefixOf(Joined(prefix), last, pos + |lines[k]|);
      assert Joined(lines)[pos..pos + |lines[k]|] == Joined(lines)[..pos + |lines[k]|][pos..];
    }
  }

  /** A text inside the middle part sits inside the whole concatenation. */
  lemma Inside(before: string, middle: string, after: string, at: nat, piece: string)
    requires at + |piece| <= |middle| && middle[at..at + |piece|] == piece
    ensures var s := before + middle + after;
      |before| + at + |piece| <= |s| && s[|before| + at..|before| + at + |piece|] == piece
  {
    var s := before + middle + after;
    forall j | 0 <= j < |piece|
      ensures s[|before| + at + j] == piece[j]
    {
      assert piece[j] == middle[at + j];
    }
  }

  /** The text every prompt ends with: the code in its php block and the FIXED CODE heading. */
  function Ending(code: string): string {
    "\n\n## CURRENT CODE:\n```php\n" + code + "\n```\n\n## FIXED CODE:\n"
  }

  lemma EndingOfTexts(code: string)
    ensures CodeBlock(Texts, code) + Texts.fixedCodeHeading == Ending(code)
  {
  }

  /** Every prompt starts with the instructions and ends with the current code in its php block and the FIXED CODE heading. */
  lemma PromptFrame(code: string, errors: seq<PhpStanError>, failures: seq<PestFailure>)
    ensures var p := PromptText(code, errors, failures);
      |p| >= |Texts.instructions| + |Ending(code)| &&
      p[..|Texts.instructions|] == Texts.instructions &&
      p[|p| - |Ending(code)|..] == Ending(code)
  {
    var w := Texts;
    var head := Head(w, errors, failures);
    ConcatAssoc(head, CodeBlock(w, code), w.fixedCodeHeading);
    EndingOfTexts(code);
    assert PromptText(code, errors, failures) == head + Ending(code);
    PrefixOf(w.instructions + ErrorSection(w, errors), FailureSection(w, failures), |w.instructions|);
    PrefixOf(w.instructions, ErrorSection(w, errors), |w.instructions|);
    PrefixOf(head, Ending(code), |w.instructions|);
  }

  /** Without errors or failures the prompt is the instructions followed by its ending. */
  lemma CleanPrompt(code: string)
    ensures PromptText(code, [], []) == Texts.instructions + Ending(code)
  {
    var w := Texts;
    assert Map(ErrorLine, []) == [] && Map(FailureLine, []) == [];
    assert Head(w, [], []) == w.instructions;
    ConcatAssoc(w.instructions, CodeBlock(w, code), w.fixedCodeHeading);
    EndingOfTexts(code);
  }

  /** With errors, the PHPSTAN ERRORS heading follows the instructions directly. */
  lemma PromptOpensErrors(code: string, errors: seq<PhpStanError>, failures: seq<PestFailure>)
    requires errors != []
    ensures var p := PromptText(code, errors, failures);
      var at := |Texts.instructions|;
      at + |Texts.errorsHeading| <= |p| && p[at..at + |Texts.errorsHeading|] == "\n\n## PHPSTAN ERRORS:\n"
  {
    OpensErrors(Texts, code, errors, failures);
  }

  lemma OpensErrors(w: Wording, code: string, errors: seq<PhpStanError>, failures: seq<PestFailure>)
    requires errors != []
    ensures var p := PromptOf(w, code, errors, failures);
      var at := |w.instructions|;
      at + |w.errorsHeading| <= |p| && p[at..at + |w.errorsHeading|] == w.errorsHeading
  {
    var rest := FailureSection(w, failures) + CodeBlock(w, code) + w.fixedCodeHeading;
    Assoc4(w.instructions + ErrorSection(w, errors), FailureSection(w, failures), CodeBlock(w, code), w.fixedCodeHeading);
    ConcatAssoc(w.instructions, ErrorSection(w, errors), rest);
    Inside(w.instructions, ErrorSection(w, errors), rest, 0, w.errorsHeading);
  }

  /** With failures, the TEST FAILURES heading follows the instructions and the error section. */
  lemma PromptOpensFailures(code: string, errors: seq<PhpStanError>, failures: seq<PestFailure>)
    requires failures != []
    ensures var p := PromptText(code, errors, failures);
      var at := |Texts.instructions| + |ErrorSection(Texts, errors)|;
      at + |Texts.failuresHeading| <= |p| && p[at..at + |Texts.failuresHeading|] == "\n\n## TEST FAILURES:\n"
  {
    OpensFailures(Texts, code, errors, failures);
  }

  lemma OpensFailures(w: Wording, code: string, errors: seq<PhpStanError>, failures: seq<PestFailure>)
    requires failures != []
    ensures var p := PromptOf(w, code, errors, failures);
      var at := |w.instructions| + |ErrorSection(w, errors)|;
      at + |w.failuresHeading| <= |p| && p[at..at + |w.failuresHeading|] == w.failuresHeading
  {
    var before := w.instructions + ErrorSection(w, errors);
    ConcatAssoc(before + FailureSection(w, failures), CodeBlock(w, code), w.fixedCodeHeading);
    Inside(before, FailureSection(w, failures), CodeBlock(w, code) + w.fixedCodeHeading, 0, w.failuresHeading);
  }

  /** Every PHPStan error is listed in the prompt by its line and message. */
  lemma PromptListsError(code: string, errors: seq<PhpStanError>, failures: seq<PestFailure>, k: nat)
    returns (pos: nat)
    requires k < |errors|
    ensures var p := PromptText(code, errors, failures);
      pos + |ErrorLine(errors[k])| <= |p| && p[pos..pos + |ErrorLine(errors[k])|] == ErrorLine(errors[k])
  {
    pos := ListsError(Texts, code, errors, failures, k);
  }

  lemma ListsError(w: Wording, code: string, errors: seq<PhpStanError>, failures: seq<PestFailure>, k: nat)
    returns (pos: nat)
    requires k < |errors|
    ensures var p := PromptOf(w, code, errors, failures);
      pos + |ErrorLine(errors[k])| <= |p| && p[pos..pos + |ErrorLine(errors[k])|] == ErrorLine(errors[k])
  {
    var rest := FailureSection(w, failures) + CodeBlock(w, code) + w.fixedCodeHeading;
    var lines := Map(ErrorLine, errors);
    AroundErrors(w, code, errors, failures);
    assert lines[k] == ErrorLine(errors[k]);
    pos := ListedLine(w.instructions, w.errorsHeading, lines, rest, k);
  }

  /** The prompt is the instructions, the error section and everything after it. */
  lemma AroundErrors(w: Wording, code: string, errors: seq<PhpStanError>, failures: seq<PestFailure>)
    ensures PromptOf(w, code, errors, failures)
      == w.instructions + Section(w.errorsHeading, Map(ErrorLine, errors))
         + (FailureSection(w, failures) + CodeBlock(w, code) + w.fixedCodeHeading)
  {
    Assoc4(w.instructions + ErrorSection(w, errors), FailureSection(w, failures), CodeBlock(w, code), w.fixedCodeHeading);
  }

  /** The k-th line of a section sits inside any text around that section. */
  lemma ListedLine(b: string, heading: string, lines: seq<string>, c: string, k: nat)
    returns (pos: nat)
    requires k < |lines|
    ensures var p := b + Section(heading, lines) + c;
      pos + |lines[k]| <= |p| && p[pos..pos + |lines[k]|] == lines[k]
  {
    var at := JoinedHas(lines, k);
    SectionBody(heading, lines);
    pos := ListedIn(b, Section(heading, lines), heading, Joined(lines), c, at, lines[k]);
  }

  /** A section with lines is its heading followed by the joined lines. */
  lemma SectionBody(heading: string, lines: seq<string>)
    requires lines != []
    ensures Section(heading, lines) == heading + Joined(lines)
  {
  }

  /** A piece of the body j of a section s == h + j sits inside b + s + c. */
  lemma ListedIn(b: string, s: string, h: string, j: string, c: string, at: nat, piece: string)
    returns (pos: nat)
    requires s == h + j
    requires at + |piece| <= |j| && j[at..at + |piece|] == piece
    ensures pos + |piece| <= |b + s + c| && (b + s + c)[pos..pos + |piece|] == piece
  {
    ConcatAssoc(b, h, j);
    Inside(b + h, j, c, at, piece);
    pos := |b + h| + at;
  }

  /** Every Pest failure is listed in the prompt by its test, line and message. */
  lemma PromptListsFailure(code: string, errors: seq<PhpStanError>, failures: seq<PestFailure>, k: nat)
    returns (pos: nat)
    requires k < |failures|
    ensures var p := PromptText(code, errors, failures);
      pos + |FailureLine(failures[k])| <= |p| && p[pos..pos + |FailureLine(failures[k])|] == FailureLine(failures[k])
  {
    pos := ListsFailure(Texts, code, errors, failures, k);
  }

  lemma ListsFailure(w: Wording, code: string, errors: seq<PhpStanError>, failures: seq<PestFailure>, k: nat)
    returns (pos: nat)
    requires k < |failures|
    ensures var p := PromptOf(w, code, errors, failures);
      pos + |FailureLine(failures[k])| <= |p| && p[pos..pos + |FailureLine(failures[k])|] == FailureLine(failures[k])
  {
    var before := w.instructions + ErrorSection(w, errors);
    AroundFailures(w, code, errors, failures);
    var lines := Map(FailureLine, failures);
    assert lines[k] == FailureLine(failures[k]);
    pos := ListedLine(before, w.failuresHeading, lines, CodeBlock(w, code) + w.fixedCodeHeading, k);
  }

  /** The prompt is everything before the failure section, that section and the rest. */
  lemma AroundFailures(w: Wording, code: string, errors: seq<PhpStanError>, failures: seq<PestFailure>)
    ensures PromptOf(w, code, errors, failures)
      == w.instructions + ErrorSection(w, errors) + Section(w.failuresHeading, Map(FailureLine, failures))
         + (CodeBlock(w, code) + w.fixedCodeHeading)
  {
    ConcatAssoc(w.instructions + ErrorSection(w, errors) + FailureSection(w, failures), CodeBlock(w, code), w.fixedCodeHeading);
  }
}
