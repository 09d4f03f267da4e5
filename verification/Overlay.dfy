/** `_controlled_overlay`: two guarded insertions into a Gradle build file. */
module Overlay {
  import opened Wrappers

  const NEWLINE := '\n'

  const RUNNER_KEY := "        testInstrumentationRunner"
  const RUNNER_PACKAGE := " = \"androidx.test.runner."
  const RUNNER_CLASS := "AndroidJUnitRunner\""
  const TARGET_SDK := "        targetSdk = 36\n"
  const DEPENDENCIES := "dependencies {\n"
  const TEST_DEPENDENCIES :=
    "    androidTestImplementation(\"androidx.test:runner:1.7.0\")\n" +
    "    androidTestImplementation(\"androidx.test.ext:junit:1.3.0\")\n"

  datatype OverlayError = NoTargetSdkLine | NoDependenciesBlock

  /** Insert `piece` after the only `marker`, unless it is already there. */
  datatype Edit = Edit(marker: string, piece: string, error: OverlayError)

  const RUNNER_EDIT := Edit(TARGET_SDK, RUNNER_KEY + RUNNER_PACKAGE + RUNNER_CLASS + "\n", NoTargetSdkLine)
  const DEPENDENCIES_EDIT := Edit(DEPENDENCIES, TEST_DEPENDENCIES, NoDependenciesBlock)

  /** `pattern` stands in `text` at index `i`. */
  predicate At(text: string, pattern: string, i: nat) {
    i + |pattern| <= |text| && text[i..i + |pattern|] == pattern
  }

  /** The first occurrence. */
  function Find(text: string, pattern: string): (r: Option<nat>)
    ensures r.Some? ==> At(text, pattern, r.value) && forall i: nat | i < r.value :: !At(text, pattern, i)
    ensures r.None? ==> forall i: nat :: !At(text, pattern, i)
  {
    FindFrom(text, pattern, 0)
  }

  function FindFrom(text: string, pattern: string, start: nat): (r: Option<nat>)
    ensures r.Some? ==> start <= r.value && At(text, pattern, r.value)
    ensures r.Some? ==> forall i: nat | start <= i < r.value :: !At(text, pattern, i)
    ensures r.None? ==> forall i: nat | start <= i :: !At(text, pattern, i)
    decreases |text| + 1 - start
  {
    if start > |text| then None
    else if At(text, pattern, start) then Some(start)
    else FindFrom(text, pattern, start + 1)
  }

  /** `str.count`: occurrences that do not overlap, from the left. */
  function Count(text: string, pattern: string): nat
    requires pattern != ""
    decreases |text|
  {
    var first := Find(text, pattern);
    if first.None? then 0 else 1 + Count(text[first.value + |pattern|..], pattern)
  }

  function Insert(text: string, p: nat, piece: string): string
    requires p <= |text|
  {
    text[..p] + piece + text[p..]
  }

  function Delete(text: string, p: nat, n: nat): string
    requires p + n <= |text|
  {
    text[..p] + text[p + n..]
  }

  function Apply(text: string, e: Edit): Result<string, OverlayError>
    requires e.marker != ""
  {
    if Find(text, e.piece).Some? then Success(text)
    else if Count(text, e.marker) != 1 then Failure(e.error)
    else Success(Insert(text, Find(text, e.marker).value + |e.marker|, e.piece))
  }

  function ApplyBoth(text: string, first: Edit, second: Edit): Result<string, OverlayError>
    requires first.marker != "" && second.marker != ""
  {
    var middle :- Apply(text, first);
    Apply(middle, second)
  }

  function Overlay(text: string): Result<string, OverlayError> {
    ApplyBoth(text, RUNNER_EDIT, DEPENDENCIES_EDIT)
  }

  /** The patcher as it runs: it reassigns `text` under each guard and writes it back. */
  method Patch(build: string, first: Edit, second: Edit) returns (r: Result<string, OverlayError>)
    requires first.marker != "" && second.marker != ""
    ensures r == ApplyBoth(build, first, second)
  {
    hide Find;
    var text := build;
    if Find(text, first.piece).None? {
      if Count(text, first.marker) != 1 {
        return Failure(first.error);
      }
      var p := Find(text, first.marker).value + |first.marker|;
      text := text[..p] + first.piece + text[p..];
    }
    if Find(text, second.piece).None? {
      if Count(text, second.marker) != 1 {
        return Failure(second.error);
      }
      var p := Find(text, second.marker).value + |second.marker|;
      text := text[..p] + second.piece + text[p..];
    }
    return Success(text);
  }

  /** A single line: its only newline is its last character. */
  ghost predicate IsLine(s: string) {
    s != "" && s[|s| - 1] == NEWLINE && forall j | 0 <= j < |s| - 1 :: s[j] != NEWLINE
  }

  /** Inserting at the start of a line never splits an occurrence of a line: it stays, or shifts by the piece. */
  lemma LinesSurvive(text: string, p: nat, piece: string, line: string, i: nat)
    requires IsLine(line) && At(text, line, i)
    requires 0 < p <= |text| && text[p - 1] == NEWLINE
    ensures !(i < p < i + |line|)
    ensures At(Insert(text, p, piece), line, if i < p then i else i + |piece|)
  {
    forall q | i <= q < i + |line| - 1
      ensures text[q] != NEWLINE
    {
      assert text[q] == line[q - i];
    }
    var out := Insert(text, p, piece);
    var k := if i < p then i else i + |piece|;
    assert out[k..k + |line|] == line;
  }

  lemma PieceIsThere(text: string, p: nat, piece: string)
    requires p <= |text|
    ensures At(Insert(text, p, piece), piece, p)
    ensures Delete(Insert(text, p, piece), p, |piece|) == text
  {
  }

  ghost predicate EndsLine(s: string) {
    s != "" && s[|s| - 1] == NEWLINE
  }

  /** What idempotence needs of the two edits: the first inserts one line, and both insert at the start of a line. */
  ghost predicate LineEdits(first: Edit, second: Edit) {
    IsLine(first.piece) && EndsLine(first.marker) && EndsLine(second.marker)
  }

  lemma OverlayEditsAreLineEdits()
    ensures LineEdits(RUNNER_EDIT, DEPENDENCIES_EDIT)
    ensures IsLine(TARGET_SDK) && IsLine(DEPENDENCIES)
  {
    NoNewline(RUNNER_KEY, RUNNER_PACKAGE);
    NoNewline(RUNNER_KEY + RUNNER_PACKAGE, RUNNER_CLASS);
    var line := RUNNER_KEY + RUNNER_PACKAGE + RUNNER_CLASS;
    assert RUNNER_EDIT.piece == line + "\n";
  }

  ghost predicate Free(s: string) {
    forall j | 0 <= j < |s| :: s[j] != NEWLINE
  }

  lemma NoNewline(a: string, b: string)
    requires Free(a) && Free(b)
    ensures Free(a + b)
  {
  }

  lemma PieceAfterApply(text: string, e: Edit)
    requires e.marker != "" && Apply(text, e).Success?
    ensures Find(Apply(text, e).value, e.piece).Some?
  {
    if Find(text, e.piece).None? {
      PieceIsThere(text, Find(text, e.marker).value + |e.marker|, e.piece);
    }
  }

  lemma LineAfterApply(text: string, e: Edit, line: string)
    requires IsLine(line) && EndsLine(e.marker)
    requires Find(text, line).Some? && Apply(text, e).Success?
    ensures Find(Apply(text, e).value, line).Some?
  {
    if Find(text, e.piece).None? {
      var i, m := Find(text, line).value, Find(text, e.marker).value;
      var p := m + |e.marker|;
      assert text[p - 1] == text[m..m + |e.marker|][|e.marker| - 1];
      LinesSurvive(text, p, e.piece, line, i);
    }
  }

  /**
   Both pieces are in the result, because the second insertion does not break up the first piece;
   so applying the two edits again changes nothing.
   */
  lemma Idempotent(text: string, first: Edit, second: Edit)
    requires LineEdits(first, second) && ApplyBoth(text, first, second).Success?
    ensures var out := ApplyBoth(text, first, second).value;
            && Find(out, first.piece).Some? && Find(out, second.piece).Some?
            && ApplyBoth(out, first, second) == Success(out)
  {
    hide IsLine, Find;
    var middle := Apply(text, first).value;
    PieceAfterApply(text, first);
    LineAfterApply(middle, second, first.piece);
    PieceAfterApply(middle, second);
  }

  /** Two occurrences of one line never overlap. */
  lemma LinesDoNotOverlap(text: string, line: string, i: nat, j: nat)
    requires IsLine(line) && At(text, line, i) && At(text, line, j) && i < j
    ensures i + |line| <= j
  {
    var end := i + |line| - 1;
    assert text[end] == line[|line| - 1];
    forall q | j <= q < j + |line| - 1
      ensures text[q] != NEWLINE
    {
      assert text[q] == line[q - j];
    }
  }

  ghost predicate OccursOnce(text: string, pattern: string) {
    exists i: nat :: At(text, pattern, i) && forall j: nat | At(text, pattern, j) :: j == i
  }

  lemma SuffixOccurrence(text: string, pattern: string, cut: nat, k: nat)
    requires cut <= |text|
    ensures At(text[cut..], pattern, k) <==> At(text, pattern, cut + k)
  {
  }

  lemma OnlyOccurrenceIff(text: string, line: string, i: nat)
    requires IsLine(line) && Find(text, line) == Some(i)
    ensures OccursOnce(text, line) <==> Find(text[i + |line|..], line).None?
  {
    var rest := text[i + |line|..];
    var second := Find(rest, line);
    if second.Some? {
      SuffixOccurrence(text, line, i + |line|, second.value);
      assert At(text, line, i) && At(text, line, i + |line| + second.value);
    } else {
      forall j: nat | At(text, line, j)
        ensures j == i
      {
        if i < j {
          LinesDoNotOverlap(text, line, i, j);
          SuffixOccurrence(text, line, i + |line|, j - i - |line|);
        }
      }
    }
  }

  lemma CountIsZeroIff(text: string, pattern: string)
    requires pattern != ""
    ensures Count(text, pattern) == 0 <==> Find(text, pattern).None?
  {
  }

  /**
   The guard `text.count(marker) != 1` rejects exactly the texts in which the marker line does not stand at one place
   only.
   */
  lemma CountIsOneIff(text: string, line: string)
    requires IsLine(line)
    ensures Count(text, line) == 1 <==> OccursOnce(text, line)
  {
    hide OccursOnce;
    var first := Find(text, line);
    if first.Some? {
      CountIsZeroIff(text[first.value + |line|..], line);
      OnlyOccurrenceIff(text, line, first.value);
    } else {
      NeverIsNotOnce(text, line);
    }
  }

  lemma NeverIsNotOnce(text: string, line: string)
    requires Find(text, line).None?
    ensures !OccursOnce(text, line)
  {
  }

  /** The piece stands somewhere. */
  ghost predicate Occurs(text: string, piece: string) {
    exists i: nat :: At(text, piece, i)
  }

  /**
   The text had the piece and is unchanged, or it lacked the piece and now has it right after its only
   marker; deleting it gives the original back.
   */
  ghost predicate InsertedAfter(before: string, after: string, marker: string, piece: string) {
    if Occurs(before, piece) then after == before
    else
      OccursOnce(before, marker) && exists k: nat :: At(before, marker, k) && Placed(before, after, k + |marker|, piece)
  }

  /** The piece was put in at `p`; taking it out again gives the original back. */
  ghost predicate Placed(before: string, after: string, p: nat, piece: string) {
    && p <= |before| && after == before[..p] + piece + before[p..]
    && Delete(after, p, |piece|) == before
  }

  /** An edit is refused exactly when its piece is missing and its marker line does not occur exactly once. */
  lemma ApplyFailsIff(text: string, e: Edit)
    requires IsLine(e.marker)
    ensures Apply(text, e) == Failure(e.error) <==> !Occurs(text, e.piece) && !OccursOnce(text, e.marker)
    ensures Apply(text, e).Failure? <==> !Occurs(text, e.piece) && !OccursOnce(text, e.marker)
  {
    CountIsOneIff(text, e.marker);
  }

  lemma AtFits(text: string, pattern: string, i: nat)
    requires At(text, pattern, i)
    ensures i + |pattern| <= |text|
  {
  }

  lemma InsertIsPlaced(text: string, p: nat, piece: string)
    requires p <= |text|
    ensures Placed(text, Insert(text, p, piece), p, piece)
  {
    PieceIsThere(text, p, piece);
  }

  /** An edit that goes through inserts its piece right after its marker line, or finds it there already. */
  lemma ApplyInsertsAfter(text: string, e: Edit)
    requires IsLine(e.marker) && Apply(text, e).Success?
    ensures InsertedAfter(text, Apply(text, e).value, e.marker, e.piece)
  {
    hide At, Placed, IsLine, OccursOnce;
    if Find(text, e.piece).None? {
      var k := Find(text, e.marker).value;
      CountIsOneIff(text, e.marker);
      AtFits(text, e.marker, k);
      InsertIsPlaced(text, k + |e.marker|, e.piece);
      assert At(text, e.marker, k);
    }
  }

  lemma BothInsertAfter(text: string, first: Edit, second: Edit)
    requires IsLine(first.marker) && IsLine(second.marker) && ApplyBoth(text, first, second).Success?
    ensures exists middle ::
              && InsertedAfter(text, middle, first.marker, first.piece)
              && InsertedAfter(middle, ApplyBoth(text, first, second).value, second.marker, second.piece)
  {
    hide InsertedAfter;
    var middle := Apply(text, first).value;
    ApplyInsertsAfter(text, first);
    ApplyInsertsAfter(middle, second);
  }

  /** The literal lines of the script. */
  lemma LinesSpelled()
    ensures RUNNER_EDIT.marker == "        targetSdk = 36\n"
    ensures RUNNER_EDIT.piece
         == "        testInstrumentationRunner" + " = \"androidx.test.runner." + "AndroidJUnitRunner\"" + "\n"
    ensures DEPENDENCIES_EDIT.marker == "dependencies {\n"
    ensures DEPENDENCIES_EDIT.piece
         == "    androidTestImplementation(\"androidx.test:runner:1.7.0\")\n"
            + "    androidTestImplementation(\"androidx.test.ext:junit:1.3.0\")\n"
  {
  }

  /**
   The overlay stops at the targetSdk line when the runner line is missing and that line does not stand at exactly
   one place, and otherwise at the dependencies block when, in the text it then has, the dependencies are
   missing and the block does not open at exactly one place.
   */
  lemma OverlayFailsIff(text: string)
    ensures Overlay(text) == Failure(NoTargetSdkLine)
       <==> !Occurs(text, RUNNER_EDIT.piece) && !OccursOnce(text, TARGET_SDK)
    ensures Apply(text, RUNNER_EDIT).Success? ==>
              var middle := Apply(text, RUNNER_EDIT).value;
              (Overlay(text) == Failure(NoDependenciesBlock)
               <==> !Occurs(middle, TEST_DEPENDENCIES) && !OccursOnce(middle, DEPENDENCIES))
  {
    OverlayEditsAreLineEdits();
    ApplyFailsIff(text, RUNNER_EDIT);
    if Apply(text, RUNNER_EDIT).Success? {
      ApplyFailsIff(Apply(text, RUNNER_EDIT).value, DEPENDENCIES_EDIT);
    }
  }

  /**
   On any text it accepts, the Gradle overlay is idempotent, leaves both pieces in the text, and changes nothing
   but to insert the runner line right after the targetSdk line and the dependencies right after the opening
   of their block, each where it was missing.
   */
  lemma OverlayIsIdempotentInsertion(text: string)
    requires Overlay(text).Success?
    ensures var out := Overlay(text).value;
            && Overlay(out) == Success(out)
            && Occurs(out, RUNNER_EDIT.piece) && Occurs(out, TEST_DEPENDENCIES)
            && exists middle ::
                 && InsertedAfter(text, middle, TARGET_SDK, RUNNER_EDIT.piece)
                 && InsertedAfter(middle, out, DEPENDENCIES, TEST_DEPENDENCIES)
  {
    hide InsertedAfter, IsLine, ApplyBoth;
    OverlayEditsAreLineEdits();
    Idempotent(text, RUNNER_EDIT, DEPENDENCIES_EDIT);
    BothInsertAfter(text, RUNNER_EDIT, DEPENDENCIES_EDIT);
  }

  /** `_controlled_overlay` on the text of the build file. */
  method ControlledOverlay(build: string) returns (r: Result<string, OverlayError>)
    ensures r == Overlay(build)
    ensures r.Success? ==>
              exists middle ::
                && InsertedAfter(build, middle, TARGET_SDK, RUNNER_EDIT.piece)
                && InsertedAfter(middle, r.value, DEPENDENCIES, TEST_DEPENDENCIES)
  {
    hide InsertedAfter;
    r := Patch(build, RUNNER_EDIT, DEPENDENCIES_EDIT);
    if r.Success? {
      OverlayIsIdempotentInsertion(build);
    }
  }
}
