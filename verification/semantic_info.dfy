/**
 * The semantic-analysis panel: each note is classified by marker phrases on
 * its lower-cased text, and the panel header counts warnings, successes and
 * notes about variables, and picks out the note about iterations.
 */
module SemanticInfo {
  import Prelude
  import opened Text
  import opened Rules
  import opened Sequences

  /** There is no error kind: an error-like note lands in whichever rule fires first, or in General. */
  datatype NoteKind = Warning | Success | Info | Analysis | Structure | General

  const WarningSign := "\U{26A0}\U{FE0F}"
  const CheckMark := "\U{2713}"

  predicate WarningWording(text: string) {
    Contains(text, WarningSign) || Contains(text, "advertencia") || Contains(text, "posible")
  }

  predicate SuccessWording(text: string) {
    Contains(text, CheckMark) || Contains(text, "v\U{E1}lida") || Contains(text, "correctamente")
  }

  predicate DeclarationWording(text: string) {
    Contains(text, "variable") && Contains(text, "declarada")
  }

  /** Any text containing "for" counts, including words such as "información". */
  predicate LoopWording(text: string) {
    Contains(text, "bucle") || Contains(text, "for")
  }

  predicate ControlWording(text: string) {
    Contains(text, "incremento") || Contains(text, "condici\U{F3}n")
  }

  /** The checks of `categorizeInfo`, in source order. */
  const NoteRules: seq<Rule<NoteKind>> := [
    AnyOf3(WarningSign, "advertencia", "posible", Warning),
    AnyOf3(CheckMark, "v\U{E1}lida", "correctamente", Success),
    BothOf("variable", "declarada", Info),
    EitherOf("bucle", "for", Analysis),
    EitherOf("incremento", "condici\U{F3}n", Structure)]

  /** The rule table read as the chain of checks it stands for. */
  lemma NoteRulesDecide(text: string)
    ensures FirstFiring(NoteRules, text, General) ==
      if WarningWording(text) then Warning
      else if SuccessWording(text) then Success
      else if DeclarationWording(text) then Info
      else if LoopWording(text) then Analysis
      else if ControlWording(text) then Structure
      else General
  {
    AnyOf3Fires(WarningSign, "advertencia", "posible", Warning, text);
    AnyOf3Fires(CheckMark, "v\U{E1}lida", "correctamente", Success, text);
    BothOfFires("variable", "declarada", Info, text);
    EitherOfFires("bucle", "for", Analysis, text);
    EitherOfFires("incremento", "condici\U{F3}n", Structure, text);
    var i :=
      if WarningWording(text) then 0
      else if SuccessWording(text) then 1
      else if DeclarationWording(text) then 2
      else if LoopWording(text) then 3
      else if ControlWording(text) then 4
      else 5;
    FirstFiringPicks(NoteRules, text, General, i);
  }

  /**
   * `categorizeInfo`: warning wording wins over everything, success applies
   * only without it, and so on down the list; a note matching nothing is general.
   */
  function ClassifyNote(note: string): (k: NoteKind)
    ensures k == Warning <==> WarningWording(Lower(note))
    ensures k == Success <==> !WarningWording(Lower(note)) && SuccessWording(Lower(note))
    ensures k == Info <==>
      !WarningWording(Lower(note)) && !SuccessWording(Lower(note)) && DeclarationWording(Lower(note))
    ensures k == Analysis <==>
      && !WarningWording(Lower(note)) && !SuccessWording(Lower(note)) && !DeclarationWording(Lower(note))
      && LoopWording(Lower(note))
    ensures k == Structure <==>
      && !WarningWording(Lower(note)) && !SuccessWording(Lower(note)) && !DeclarationWording(Lower(note))
      && !LoopWording(Lower(note)) && ControlWording(Lower(note))
    ensures k == General <==>
      && !WarningWording(Lower(note)) && !SuccessWording(Lower(note)) && !DeclarationWording(Lower(note))
      && !LoopWording(Lower(note)) && !ControlWording(Lower(note))
  {
    NoteRulesDecide(Lower(note));
    FirstFiring(NoteRules, Lower(note), General)
  }

  const InformationWord := "informaci\U{F3}n"

  /** The word "información" has no marker of the first three rules but contains "for". */
  lemma InformationWording()
    ensures !WarningWording(InformationWord) && !SuccessWording(InformationWord)
    ensures !DeclarationWording(InformationWord) && LoopWording(InformationWord)
  {
    InformationHasNoWarning();
    InformationHasNoSuccess();
    InformationHasNoDeclaration();
    InformationHasLoop();
  }

  /** The letters of "información", one by one. */
  lemma InformationLetters(i: int)
    requires 0 <= i < |InformationWord|
    ensures InformationWord[i] in {'i', 'n', 'f', 'o', 'r', 'm', 'a', 'c', '\U{F3}'}
    ensures i <= 5 ==> InformationWord[i] in {'i', 'n', 'f', 'o', 'r', 'm'}
  {
    assert i == 0 || i == 1 || i == 2 || i == 3 || i == 4 || i == 5 || i == 6 || i == 7 || i == 8 || i == 9 || i == 10;
  }

  lemma InformationHasNoWarning()
    ensures !WarningWording(InformationWord)
  {
    InformationLacksSign(WarningSign);
    InformationLacksFrom("advertencia", 'a');
    InformationLacksFrom("posible", 'p');
  }

  lemma InformationHasNoSuccess()
    ensures !SuccessWording(InformationWord)
  {
    InformationLacksSign(CheckMark);
    InformationLacksFrom("v\U{E1}lida", 'v');
    AbsentWhenNoStart(InformationWord, "correctamente");
  }

  lemma InformationHasNoDeclaration()
    ensures !DeclarationWording(InformationWord)
  {
    InformationLacksFrom("variable", 'v');
  }

  /** A marker that starts with a character outside the Latin-1 range is absent. */
  lemma InformationLacksSign(sign: string)
    requires |sign| > 0 && sign[0] > '\U{FF}'
    ensures !Contains(InformationWord, sign)
  {
    forall i | 0 <= i <= |InformationWord| - |sign| ensures InformationWord[i] != sign[0] {
      InformationLetters(i);
    }
    AbsentWhenNoStart(InformationWord, sign);
  }

  /** A marker of at least six letters that starts with a, p or v is absent. */
  lemma InformationLacksFrom(marker: string, first: char)
    requires |marker| >= 6 && marker[0] == first && first in {'a', 'p', 'v'}
    ensures !Contains(InformationWord, marker)
  {
    forall i | 0 <= i <= |InformationWord| - |marker| ensures InformationWord[i] != first {
      InformationLetters(i);
    }
    AbsentWhenNoStart(InformationWord, marker);
  }

  lemma InformationHasLoop()
    ensures LoopWording(InformationWord)
  {
    assert InformationWord[2..5] == "for";
    PresentAt(InformationWord, "for", 2);
  }

  /** The heading "Información" is filed under loop analysis, because it contains "for". */
  lemma InformationIsLoopAnalysis()
    ensures ClassifyNote("Informaci\U{F3}n") == Analysis
  {
    assert LowerChar('I') == 'i';
    assert Lower("Informaci\U{F3}n") == InformationWord;
    InformationWording();
  }

  predicate HasWarningSign(note: string) {
    Contains(note, WarningSign)
  }

  predicate HasCheckMark(note: string) {
    Contains(note, CheckMark)
  }

  predicate MentionsVariable(note: string) {
    Contains(Lower(note), "variable")
  }

  predicate MentionsIterations(note: string) {
    Contains(note, "iteraciones")
  }

  function IsKind(k: NoteKind): string -> bool {
    note => ClassifyNote(note) == k
  }

  /** The header figures of the panel. */
  datatype NoteStats = NoteStats(warnings: nat, successes: nat, variables: nat, iterations: Prelude.Option<string>)

  /**
   * `getStatsFromInfo`: warning and success signs are looked for in the text
   * as given, "variable" in the lower-cased text; `iterations` is the first
   * note that mentions iterations.
   */
  function StatsOf(info: seq<string>): (st: NoteStats)
    ensures st.warnings <= |info| && st.successes <= |info| && st.variables <= |info|
    ensures st.warnings == |Positions(info, HasWarningSign)|
    ensures st.successes == |Positions(info, HasCheckMark)|
    ensures st.variables == |Positions(info, MentionsVariable)|
    ensures st.iterations.None? <==> forall i :: 0 <= i < |info| ==> !MentionsIterations(info[i])
    ensures st.iterations.Some? ==> exists i ::
      && 0 <= i < |info| && info[i] == st.iterations.value && MentionsIterations(info[i])
      && (forall j :: 0 <= j < i ==> !MentionsIterations(info[j]))
  {
    CountIfPositions(info, HasWarningSign);
    CountIfPositions(info, HasCheckMark);
    CountIfPositions(info, MentionsVariable);
    NoteStats(
      CountIf(info, HasWarningSign),
      CountIf(info, HasCheckMark),
      CountIf(info, MentionsVariable),
      Find(info, MentionsIterations))
  }

  /** The header of an empty list shows three zeros and no iterations note. */
  lemma StatsOfEmpty()
    ensures StatsOf([]) == NoteStats(0, 0, 0, Prelude.None)
  {
  }

  /**
   * One more note raises each count by one exactly when it carries that
   * count's marker, and it becomes the iterations note only when it mentions
   * iterations and no earlier note did.
   */
  lemma StatsOfAppend(info: seq<string>, note: string)
    ensures StatsOf(info + [note]).warnings ==
      StatsOf(info).warnings + (if Contains(note, WarningSign) then 1 else 0)
    ensures StatsOf(info + [note]).successes ==
      StatsOf(info).successes + (if Contains(note, CheckMark) then 1 else 0)
    ensures StatsOf(info + [note]).variables ==
      StatsOf(info).variables + (if Contains(Lower(note), "variable") then 1 else 0)
    ensures StatsOf(info + [note]).iterations ==
      if StatsOf(info).iterations.Some? then StatsOf(info).iterations
      else if Contains(note, "iteraciones") then Prelude.Some(note)
      else Prelude.None
  {
    CountIfSnoc(info, note, HasWarningSign);
    CountIfSnoc(info, note, HasCheckMark);
    CountIfSnoc(info, note, MentionsVariable);
    FindSnoc(info, note, MentionsIterations);
  }

  /** The warning sign is not touched by lower-casing, and neither is the check mark. */
  lemma SignsSurviveLower()
    ensures Lower(WarningSign) == WarningSign
    ensures Lower(CheckMark) == CheckMark
  {
  }

  /** A note with the warning sign is classified as a warning, whatever else it says. */
  lemma WarningSignMeansWarning(note: string)
    requires HasWarningSign(note)
    ensures ClassifyNote(note) == Warning
  {
    SignsSurviveLower();
    ContainsSurvivesLower(note, WarningSign);
  }

  /** A note with the check mark is a success unless warning wording outranks it. */
  lemma CheckMarkMeansSuccessOrWarning(note: string)
    requires HasCheckMark(note)
    ensures IsWarningOrSuccess()(note)
  {
    SignsSurviveLower();
    ContainsSurvivesLower(note, CheckMark);
  }

  function IsWarningOrSuccess(): string -> bool {
    note => ClassifyNote(note) == Warning || ClassifyNote(note) == Success
  }

  /** The header's warning count never exceeds the number of notes shown as warnings. */
  lemma WarningsAreWarnings(info: seq<string>)
    ensures StatsOf(info).warnings <= CountIf(info, IsKind(Warning))
  {
    forall note | HasWarningSign(note) ensures IsKind(Warning)(note) {
      WarningSignMeansWarning(note);
    }
    CountIfMonotone(info, HasWarningSign, IsKind(Warning));
  }

  /** The header's success count never exceeds the notes shown as warnings or successes. */
  lemma SuccessesAreWarningsOrSuccesses(info: seq<string>)
    ensures StatsOf(info).successes <= CountIf(info, IsKind(Warning)) + CountIf(info, IsKind(Success))
  {
    CheckMarksAreWarningsOrSuccesses(info);
    WarningOrSuccessSplits(info);
  }

  /** A note shown as a warning or a success is shown as one of the two. */
  lemma WarningOrSuccessSplits(info: seq<string>)
    ensures CountIf(info, IsWarningOrSuccess()) <= CountIf(info, IsKind(Warning)) + CountIf(info, IsKind(Success))
  {
    var w, su, ws := IsKind(Warning), IsKind(Success), IsWarningOrSuccess();
    forall note: string ensures ws(note) ==> w(note) || su(note) {
    }
    CountIfCovered(info, w, su, ws);
  }

  lemma CheckMarksAreWarningsOrSuccesses(info: seq<string>)
    ensures CountIf(info, HasCheckMark) <= CountIf(info, IsWarningOrSuccess())
  {
    var ws := IsWarningOrSuccess();
    forall note | HasCheckMark(note) ensures ws(note) {
      CheckMarkMeansSuccessOrWarning(note);
    }
    CountIfMonotone(info, HasCheckMark, ws);
  }
}
