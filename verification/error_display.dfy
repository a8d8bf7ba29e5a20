/**
 * The error list: each diagnostic is classified by marker phrases on its
 * lower-cased text, its line and column are read from the original text,
 * and remediation hints are chosen by a second rule list.
 */
module ErrorDisplay {
  import opened Prelude
  import opened Text
  import opened Rules

  datatype ErrorKind = Syntactic | Eof | Connection | Lexical | General

  const Expected := "se esperaba"
  const EndReached := "se lleg\U{F3} al final"
  const ConnectionWord := "conexi\U{F3}n"
  const ServerWord := "servidor"
  const Malformed := "mal formado"
  const NumberWord := "n\U{FA}mero"

  /** The checks of `getErrorType`, in source order. */
  const ErrorRules: seq<Rule<ErrorKind>> := [
    Marker(Expected, Syntactic),
    Marker(EndReached, Eof),
    EitherOf(ConnectionWord, ServerWord, Connection),
    EitherOf(Malformed, NumberWord, Lexical)]

  /**
   * `getErrorType`: the first matching phrase on the lower-cased message
   * decides, and a message matching none is a general error.
   */
  function ClassifyError(msg: string): (k: ErrorKind)
    ensures k == Syntactic <==> Contains(Lower(msg), Expected)
    ensures k == Eof <==> !Contains(Lower(msg), Expected) && Contains(Lower(msg), EndReached)
    ensures k == Connection <==>
      && !Contains(Lower(msg), Expected) && !Contains(Lower(msg), EndReached)
      && (Contains(Lower(msg), ConnectionWord) || Contains(Lower(msg), ServerWord))
    ensures k == Lexical <==>
      && !Contains(Lower(msg), Expected) && !Contains(Lower(msg), EndReached)
      && !Contains(Lower(msg), ConnectionWord) && !Contains(Lower(msg), ServerWord)
      && (Contains(Lower(msg), Malformed) || Contains(Lower(msg), NumberWord))
    ensures k == General <==>
      && !Contains(Lower(msg), Expected) && !Contains(Lower(msg), EndReached)
      && !Contains(Lower(msg), ConnectionWord) && !Contains(Lower(msg), ServerWord)
      && !Contains(Lower(msg), Malformed) && !Contains(Lower(msg), NumberWord)
  {
    ErrorRulesDecide(Lower(msg));
    FirstFiring(ErrorRules, Lower(msg), General)
  }

  /** The rule table read as the chain of checks it stands for. */
  lemma ErrorRulesDecide(text: string)
    ensures FirstFiring(ErrorRules, text, General) ==
      if Contains(text, Expected) then Syntactic
      else if Contains(text, EndReached) then Eof
      else if Contains(text, ConnectionWord) || Contains(text, ServerWord) then Connection
      else if Contains(text, Malformed) || Contains(text, NumberWord) then Lexical
      else General
  {
    MarkerFires(Expected, Syntactic, text);
    MarkerFires(EndReached, Eof, text);
    EitherOfFires(ConnectionWord, ServerWord, Connection, text);
    EitherOfFires(Malformed, NumberWord, Lexical, text);
    var i :=
      if Contains(text, Expected) then 0
      else if Contains(text, EndReached) then 1
      else if Contains(text, ConnectionWord) || Contains(text, ServerWord) then 2
      else if Contains(text, Malformed) || Contains(text, NumberWord) then 3
      else 4;
    FirstFiringPicks(ErrorRules, text, General, i);
  }

  /** Classification ignores letter case: a message and its lower-cased form get the same kind. */
  lemma ClassifyErrorIgnoresCase(msg: string)
    ensures ClassifyError(Lower(msg)) == ClassifyError(msg)
  {
    LowerIdempotent(msg);
  }

  const LineKey := "l\U{ED}nea "
  const ColumnKey := "columna "

  /** Where `/key(\d+)/` can start: the key, then at least one digit. */
  predicate KeyedNumberAt(s: string, key: string, i: int) {
    OccursAt(s, key, i) && i + |key| < |s| && IsDigit(s[i + |key|])
  }

  /** The number `/key(\d+)/` captures when its match starts at i. */
  function NumberAfterAt(s: string, key: string, i: nat): (r: Option<nat>)
    ensures r.Some? <==> KeyedNumberAt(s, key, i)
  {
    if KeyedNumberAt(s, key, i) then
      var a := i + |key|;
      var b := DigitRunEnd(s, a);
      assert AllDigits(s[a..b]);
      Some(NatValue(s[a..b]))
    else
      None
  }

  function NumberAfterMatcher(key: string): (string, nat) -> Option<nat> {
    (t, i) => NumberAfterAt(t, key, i)
  }

  /**
   * `parseInt` of the group of `s.match(/key(\d+)/)`: the digits after the
   * first occurrence of the key that is followed by a digit, case-sensitively
   * on the text as given; absent when there is no such occurrence.
   */
  function NumberAfter(s: string, key: string): (r: Option<nat>)
    ensures r.None? <==> forall i :: 0 <= i <= |s| ==> !KeyedNumberAt(s, key, i)
    ensures r.Some? ==> exists i ::
      && 0 <= i <= |s| && KeyedNumberAt(s, key, i) && r == NumberAfterAt(s, key, i)
      && (forall j :: 0 <= j < i ==> !KeyedNumberAt(s, key, j))
  {
    NumberAfterSearch(s, key);
    Leftmost(s, NumberAfterMatcher(key), 0)
  }

  lemma NumberAfterSearch(s: string, key: string)
    ensures var r := Leftmost(s, NumberAfterMatcher(key), 0);
      && (r.None? <==> forall i :: 0 <= i <= |s| ==> !KeyedNumberAt(s, key, i))
      && (r.Some? ==> exists i ::
            && 0 <= i <= |s| && KeyedNumberAt(s, key, i) && r == NumberAfterAt(s, key, i)
            && (forall j :: 0 <= j < i ==> !KeyedNumberAt(s, key, j)))
  {
    var at := NumberAfterMatcher(key);
    var r := Leftmost(s, at, 0);
    forall j: nat ensures at(s, j) == NumberAfterAt(s, key, j) {
    }
    if r.None? {
      forall i | 0 <= i <= |s| ensures !KeyedNumberAt(s, key, i) {
        assert at(s, i).None?;
      }
    } else {
      var k :| 0 <= k <= |s| && at(s, k) == r && forall j :: 0 <= j < k ==> at(s, j).None?;
      forall j | 0 <= j < k ensures !KeyedNumberAt(s, key, j) {
        assert at(s, j).None?;
      }
    }
  }

  datatype ErrorDetails = ErrorDetails(line: Option<nat>, column: Option<nat>, message: string)

  /** `parseErrorDetails`: line and column numbers, and the message itself unchanged. */
  function ParseErrorDetails(msg: string): (d: ErrorDetails)
    ensures d.message == msg
    ensures d.line == NumberAfter(msg, LineKey) && d.column == NumberAfter(msg, ColumnKey)
    ensures d.line.None? <==> forall i :: 0 <= i <= |msg| ==> !KeyedNumberAt(msg, LineKey, i)
    ensures d.column.None? <==> forall i :: 0 <= i <= |msg| ==> !KeyedNumberAt(msg, ColumnKey, i)
    ensures d.line.Some? ==> exists i ::
      && 0 <= i <= |msg| && KeyedNumberAt(msg, LineKey, i) && d.line == NumberAfterAt(msg, LineKey, i)
      && (forall j :: 0 <= j < i ==> !KeyedNumberAt(msg, LineKey, j))
    ensures d.column.Some? ==> exists i ::
      && 0 <= i <= |msg| && KeyedNumberAt(msg, ColumnKey, i) && d.column == NumberAfterAt(msg, ColumnKey, i)
      && (forall j :: 0 <= j < i ==> !KeyedNumberAt(msg, ColumnKey, j))
  {
    ErrorDetails(NumberAfter(msg, LineKey), NumberAfter(msg, ColumnKey), msg)
  }

  /** The hint families of `getSuggestionForError`, in source order. */
  datatype Hint = AddSemicolon | CheckIdentifier | BalanceBraces | AddAssignment | FixNumber | DeclareType | MainArgs | ReviewSyntax

  const HintRules: seq<Rule<Hint>> := [
    BothOf(Expected, "semicolon", AddSemicolon),
    BothOf(Expected, "identifier", CheckIdentifier),
    BothOf(Expected, "rbrace", BalanceBraces),
    BothOf(Expected, "assignment", AddAssignment),
    Marker(Malformed, FixNumber),
    Marker("tipo", DeclareType),
    Marker("args", MainArgs)]

  /** The chain of checks of `getSuggestionForError`, in source order, on lower-cased text. */
  function HintChain(text: string): Hint {
    if Contains(text, Expected) && Contains(text, "semicolon") then AddSemicolon
    else if Contains(text, Expected) && Contains(text, "identifier") then CheckIdentifier
    else if Contains(text, Expected) && Contains(text, "rbrace") then BalanceBraces
    else if Contains(text, Expected) && Contains(text, "assignment") then AddAssignment
    else if Contains(text, Malformed) then FixNumber
    else if Contains(text, "tipo") then DeclareType
    else if Contains(text, "args") then MainArgs
    else ReviewSyntax
  }

  /** Which hint family a message gets; the first rule that applies wins. */
  function HintFor(msg: string): (h: Hint)
    ensures h == HintChain(Lower(msg))
    ensures h in {AddSemicolon, CheckIdentifier, BalanceBraces, AddAssignment} ==> Contains(Lower(msg), Expected)
    ensures h == AddSemicolon <==> Contains(Lower(msg), Expected) && Contains(Lower(msg), "semicolon")
    ensures !Contains(Lower(msg), Expected) && Contains(Lower(msg), Malformed) ==> h == FixNumber
    ensures !Contains(Lower(msg), Expected) && !Contains(Lower(msg), Malformed) && Contains(Lower(msg), "tipo") ==> h == DeclareType
    ensures h == ReviewSyntax <==>
      && !(Contains(Lower(msg), Expected) && Contains(Lower(msg), "semicolon"))
      && !(Contains(Lower(msg), Expected) && Contains(Lower(msg), "identifier"))
      && !(Contains(Lower(msg), Expected) && Contains(Lower(msg), "rbrace"))
      && !(Contains(Lower(msg), Expected) && Contains(Lower(msg), "assignment"))
      && !Contains(Lower(msg), Malformed) && !Contains(Lower(msg), "tipo") && !Contains(Lower(msg), "args")
  {
    HintRulesDecide(Lower(msg));
    FirstFiring(HintRules, Lower(msg), ReviewSyntax)
  }

  /** The hint table read as the chain of checks it stands for. */
  lemma HintRulesDecide(text: string)
    ensures FirstFiring(HintRules, text, ReviewSyntax) == HintChain(text)
  {
    BothOfFires(Expected, "semicolon", AddSemicolon, text);
    BothOfFires(Expected, "identifier", CheckIdentifier, text);
    BothOfFires(Expected, "rbrace", BalanceBraces, text);
    BothOfFires(Expected, "assignment", AddAssignment, text);
    MarkerFires(Malformed, FixNumber, text);
    MarkerFires("tipo", DeclareType, text);
    MarkerFires("args", MainArgs, text);
    var i :=
      if Contains(text, Expected) && Contains(text, "semicolon") then 0
      else if Contains(text, Expected) && Contains(text, "identifier") then 1
      else if Contains(text, Expected) && Contains(text, "rbrace") then 2
      else if Contains(text, Expected) && Contains(text, "assignment") then 3
      else if Contains(text, Malformed) then 4
      else if Contains(text, "tipo") then 5
      else if Contains(text, "args") then 6
      else 7;
    FirstFiringPicks(HintRules, text, ReviewSyntax, i);
  }

  const SemicolonLines := ["Agrega un punto y coma (;) al final de la declaraci\U{F3}n"]
  const IdentifierLines := [
    "Verifica que el nombre de la variable sea v\U{E1}lido",
    "Los identificadores deben comenzar con letra o _",
    "En Java, \"args\" es un identificador v\U{E1}lido"]
  const BraceLines := [
    "Verifica que todas las llaves est\U{E9}n balanceadas {}",
    "Cada { debe tener su correspondiente }"]
  const AssignmentLines := ["Agrega el operador de asignaci\U{F3}n (=) en la declaraci\U{F3}n"]
  const NumberLines := [
    "Verifica que el n\U{FA}mero no contenga letras",
    "Los n\U{FA}meros deben ser solo d\U{ED}gitos y opcionalmente un punto decimal"]
  const TypeLines := ["Declara la variable con un tipo v\U{E1}lido (int, String, boolean, double)"]
  const MainLines := [
    "En Java, \"args\" es el par\U{E1}metro est\U{E1}ndar del m\U{E9}todo main",
    "Verifica la sintaxis: public static void main(String[] args)"]
  const GenericLines := [
    "Revisa la sintaxis del c\U{F3}digo Java",
    "Verifica que la estructura de clase sea correcta"]

  /** The suggestion lines shown for each hint family. */
  function HintLines(h: Hint): (lines: seq<string>)
    ensures |lines| >= 1
    ensures forall i :: 0 <= i < |lines| ==> |lines[i]| > 0
  {
    match h
    case AddSemicolon => SemicolonLines
    case CheckIdentifier => IdentifierLines
    case BalanceBraces => BraceLines
    case AddAssignment => AssignmentLines
    case FixNumber => NumberLines
    case DeclareType => TypeLines
    case MainArgs => MainLines
    case ReviewSyntax => GenericLines
  }

  /** `getSuggestionForError`: never an empty list, and never an empty line. */
  function SuggestionsFor(msg: string): (lines: seq<string>)
    ensures |lines| >= 1
    ensures forall i :: 0 <= i < |lines| ==> |lines[i]| > 0
  {
    HintLines(HintFor(msg))
  }

  /** A malformed-number message that also mentions a type and `args` gets the number hint. */
  lemma MalformedBeatsLaterHints(msg: string)
    requires !Contains(Lower(msg), Expected)
    requires Contains(Lower(msg), Malformed) && Contains(Lower(msg), "tipo") && Contains(Lower(msg), "args")
    ensures HintFor(msg) == FixNumber
    ensures ClassifyError(msg) == Lexical || ClassifyError(msg) == Eof || ClassifyError(msg) == Connection
  {
  }

  /** The diagnostic the analyzer emits for a missing semicolon. */
  const ExpectedSemicolonMessage := "Se esperaba ';' en l\U{ED}nea 3, columna 10"

  /** That diagnostic is syntactic, sits at line 3, column 10, and comes with a suggestion. */
  lemma ExpectedSemicolonExample()
    ensures ClassifyError(ExpectedSemicolonMessage) == Syntactic
    ensures ParseErrorDetails(ExpectedSemicolonMessage) == ErrorDetails(Some(3), Some(10), ExpectedSemicolonMessage)
    ensures |SuggestionsFor(ExpectedSemicolonMessage)| >= 1
  {
    ExampleIsSyntactic();
    ExampleLine();
    ExampleColumn();
  }

  lemma ExampleIsSyntactic()
    ensures Contains(Lower(ExpectedSemicolonMessage), Expected)
  {
    var msg := ExpectedSemicolonMessage;
    assert LowerChar('S') == 's';
    assert forall i | 0 <= i < |Expected| :: Lower(msg)[i] == Expected[i];
    assert Lower(msg)[..|Expected|] == Expected;
    assert StartsWith(Lower(msg), Expected);
  }

  /**
   * The number after the key is read from the key's first occurrence when
   * no earlier character could start the key and a digit run follows it.
   */
  lemma FirstKeyedNumber(s: string, key: string, i: nat, end: nat, n: nat)
    requires |key| > 0 && OccursAt(s, key, i)
    requires forall j :: 0 <= j < i ==> s[j] != key[0]
    requires i + |key| < end <= |s| && AllDigits(s[i + |key|..end])
    requires end == |s| || !IsDigit(s[end])
    requires NatValue(s[i + |key|..end]) == n
    ensures NumberAfter(s, key) == Some(n)
  {
    var at := NumberAfterMatcher(key);
    forall j | 0 <= j < i ensures at(s, j).None? {
      assert at(s, j) == NumberAfterAt(s, key, j);
    }
    assert IsDigit(s[i + |key|..end][0]);
    assert KeyedNumberAt(s, key, i);
    forall k | i + |key| <= k < end ensures IsDigit(s[k]) {
      assert s[k] == s[i + |key|..end][k - (i + |key|)];
    }
    assert DigitRunEnd(s, i + |key|) == end;
    assert at(s, i) == NumberAfterAt(s, key, i) == Some(n);
    LeftmostIs(s, at, i);
  }

  lemma ExampleLine()
    ensures NumberAfter(ExpectedSemicolonMessage, LineKey) == Some(3)
  {
    var msg := ExpectedSemicolonMessage;
    LineKeyInExample();
    assert NatValue("3") == 3 by {
      assert "3"[..0] == "";
    }
    FirstKeyedNumber(msg, LineKey, 19, 26, 3);
  }

  lemma ExampleColumn()
    ensures NumberAfter(ExpectedSemicolonMessage, ColumnKey) == Some(10)
  {
    var msg := ExpectedSemicolonMessage;
    ColumnKeyInExample();
    assert NatValue("10") == 10 by {
      assert "10"[..1] == "1";
      assert "1"[..0] == "";
    }
    FirstKeyedNumber(msg, ColumnKey, 28, 38, 10);
  }

  lemma LineKeyInExample()
    ensures ExpectedSemicolonMessage[19..25] == LineKey
    ensures ExpectedSemicolonMessage[25..26] == "3"
  {
    assert forall k | 0 <= k < 6 :: ExpectedSemicolonMessage[19 + k] == LineKey[k];
  }

  lemma ColumnKeyInExample()
    ensures ExpectedSemicolonMessage[28..36] == ColumnKey
    ensures ExpectedSemicolonMessage[36..38] == "10"
  {
    assert forall k | 0 <= k < 8 :: ExpectedSemicolonMessage[28 + k] == ColumnKey[k];
  }
}
