/** The token list view: a colour and an icon per tag, and three headline counts. */
module TokenDisplay {
  import opened AnalysisTypes
  import opened Sequences
  import LexicalTable

  /** The colour families of the badges (the class strings are presentation). */
  datatype Colour = Purple | Blue | Green | Orange | Red | Yellow | Pink | Indigo | Cyan | Emerald | Gray | DarkRed

  datatype Icon =
    | Loop | Label | Digits | Plus | Scales | Memo | UpArrow | Key | Clipboard | Page
    | OpenParen | CloseParen | OpenBrace | CloseBrace | Semicolon | Colon | Question

  /** The 19 tags both lookup tables list. */
  const ListedTags: set<string> := {
    "FOR", "DO", "WHILE", "IDENTIFIER", "NUMBER", "OPERATOR", "COMPARISON",
    "ASSIGNMENT", "INCREMENT", "KEYWORD", "TYPE", "STRING", "LPAREN", "RPAREN",
    "LBRACE", "RBRACE", "SEMICOLON", "COLON", "UNKNOWN"}

  const ColourTable: map<string, Colour> := map[
    "FOR" := Purple, "DO" := Purple, "WHILE" := Purple,
    "IDENTIFIER" := Blue, "NUMBER" := Green, "OPERATOR" := Orange,
    "COMPARISON" := Red, "ASSIGNMENT" := Yellow, "INCREMENT" := Pink,
    "KEYWORD" := Indigo, "TYPE" := Cyan, "STRING" := Emerald,
    "LPAREN" := Gray, "RPAREN" := Gray, "LBRACE" := Gray, "RBRACE" := Gray,
    "SEMICOLON" := Gray, "COLON" := Gray, "UNKNOWN" := DarkRed]

  const IconTable: map<string, Icon> := map[
    "FOR" := Loop, "DO" := Loop, "WHILE" := Loop,
    "IDENTIFIER" := Label, "NUMBER" := Digits, "OPERATOR" := Plus,
    "COMPARISON" := Scales, "ASSIGNMENT" := Memo, "INCREMENT" := UpArrow,
    "KEYWORD" := Key, "TYPE" := Clipboard, "STRING" := Page,
    "LPAREN" := OpenParen, "RPAREN" := CloseParen, "LBRACE" := OpenBrace, "RBRACE" := CloseBrace,
    "SEMICOLON" := Semicolon, "COLON" := Colon, "UNKNOWN" := Question]

  /** The punctuation tags, which share the grey badge. */
  const GrayTags: set<string> := {"LPAREN", "RPAREN", "LBRACE", "RBRACE", "SEMICOLON", "COLON"}

  /** The loop keywords, which share the purple badge and the loop icon. */
  const LoopTags: set<string> := {"FOR", "DO", "WHILE"}

  /**
   * `getTokenColor`: the table entry, or the grey punctuation colour for any
   * other tag; grey marks exactly the punctuation tags and the unlisted ones.
   */
  function ColourOf(tag: string): (c: Colour)
    ensures tag in ColourTable ==> c == ColourTable[tag]
    ensures tag !in ListedTags ==> c == Gray
    ensures c == Gray <==> tag in GrayTags || tag !in ListedTags
    ensures c == Purple <==> tag in LoopTags
  {
    if tag in ColourTable then ColourTable[tag] else Gray
  }

  /**
   * `getTokenIcon`: the table entry, or the question mark for any other tag;
   * the question mark marks exactly UNKNOWN and the unlisted tags.
   */
  function IconOf(tag: string): (i: Icon)
    ensures tag in IconTable ==> i == IconTable[tag]
    ensures tag !in ListedTags ==> i == Question
    ensures i == Question <==> tag == "UNKNOWN" || tag !in ListedTags
    ensures i == Loop <==> tag in LoopTags
  {
    if tag in IconTable then IconTable[tag] else Question
  }

  /** Both tables list exactly the same 19 tags. */
  lemma TablesListTheSameTags()
    ensures ColourTable.Keys == ListedTags
    ensures IconTable.Keys == ListedTags
  {
  }

  /** An unlisted tag is drawn like the punctuation tags and shown with the icon of UNKNOWN. */
  lemma UnlistedTagDefaults(tag: string)
    requires tag !in ListedTags
    ensures ColourOf(tag) == ColourOf("SEMICOLON") == ColourOf("COLON")
    ensures IconOf(tag) == IconOf("UNKNOWN")
    ensures ColourOf(tag) != ColourOf("UNKNOWN")
  {
  }

  const OperatorTags: set<string> := {"OPERATOR", "COMPARISON", "ASSIGNMENT", "INCREMENT"}
  const SymbolTags: set<string> := {"LPAREN", "RPAREN", "LBRACE", "RBRACE", "SEMICOLON"}

  predicate IsIdentifier(t: Token) {
    t.tag == "IDENTIFIER"
  }

  predicate IsOperator(t: Token) {
    t.tag in OperatorTags
  }

  predicate IsSymbol(t: Token) {
    t.tag in SymbolTags
  }

  /** The four figures of the statistics box. */
  datatype DisplayStats = DisplayStats(total: nat, identifiers: nat, operators: nat, symbols: nat)

  /**
   * The statistics box. The three groups are disjoint, so the three counts
   * never exceed the total; identifiers are exactly the table's identifier
   * category, and operators and symbols both sit inside its symbol category.
   */
  function StatsOf(tokens: seq<Token>): (st: DisplayStats)
    ensures st.total == |tokens|
    ensures st.identifiers == |Positions(tokens, IsIdentifier)|
    ensures st.operators == |Positions(tokens, IsOperator)|
    ensures st.symbols == |Positions(tokens, IsSymbol)|
    ensures st.identifiers + st.operators + st.symbols <= st.total
    ensures st.identifiers == LexicalTable.Tally(tokens).identifiers
    ensures st.operators + st.symbols <= LexicalTable.Tally(tokens).symbols
  {
    var st := DisplayStats(|tokens|, CountIf(tokens, IsIdentifier), CountIf(tokens, IsOperator), CountIf(tokens, IsSymbol));
    CountIfPositions(tokens, IsIdentifier);
    CountIfPositions(tokens, IsOperator);
    CountIfPositions(tokens, IsSymbol);
    GroupsAreDisjoint(tokens);
    GroupsInsideSymbolCategory(tokens);
    IdentifiersMatchTable(tokens);
    st
  }

  /** No tokens: all four figures are zero. */
  lemma StatsOfEmpty()
    ensures StatsOf([]) == DisplayStats(0, 0, 0, 0)
  {
  }

  /**
   * One more token raises the total by one, and raises each group's figure
   * by one exactly when its tag is in that group.
   */
  lemma StatsOfAppend(tokens: seq<Token>, t: Token)
    ensures StatsOf(tokens + [t]).total == StatsOf(tokens).total + 1
    ensures StatsOf(tokens + [t]).identifiers == StatsOf(tokens).identifiers + (if t.tag == "IDENTIFIER" then 1 else 0)
    ensures StatsOf(tokens + [t]).operators == StatsOf(tokens).operators + (if t.tag in OperatorTags then 1 else 0)
    ensures StatsOf(tokens + [t]).symbols == StatsOf(tokens).symbols + (if t.tag in SymbolTags then 1 else 0)
  {
    CountIfSnoc(tokens, t, IsIdentifier);
    CountIfSnoc(tokens, t, IsOperator);
    CountIfSnoc(tokens, t, IsSymbol);
  }

  /** No tag belongs to two of the identifier, operator and symbol groups. */
  lemma GroupsExclusive(t: Token)
    ensures !(IsIdentifier(t) && IsOperator(t)) && !(IsIdentifier(t) && IsSymbol(t)) && !(IsOperator(t) && IsSymbol(t))
  {
  }

  lemma GroupsAreDisjoint(tokens: seq<Token>)
    ensures CountIf(tokens, IsIdentifier) + CountIf(tokens, IsOperator) + CountIf(tokens, IsSymbol) <= |tokens|
  {
    forall t: Token
      ensures !(IsIdentifier(t) && IsOperator(t)) && !(IsIdentifier(t) && IsSymbol(t)) && !(IsOperator(t) && IsSymbol(t))
    {
      GroupsExclusive(t);
    }
    CountIfDisjoint3(tokens, IsIdentifier, IsOperator, IsSymbol);
  }

  lemma GroupsInsideSymbolCategory(tokens: seq<Token>)
    ensures CountIf(tokens, IsOperator) + CountIf(tokens, IsSymbol) <= LexicalTable.Tally(tokens).symbols
  {
    var inSymbols := LexicalTable.InCategory(LexicalTable.Symbol);
    forall t: Token ensures !(IsOperator(t) && IsSymbol(t)) && (IsOperator(t) || IsSymbol(t) ==> inSymbols(t)) {
      GroupsExclusive(t);
      if IsOperator(t) || IsSymbol(t) {
        assert t.tag in LexicalTable.PunctuationTags;
      }
    }
    CountIfDisjointWithin(tokens, IsOperator, IsSymbol, inSymbols);
    assert LexicalTable.Tally(tokens).Get(LexicalTable.Symbol) == CountIf(tokens, inSymbols);
  }

  lemma IdentifiersMatchTable(tokens: seq<Token>)
    ensures CountIf(tokens, IsIdentifier) == LexicalTable.Tally(tokens).identifiers
  {
    var inIdentifiers := LexicalTable.InCategory(LexicalTable.Identifier);
    forall t: Token ensures IsIdentifier(t) <==> inIdentifiers(t) {
    }
    CountIfMonotone(tokens, IsIdentifier, inIdentifiers);
    CountIfMonotone(tokens, inIdentifiers, IsIdentifier);
    assert LexicalTable.Tally(tokens).Get(LexicalTable.Identifier) == CountIf(tokens, inIdentifiers);
  }

  /** A COLON token gets the punctuation colour yet adds nothing to the Symbols figure. */
  lemma ColonIsNotASymbol(tokens: seq<Token>, colon: Token)
    requires colon.tag == "COLON"
    ensures ColourOf(colon.tag) == ColourOf("SEMICOLON")
    ensures StatsOf(tokens + [colon]).symbols == StatsOf(tokens).symbols
    ensures StatsOf(tokens + [colon]).total == StatsOf(tokens).total + 1
  {
    assert (tokens + [colon])[..|tokens|] == tokens;
  }
}
