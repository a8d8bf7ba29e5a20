/** The lexical summary table: every token tag falls into one of five categories. */
module LexicalTable {
  import opened AnalysisTypes
  import opened Sequences

  datatype Category = ReservedWord | Identifier | Number | Symbol | Error

  const ReservedTags: set<string> := {"FOR", "DO", "WHILE", "KEYWORD", "TYPE"}
  const PunctuationTags: set<string> := {
    "LPAREN", "RPAREN", "LBRACE", "RBRACE", "SEMICOLON",
    "OPERATOR", "COMPARISON", "ASSIGNMENT", "INCREMENT"}

  /** The category a tag is tallied under; tags outside the table fall back to symbols. */
  function CategoryOf(tag: string): (c: Category)
    ensures c == ReservedWord <==> tag in ReservedTags
    ensures c == Identifier <==> tag == "IDENTIFIER"
    ensures c == Number <==> tag == "NUMBER"
    ensures c == Error <==> tag == "UNKNOWN"
    ensures c == Symbol <==> tag !in ReservedTags && tag !in {"IDENTIFIER", "NUMBER", "UNKNOWN"}
  {
    if tag in ReservedTags then ReservedWord
    else if tag == "IDENTIFIER" then Identifier
    else if tag == "NUMBER" then Number
    else if tag in PunctuationTags then Symbol
    else if tag == "UNKNOWN" then Error
    else Symbol
  }

  /** Tags such as STRING and COLON are not in the table and are tallied as symbols. */
  lemma UnlistedTagsAreSymbols(tag: string)
    requires tag !in ReservedTags && tag !in PunctuationTags
    requires tag !in {"IDENTIFIER", "NUMBER", "UNKNOWN"}
    ensures CategoryOf(tag) == Symbol
    ensures CategoryOf("STRING") == Symbol && CategoryOf("COLON") == Symbol
  {
  }

  function InCategory(c: Category): Token -> bool {
    (t: Token) => CategoryOf(t.tag) == c
  }

  /** The five counters of the table. */
  datatype TokenStats = TokenStats(reserved: nat, identifiers: nat, numbers: nat, symbols: nat, errors: nat) {

    function Get(c: Category): nat {
      match c
      case ReservedWord => reserved
      case Identifier => identifiers
      case Number => numbers
      case Symbol => symbols
      case Error => errors
    }

    function Total(): nat {
      reserved + identifiers + numbers + symbols + errors
    }

    /** `stats[category]++`. */
    function Bump(c: Category): (r: TokenStats)
      ensures r.Get(c) == Get(c) + 1
      ensures forall d :: d != c ==> r.Get(d) == Get(d)
      ensures r.Total() == Total() + 1
    {
      match c
      case ReservedWord => this.(reserved := reserved + 1)
      case Identifier => this.(identifiers := identifiers + 1)
      case Number => this.(numbers := numbers + 1)
      case Symbol => this.(symbols := symbols + 1)
      case Error => this.(errors := errors + 1)
    }
  }

  const Zero := TokenStats(0, 0, 0, 0, 0)

  /**
   * `calculateStats`: start every counter at zero and bump the category of
   * each token in turn. Each counter ends up as the number of tokens of that
   * category, so the counters partition the token list.
   */
  function Tally(tokens: seq<Token>): (stats: TokenStats)
    ensures forall c :: stats.Get(c) == CountIf(tokens, InCategory(c))
    ensures stats.Total() == |tokens|
  {
    if |tokens| == 0 then Zero
    else Tally(tokens[..|tokens| - 1]).Bump(CategoryOf(tokens[|tokens| - 1].tag))
  }

  /** The tally of a reordering of the tokens is the same tally. */
  lemma TallyPermutationInvariant(a: seq<Token>, b: seq<Token>)
    requires multiset(a) == multiset(b)
    ensures Tally(a) == Tally(b)
  {
    CountIfPermutation(a, b, InCategory(ReservedWord));
    CountIfPermutation(a, b, InCategory(Identifier));
    CountIfPermutation(a, b, InCategory(Number));
    CountIfPermutation(a, b, InCategory(Symbol));
    CountIfPermutation(a, b, InCategory(Error));
    var x, y := Tally(a), Tally(b);
    assert x.reserved == x.Get(ReservedWord) == y.Get(ReservedWord) == y.reserved;
    assert x.identifiers == x.Get(Identifier) == y.Get(Identifier) == y.identifiers;
    assert x.numbers == x.Get(Number) == y.Get(Number) == y.numbers;
    assert x.symbols == x.Get(Symbol) == y.Get(Symbol) == y.symbols;
    assert x.errors == x.Get(Error) == y.Get(Error) == y.errors;
  }
}
