/**
 * The two driver scenarios of src/compiler_tests/tests.c that exercise the
 * core: test_file, which builds a position index and queries it, and the
 * keyword check of test_lexer, which interns the spelling of every token kind
 * and counts the ones the symbol table already knows as reserved.
 */
module CompilerTests {
  import Tokens
  import Symtab
  import SourceFiles

  /** The queries of tests.c:107-108, made while only line 1 is recorded. */
  method QueriesWithOneLine(file: SourceFiles.SourceFile) returns (lines: seq<nat>)
    requires file.Valid() && file.lineStarts == [3]
    ensures lines == [1, 1]
  {
    var p1 := file.FindPosition(3);
    var p2 := file.FindPosition(10);
    lines := [p1.line, p2.line];
  }

  /** The queries of tests.c:110-112, made after the terminator at 9. */
  method QueriesWithTwoLines(file: SourceFiles.SourceFile) returns (lines: seq<nat>)
    requires file.Valid() && file.lineStarts == [3, 9]
    ensures lines == [1, 1, 2]
  {
    var p1 := file.FindPosition(3);
    var p2 := file.FindPosition(5);
    var p3 := file.FindPosition(10);
    lines := [p1.line, p2.line, p3.line];
  }

  /** The queries of tests.c:114-118, made after the terminator at 19. */
  method QueriesWithThreeLines(file: SourceFiles.SourceFile) returns (lines: seq<nat>)
    requires file.Valid() && file.lineStarts == [3, 9, 19]
    ensures lines == [1, 1, 2, 2, 3]
  {
    var p1 := file.FindPosition(3);
    var p2 := file.FindPosition(5);
    var p3 := file.FindPosition(10);
    var p4 := file.FindPosition(15);
    var p5 := file.FindPosition(21);
    lines := [p1.line, p2.line, p3.line, p4.line, p5.line];
  }

  /** The queries of tests.c:120-126, made after the terminator at 29. */
  method QueriesWithFourLines(file: SourceFiles.SourceFile) returns (lines: seq<nat>)
    requires file.Valid() && file.lineStarts == [3, 9, 19, 29]
    ensures lines == [1, 1, 2, 2, 3, 3, 4]
  {
    var p1 := file.FindPosition(3);
    var p2 := file.FindPosition(5);
    var p3 := file.FindPosition(10);
    var p4 := file.FindPosition(15);
    var p5 := file.FindPosition(21);
    var p6 := file.FindPosition(25);
    var p7 := file.FindPosition(31);
    lines := [p1.line, p2.line, p3.line, p4.line, p5.line, p6.line, p7.line];
  }

  /**
   * test_file (tests.c:101-127): a file starting at offset 3 with line
   * terminators recorded at 9, 19 and 29, queried after each step; the
   * lines reported are the ones the assertions expect.
   */
  method TestFile() returns (lines: seq<nat>)
    ensures lines == [1, 1] + [1, 1, 2] + [1, 1, 2, 2, 3] + [1, 1, 2, 2, 3, 3, 4]
  {
    var file := new SourceFiles.SourceFile(3);
    var first := QueriesWithOneLine(file);
    file.AppendLineStart(9);
    var second := QueriesWithTwoLines(file);
    file.AppendLineStart(19);
    var third := QueriesWithThreeLines(file);
    file.AppendLineStart(29);
    var fourth := QueriesWithFourLines(file);
    lines := first + second + third + fourth;
  }

  /** The placeholder stored for a kind whose spelling is not reserved (tests.c:44). */
  const Casi: Symtab.Spelling := [99, 97, 115, 105]

  /** Interning s with TOKEN_IDENT reports a kind other than TOKEN_IDENT. */
  predicate IsReserved(entries: map<Symtab.Spelling, Symtab.Entry>, s: Symtab.Spelling)
  {
    Symtab.KindOf(entries, s) != Tokens.PlainIdent
  }

  /**
   * How many of the values in [lo, hi) have a reserved spelling; name(i) is
   * the spelling of the kind with value i, token_type_to_string((TokenType)i).
   */
  function ReservedSpellings(entries: map<Symtab.Spelling, Symtab.Entry>, name: nat -> Symtab.Spelling,
                             lo: nat, hi: nat): (n: nat)
    ensures n <= if lo <= hi then hi - lo else 0
    decreases hi
  {
    if hi <= lo then 0
    else ReservedSpellings(entries, name, lo, hi - 1) + (if IsReserved(entries, name(hi - 1)) then 1 else 0)
  }

  /** What tokens[i] holds after the loop: the spelling if reserved, else the placeholder. */
  function Listed(entries: map<Symtab.Spelling, Symtab.Entry>, name: nat -> Symtab.Spelling, i: nat): Symtab.Spelling
  {
    if IsReserved(entries, name(i)) then name(i) else Casi
  }

  /** The spellings of the values in [lo, hi). */
  function Spellings(name: nat -> Symtab.Spelling, lo: nat, hi: nat): set<Symtab.Spelling>
    decreases hi
  {
    if hi <= lo then {} else Spellings(name, lo, hi - 1) + {name(hi - 1)}
  }

  /** A spelling is listed exactly when some value in [lo, hi) has it. */
  lemma {:induction false} SpellingsAreTheNames(name: nat -> Symtab.Spelling, lo: nat, hi: nat, s: Symtab.Spelling)
    ensures s in Spellings(name, lo, hi) <==> exists j :: lo <= j < hi && name(j) == s
    decreases hi
  {
    if lo < hi {
      SpellingsAreTheNames(name, lo, hi - 1, s);
    }
  }

  /**
   * One pass of the loop body (tests.c:27-46) for the value i: the spelling
   * is stored in tokens[i], interned with TOKEN_IDENT, counted when the
   * table reports another kind and replaced by the placeholder otherwise.
   * Only tokens[i] changes, and the table grows by the spelling alone.
   */
  method CheckOne(table: Symtab.SymbolTable, name: nat -> Symtab.Spelling, tokens: array<Symtab.Spelling>, i: nat,
                  tokensFound: nat, ghost seed: map<Symtab.Spelling, Symtab.Entry>)
    returns (found: nat)
    requires i < tokens.Length
    requires table.Valid() && Symtab.GrownWithIdents(seed, table.entries)
    modifies table, tokens
    ensures table.Valid() && Symtab.GrownWithIdents(seed, table.entries)
    ensures table.entries.Keys == old(table.entries).Keys + {name(i)}
    ensures found == tokensFound + (if IsReserved(seed, name(i)) then 1 else 0)
    ensures tokens[i] == Listed(seed, name, i)
    ensures forall j :: 0 <= j < tokens.Length && j != i ==> tokens[j] == old(tokens[j])
  {
    found := tokensFound;
    var token := name(i);
    tokens[i] := token;
    ghost var before := table.entries;
    var lookup := table.InternIdent(token);
    Symtab.GrownKeepsKinds(seed, before, token);
    Symtab.GrownTransitive(seed, before, table.entries);
    if lookup != Tokens.PlainIdent {
      found := found + 1;
    } else {
      tokens[i] := Casi;
    }
  }

  /**
   * The keyword check of test_lexer (tests.c:20-47).  For every kind value
   * 1 <= i < TOKEN_EOF the spelling of (TokenType)i is interned with
   * TOKEN_IDENT; a reported kind other than TOKEN_IDENT is counted, any
   * other entry of tokens is replaced by the placeholder.  The count is the
   * number of values whose spelling the table held as reserved beforehand;
   * the keys afterwards are the old ones plus the spelling of every visited
   * value, and interning adds the new ones as plain identifiers and changes
   * nothing already recorded.
   */
  method CheckKeywords(table: Symtab.SymbolTable, name: nat -> Symtab.Spelling)
    returns (tokensFound: nat, tokens: array<Symtab.Spelling>)
    requires table.Valid()
    modifies table
    ensures table.Valid()
    ensures tokensFound == ReservedSpellings(old(table.entries), name, 1, Tokens.TokenCount - 1)
    ensures fresh(tokens) && tokens.Length == Tokens.TokenCount - 1
    ensures forall i :: 1 <= i < tokens.Length ==> tokens[i] == Listed(old(table.entries), name, i)
    ensures Symtab.GrownWithIdents(old(table.entries), table.entries)
    ensures table.entries.Keys == old(table.entries).Keys + Spellings(name, 1, Tokens.TokenCount - 1)
  {
    ghost var seed := table.entries;
    var eof := Tokens.TokenCount - 1;
    tokens := new Symtab.Spelling[eof];
    tokensFound := 0;
    var i := 1;
    while i < eof
      invariant 1 <= i <= eof
      invariant table.Valid()
      invariant tokensFound == ReservedSpellings(seed, name, 1, i)
      invariant forall j :: 1 <= j < i ==> tokens[j] == Listed(seed, name, j)
      invariant Symtab.GrownWithIdents(seed, table.entries)
      invariant table.entries.Keys == seed.Keys + Spellings(name, 1, i)
    {
      tokensFound := CheckOne(table, name, tokens, i, tokensFound, seed);
      assert Spellings(name, 1, i + 1) == Spellings(name, 1, i) + {name(i)};
      i := i + 1;
    }
  }

  /**
   * A seed whose reserved values are exactly the set reserved: the spelling
   * of a reserved value is stored with the kind of that value, which is not
   * TOKEN_IDENT, and the spelling of any other value the loop visits is
   * unknown or a plain identifier.
   */
  ghost predicate HonestSeed(entries: map<Symtab.Spelling, Symtab.Entry>, name: nat -> Symtab.Spelling, reserved: set<nat>)
  {
    && Tokens.Ordinal(Tokens.PlainIdent) !in reserved
    && (forall i :: i in reserved ==> 1 <= i < Tokens.TokenCount - 1 && Symtab.KindOf(entries, name(i)) == Tokens.FromOrdinal(i))
    && (forall i :: 1 <= i < Tokens.TokenCount - 1 && i !in reserved ==> Symtab.KindOf(entries, name(i)) == Tokens.PlainIdent)
  }

  /** The visited values whose spelling is reserved are exactly the set reserved. */
  ghost predicate ReservesExactly(entries: map<Symtab.Spelling, Symtab.Entry>, name: nat -> Symtab.Spelling, reserved: set<nat>)
  {
    && (forall i :: i in reserved ==> 1 <= i < Tokens.TokenCount - 1)
    && (forall i :: 1 <= i < Tokens.TokenCount - 1 ==> (IsReserved(entries, name(i)) <==> i in reserved))
  }

  /** An honest seed reserves exactly its reserved values. */
  lemma HonestSeedReserves(entries: map<Symtab.Spelling, Symtab.Entry>, name: nat -> Symtab.Spelling, reserved: set<nat>)
    requires HonestSeed(entries, name, reserved)
    ensures ReservesExactly(entries, name, reserved)
  {
    forall i | i in reserved
      ensures IsReserved(entries, name(i))
    {
      Tokens.FromOrdinalRoundTrip(i);
    }
  }

  /** The loop counts the reserved values among those it visits. */
  lemma {:induction false} ReservedCount(entries: map<Symtab.Spelling, Symtab.Entry>, name: nat -> Symtab.Spelling,
                                         reserved: set<nat>, lo: nat, hi: nat)
    requires ReservesExactly(entries, name, reserved)
    requires 1 <= lo <= hi <= Tokens.TokenCount - 1
    ensures ReservedSpellings(entries, name, lo, hi) == |set i | i in reserved && lo <= i < hi|
    decreases hi
  {
    if hi == lo {
      assert (set i | i in reserved && lo <= i < hi) == {};
    } else {
      ReservedCount(entries, name, reserved, lo, hi - 1);
      var below := set i | i in reserved && lo <= i < hi - 1;
      if hi - 1 in reserved {
        assert (set i | i in reserved && lo <= i < hi) == below + {hi - 1};
      } else {
        assert (set i | i in reserved && lo <= i < hi) == below;
      }
    }
  }

  /**
   * With an honest seed the keyword count of test_lexer is the number of
   * reserved values, and a value is counted exactly when it is reserved.
   * The last clause only restates the seed's own promise as a value: the
   * kind a reserved spelling reports is the one whose value is i, the kind
   * the lexer is then asserted to scan (tests.c:34-35).
   */
  lemma HonestSeedFindsEveryKeyword(entries: map<Symtab.Spelling, Symtab.Entry>, name: nat -> Symtab.Spelling,
                                    reserved: set<nat>, i: nat)
    requires HonestSeed(entries, name, reserved)
    requires 1 <= i < Tokens.TokenCount - 1
    ensures ReservedSpellings(entries, name, 1, Tokens.TokenCount - 1) == |reserved|
    ensures IsReserved(entries, name(i)) <==> i in reserved
    ensures IsReserved(entries, name(i)) ==> Tokens.Ordinal(Symtab.KindOf(entries, name(i))) == i
  {
    HonestSeedReserves(entries, name, reserved);
    ReservedCount(entries, name, reserved, 1, Tokens.TokenCount - 1);
    assert (set j | j in reserved && 1 <= j < Tokens.TokenCount - 1) == reserved;
    Tokens.FromOrdinalRoundTrip(i);
  }
}
