/**
 * The symbol table that interns lexemes (symtab_add, as called at
 * src/compiler_tests/tests.c:30-31).  Interning a byte string returns its
 * canonical copy: the first time a spelling is seen a new copy is made and
 * tagged with the kind the caller passes in; every later call with the same
 * bytes returns that copy and the kind recorded for it.  Before any source is
 * scanned the table is seeded with the reserved spellings, each tagged with
 * its own kind, so that one lookup tells a keyword from an identifier.
 *
 * The canonical copies are kept in the order they were made; a copy is
 * identified by its position in that order, so distinct spellings have
 * distinct copies and the copy of a spelling never changes.
 */
module Symtab {
  import Tokens

  newtype Byte = b: int | 0 <= b < 256

  type Spelling = seq<Byte>

  /** The canonical copy of a spelling and the kind recorded for it. */
  datatype Entry = Entry(canonical: nat, kind: Tokens.TokenType)

  /** The kind interning s reports when the caller passes TOKEN_IDENT. */
  function KindOf(entries: map<Spelling, Entry>, s: Spelling): (kind: Tokens.TokenType)
    ensures kind != Tokens.PlainIdent ==> s in entries && entries[s].kind == kind
    ensures s !in entries ==> kind == Tokens.PlainIdent
  {
    if s in entries then entries[s].kind else Tokens.PlainIdent
  }

  /**
   * newer is older with some spellings added as plain identifiers: nothing
   * recorded in older changed, and every added spelling has TOKEN_IDENT.
   */
  ghost predicate GrownWithIdents(older: map<Spelling, Entry>, newer: map<Spelling, Entry>)
  {
    && (forall s :: s in older ==> s in newer && newer[s] == older[s])
    && (forall s :: s in newer && s !in older ==> newer[s].kind == Tokens.PlainIdent)
  }

  /** Adding spellings as plain identifiers never changes what a lookup with TOKEN_IDENT reports. */
  lemma GrownKeepsKinds(older: map<Spelling, Entry>, newer: map<Spelling, Entry>, s: Spelling)
    requires GrownWithIdents(older, newer)
    ensures KindOf(newer, s) == KindOf(older, s)
  {
  }

  /** Growing twice is growing once. */
  lemma GrownTransitive(a: map<Spelling, Entry>, b: map<Spelling, Entry>, c: map<Spelling, Entry>)
    requires GrownWithIdents(a, b) && GrownWithIdents(b, c)
    ensures GrownWithIdents(a, c)
  {
  }

  /** Distinct interned spellings have distinct canonical copies. */
  lemma DistinctSpellingsDistinctCopies(table: SymbolTable, s: Spelling, u: Spelling)
    requires table.Valid() && s in table.entries && u in table.entries && s != u
    ensures table.entries[s].canonical != table.entries[u].canonical
  {
  }

  class SymbolTable {
    /** The interned spellings. */
    var entries: map<Spelling, Entry>
    /** The canonical copies made so far, in order; the next one is number |copies|. */
    var copies: seq<Spelling>

    /** Each interned spelling's copy holds that spelling. */
    ghost predicate Valid()
      reads this
    {
      forall s :: s in entries ==> entries[s].canonical < |copies| && copies[entries[s].canonical] == s
    }

    constructor ()
      ensures Valid() && entries == map[] && copies == []
    {
      entries := map[];
      copies := [];
    }

    /**
     * symtab_add(s, len, hash, &kind): the canonical copy of s and the kind
     * recorded for it; a spelling not seen before is added with the kind the
     * caller passed.  Nothing recorded before is changed.
     */
    method Add(s: Spelling, kind: Tokens.TokenType) returns (canonical: nat, found: Tokens.TokenType)
      requires Valid()
      modifies this
      ensures Valid()
      ensures s in old(entries) ==> Entry(canonical, found) == old(entries)[s] && entries == old(entries) && copies == old(copies)
      ensures s !in old(entries) ==> canonical == |old(copies)| && found == kind
      ensures s !in old(entries) ==> entries == old(entries)[s := Entry(canonical, found)] && copies == old(copies) + [s]
    {
      if s in entries {
        canonical, found := entries[s].canonical, entries[s].kind;
      } else {
        canonical, found := |copies|, kind;
        entries := entries[s := Entry(canonical, found)];
        copies := copies + [s];
      }
    }

    /**
     * Interning with TOKEN_IDENT, as the lexer does for every identifier
     * (tests.c:30-31): reports the kind recorded for s, or TOKEN_IDENT for a
     * spelling not seen before, which is then added as a plain identifier.
     */
    method InternIdent(s: Spelling) returns (kind: Tokens.TokenType)
      requires Valid()
      modifies this
      ensures Valid()
      ensures kind == KindOf(old(entries), s)
      ensures s in entries && GrownWithIdents(old(entries), entries)
      ensures entries.Keys == old(entries).Keys + {s}
      ensures s in old(entries) ==> entries == old(entries) && copies == old(copies)
      ensures s !in old(entries) ==> entries == old(entries)[s := Entry(|old(copies)|, Tokens.PlainIdent)] && copies == old(copies) + [s]
    {
      var _, found := Add(s, Tokens.PlainIdent);
      kind := found;
    }

    /**
     * Seeds the table with the reserved spellings, each tagged with its kind.
     * The spellings are distinct and not yet in the table.
     */
    method SeedKeywords(keywords: seq<(Spelling, Tokens.TokenType)>)
      requires Valid()
      requires forall i, j :: 0 <= i < j < |keywords| ==> keywords[i].0 != keywords[j].0
      requires forall i :: 0 <= i < |keywords| ==> keywords[i].0 !in entries
      modifies this
      ensures Valid()
      ensures forall s :: s in old(entries) ==> s in entries && entries[s] == old(entries)[s]
      ensures forall i :: 0 <= i < |keywords| ==> keywords[i].0 in entries && entries[keywords[i].0].kind == keywords[i].1
      ensures forall s :: s in entries ==> s in old(entries) || exists i :: 0 <= i < |keywords| && keywords[i].0 == s
    {
      var k := 0;
      while k < |keywords|
        invariant 0 <= k <= |keywords|
        invariant Valid()
        invariant forall s :: s in old(entries) ==> s in entries && entries[s] == old(entries)[s]
        invariant forall i :: 0 <= i < k ==> keywords[i].0 in entries && entries[keywords[i].0].kind == keywords[i].1
        invariant forall i :: k <= i < |keywords| ==> keywords[i].0 !in entries
        invariant forall s :: s in entries ==> s in old(entries) || exists i :: 0 <= i < k && keywords[i].0 == s
      {
        var _, _ := Add(keywords[k].0, keywords[k].1);
        k := k + 1;
      }
    }
  }

  /**
   * Interning the same spelling twice gives the same canonical copy and the
   * same kind, whatever kind the second caller passes; the kind is the seeded
   * one for a spelling already present, else the first caller's.  Nothing
   * recorded before is lost.
   */
  method AddTwice(table: SymbolTable, s: Spelling, first: Tokens.TokenType, second: Tokens.TokenType)
    returns (copy1: nat, kind1: Tokens.TokenType, copy2: nat, kind2: Tokens.TokenType)
    requires table.Valid()
    modifies table
    ensures table.Valid()
    ensures copy1 == copy2 && kind1 == kind2
    ensures kind1 == if s in old(table.entries) then old(table.entries)[s].kind else first
    ensures forall u :: u in old(table.entries) ==> u in table.entries && table.entries[u] == old(table.entries)[u]
    ensures s in table.entries
    ensures table.entries == if s in old(table.entries) then old(table.entries) else old(table.entries)[s := Entry(copy1, first)]
    ensures table.copies == if s in old(table.entries) then old(table.copies) else old(table.copies) + [s]
  {
    copy1, kind1 := table.Add(s, first);
    copy2, kind2 := table.Add(s, second);
  }
}
