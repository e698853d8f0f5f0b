/**
 * The enumerations of src/compiler/enums.h that semantic analysis compares or
 * combines by value: ExitType (lines 207-215), whose order is a priority;
 * ScopeFlags (lines 286-294) and AttributeDomains (lines 545-555), whose
 * members are single bits combined with bitwise or.  Flag words are modelled
 * as 32-bit vectors, the width of a C enum value.
 */
module Semantics {

  /** How control leaves a statement, lowest priority first (enums.h:207-215). */
  datatype ExitType = None | Break | Goto | Continue | Return

  /** The value of the exit in C, which is its priority. */
  function ExitPriority(e: ExitType): (r: nat)
    ensures r < 5
  {
    match e
    case None => 0
    case Break => 1
    case Goto => 2
    case Continue => 3
    case Return => 4
  }

  /**
   * The exit of a statement whose two branches exit by a and b: "ordering here
   * is in priority if two branches should have the same exit" (enums.h:207),
   * so the higher of the two wins.
   */
  function MergeExits(a: ExitType, b: ExitType): (r: ExitType)
    ensures r == a || r == b
    ensures ExitPriority(r) >= ExitPriority(a) && ExitPriority(r) >= ExitPriority(b)
  {
    if ExitPriority(a) >= ExitPriority(b) then a else b
  }

  /** Distinct exits have distinct priorities. */
  lemma ExitPriorityInjective(a: ExitType, b: ExitType)
    requires ExitPriority(a) == ExitPriority(b)
    ensures a == b
  {
  }

  /** Merging is commutative, associative and idempotent, with None as its unit. */
  lemma MergeExitsLaws(a: ExitType, b: ExitType, c: ExitType)
    ensures MergeExits(a, b) == MergeExits(b, a)
    ensures MergeExits(MergeExits(a, b), c) == MergeExits(a, MergeExits(b, c))
    ensures MergeExits(a, a) == a
    ensures MergeExits(ExitType.None, a) == a && MergeExits(a, ExitType.None) == a
    ensures ExitPriority(ExitType.None) <= ExitPriority(a) <= ExitPriority(Return)
  {
    if ExitPriority(a) == ExitPriority(b) {
      ExitPriorityInjective(a, b);
    }
  }

  /** A word with exactly one bit set. */
  predicate SingleBit(v: bv32)
  {
    v != 0 && v & (v - 1) == 0
  }

  /** The flags of a scope (enums.h:286-294). */
  datatype ScopeFlag = None | Break | Continue | Control | Next | Defer

  /** The word of a flag: SCOPE_NONE is empty and every other flag is one bit. */
  function ScopeFlagValue(f: ScopeFlag): (v: bv32)
    ensures v == 0 <==> f == ScopeFlag.None
    ensures f != ScopeFlag.None ==> SingleBit(v)
  {
    match f
    case None => 0
    case Break => 1 << 0
    case Continue => 1 << 1
    case Control => 1 << 2
    case Next => 1 << 3
    case Defer => 1 << 4
  }

  /** The position of the flag in the listing after SCOPE_NONE. */
  function ScopeFlagBit(f: ScopeFlag): nat
    requires f != ScopeFlag.None
  {
    match f
    case Break => 0
    case Continue => 1
    case Control => 2
    case Next => 3
    case Defer => 4
  }

  /**
   * Every flag other than SCOPE_NONE is the bit at its listing position
   * (enums.h:288-293); distinct flags share no bit.
   */
  lemma ScopeFlagsAreDistinctBits(f: ScopeFlag, g: ScopeFlag)
    ensures f != ScopeFlag.None ==> ScopeFlagValue(f) == 1 << ScopeFlagBit(f)
    ensures f != g ==> ScopeFlagValue(f) & ScopeFlagValue(g) == 0
  {
  }

  /** Setting flag f in a word by bitwise or: `flags |= f`; the bits outside f are kept. */
  function SetScopeFlag(flags: bv32, f: ScopeFlag): (r: bv32)
    ensures r & ScopeFlagValue(f) == ScopeFlagValue(f)
    ensures r & !ScopeFlagValue(f) == flags & !ScopeFlagValue(f)
  {
    flags | ScopeFlagValue(f)
  }

  /** Whether flag f is set in a word: `flags & f`; being one bit, it is either wholly present or absent. */
  function HasScopeFlag(flags: bv32, f: ScopeFlag): (b: bool)
    ensures b <==> f != ScopeFlag.None && flags & ScopeFlagValue(f) == ScopeFlagValue(f)
  {
    flags & ScopeFlagValue(f) != 0
  }

  /** Setting one flag sets that flag and neither clears nor sets any other. */
  lemma SetScopeFlagIsolated(flags: bv32, f: ScopeFlag, g: ScopeFlag)
    ensures f != ScopeFlag.None ==> HasScopeFlag(SetScopeFlag(flags, f), f)
    ensures f != g ==> (HasScopeFlag(SetScopeFlag(flags, f), g) <==> HasScopeFlag(flags, g))
  {
    ScopeFlagsAreDistinctBits(f, g);
  }

  /** The kinds of declaration an attribute may be applied to (enums.h:545-555). */
  datatype AttributeDomain = Func | Var | Enum | Struct | Union | Const | Error | Typedef

  /** The word of a domain: one bit, within the low byte. */
  function AttributeDomainValue(d: AttributeDomain): (v: bv32)
    ensures SingleBit(v) && v <= 0x80
  {
    match d
    case Func => 1 << 0
    case Var => 1 << 1
    case Enum => 1 << 2
    case Struct => 1 << 3
    case Union => 1 << 4
    case Const => 1 << 5
    case Error => 1 << 6
    case Typedef => 1 << 7
  }

  /** The position of the domain in the listing. */
  function AttributeDomainIndex(d: AttributeDomain): (i: nat)
    ensures i < 8
  {
    match d
    case Func => 0
    case Var => 1
    case Enum => 2
    case Struct => 3
    case Union => 4
    case Const => 5
    case Error => 6
    case Typedef => 7
  }

  /**
   * The eight domains are the eight distinct bits 1 << 0 .. 1 << 7, each at its
   * listing position, and together they fill the low byte.
   */
  lemma AttributeDomainsAreDistinctBits(d: AttributeDomain, e: AttributeDomain)
    ensures AttributeDomainValue(d) == 1 << AttributeDomainIndex(d)
    ensures d != e ==> AttributeDomainValue(d) & AttributeDomainValue(e) == 0
    ensures AttributeDomainValue(Func) | AttributeDomainValue(Var) | AttributeDomainValue(Enum)
      | AttributeDomainValue(Struct) | AttributeDomainValue(Union) | AttributeDomainValue(Const)
      | AttributeDomainValue(Error) | AttributeDomainValue(Typedef) == 0xFF
  {
  }
}
