/**
 * The operator enumerations of src/compiler/enums.h: AssignOp (lines 7-23),
 * BinaryOp (lines 25-60) and Precedence (lines 271-284), each with the value
 * its members have in C.  The compiler relies on the layout of these lists,
 * not only on the names: "is this binary operator an assignment" is a single
 * comparison against BINARYOP_ASSIGN, the assigning binary operators convert
 * to AssignOp by an ordinal offset, and precedence levels are compared as
 * numbers.
 */
module Operators {

  /** The compound-assignment operators (enums.h:7-23). */
  datatype AssignOp =
      Error | Assign | MultAssign | AddAssign | SubAssign | DivAssign
    | ModAssign | AndAssign | OrAssign | BitAndAssign | BitOrAssign | BitXorAssign
    | ShrAssign | ShlAssign

  /** The binary operators (enums.h:25-60); the assigning forms come last. */
  datatype BinaryOp =
      Error | Mult | Sub | Add | Div | Mod
    | Shr | Shl | BitOr | BitXor | BitAnd | And
    | Or | Gt | Ge | Lt | Le | Ne
    | Eq | Assign | MultAssign | AddAssign | SubAssign | DivAssign
    | ModAssign | AndAssign | OrAssign | BitAndAssign | BitOrAssign | BitXorAssign
    | ShrAssign | ShlAssign

  const AssignOpCount: nat := 14
  const BinaryOpCount: nat := 32

  function AssignOrdinal(a: AssignOp): (r: nat)
    ensures r < AssignOpCount
  {
    match a
    case Error => 0  case Assign => 1  case MultAssign => 2  case AddAssign => 3
    case SubAssign => 4  case DivAssign => 5  case ModAssign => 6  case AndAssign => 7
    case OrAssign => 8  case BitAndAssign => 9  case BitOrAssign => 10  case BitXorAssign => 11
    case ShrAssign => 12  case ShlAssign => 13
  }

  /** The cast `(AssignOp)i`. */
  function AssignFromOrdinal(i: nat): AssignOp
    requires i < AssignOpCount
  {
    if i < 7 then
      if i < 3 then
        if i < 1 then AssignOp.Error else if i < 2 then AssignOp.Assign else AssignOp.MultAssign
      else
        if i < 5 then
          if i < 4 then AssignOp.AddAssign else AssignOp.SubAssign
        else
          if i < 6 then AssignOp.DivAssign else AssignOp.ModAssign
    else
      if i < 10 then
        if i < 8 then AssignOp.AndAssign else if i < 9 then AssignOp.OrAssign else AssignOp.BitAndAssign
      else
        if i < 12 then
          if i < 11 then AssignOp.BitOrAssign else AssignOp.BitXorAssign
        else
          if i < 13 then AssignOp.ShrAssign else AssignOp.ShlAssign
  }

  function BinaryOrdinal(op: BinaryOp): (r: nat)
    ensures r < BinaryOpCount
  {
    match op
    case Error => 0  case Mult => 1  case Sub => 2  case Add => 3
    case Div => 4  case Mod => 5  case Shr => 6  case Shl => 7
    case BitOr => 8  case BitXor => 9  case BitAnd => 10  case And => 11
    case Or => 12  case Gt => 13  case Ge => 14  case Lt => 15
    case Le => 16  case Ne => 17  case Eq => 18  case Assign => 19
    case MultAssign => 20  case AddAssign => 21  case SubAssign => 22  case DivAssign => 23
    case ModAssign => 24  case AndAssign => 25  case OrAssign => 26  case BitAndAssign => 27
    case BitOrAssign => 28  case BitXorAssign => 29  case ShrAssign => 30  case ShlAssign => 31
  }

  /** The cast `(BinaryOp)i`. */
  function BinaryFromOrdinal(i: nat): BinaryOp
    requires i < BinaryOpCount
  {
    if i < 16 then
      if i < 8 then
        if i < 4 then
          if i < 2 then
            if i < 1 then BinaryOp.Error else BinaryOp.Mult
          else
            if i < 3 then BinaryOp.Sub else BinaryOp.Add
        else
          if i < 6 then
            if i < 5 then BinaryOp.Div else BinaryOp.Mod
          else
            if i < 7 then BinaryOp.Shr else BinaryOp.Shl
      else
        if i < 12 then
          if i < 10 then
            if i < 9 then BinaryOp.BitOr else BinaryOp.BitXor
          else
            if i < 11 then BinaryOp.BitAnd else BinaryOp.And
        else
          if i < 14 then
            if i < 13 then BinaryOp.Or else BinaryOp.Gt
          else
            if i < 15 then BinaryOp.Ge else BinaryOp.Lt
    else
      if i < 24 then
        if i < 20 then
          if i < 18 then
            if i < 17 then BinaryOp.Le else BinaryOp.Ne
          else
            if i < 19 then BinaryOp.Eq else BinaryOp.Assign
        else
          if i < 22 then
            if i < 21 then BinaryOp.MultAssign else BinaryOp.AddAssign
          else
            if i < 23 then BinaryOp.SubAssign else BinaryOp.DivAssign
      else
        if i < 28 then
          if i < 26 then
            if i < 25 then BinaryOp.ModAssign else BinaryOp.AndAssign
          else
            if i < 27 then BinaryOp.OrAssign else BinaryOp.BitAndAssign
        else
          if i < 30 then
            if i < 29 then BinaryOp.BitOrAssign else BinaryOp.BitXorAssign
          else
            if i < 31 then BinaryOp.ShrAssign else BinaryOp.ShlAssign
  }

  lemma AssignOrdinalRoundTrip(a: AssignOp)
    ensures AssignFromOrdinal(AssignOrdinal(a)) == a
  {
  }

  lemma AssignFromOrdinalRoundTrip(i: nat)
    requires i < AssignOpCount
    ensures AssignOrdinal(AssignFromOrdinal(i)) == i
  {
  }

  lemma BinaryOrdinalRoundTrip(op: BinaryOp)
    ensures BinaryFromOrdinal(BinaryOrdinal(op)) == op
  {
  }

  lemma BinaryFromOrdinalRoundTrip(i: nat)
    requires i < BinaryOpCount
    ensures BinaryOrdinal(BinaryFromOrdinal(i)) == i
  {
  }

  /**
   * The binary operators that assign, named by their `_ASSIGN` spelling in
   * enums.h:47-59.  "Only assign BINOPS after this point" (enums.h:46): an
   * operator assigns exactly when its value is at least that of BINARYOP_ASSIGN.
   */
  function IsAssign(op: BinaryOp): (b: bool)
    ensures b <==> BinaryOrdinal(op) >= BinaryOrdinal(BinaryOp.Assign)
  {
    match op
    case Assign | MultAssign | AddAssign | SubAssign | DivAssign | ModAssign
      | AndAssign | OrAssign | BitAndAssign | BitOrAssign | BitXorAssign
      | ShrAssign | ShlAssign => true
    case _ => false
  }

  /** The AssignOp spelled like the binary operator, or Error when there is none. */
  function AssignOpOfSameName(op: BinaryOp): AssignOp
  {
    match op
    case Assign => AssignOp.Assign
    case MultAssign => AssignOp.MultAssign
    case AddAssign => AssignOp.AddAssign
    case SubAssign => AssignOp.SubAssign
    case DivAssign => AssignOp.DivAssign
    case ModAssign => AssignOp.ModAssign
    case AndAssign => AssignOp.AndAssign
    case OrAssign => AssignOp.OrAssign
    case BitAndAssign => AssignOp.BitAndAssign
    case BitOrAssign => AssignOp.BitOrAssign
    case BitXorAssign => AssignOp.BitXorAssign
    case ShrAssign => AssignOp.ShrAssign
    case ShlAssign => AssignOp.ShlAssign
    case _ => AssignOp.Error
  }

  /**
   * The assigning binary operator as an AssignOp, by shifting its value.
   * BINARYOP_ASSIGN..BINARYOP_SHL_ASSIGN (enums.h:47-59) and
   * ASSIGNOP_ASSIGN..ASSIGNOP_SHL_ASSIGN (enums.h:10-22) list the same
   * operators in the same order, so the shift lands on the operator of the
   * same name.
   */
  function ToAssignOp(op: BinaryOp): (a: AssignOp)
    requires IsAssign(op)
    ensures a != AssignOp.Error && a == AssignOpOfSameName(op)
  {
    AssignFromOrdinal(BinaryOrdinal(op) - BinaryOrdinal(BinaryOp.Assign) + AssignOrdinal(AssignOp.Assign))
  }

  /** The AssignOp as an assigning binary operator, by shifting its value back; it has the same name. */
  function ToBinaryOp(a: AssignOp): (op: BinaryOp)
    requires a != AssignOp.Error
    ensures IsAssign(op) && AssignOpOfSameName(op) == a
  {
    BinaryFromOrdinal(AssignOrdinal(a) - AssignOrdinal(AssignOp.Assign) + BinaryOrdinal(BinaryOp.Assign))
  }

  /** Shifting an assigning BinaryOp to an AssignOp and back gives the operator again. */
  lemma ToAssignOpInverse(op: BinaryOp)
    requires IsAssign(op)
    ensures ToAssignOp(op) != AssignOp.Error && ToBinaryOp(ToAssignOp(op)) == op
  {
  }

  /** Every AssignOp other than Error comes from exactly one assigning BinaryOp. */
  lemma ToBinaryOpInverse(a: AssignOp)
    requires a != AssignOp.Error
    ensures IsAssign(ToBinaryOp(a)) && ToAssignOp(ToBinaryOp(a)) == a
  {
  }

  /** Operator precedence levels, loosest first (enums.h:271-284). */
  datatype Precedence =
      None | Assignment | Conditional | Logical | Relational | Additive
    | Bit | Shift | Multiplicative | Unary | Call

  const PrecedenceCount: nat := 11

  function PrecedenceOrdinal(p: Precedence): (r: nat)
    ensures r < PrecedenceCount
  {
    match p
    case None => 0  case Assignment => 1  case Conditional => 2  case Logical => 3
    case Relational => 4  case Additive => 5  case Bit => 6  case Shift => 7
    case Multiplicative => 8  case Unary => 9  case Call => 10
  }

  function PrecedenceFromOrdinal(i: nat): Precedence
    requires i < PrecedenceCount
  {
    if i < 5 then
      if i < 2 then
        if i < 1 then None else Assignment
      else
        if i < 3 then Conditional else if i < 4 then Logical else Relational
    else
      if i < 8 then
        if i < 6 then Additive else if i < 7 then Bit else Shift
      else
        if i < 9 then Multiplicative else if i < 10 then Unary else Call
  }

  /** The level one step tighter than p: `p + 1` in C. */
  function Tighter(p: Precedence): Precedence
    requires p != Call
  {
    PrecedenceFromOrdinal(PrecedenceOrdinal(p) + 1)
  }

  /**
   * The levels strictly increase along the listing: each step to the next
   * tighter level adds exactly one, and the steps visit the levels in the
   * order enums.h:273-283 lists them, from None through Assignment to Call.
   */
  lemma PrecedenceLevelsIncrease(p: Precedence)
    ensures PrecedenceOrdinal(None) <= PrecedenceOrdinal(p) <= PrecedenceOrdinal(Call)
    ensures p != Call ==> PrecedenceOrdinal(Tighter(p)) == PrecedenceOrdinal(p) + 1
    ensures Tighter(None) == Assignment && Tighter(Assignment) == Conditional
    ensures Tighter(Conditional) == Logical && Tighter(Logical) == Relational
    ensures Tighter(Relational) == Additive && Tighter(Additive) == Bit
    ensures Tighter(Bit) == Shift && Tighter(Shift) == Multiplicative
    ensures Tighter(Multiplicative) == Unary && Tighter(Unary) == Call
  {
  }

  /** Distinct levels have distinct values, so comparing values orders the levels totally. */
  lemma PrecedenceOrdinalInjective(p: Precedence, q: Precedence)
    requires PrecedenceOrdinal(p) == PrecedenceOrdinal(q)
    ensures p == q
  {
  }
}
