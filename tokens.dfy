/**
 * The token kinds of the lexer: the C enumeration TokenType of
 * src/compiler/enums.h:303-485, together with LexerState (enums.h:256-261).
 *
 * The C enumeration is one flat list of 155 kinds whose value (ordinal) is
 * the position in the list.  Its comments divide the list into sections:
 * InvalidToken first, then single-character tokens, two-character tokens,
 * three-character tokens, basic type names, C type names, identifiers and
 * literals, keywords, `@` directives, `$` directives, documentation-comment
 * tokens, and Eof last.  Here each section is a small datatype and TokenType
 * wraps it in a constructor named after the section; `Ordinal` gives every
 * kind the value it has in C.  Callers size arrays by the ordinal of Eof and
 * loop over kinds by ordinal, so the lemmas at the end pin that layout down.
 */
module Tokens {

  /** The number of kinds; Eof has ordinal TokenCount - 1. */
  const TokenCount: nat := 155

  /** The single-character tokens (enums.h:308-335), ordinals 1..28. */
  datatype SingleCharToken =
      Amp | At | BitNot | BitOr | BitXor | Colon
    | Comma | Eos | Eq | Greater | Div | Dollar
    | Dot | Hash | Less | Lbrace | Lbracket | Lparen
    | Minus | Mod | Not | Or | Plus | Question
    | Rbrace | Rbracket | Rparen | Star

  /** The position of a kind within its section. */
  function SingleCharIndex(x: SingleCharToken): (i: nat)
    ensures i < 28
  {
    match x
    case Amp => 0  case At => 1  case BitNot => 2  case BitOr => 3
    case BitXor => 4  case Colon => 5  case Comma => 6  case Eos => 7
    case Eq => 8  case Greater => 9  case Div => 10  case Dollar => 11
    case Dot => 12  case Hash => 13  case Less => 14  case Lbrace => 15
    case Lbracket => 16  case Lparen => 17  case Minus => 18  case Mod => 19
    case Not => 20  case Or => 21  case Plus => 22  case Question => 23
    case Rbrace => 24  case Rbracket => 25  case Rparen => 26  case Star => 27
  }

  /** The kind at position i of its section. */
  function SingleCharFromIndex(i: nat): SingleCharToken
    requires i < 28
  {
    if i < 14 then
      if i < 7 then
        if i < 3 then
          if i < 1 then Amp else if i < 2 then At else BitNot
        else
          if i < 5 then
            if i < 4 then BitOr else BitXor
          else
            if i < 6 then Colon else Comma
      else
        if i < 10 then
          if i < 8 then Eos else if i < 9 then Eq else Greater
        else
          if i < 12 then
            if i < 11 then Div else Dollar
          else
            if i < 13 then Dot else Hash
    else
      if i < 21 then
        if i < 17 then
          if i < 15 then Less else if i < 16 then Lbrace else Lbracket
        else
          if i < 19 then
            if i < 18 then Lparen else Minus
          else
            if i < 20 then Mod else Not
      else
        if i < 24 then
          if i < 22 then Or else if i < 23 then Plus else Question
        else
          if i < 26 then
            if i < 25 then Rbrace else Rbracket
          else
            if i < 27 then Rparen else Star
  }

  lemma SingleCharIndexInverse(x: SingleCharToken)
    ensures SingleCharFromIndex(SingleCharIndex(x)) == x
  {
  }

  lemma SingleCharFromIndexInverse(i: nat)
    requires i < 28
    ensures SingleCharIndex(SingleCharFromIndex(i)) == i
  {
  }

  /** The two-character tokens (enums.h:338-360), ordinals 29..51. */
  datatype TwoCharToken =
      And | Arrow | BitAndAssign | BitOrAssign | BitXorAssign | DivAssign
    | Dotdot | Elvis | Eqeq | GreaterEq | LessEq | Lparbra
    | MinusAssign | Minusminus | ModAssign | MultAssign | NotEqual | PlusAssign
    | Plusplus | Rparbra | Scope | Shr | Shl

  /** The position of a kind within its section. */
  function TwoCharIndex(x: TwoCharToken): (i: nat)
    ensures i < 23
  {
    match x
    case And => 0  case Arrow => 1  case BitAndAssign => 2  case BitOrAssign => 3
    case BitXorAssign => 4  case DivAssign => 5  case Dotdot => 6  case Elvis => 7
    case Eqeq => 8  case GreaterEq => 9  case LessEq => 10  case Lparbra => 11
    case MinusAssign => 12  case Minusminus => 13  case ModAssign => 14  case MultAssign => 15
    case NotEqual => 16  case PlusAssign => 17  case Plusplus => 18  case Rparbra => 19
    case Scope => 20  case Shr => 21  case Shl => 22
  }

  /** The kind at position i of its section. */
  function TwoCharFromIndex(i: nat): TwoCharToken
    requires i < 23
  {
    if i < 11 then
      if i < 5 then
        if i < 2 then
          if i < 1 then And else Arrow
        else
          if i < 3 then BitAndAssign else if i < 4 then BitOrAssign else BitXorAssign
      else
        if i < 8 then
          if i < 6 then DivAssign else if i < 7 then Dotdot else Elvis
        else
          if i < 9 then Eqeq else if i < 10 then GreaterEq else LessEq
    else
      if i < 17 then
        if i < 14 then
          if i < 12 then Lparbra else if i < 13 then MinusAssign else Minusminus
        else
          if i < 15 then ModAssign else if i < 16 then MultAssign else NotEqual
      else
        if i < 20 then
          if i < 18 then PlusAssign else if i < 19 then Plusplus else Rparbra
        else
          if i < 21 then Scope else if i < 22 then Shr else Shl
  }

  lemma TwoCharIndexInverse(x: TwoCharToken)
    ensures TwoCharFromIndex(TwoCharIndex(x)) == x
  {
  }

  lemma TwoCharFromIndexInverse(i: nat)
    requires i < 23
    ensures TwoCharIndex(TwoCharFromIndex(i)) == i
  {
  }

  /** The tokens of three or more characters (enums.h:363-367), ordinals 52..56. */
  datatype ThreeCharToken =
      AndAssign | Elipsis | OrAssign | ShrAssign | ShlAssign

  /** The position of a kind within its section. */
  function ThreeCharIndex(x: ThreeCharToken): (i: nat)
    ensures i < 5
  {
    match x
    case AndAssign => 0  case Elipsis => 1  case OrAssign => 2  case ShrAssign => 3
    case ShlAssign => 4
  }

  /** The kind at position i of its section. */
  function ThreeCharFromIndex(i: nat): ThreeCharToken
    requires i < 5
  {
    if i < 2 then
      if i < 1 then AndAssign else Elipsis
    else
      if i < 3 then OrAssign else if i < 4 then ShrAssign else ShlAssign
  }

  lemma ThreeCharIndexInverse(x: ThreeCharToken)
    ensures ThreeCharFromIndex(ThreeCharIndex(x)) == x
  {
  }

  lemma ThreeCharFromIndexInverse(i: nat)
    requires i < 5
    ensures ThreeCharIndex(ThreeCharFromIndex(i)) == i
  {
  }

  /** The names of the basic types (enums.h:370-385), ordinals 57..72. */
  datatype BasicTypeToken =
      Void | Byte | Bool | Char | Double | Float
    | Half | Int | Isize | Long | Short | Uint
    | Ulong | Ushort | Usize | Quad

  /** The position of a kind within its section. */
  function BasicTypeIndex(x: BasicTypeToken): (i: nat)
    ensures i < 16
  {
    match x
    case Void => 0  case Byte => 1  case Bool => 2  case Char => 3
    case Double => 4  case Float => 5  case Half => 6  case Int => 7
    case Isize => 8  case Long => 9  case Short => 10  case Uint => 11
    case Ulong => 12  case Ushort => 13  case Usize => 14  case Quad => 15
  }

  /** The kind at position i of its section. */
  function BasicTypeFromIndex(i: nat): BasicTypeToken
    requires i < 16
  {
    if i < 8 then
      if i < 4 then
        if i < 2 then
          if i < 1 then Void else Byte
        else
          if i < 3 then Bool else Char
      else
        if i < 6 then
          if i < 5 then Double else Float
        else
          if i < 7 then Half else Int
    else
      if i < 12 then
        if i < 10 then
          if i < 9 then Isize else Long
        else
          if i < 11 then Short else Uint
      else
        if i < 14 then
          if i < 13 then Ulong else Ushort
        else
          if i < 15 then Usize else Quad
  }

  lemma BasicTypeIndexInverse(x: BasicTypeToken)
    ensures BasicTypeFromIndex(BasicTypeIndex(x)) == x
  {
  }

  lemma BasicTypeFromIndexInverse(i: nat)
    requires i < 16
    ensures BasicTypeIndex(BasicTypeFromIndex(i)) == i
  {
  }

  /** The names of the C interoperability types (enums.h:388-395), ordinals 73..80. */
  datatype CTypeToken =
      CShort | CInt | CLong | CLonglong | CUshort | CUint
    | CUlong | CUlonglong

  /** The position of a kind within its section. */
  function CTypeIndex(x: CTypeToken): (i: nat)
    ensures i < 8
  {
    match x
    case CShort => 0  case CInt => 1  case CLong => 2  case CLonglong => 3
    case CUshort => 4  case CUint => 5  case CUlong => 6  case CUlonglong => 7
  }

  /** The kind at position i of its section. */
  function CTypeFromIndex(i: nat): CTypeToken
    requires i < 8
  {
    if i < 4 then
      if i < 2 then
        if i < 1 then CShort else CInt
      else
        if i < 3 then CLong else CLonglong
    else
      if i < 6 then
        if i < 5 then CUshort else CUint
      else
        if i < 7 then CUlong else CUlonglong
  }

  lemma CTypeIndexInverse(x: CTypeToken)
    ensures CTypeFromIndex(CTypeIndex(x)) == x
  {
  }

  lemma CTypeFromIndexInverse(i: nat)
    requires i < 8
    ensures CTypeIndex(CTypeFromIndex(i)) == i
  {
  }

  /** The identifiers, sigil-prefixed identifiers and literals (enums.h:400-412), ordinals 81..89. */
  datatype LiteralToken =
      Ident | ConstIdent | TypeIdent | AtIdent | HashIdent | CtIdent
    | String | Integer | Real

  /** The position of a kind within its section. */
  function LiteralIndex(x: LiteralToken): (i: nat)
    ensures i < 9
  {
    match x
    case Ident => 0  case ConstIdent => 1  case TypeIdent => 2  case AtIdent => 3
    case HashIdent => 4  case CtIdent => 5  case String => 6  case Integer => 7
    case Real => 8
  }

  /** The kind at position i of its section. */
  function LiteralFromIndex(i: nat): LiteralToken
    requires i < 9
  {
    if i < 4 then
      if i < 2 then
        if i < 1 then Ident else ConstIdent
      else
        if i < 3 then TypeIdent else AtIdent
    else
      if i < 6 then
        if i < 5 then HashIdent else CtIdent
      else
        if i < 7 then String else if i < 8 then Integer else Real
  }

  lemma LiteralIndexInverse(x: LiteralToken)
    ensures LiteralFromIndex(LiteralIndex(x)) == x
  {
  }

  lemma LiteralFromIndexInverse(i: nat)
    requires i < 9
    ensures LiteralIndex(LiteralFromIndex(i)) == i
  {
  }

  /** The keywords (enums.h:415-458), ordinals 90..133. */
  datatype KeywordToken =
      Alias | As | Asm | Attribute | Break | Case
    | Cast | Catch | Const | Continue | Default | Defer
    | Do | Else | Enum | ErrorType | False | For
    | Func | Generic | Goto | If | Import | In
    | Local | Macro | Module | Next | Nil | Public
    | Return | Struct | Switch | Throw | Throws | True
    | Try | Type | Typedef | Union | Until | Var
    | Volatile | While

  /** The position of a kind within its section. */
  function KeywordIndex(x: KeywordToken): (i: nat)
    ensures i < 44
  {
    match x
    case Alias => 0  case As => 1  case Asm => 2  case Attribute => 3
    case Break => 4  case Case => 5  case Cast => 6  case Catch => 7
    case Const => 8  case Continue => 9  case Default => 10  case Defer => 11
    case Do => 12  case Else => 13  case Enum => 14  case ErrorType => 15
    case False => 16  case For => 17  case Func => 18  case Generic => 19
    case Goto => 20  case If => 21  case Import => 22  case In => 23
    case Local => 24  case Macro => 25  case Module => 26  case Next => 27
    case Nil => 28  case Public => 29  case Return => 30  case Struct => 31
    case Switch => 32  case Throw => 33  case Throws => 34  case True => 35
    case Try => 36  case Type => 37  case Typedef => 38  case Union => 39
    case Until => 40  case Var => 41  case Volatile => 42  case While => 43
  }

  /** The kind at position i of its section. */
  function KeywordFromIndex(i: nat): KeywordToken
    requires i < 44
  {
    if i < 22 then
      if i < 11 then
        if i < 5 then
          if i < 2 then
            if i < 1 then Alias else As
          else
            if i < 3 then Asm else if i < 4 then Attribute else Break
        else
          if i < 8 then
            if i < 6 then Case else if i < 7 then Cast else Catch
          else
            if i < 9 then Const else if i < 10 then Continue else Default
      else
        if i < 16 then
          if i < 13 then
            if i < 12 then Defer else Do
          else
            if i < 14 then Else else if i < 15 then Enum else ErrorType
        else
          if i < 19 then
            if i < 17 then False else if i < 18 then For else Func
          else
            if i < 20 then Generic else if i < 21 then Goto else If
    else
      if i < 33 then
        if i < 27 then
          if i < 24 then
            if i < 23 then Import else In
          else
            if i < 25 then Local else if i < 26 then Macro else Module
        else
          if i < 30 then
            if i < 28 then Next else if i < 29 then Nil else Public
          else
            if i < 31 then Return else if i < 32 then Struct else Switch
      else
        if i < 38 then
          if i < 35 then
            if i < 34 then Throw else Throws
          else
            if i < 36 then True else if i < 37 then Try else Type
        else
          if i < 41 then
            if i < 39 then Typedef else if i < 40 then Union else Until
          else
            if i < 42 then Var else if i < 43 then Volatile else While
  }

  lemma KeywordIndexInverse(x: KeywordToken)
    ensures KeywordFromIndex(KeywordIndex(x)) == x
  {
  }

  lemma KeywordFromIndexInverse(i: nat)
    requires i < 44
    ensures KeywordIndex(KeywordFromIndex(i)) == i
  {
  }

  /** The `@` directives of documentation comments (enums.h:460-468), ordinals 134..142. */
  datatype AtDirectiveToken =
      AtParam | AtThrows | AtReturn | AtEnsure | AtRequire | AtPure
    | AtConst | AtReqparse | AtDeprecated

  /** The position of a kind within its section. */
  function AtDirectiveIndex(x: AtDirectiveToken): (i: nat)
    ensures i < 9
  {
    match x
    case AtParam => 0  case AtThrows => 1  case AtReturn => 2  case AtEnsure => 3
    case AtRequire => 4  case AtPure => 5  case AtConst => 6  case AtReqparse => 7
    case AtDeprecated => 8
  }

  /** The kind at position i of its section. */
  function AtDirectiveFromIndex(i: nat): AtDirectiveToken
    requires i < 9
  {
    if i < 4 then
      if i < 2 then
        if i < 1 then AtParam else AtThrows
      else
        if i < 3 then AtReturn else AtEnsure
    else
      if i < 6 then
        if i < 5 then AtRequire else AtPure
      else
        if i < 7 then AtConst else if i < 8 then AtReqparse else AtDeprecated
  }

  lemma AtDirectiveIndexInverse(x: AtDirectiveToken)
    ensures AtDirectiveFromIndex(AtDirectiveIndex(x)) == x
  {
  }

  lemma AtDirectiveFromIndexInverse(i: nat)
    requires i < 9
    ensures AtDirectiveIndex(AtDirectiveFromIndex(i)) == i
  {
  }

  /** The `$` compile-time directives (enums.h:470-476), ordinals 143..149. */
  datatype CtDirectiveToken =
      CtCase | CtDefault | CtFor | CtElif | CtElse | CtIf
    | CtSwitch

  /** The position of a kind within its section. */
  function CtDirectiveIndex(x: CtDirectiveToken): (i: nat)
    ensures i < 7
  {
    match x
    case CtCase => 0  case CtDefault => 1  case CtFor => 2  case CtElif => 3
    case CtElse => 4  case CtIf => 5  case CtSwitch => 6
  }

  /** The kind at position i of its section. */
  function CtDirectiveFromIndex(i: nat): CtDirectiveToken
    requires i < 7
  {
    if i < 3 then
      if i < 1 then CtCase else if i < 2 then CtDefault else CtFor
    else
      if i < 5 then
        if i < 4 then CtElif else CtElse
      else
        if i < 6 then CtIf else CtSwitch
  }

  lemma CtDirectiveIndexInverse(x: CtDirectiveToken)
    ensures CtDirectiveFromIndex(CtDirectiveIndex(x)) == x
  {
  }

  lemma CtDirectiveFromIndexInverse(i: nat)
    requires i < 7
    ensures CtDirectiveIndex(CtDirectiveFromIndex(i)) == i
  {
  }

  /** The documentation-comment tokens (enums.h:478-481), ordinals 150..153. */
  datatype DocsToken =
      DocsStart | DocsEnd | DocsEol | DocsLine

  /** The position of a kind within its section. */
  function DocsIndex(x: DocsToken): (i: nat)
    ensures i < 4
  {
    match x
    case DocsStart => 0  case DocsEnd => 1  case DocsEol => 2  case DocsLine => 3
  }

  /** The kind at position i of its section. */
  function DocsFromIndex(i: nat): DocsToken
    requires i < 4
  {
    if i < 2 then
      if i < 1 then DocsStart else DocsEnd
    else
      if i < 3 then DocsEol else DocsLine
  }

  lemma DocsIndexInverse(x: DocsToken)
    ensures DocsFromIndex(DocsIndex(x)) == x
  {
  }

  lemma DocsFromIndexInverse(i: nat)
    requires i < 4
    ensures DocsIndex(DocsFromIndex(i)) == i
  {
  }

  /** A token kind, sections in the order of src/compiler/enums.h:303-485. */
  datatype TokenType =
    | InvalidToken
    | SingleChar(single: SingleCharToken)
    | TwoChar(two: TwoCharToken)
    | ThreeChar(three: ThreeCharToken)
    | BasicType(basic: BasicTypeToken)
    | CType(ctype: CTypeToken)
    | Literal(literal: LiteralToken)
    | Keyword(keyword: KeywordToken)
    | AtDirective(at: AtDirectiveToken)
    | CtDirective(ct: CtDirectiveToken)
    | Docs(docs: DocsToken)
    | Eof

  /** TOKEN_IDENT, the kind the symbol table gives a spelling it has not seen. */
  const PlainIdent: TokenType := Literal(Ident)

  /** The value of the kind in the C enumeration. */
  function Ordinal(t: TokenType): (r: nat)
    ensures r < TokenCount
  {
    match t
    case InvalidToken => 0
    case SingleChar(x) => 1 + SingleCharIndex(x)
    case TwoChar(x) => 29 + TwoCharIndex(x)
    case ThreeChar(x) => 52 + ThreeCharIndex(x)
    case BasicType(x) => 57 + BasicTypeIndex(x)
    case CType(x) => 73 + CTypeIndex(x)
    case Literal(x) => 81 + LiteralIndex(x)
    case Keyword(x) => 90 + KeywordIndex(x)
    case AtDirective(x) => 134 + AtDirectiveIndex(x)
    case CtDirective(x) => 143 + CtDirectiveIndex(x)
    case Docs(x) => 150 + DocsIndex(x)
    case Eof => 154
  }

  /** The kind whose value is i: the cast `(TokenType)i`. */
  function FromOrdinal(i: nat): TokenType
    requires i < TokenCount
  {
    if i == 0 then InvalidToken
    else if i < 29 then SingleChar(SingleCharFromIndex(i - 1))
    else if i < 52 then TwoChar(TwoCharFromIndex(i - 29))
    else if i < 57 then ThreeChar(ThreeCharFromIndex(i - 52))
    else if i < 73 then BasicType(BasicTypeFromIndex(i - 57))
    else if i < 81 then CType(CTypeFromIndex(i - 73))
    else if i < 90 then Literal(LiteralFromIndex(i - 81))
    else if i < 134 then Keyword(KeywordFromIndex(i - 90))
    else if i < 143 then AtDirective(AtDirectiveFromIndex(i - 134))
    else if i < 150 then CtDirective(CtDirectiveFromIndex(i - 143))
    else if i < 154 then Docs(DocsFromIndex(i - 150))
    else Eof
  }

  /** Reading a kind's value back gives the kind. */
  lemma OrdinalRoundTrip(t: TokenType)
    ensures FromOrdinal(Ordinal(t)) == t
  {
    match t
    case InvalidToken =>
    case SingleChar(x) => SingleCharIndexInverse(x);
    case TwoChar(x) => TwoCharIndexInverse(x);
    case ThreeChar(x) => ThreeCharIndexInverse(x);
    case BasicType(x) => BasicTypeIndexInverse(x);
    case CType(x) => CTypeIndexInverse(x);
    case Literal(x) => LiteralIndexInverse(x);
    case Keyword(x) => KeywordIndexInverse(x);
    case AtDirective(x) => AtDirectiveIndexInverse(x);
    case CtDirective(x) => CtDirectiveIndexInverse(x);
    case Docs(x) => DocsIndexInverse(x);
    case Eof =>
  }

  /** Every value below TokenCount is the value of the kind it is cast to. */
  lemma FromOrdinalRoundTrip(i: nat)
    requires i < TokenCount
    ensures Ordinal(FromOrdinal(i)) == i
  {
    if i == 0 {
    } else if i < 29 {
      SingleCharFromIndexInverse(i - 1);
    } else if i < 52 {
      TwoCharFromIndexInverse(i - 29);
    } else if i < 57 {
      ThreeCharFromIndexInverse(i - 52);
    } else if i < 73 {
      BasicTypeFromIndexInverse(i - 57);
    } else if i < 81 {
      CTypeFromIndexInverse(i - 73);
    } else if i < 90 {
      LiteralFromIndexInverse(i - 81);
    } else if i < 134 {
      KeywordFromIndexInverse(i - 90);
    } else if i < 143 {
      AtDirectiveFromIndexInverse(i - 134);
    } else if i < 150 {
      CtDirectiveFromIndexInverse(i - 143);
    } else if i < 154 {
      DocsFromIndexInverse(i - 150);
    }
  }

  /** Two kinds with the same value are the same kind. */
  lemma OrdinalInjective(s: TokenType, t: TokenType)
    requires Ordinal(s) == Ordinal(t)
    ensures s == t
  {
    OrdinalRoundTrip(s);
    OrdinalRoundTrip(t);
  }

  /**
   * InvalidToken is 0 and Eof has the strictly largest value of all kinds
   * (enums.h:305, enums.h:483): `i < TOKEN_EOF` bounds every other kind.
   */
  lemma SentinelOrdinals(t: TokenType)
    ensures Ordinal(InvalidToken) == 0 && Ordinal(Eof) == TokenCount - 1
    ensures t != InvalidToken ==> 0 < Ordinal(t)
    ensures t != Eof ==> Ordinal(t) < Ordinal(Eof)
  {
  }

  /**
   * Looping i over 1 .. TOKEN_EOF - 1 and casting visits every kind other
   * than the two sentinels exactly once: the value i is cast to a non-sentinel
   * kind whose value is i, and a non-sentinel kind is reached at its own value
   * and at no other.
   */
  lemma InnerOrdinalsEnumerateInnerKinds(i: nat, t: TokenType)
    requires 1 <= i < Ordinal(Eof)
    ensures FromOrdinal(i) != InvalidToken && FromOrdinal(i) != Eof
    ensures Ordinal(FromOrdinal(i)) == i
    ensures t != InvalidToken && t != Eof ==> 1 <= Ordinal(t) < Ordinal(Eof) && FromOrdinal(Ordinal(t)) == t
    ensures FromOrdinal(i) == t ==> i == Ordinal(t)
  {
    FromOrdinalRoundTrip(i);
    OrdinalRoundTrip(t);
  }

  /**
   * Each section of the enumeration occupies one contiguous range of values,
   * the ranges following the section comments of enums.h:307-481.
   */
  lemma SectionsAreContiguous(t: TokenType)
    ensures t.InvalidToken? <==> Ordinal(t) == 0
    ensures t.SingleChar? <==> 1 <= Ordinal(t) <= 28
    ensures t.TwoChar? <==> 29 <= Ordinal(t) <= 51
    ensures t.ThreeChar? <==> 52 <= Ordinal(t) <= 56
    ensures t.BasicType? <==> 57 <= Ordinal(t) <= 72
    ensures t.CType? <==> 73 <= Ordinal(t) <= 80
    ensures t.Literal? <==> 81 <= Ordinal(t) <= 89
    ensures t.Keyword? <==> 90 <= Ordinal(t) <= 133
    ensures t.AtDirective? <==> 134 <= Ordinal(t) <= 142
    ensures t.CtDirective? <==> 143 <= Ordinal(t) <= 149
    ensures t.Docs? <==> 150 <= Ordinal(t) <= 153
    ensures t.Eof? <==> Ordinal(t) == 154
  {
  }

  /** The identifier kinds have the values of their listing at enums.h:400-408. */
  lemma IdentifierKindsInOrder()
    ensures Ordinal(PlainIdent) == 81
    ensures Ordinal(Literal(ConstIdent)) == 82 && Ordinal(Literal(TypeIdent)) == 83
    ensures Ordinal(Literal(AtIdent)) == 84 && Ordinal(Literal(HashIdent)) == 85
    ensures Ordinal(Literal(CtIdent)) == 86
  {
  }

  /** The sub-modes of the lexer (enums.h:256-261). */
  datatype LexerState = Normal | DocsParse | DocsParseDirective

  function LexerStateOrdinal(s: LexerState): (r: nat)
    ensures r < 3
  {
    match s
    case Normal => 0
    case DocsParse => 1
    case DocsParseDirective => 2
  }

  /** The three lexer states have distinct values, Normal being 0. */
  lemma LexerStatesDistinct(s: LexerState, u: LexerState)
    ensures LexerStateOrdinal(s) == LexerStateOrdinal(u) ==> s == u
    ensures LexerStateOrdinal(s) == 0 <==> s == Normal
  {
  }
}
