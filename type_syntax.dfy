/**
  The mapping from a Visual Basic type symbol to the C# type syntax the
  converter emits for it. Roslyn's symbols and syntax factory are abstracted:
  a type is either `Nullable(Of T)` or some other type carrying its special
  type code, the table from special type codes to C# keywords and the
  minimal display name of a type at a source position are parameters.
 */
module TypeSyntaxMapping {

  datatype Option<T> = None | Some(value: T)

  /** Roslyn's SpecialType code of a type (System_Int32, System_String, ...). */
  type SpecialType = int

  datatype TypeSymbol =
    | NullableOf(underlying: TypeSymbol)
    | NonNullable(specialType: SpecialType, metadataName: string)

  /** The C# type syntax nodes the mapping builds: `T?`, a keyword such as
      `int`, or whatever `ParseTypeName` makes of a display string. */
  datatype TypeSyntax =
    | NullableType(elementType: TypeSyntax)
    | PredefinedType(keyword: string)
    | ParsedTypeName(text: string)

  /** How many `Nullable(Of ...)` layers wrap the type. */
  function NullableDepth(t: TypeSymbol): (d: nat)
  {
    match t
    case NullableOf(u) => 1 + NullableDepth(u)
    case NonNullable(_, _) => 0
  }

  /** The type inside all `Nullable(Of ...)` layers. */
  function Innermost(t: TypeSymbol): (b: TypeSymbol)
    ensures b.NonNullable?
  {
    match t
    case NullableOf(u) => Innermost(u)
    case NonNullable(_, _) => t
  }

  /** The syntax `s` with `k` nullable markers around it. */
  function WrapNullable(k: nat, s: TypeSyntax): (w: TypeSyntax)
  {
    if k == 0 then s else NullableType(WrapNullable(k - 1, s))
  }

  /** The type `b` inside `k` layers of `Nullable(Of ...)`. */
  function NullableSymbol(k: nat, b: TypeSymbol): (t: TypeSymbol)
  {
    if k == 0 then b else NullableOf(NullableSymbol(k - 1, b))
  }

  /** How many nullable markers wrap the syntax. */
  function SyntaxNullableDepth(s: TypeSyntax): (d: nat)
  {
    match s
    case NullableType(e) => 1 + SyntaxNullableDepth(e)
    case _ => 0
  }

  /** The C# type syntax for a type symbol: every nullable layer becomes a
      nullable marker, and the type inside them becomes its predefined
      keyword when the table has one, otherwise its minimal display name at
      `position` parsed as a type name. */
  function GetCsTypeSyntax(t: TypeSymbol, keywordOf: SpecialType -> Option<string>,
                           minimalDisplayName: (TypeSymbol, int) -> string, position: int): (r: TypeSyntax)
    ensures var b := Innermost(t);
      keywordOf(b.specialType).Some? ==> r == WrapNullable(NullableDepth(t), PredefinedType(keywordOf(b.specialType).value))
    ensures var b := Innermost(t);
      keywordOf(b.specialType).None? ==> r == WrapNullable(NullableDepth(t), ParsedTypeName(minimalDisplayName(b, position)))
  {
    if t.NullableOf? then NullableType(GetCsTypeSyntax(t.underlying, keywordOf, minimalDisplayName, position))
    else match keywordOf(t.specialType)
      case Some(keyword) => PredefinedType(keyword)
      case None => ParsedTypeName(minimalDisplayName(t, position))
  }

  // ---------------------------------------------------------------------
  // Properties of the mapping

  /** The markers put around a non-nullable syntax are exactly counted back. */
  lemma {:induction false} WrapNullableDepth(k: nat, s: TypeSyntax)
    requires !s.NullableType?
    ensures SyntaxNullableDepth(WrapNullable(k, s)) == k
  {
    if k > 0 {
      WrapNullableDepth(k - 1, s);
    }
  }

  /** Building `k` nullable layers around a non-nullable type and measuring
      them back gives `k` and the type itself. */
  lemma {:induction false} NullableSymbolLayers(k: nat, b: TypeSymbol)
    requires b.NonNullable?
    ensures NullableDepth(NullableSymbol(k, b)) == k
    ensures Innermost(NullableSymbol(k, b)) == b
  {
    if k > 0 {
      NullableSymbolLayers(k - 1, b);
    }
  }

  /** A nullable type maps to a nullable wrapper of its underlying type's
      syntax, so the syntax carries exactly as many nullable markers as the
      symbol has layers. */
  lemma NullableLayersPreserved(t: TypeSymbol, keywordOf: SpecialType -> Option<string>,
                                minimalDisplayName: (TypeSymbol, int) -> string, position: int)
    ensures SyntaxNullableDepth(GetCsTypeSyntax(t, keywordOf, minimalDisplayName, position)) == NullableDepth(t)
    ensures GetCsTypeSyntax(t, keywordOf, minimalDisplayName, position).NullableType? <==> t.NullableOf?
  {
    var b := Innermost(t);
    if keywordOf(b.specialType).Some? {
      WrapNullableDepth(NullableDepth(t), PredefinedType(keywordOf(b.specialType).value));
    } else {
      WrapNullableDepth(NullableDepth(t), ParsedTypeName(minimalDisplayName(b, position)));
    }
  }

  /** `k` nullable layers around a type give `k` nullable markers around that
      type's syntax. */
  lemma NullableOfMapsToNullableType(k: nat, b: TypeSymbol, keywordOf: SpecialType -> Option<string>,
                                     minimalDisplayName: (TypeSymbol, int) -> string, position: int)
    requires b.NonNullable?
    ensures GetCsTypeSyntax(NullableSymbol(k, b), keywordOf, minimalDisplayName, position)
         == WrapNullable(k, GetCsTypeSyntax(b, keywordOf, minimalDisplayName, position))
  {
    NullableSymbolLayers(k, b);
  }

  /** A type with a predefined keyword never consults the display name: any
      display-name function and any position give the same syntax. */
  lemma PredefinedIgnoresDisplayName(t: TypeSymbol, keywordOf: SpecialType -> Option<string>,
                                     displayName1: (TypeSymbol, int) -> string, position1: int,
                                     displayName2: (TypeSymbol, int) -> string, position2: int)
    requires keywordOf(Innermost(t).specialType).Some?
    ensures GetCsTypeSyntax(t, keywordOf, displayName1, position1) == GetCsTypeSyntax(t, keywordOf, displayName2, position2)
  {
  }

  /** A type without a keyword is emitted through its minimal display name,
      so two display names that agree on it give the same syntax. */
  lemma NamedTypeUsesOnlyItsDisplayName(t: TypeSymbol, keywordOf: SpecialType -> Option<string>,
                                        displayName1: (TypeSymbol, int) -> string, position1: int,
                                        displayName2: (TypeSymbol, int) -> string, position2: int)
    requires keywordOf(Innermost(t).specialType).None?
    ensures GetCsTypeSyntax(t, keywordOf, displayName1, position1) == GetCsTypeSyntax(t, keywordOf, displayName2, position2)
        <==> displayName1(Innermost(t), position1) == displayName2(Innermost(t), position2)
  {
    var d := NullableDepth(t);
    var s1, s2 := ParsedTypeName(displayName1(Innermost(t), position1)), ParsedTypeName(displayName2(Innermost(t), position2));
    if WrapNullable(d, s1) == WrapNullable(d, s2) {
      WrapNullableInjective(d, s1, s2);
    }
  }

  lemma {:induction false} WrapNullableInjective(k: nat, s1: TypeSyntax, s2: TypeSyntax)
    requires WrapNullable(k, s1) == WrapNullable(k, s2)
    ensures s1 == s2
  {
    if k > 0 {
      WrapNullableInjective(k - 1, s1, s2);
    }
  }
}
