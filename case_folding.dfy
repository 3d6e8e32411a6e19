/**
  Case-insensitive identifier comparison, as the converter uses it for
  Visual Basic names (StringComparison.OrdinalIgnoreCase). Only the ASCII
  letters are folded: ordinal comparison upper-cases each character on its
  own, and for ASCII that is exactly the mapping below.
 */
module CaseFolding {

  /** The upper-case form of one character; only 'a'..'z' change. */
  function ToUpper(c: char): (u: char)
    ensures 'a' <= c <= 'z' ==> 'A' <= u <= 'Z' && u as int == c as int - 32
    ensures !('a' <= c <= 'z') ==> u == c
  {
    if 'a' <= c <= 'z' then (c as int - 32) as char else c
  }

  /** The upper-cased form of a whole name. */
  function Fold(s: string): (f: string)
    ensures |f| == |s|
  {
    if s == [] then [] else [ToUpper(s[0])] + Fold(s[1..])
  }

  /** Two names are the same identifier when their upper-cased forms are equal. */
  predicate EqualsIgnoreCase(a: string, b: string)
  {
    Fold(a) == Fold(b)
  }

  /** Folding upper-cases each character in place. */
  lemma {:induction false} FoldAt(s: string, i: nat)
    requires i < |s|
    ensures Fold(s)[i] == ToUpper(s[i])
  {
    if i > 0 {
      FoldAt(s[1..], i - 1);
    }
  }

  /** Two names are equal ignoring case exactly when they have the same
      length and agree character by character once upper-cased. */
  lemma EqualsIgnoreCaseCharwise(a: string, b: string)
    ensures EqualsIgnoreCase(a, b) <==> |a| == |b| && forall i :: 0 <= i < |a| ==> ToUpper(a[i]) == ToUpper(b[i])
  {
    if EqualsIgnoreCase(a, b) {
      forall i | 0 <= i < |a| ensures ToUpper(a[i]) == ToUpper(b[i]) {
        FoldAt(a, i);
        FoldAt(b, i);
      }
    }
    if |a| == |b| && forall i :: 0 <= i < |a| ==> ToUpper(a[i]) == ToUpper(b[i]) {
      forall i | 0 <= i < |a| ensures Fold(a)[i] == Fold(b)[i] {
        FoldAt(a, i);
        FoldAt(b, i);
      }
    }
  }

  /** Folding is idempotent: a name is the same identifier as its
      upper-cased form. */
  lemma FoldIsSameIdentifier(s: string)
    ensures EqualsIgnoreCase(Fold(s), s)
  {
    forall i | 0 <= i < |s| ensures Fold(Fold(s))[i] == Fold(s)[i] {
      FoldAt(s, i);
      FoldAt(Fold(s), i);
    }
  }

  /** One position whose letters differ beyond case makes two different
      identifiers. */
  lemma DifferentIdentifiers(a: string, b: string, i: nat)
    requires i < |a| && i < |b| && ToUpper(a[i]) != ToUpper(b[i])
    ensures !EqualsIgnoreCase(a, b)
  {
    FoldAt(a, i);
    FoldAt(b, i);
  }
}
