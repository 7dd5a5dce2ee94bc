/**
  Document identifiers. A string is a well-formed identifier when it is 24
  hexadecimal digits (the rule of the BSON library's ObjectId.isValid for
  strings). Casting such a string to an ObjectId reads its hex digits without
  regard to case, and the stored identifier is always rendered back in lower
  case, so every lookup by id compares canonical forms.
*/
module ObjectIds {
  predicate IsHexDigit(c: char) {
    ('0' <= c <= '9') || ('a' <= c <= 'f') || ('A' <= c <= 'F')
  }

  predicate ValidId(s: string) {
    |s| == 24 && forall i :: 0 <= i < |s| ==> IsHexDigit(s[i])
  }

  /** An identifier as the library renders it: 24 hex digits, letters in lower case. */
  predicate CanonicalId(s: string) {
    ValidId(s) && forall i :: 0 <= i < |s| ==> !('A' <= s[i] <= 'F')
  }

  /** A hex letter in lower case; every other character unchanged. */
  function LowerHex(c: char): char {
    if 'A' <= c <= 'F' then (c as int - 'A' as int + 'a' as int) as char else c
  }

  /**
    The identifier a well-formed string is cast to. Casting keeps exactly
    the well-formed strings well-formed, yields the canonical spelling, and
    leaves a canonical identifier as it is.
  */
  function Canonical(s: string): (c: string)
    ensures |c| == |s|
    ensures ValidId(c) <==> ValidId(s)
    ensures ValidId(s) ==> CanonicalId(c)
    ensures CanonicalId(s) ==> c == s
  {
    var c := seq(|s|, i requires 0 <= i < |s| => LowerHex(s[i]));
    assert forall i :: 0 <= i < |s| ==> (IsHexDigit(c[i]) <==> IsHexDigit(s[i]));
    c
  }

  /** Two spellings of one identifier that differ only in the case of a letter are cast alike. */
  lemma CaseDoesNotMatter(s: string, i: nat)
    requires ValidId(s) && i < |s| && 'a' <= s[i] <= 'f'
    ensures Canonical(s[i := (s[i] as int - 'a' as int + 'A' as int) as char]) == Canonical(s)
  {
    var t := s[i := (s[i] as int - 'a' as int + 'A' as int) as char];
    assert forall j :: 0 <= j < |s| ==> Canonical(t)[j] == Canonical(s)[j];
  }
}
