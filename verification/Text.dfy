/** The string operations the services apply to references and transaction hashes. */
module Text {

  /** White space and line ends as `String.prototype.trim` removes them. */
  predicate IsSpace(c: char) {
    || '\t' <= c <= '\r' || c == ' ' || c == '\U{A0}' || c == '\U{1680}' || '\U{2000}' <= c <= '\U{200A}'
    || c == '\U{2028}' || c == '\U{2029}' || c == '\U{202F}' || c == '\U{205F}' || c == '\U{3000}' || c == '\U{FEFF}'
  }

  function TrimStart(s: string): string {
    if s != [] && IsSpace(s[0]) then TrimStart(s[1..]) else s
  }

  function TrimEnd(s: string): string {
    if s != [] && IsSpace(s[|s| - 1]) then TrimEnd(s[..|s| - 1]) else s
  }

  function Trim(s: string): string {
    TrimEnd(TrimStart(s))
  }

  predicate IsDigit(c: char) {
    '0' <= c <= '9'
  }

  predicate IsHexDigit(c: char) {
    IsDigit(c) || 'a' <= c <= 'f' || 'A' <= c <= 'F'
  }

  function LowerChar(c: char): char {
    if 'A' <= c <= 'Z' then (c as int + 32) as char else c
  }

  function Lower(s: string): (r: string)
    ensures |r| == |s|
  {
    seq(|s|, i requires 0 <= i < |s| => LowerChar(s[i]))
  }

  /** The shape `0x` followed by 64 hexadecimal digits. */
  predicate IsTransactionHash(s: string) {
    |s| == 66 && s[0] == '0' && s[1] == 'x' && forall i | 2 <= i < |s| :: IsHexDigit(s[i])
  }

  /** A transaction hash in the lower-case form in which it is stored. */
  predicate IsStoredHash(s: string) {
    IsTransactionHash(s) && Lower(s) == s
  }

  lemma LowerIsStored(s: string)
    requires IsTransactionHash(s)
    ensures IsStoredHash(Lower(s))
  {
    LowerTwice(s);
  }

  lemma LowerTwice(s: string)
    ensures Lower(Lower(s)) == Lower(s)
  {
    forall i | 0 <= i < |s| ensures Lower(Lower(s))[i] == Lower(s)[i] {}
  }

  /** Texts that differ only in the case of their letters A to Z have the same lower-case form. */
  lemma CaseIsIgnored(a: string, b: string)
    requires |a| == |b|
    requires forall i | 0 <= i < |a| ::
               a[i] == b[i] || ('A' <= a[i] <= 'Z' && b[i] as int == a[i] as int + 32)
    ensures Lower(a) == Lower(b)
  {
    forall i | 0 <= i < |a|
      ensures Lower(a)[i] == Lower(b)[i]
    {}
  }

  /** The 25 characters that ECMAScript counts as white space or line ends. */
  lemma SpacesAre(c: char)
    ensures IsSpace(c)
       <==> c in "\t\n\r \U{B}\U{C}\U{A0}\U{1680}\U{2000}\U{2001}\U{2002}\U{2003}\U{2004}\U{2005}\U{2006}"
            || c in "\U{2007}\U{2008}\U{2009}\U{200A}\U{2028}\U{2029}\U{202F}\U{205F}\U{3000}\U{FEFF}"
  {}

  lemma HashIsTrimmed(s: string)
    requires IsTransactionHash(s)
    ensures Trim(s) == s
  {
    assert IsHexDigit(s[|s| - 1]);
    assert TrimStart(s) == s;
  }
}
