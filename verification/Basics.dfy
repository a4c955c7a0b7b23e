/** Types and text checks shared by the models. */
module Basics {

  newtype byte = x: int | 0 <= x < 256

  type Bytes = seq<byte>

  datatype Option<+T> = None | Some(value: T)

  /** Job and request IDs: lower-case hexadecimal groups of 8, 4, 4, 4 and 12 digits. */
  type Id = string

  predicate HexDigits(s: string)
  {
    forall c | c in s :: '0' <= c <= '9' || 'a' <= c <= 'f'
  }

  lemma HexDigitsExactly(s: string)
    ensures HexDigits(s) <==> forall i | 0 <= i < |s| :: '0' <= s[i] <= '9' || 'a' <= s[i] <= 'f'
  {
    assert forall i | 0 <= i < |s| :: s[i] in s;
  }

  predicate IdOk(id: Id)
  {
    && |id| == 36 && id[8] == id[13] == id[18] == id[23] == '-'
    && HexDigits(id[..8]) && HexDigits(id[9..13]) && HexDigits(id[14..18]) && HexDigits(id[19..23])
          && HexDigits(id[24..])
  }

  /** Character by character: dashes after 8, 12, 16 and 20 digits, digits everywhere else. */
  lemma IdExactly(id: Id)
    ensures IdOk(id) <==>
              && |id| == 36
              && forall i | 0 <= i < 36 ::
                   if i in {8, 13, 18, 23} then id[i] == '-' else '0' <= id[i] <= '9' || 'a' <= id[i] <= 'f'
  {
    if |id| == 36 {
      forall i | 0 <= i < 36 && i !in {8, 13, 18, 23}
        ensures id[i] in if i < 8 then id[..8] else if i < 13 then id[9..13] else if i < 18 then id[14..18]
                         else if i < 23 then id[19..23] else id[24..]
      {
        assert i < 8 ==> id[i] == id[..8][i];
        assert 8 < i < 13 ==> id[i] == id[9..13][i - 9];
        assert 13 < i < 18 ==> id[i] == id[14..18][i - 14];
        assert 18 < i < 23 ==> id[i] == id[19..23][i - 19];
        assert 23 < i ==> id[i] == id[24..][i - 24];
      }
    }
  }

  /** Unicode white space without the non-breaking spaces, and the separators among the control characters. */
  predicate Whitespace(c: char)
  {
    || '\t' <= c <= '\r' || '\U{1C}' <= c <= ' '
    || c == '\U{1680}' || '\U{2000}' <= c <= '\U{2006}' || '\U{2008}' <= c <= '\U{200A}'
    || c == '\U{2028}' || c == '\U{2029}' || c == '\U{205F}' || c == '\U{3000}'
  }

  predicate Blank(s: string)
  {
    forall c | c in s :: Whitespace(c)
  }

  /** White space by its numbers. */
  lemma WhitespaceExactly(c: char)
    ensures Whitespace(c) <==>
              || 9 <= c as int <= 13 || 28 <= c as int <= 32
              || c as int in {0x1680, 0x2028, 0x2029, 0x205F, 0x3000}
              || (0x2000 <= c as int <= 0x200A && c as int != 0x2007)
  {
  }

  /** A text with any visible ASCII character is not blank; spaces, tabs and line breaks alone are. */
  lemma BlankExactly(s: string)
    requires forall c | c in s :: c <= '~'
    ensures Blank(s) <==> forall c | c in s :: c in "\t\n\U{0B}\U{0C}\r\U{1C}\U{1D}\U{1E}\U{1F} "
  {
  }
}
