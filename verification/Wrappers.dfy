/** Result types shared by every module. */
module Wrappers {

  datatype Option<+T> = None | Some(value: T)

  datatype Result<+T, +E> = Ok(value: T) | Err(error: E)
}

module Time {

  /** The time since an instant, with zero for one that lies ahead. */
  function Elapsed(now: nat, since: nat): nat {
    if now >= since then now - since else 0
  }
}

module Bytes {

  type Byte = b: int | 0 <= b < 256
}

/** Text order and blank text. */
module Text {

  /** Byte-wise order. */
  predicate TextLess(a: string, b: string) {
    b != "" && (a == "" || a[0] < b[0] || (a[0] == b[0] && TextLess(a[1..], b[1..])))
  }

  lemma {:induction false} TextNotLessThanItself(a: string)
    ensures !TextLess(a, a)
  {
    if a != "" { TextNotLessThanItself(a[1..]); }
  }

  /** How many bytes the text takes in UTF-8. */
  function Utf8Length(s: string): nat {
    if s == "" then 0
    else
      var c := s[|s| - 1];
      Utf8Length(s[..|s| - 1])
      + if c < '\U{80}' then 1 else if c < '\U{800}' then 2 else if c < '\U{10000}' then 3 else 4
  }

  /** The characters `trim` removes: those with the Unicode White_Space property. */
  predicate IsWhitespace(c: char) {
    || '\t' <= c <= '\r' || c == ' ' || c == '\U{85}' || c == '\U{A0}' || c == '\U{1680}'
    || '\U{2000}' <= c <= '\U{200A}' || c == '\U{2028}' || c == '\U{2029}' || c == '\U{202F}'
    || c == '\U{205F}' || c == '\U{3000}'
  }

  predicate IsBlank(s: string) {
    forall i :: 0 <= i < |s| ==> IsWhitespace(s[i])
  }

  /** Empty and all-space texts are blank; a text with a printable ASCII character other than a space is not. */
  lemma BlankTexts(s: string)
    ensures (forall i :: 0 <= i < |s| ==> s[i] in " \t\r\n") ==> IsBlank(s)
    ensures (exists i :: 0 <= i < |s| && '!' <= s[i] <= '~') ==> !IsBlank(s)
  {}

  /** The byte length is the character count exactly for ASCII texts, and larger otherwise. */
  lemma {:induction false} AsciiLength(s: string)
    ensures Utf8Length(s) >= |s|
    ensures Utf8Length(s) == |s| <==> forall i :: 0 <= i < |s| ==> s[i] < '\U{80}'
  {
    if s != "" {
      AsciiLength(s[..|s| - 1]);
    }
  }
}
