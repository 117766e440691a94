/**
 * C strings as the clock callbacks hand them out: a sequence of characters
 * that holds a NUL terminator, whose text is everything before the first NUL.
 */
module CString {

  /** A C string literal as it is laid out in memory: its characters, then NUL. */
  function Literal(text: string): (s: seq<char>)
    requires '\0' !in text
    ensures |s| == |text| + 1
    ensures s[|text|] == '\0'
    ensures forall i :: 0 <= i < |text| ==> s[i] == text[i]
  {
    text + ['\0']
  }

  /** Number of characters before the first NUL (what `strlen` reports). */
  function Length(s: seq<char>): (n: nat)
    requires '\0' in s
    ensures n < |s| && s[n] == '\0'
    ensures forall i :: 0 <= i < n ==> s[i] != '\0'
  {
    if s[0] == '\0' then 0 else 1 + Length(s[1..])
  }

  /** The text a C string denotes. */
  function Text(s: seq<char>): string
    requires '\0' in s
  {
    s[..Length(s)]
  }

  /** A literal denotes exactly the text it was written with. */
  lemma {:induction false} TextOfLiteral(text: string)
    requires '\0' !in text
    ensures '\0' in Literal(text)
    ensures Length(Literal(text)) == |text|
    ensures Text(Literal(text)) == text
  {
    var s := Literal(text);
    assert forall i :: 0 <= i < |text| ==> s[i] != '\0' by {
      forall i | 0 <= i < |text| ensures s[i] != '\0' {
        assert text[i] in text;
      }
    }
    var n := Length(s);
    assert s[..n] == text;
  }
}
