/** The two .NET string helpers the Zipkin view relies on. */
module Text {
  import opened Spans

  /** `char.IsWhiteSpace`: the Unicode space, line and paragraph separators, U+0009..U+000D and U+0085. */
  predicate IsWhiteSpace(c: char)
  {
    ('\t' <= c <= '\r') || c == ' ' || c == '\U{0085}' || c == '\U{00A0}' || c == '\U{1680}' ||
    ('\U{2000}' <= c <= '\U{200A}') || c == '\U{2028}' || c == '\U{2029}' ||
    c == '\U{202F}' || c == '\U{205F}' || c == '\U{3000}'
  }

  /** `string.IsNullOrWhiteSpace`, with `None` for the null string. */
  predicate IsNullOrWhiteSpace(s: Option<string>)
  {
    match s
    case None => true
    case Some(t) => forall i :: 0 <= i < |t| ==> IsWhiteSpace(t[i])
  }

  /** One character outside the white-space set makes a string not blank. */
  lemma NotBlankWithNonWhiteSpace(s: string, i: nat)
    requires i < |s| && !IsWhiteSpace(s[i])
    ensures !IsNullOrWhiteSpace(Some(s))
  {
  }

  /** Null, the empty string and strings of white space only are blank, whatever separators they use. */
  lemma BlankStrings()
    ensures IsNullOrWhiteSpace(None) && IsNullOrWhiteSpace(Some(""))
    ensures IsNullOrWhiteSpace(Some(" \t\r\n\U{0085}\U{00A0}\U{2007}\U{2028}\U{2029}\U{3000}"))
    ensures !IsNullOrWhiteSpace(Some(" a ")) && !IsNullOrWhiteSpace(Some("\U{200B}"))
  {
    var blank := " \t\r\n\U{0085}\U{00A0}\U{2007}\U{2028}\U{2029}\U{3000}";
    assert forall j :: 0 <= j < |blank| ==> IsWhiteSpace(blank[j]);
    NotBlankWithNonWhiteSpace(" a ", 1);
    NotBlankWithNonWhiteSpace("\U{200B}", 0);
  }

  function ToUpperChar(c: char): (r: char)
    ensures 'a' <= c <= 'z' ==> r as int == c as int - 32
    ensures !('a' <= c <= 'z') ==> r == c
  {
    if 'a' <= c <= 'z' then (c as int - 32) as char else c
  }

  /** `string.ToUpperInvariant`, restricted to the ASCII letters (see README). */
  function ToUpperInvariant(s: string): (r: string)
    ensures |r| == |s|
    ensures forall i :: 0 <= i < |s| ==> r[i] == ToUpperChar(s[i])
    ensures forall i :: 0 <= i < |r| ==> !('a' <= r[i] <= 'z')
  {
    if |s| == 0 then "" else [ToUpperChar(s[0])] + ToUpperInvariant(s[1..])
  }
}
