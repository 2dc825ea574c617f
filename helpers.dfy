/** The frontend's text helper `truncateText`. */
module Helpers {
  import opened Wrappers

  const Ellipsis := "..."

  /** `text.substring(0, length)` for `length < |text|`: a negative
      length counts as zero. */
  function Head(text: string, length: int): (r: string)
    requires length < |text|
    ensures r <= text && |r| == if length < 0 then 0 else length
  {
    if length < 0 then "" else text[..length]
  }

  /** `truncateText(text, length)`: a missing or empty text gives '', a
      text longer than `length` its first `length` characters and '...',
      anything else the text itself. */
  function TruncateText(text: Option<string>, length: int): (r: string)
    ensures text.None? || text.value == "" ==> r == ""
    ensures text.Some? && |text.value| > length && text.value != "" ==>
              |r| >= 3 && r[|r| - 3..] == Ellipsis && r[..|r| - 3] <= text.value
              && |r| == (if length < 0 then 0 else length) + 3
    ensures text.Some? && text.value != "" && |text.value| <= length ==> r == text.value
    ensures length >= 0 ==> |r| <= length + 3
  {
    if text.None? || text.value == "" then ""
    else if |text.value| > length then Head(text.value, length) + Ellipsis
    else text.value
  }

  /** Truncating a truncated text again changes nothing. */
  lemma TruncateTextIdempotent(text: Option<string>, length: int)
    ensures TruncateText(Some(TruncateText(text, length)), length) == TruncateText(text, length)
  {
    var r := TruncateText(text, length);
    if text.Some? && text.value != "" && |text.value| > length {
      var h := Head(text.value, length);
      assert r == h + Ellipsis;
      assert Head(r, length) == h by {
        if length >= 0 {
          assert r[..length] == h;
        }
      }
    }
  }
}
