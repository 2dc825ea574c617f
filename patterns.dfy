/** The two regular expressions the ingestion code matches message text
    against: the link pattern `https?:\/\/[^\s]+` and the global hashtag
    pattern `#(\w+)`, written as scanners over the string. */
module Patterns {
  import opened Wrappers
  import opened Text

  // ---------------------------------------------------------------- links

  /** A link match can begin at the front of `s`: a scheme followed by at
      least one non-whitespace character. */
  predicate UrlAtStart(s: string) {
    ("http://" <= s && |s| > 7 && !IsWhitespace(s[7]))
    || ("https://" <= s && |s| > 8 && !IsWhitespace(s[8]))
  }

  /** `s.match(/https?:\/\/[^\s]+/)` is not null. */
  predicate HasUrl(s: string)
    decreases |s|
  {
    UrlAtStart(s) || (|s| > 0 && HasUrl(s[1..]))
  }

  /** The scan agrees with the plain reading of the pattern: some position
      of `s` begins a link. */
  lemma {:induction false} HasUrlIff(s: string)
    ensures HasUrl(s) <==> exists i :: 0 <= i < |s| && UrlAtStart(s[i..])
    decreases |s|
  {
    if |s| > 0 {
      assert s[0..] == s;
      HasUrlIff(s[1..]);
      if exists i :: 0 <= i < |s[1..]| && UrlAtStart(s[1..][i..]) {
        var i :| 0 <= i < |s[1..]| && UrlAtStart(s[1..][i..]);
        assert s[1..][i..] == s[i + 1..];
      }
      if exists i :: 0 <= i < |s| && UrlAtStart(s[i..]) {
        var i :| 0 <= i < |s| && UrlAtStart(s[i..]);
        if i > 0 {
          assert s[1..][i - 1..] == s[i..];
        }
      }
    } else {
      assert !UrlAtStart(s);
    }
  }

  /** Length of the run of non-whitespace characters at the front of `s`. */
  function NonSpaceRun(s: string): (n: nat)
    ensures n <= |s|
    ensures forall k :: 0 <= k < n ==> !IsWhitespace(s[k])
    ensures n == |s| || IsWhitespace(s[n])
    decreases |s|
  {
    if |s| == 0 || IsWhitespace(s[0]) then 0 else 1 + NonSpaceRun(s[1..])
  }

  /** `s.match(/https?:\/\/[^\s]+/)[0]`: the leftmost match, which runs to
      the end of the non-whitespace run it starts. */
  function FirstUrl(s: string): (r: Option<string>)
    decreases |s|
  {
    if UrlAtStart(s) then Some(s[..NonSpaceRun(s)])
    else if |s| == 0 then None
    else FirstUrl(s[1..])
  }

  /** A first match exists exactly when the text has a link, and it is a
      whitespace-free piece of the text starting with a scheme. */
  lemma {:induction false} FirstUrlSpec(s: string)
    ensures FirstUrl(s).Some? <==> HasUrl(s)
    ensures FirstUrl(s).Some? ==>
              var u := FirstUrl(s).value;
              UrlAtStart(u) && Contains(s, u) && (forall k :: 0 <= k < |u| ==> !IsWhitespace(u[k]))
    decreases |s|
  {
    if UrlAtStart(s) {
      var n := NonSpaceRun(s);
      var u := s[..n];
      if "https://" <= s && |s| > 8 && !IsWhitespace(s[8]) {
        assert n > 8 by { NonSpaceRunCovers(s, 8); }
      } else {
        assert n > 7 by { NonSpaceRunCovers(s, 7); }
      }
      assert u <= s;
    } else if |s| > 0 {
      FirstUrlSpec(s[1..]);
    }
  }

  /** The run covers every leading non-whitespace position. */
  lemma {:induction false} NonSpaceRunCovers(s: string, j: nat)
    requires j < |s|
    requires forall k :: 0 <= k <= j ==> !IsWhitespace(s[k])
    ensures NonSpaceRun(s) > j
    decreases j
  {
    if j > 0 {
      NonSpaceRunCovers(s[1..], j - 1);
    }
  }

  // ------------------------------------------------------------- hashtags

  /** Length of the run of word characters at the front of `s`. */
  function WordRun(s: string): (n: nat)
    ensures n <= |s|
    ensures forall k :: 0 <= k < n ==> IsWordChar(s[k])
    ensures n == |s| || !IsWordChar(s[n])
    decreases |s|
  {
    if |s| == 0 || !IsWordChar(s[0]) then 0 else 1 + WordRun(s[1..])
  }

  /** `(s.match(/#(\w+)/g) || []).map(tag => tag.substring(1))`: each '#'
      followed by a word character yields the whole word run after it, and
      scanning resumes after that run. */
  function Hashtags(s: string): (tags: seq<string>)
    ensures forall i :: 0 <= i < |tags| ==> IsWord(tags[i])
    decreases |s|
  {
    if |s| == 0 then []
    else if s[0] == '#' && |s| >= 2 && IsWordChar(s[1]) then
      var n := WordRun(s[1..]);
      [s[1..1 + n]] + Hashtags(s[1 + n..])
    else Hashtags(s[1..])
  }

  /** A tag name as the pattern captures it: non-empty, word characters only. */
  predicate IsWord(w: string) {
    |w| > 0 && forall k :: 0 <= k < |w| ==> IsWordChar(w[k])
  }

  /** Every extracted tag occurs in the text right after a '#'. */
  lemma {:induction false} HashtagsOccur(s: string)
    ensures forall t :: t in Hashtags(s) ==> Contains(s, "#" + t)
    decreases |s|
  {
    if |s| == 0 {
    } else if s[0] == '#' && |s| >= 2 && IsWordChar(s[1]) {
      var n := WordRun(s[1..]);
      var rest := s[1 + n..];
      var w := s[1..1 + n];
      assert Hashtags(s) == [w] + Hashtags(rest);
      HashtagsOccur(rest);
      forall t | t in Hashtags(s)
        ensures Contains(s, "#" + t)
      {
        if t == w {
          assert "#" + w == s[..1 + n];
          assert "#" + w <= s;
        } else {
          assert t in Hashtags(rest);
          ContainsSuffix(s, 1 + n, "#" + t);
        }
      }
    } else {
      assert Hashtags(s) == Hashtags(s[1..]);
      HashtagsOccur(s[1..]);
      forall t | t in Hashtags(s)
        ensures Contains(s, "#" + t)
      {
        ContainsSuffix(s, 1, "#" + t);
      }
    }
  }

  /** What occurs in a suffix occurs in the whole string. */
  lemma {:induction false} ContainsSuffix(s: string, k: nat, sub: string)
    requires k <= |s|
    requires Contains(s[k..], sub)
    ensures Contains(s, sub)
    decreases k
  {
    if k > 0 {
      assert s[1..][k - 1..] == s[k..];
      ContainsSuffix(s[1..], k - 1, sub);
    }
  }

  /** Text without '#' carries no tags. */
  lemma {:induction false} HashtagsNone(s: string)
    requires '#' !in s
    ensures Hashtags(s) == []
    decreases |s|
  {
    if |s| > 0 {
      assert '#' !in s[1..] by {
        assert forall k :: 0 <= k < |s[1..]| ==> s[1..][k] == s[k + 1];
      }
      HashtagsNone(s[1..]);
    }
  }

  /** The text "#w1 #w2 … " a user writes to tag a message. */
  function TagLine(ws: seq<string>): string
    decreases |ws|
  {
    if |ws| == 0 then "" else "#" + ws[0] + " " + TagLine(ws[1..])
  }

  /** A hashtag at the front yields its word, then scanning goes on after it. */
  lemma HashtagsCons(w: string, t: string)
    requires IsWord(w) && |t| > 0 && !IsWordChar(t[0])
    ensures Hashtags("#" + w + t) == [w] + Hashtags(t)
  {
    var s := "#" + w + t;
    assert s[1..] == w + t;
    WordRunOf(w, t);
    assert s[1..1 + |w|] == w;
    assert s[1 + |w|..] == t;
  }

  /** Writing words as hashtags and extracting them gives the words back,
      in order and with repetitions. */
  lemma {:induction false} HashtagsTagLine(ws: seq<string>)
    requires forall i :: 0 <= i < |ws| ==> IsWord(ws[i])
    ensures Hashtags(TagLine(ws)) == ws
    decreases |ws|
  {
    if |ws| > 0 {
      var rest := TagLine(ws[1..]);
      assert TagLine(ws) == "#" + ws[0] + (" " + rest);
      HashtagsCons(ws[0], " " + rest);
      assert (" " + rest)[1..] == rest;
      HashtagsTagLine(ws[1..]);
    }
  }

  /** The word run of a word followed by a non-word character is the word. */
  lemma {:induction false} WordRunOf(w: string, t: string)
    requires forall k :: 0 <= k < |w| ==> IsWordChar(w[k])
    requires |t| > 0 && !IsWordChar(t[0])
    ensures WordRun(w + t) == |w|
    decreases |w|
  {
    if |w| > 0 {
      assert (w + t)[1..] == w[1..] + t;
      WordRunOf(w[1..], t);
    }
  }

  /** Tag lists taken from text may repeat a name. */
  lemma HashtagsMayRepeat()
    ensures Hashtags("#a #a ") == ["a", "a"]
  {
    HashtagsTagLine(["a", "a"]);
    assert TagLine(["a", "a"]) == "#a #a ";
  }
}
