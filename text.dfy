/** String helpers with the semantics of the JavaScript built-ins the
    services use: `split`, `join`, `startsWith`, `includes`, `trim`, the
    regular-expression classes `\s` and `\w`, and Node's `path.basename`
    and `path.extname`.  Strings are sequences of characters. */
module Text {

  /** The regular-expression class `\s` (and the set `trim` strips). */
  predicate IsWhitespace(c: char) {
    c == ' ' || c == '\t' || c == '\n' || c == '\U{B}' || c == '\U{C}' || c == '\r'
    || c == '\U{A0}' || c == '\U{1680}' || ('\U{2000}' <= c <= '\U{200A}')
    || c == '\U{2028}' || c == '\U{2029}' || c == '\U{202F}' || c == '\U{205F}'
    || c == '\U{3000}' || c == '\U{FEFF}'
  }

  /** The regular-expression class `\w` without the `u` flag. */
  predicate IsWordChar(c: char) {
    ('a' <= c <= 'z') || ('A' <= c <= 'Z') || ('0' <= c <= '9') || c == '_'
  }

  /** `s.trim() === ''`: nothing but whitespace. */
  predicate IsBlank(s: string) {
    forall i :: 0 <= i < |s| ==> IsWhitespace(s[i])
  }

  /** JavaScript truthiness of a string that may be missing. */
  predicate Truthy(s: string) { s != "" }

  predicate StartsWith(s: string, prefix: string) { prefix <= s }

  /** `s.includes(sub)`. */
  predicate Contains(s: string, sub: string)
    decreases |s|
  {
    sub <= s || (|s| > 0 && Contains(s[1..], sub))
  }

  /** `parts.join(sep)`. */
  function Join(parts: seq<string>, sep: string): string
    decreases |parts|
  {
    if |parts| == 0 then ""
    else if |parts| == 1 then parts[0]
    else parts[0] + sep + Join(parts[1..], sep)
  }

  /** `s.split(c)` for a one-character separator: never empty, no piece
      holds the separator, and joining the pieces gives `s` back. */
  function Split(s: string, c: char): (parts: seq<string>)
    ensures |parts| >= 1
    ensures forall i :: 0 <= i < |parts| ==> c !in parts[i]
    ensures Join(parts, [c]) == s
    decreases |s|
  {
    if |s| == 0 then [""]
    else
      var rest := Split(s[1..], c);
      if s[0] == c then
        [""] + rest
      else
        JoinConsFirst(s[0], rest, [c]);
        [[s[0]] + rest[0]] + rest[1..]
  }

  /** Growing the first piece grows the joined string at its front. */
  lemma JoinConsFirst(x: char, parts: seq<string>, sep: string)
    requires |parts| >= 1
    ensures Join([[x] + parts[0]] + parts[1..], sep) == [x] + Join(parts, sep)
  {
    var q := [[x] + parts[0]] + parts[1..];
    assert q[1..] == parts[1..];
  }

  /** Splitting a join of separator-free pieces recovers the pieces. */
  lemma {:induction false} SplitJoin(parts: seq<string>, c: char)
    requires |parts| >= 1
    requires forall i :: 0 <= i < |parts| ==> c !in parts[i]
    ensures Split(Join(parts, [c]), c) == parts
    decreases |parts|, |parts[0]|
  {
    if |parts| == 1 {
      SplitFree(parts[0], c);
    } else if parts[0] == "" {
      var tail := parts[1..];
      SplitJoin(tail, c);
      assert Join(parts, [c]) == [c] + Join(tail, [c]);
      assert Join(parts, [c])[1..] == Join(tail, [c]);
      assert parts == [""] + tail;
    } else {
      var p := parts[0];
      var q := [p[1..]] + parts[1..];
      assert q[1..] == parts[1..];
      assert forall i :: 0 <= i < |q| ==> c !in q[i] by {
        forall i | 0 <= i < |q| ensures c !in q[i] {
          if i == 0 {
            assert forall k :: 0 <= k < |p[1..]| ==> p[1..][k] == p[k + 1];
          } else {
            assert q[i] == parts[i];
          }
        }
      }
      SplitJoin(q, c);
      JoinConsFirst(p[0], q, [c]);
      assert [p[0]] + q[0] == p;
      assert [[p[0]] + q[0]] + q[1..] == parts;
      var s := Join(parts, [c]);
      assert s == [p[0]] + Join(q, [c]);
      assert s[0] == p[0] && s[1..] == Join(q, [c]);
      assert p[0] != c by { assert p[0] == parts[0][0]; }
    }
  }

  /** A string without the separator splits into itself. */
  lemma {:induction false} SplitFree(s: string, c: char)
    requires c !in s
    ensures Split(s, c) == [s]
    decreases |s|
  {
    if |s| > 0 {
      assert c !in s[1..] by {
        assert forall k :: 0 <= k < |s[1..]| ==> s[1..][k] == s[k + 1];
      }
      SplitFree(s[1..], c);
      assert [s[0]] + s[1..] == s;
    }
  }

  /** A separator-free first piece is split off whole, whatever follows. */
  lemma {:induction false} SplitPrefix(a: string, c: char, s: string)
    requires c !in a
    ensures Split(a + [c] + s, c) == [a] + Split(s, c)
    decreases |a|
  {
    var t := a + [c] + s;
    if |a| == 0 {
      assert t[1..] == s;
    } else {
      assert c !in a[1..] by {
        assert forall k :: 0 <= k < |a[1..]| ==> a[1..][k] == a[k + 1];
      }
      SplitPrefix(a[1..], c, s);
      assert t[1..] == a[1..] + [c] + s;
      assert t[0] == a[0];
      assert [a[0]] + a[1..] == a;
    }
  }

  /** ASCII-only `toLowerCase`. */
  function ToLower(s: string): (r: string)
    ensures |r| == |s|
    ensures forall i :: 0 <= i < |s| ==> r[i] == LowerChar(s[i])
  {
    seq(|s|, i requires 0 <= i < |s| => LowerChar(s[i]))
  }

  function LowerChar(c: char): char {
    if 'A' <= c <= 'Z' then (c as int - 'A' as int + 'a' as int) as char else c
  }

  /** Decimal digits of a number, as `String(n)` prints it. */
  function NatToString(n: nat): (r: string)
    ensures |r| >= 1
    ensures forall i :: 0 <= i < |r| ==> '0' <= r[i] <= '9'
    decreases n
  {
    if n < 10 then [Digit(n)] else NatToString(n / 10) + [Digit(n % 10)]
  }

  function Digit(d: nat): (c: char)
    requires d < 10
    ensures '0' <= c <= '9' && c as int - '0' as int == d
  {
    ('0' as int + d) as char
  }

  /** The printed number reads back as the same number. */
  function DigitsValue(s: string): nat
    requires forall i :: 0 <= i < |s| ==> '0' <= s[i] <= '9'
    decreases |s|
  {
    if |s| == 0 then 0 else DigitsValue(s[..|s| - 1]) * 10 + (s[|s| - 1] as int - '0' as int)
  }

  lemma {:induction false} NatToStringValue(n: nat)
    ensures DigitsValue(NatToString(n)) == n
    decreases n
  {
    if n >= 10 {
      NatToStringValue(n / 10);
      var s := NatToString(n);
      assert s[..|s| - 1] == NatToString(n / 10);
      assert s[|s| - 1] == Digit(n % 10);
    }
  }

  /** Different numbers print differently, so message ids stay distinct as
      strings. */
  lemma NatToStringInjective(m: nat, n: nat)
    ensures NatToString(m) == NatToString(n) ==> m == n
  {
    NatToStringValue(m);
    NatToStringValue(n);
  }

  /** Index of the last occurrence of `c`, if any. */
  function LastIndexOf(s: string, c: char): (r: int)
    ensures -1 <= r < |s|
    ensures r >= 0 ==> s[r] == c && forall k :: r < k < |s| ==> s[k] != c
    ensures r == -1 ==> c !in s
    decreases |s|
  {
    if |s| == 0 then -1
    else if s[|s| - 1] == c then |s| - 1
    else LastIndexOf(s[..|s| - 1], c)
  }

  /** `path.basename` of a path without a trailing '/': the part after the
      last '/'. */
  function Basename(p: string): (b: string)
    ensures '/' !in b
    ensures |b| <= |p| && b == p[|p| - |b|..]
  {
    p[LastIndexOf(p, '/') + 1..]
  }

  /** `path.extname`: from the last '.' of the base name to its end, or ''
      when the base name has no '.', starts with its only '.', or is '..'. */
  function ExtName(p: string): (e: string)
    ensures e == "" || (e[0] == '.' && '.' !in e[1..])
    ensures |e| <= |p| && e == p[|p| - |e|..]
    ensures '/' !in e
  {
    var b := Basename(p);
    var d := LastIndexOf(b, '.');
    if d <= 0 || b == ".." then "" else b[d..]
  }

  /** The base name of `dir/name` is `name` when `name` has no '/'. */
  lemma BasenameJoin(dir: string, name: string)
    requires '/' !in name
    ensures Basename(dir + "/" + name) == name
  {
    var p := dir + "/" + name;
    var r := LastIndexOf(p, '/');
    assert p[|dir|] == '/';
    assert forall k :: |dir| < k < |p| ==> p[k] == name[k - |dir| - 1];
    assert r == |dir|;
    assert p[r + 1..] == name;
  }
}
