/** String operations of the JavaScript runtime, as far as the model needs them. */
module Texts {

  // Characters removed by String.prototype.trim.
  predicate IsWhite(c: char) {
    || c == ' ' || '\U{0009}' <= c <= '\U{000D}' || c == '\U{00A0}' || c == '\U{1680}'
    || '\U{2000}' <= c <= '\U{200A}' || c == '\U{2028}' || c == '\U{2029}' || c == '\U{202F}'
    || c == '\U{205F}' || c == '\U{3000}' || c == '\U{FEFF}'
  }

  predicate AllWhite(s: string) {
    forall i | 0 <= i < |s| :: IsWhite(s[i])
  }

  // Nothing left to trim.
  predicate Trimmed(s: string) {
    s != "" ==> !IsWhite(s[0]) && !IsWhite(s[|s| - 1])
  }

  function TrimStart(s: string): string {
    if s != "" && IsWhite(s[0]) then TrimStart(s[1..]) else s
  }

  function TrimEnd(s: string): string {
    if s != "" && IsWhite(s[|s| - 1]) then TrimEnd(s[..|s| - 1]) else s
  }

  function Trim(s: string): string {
    TrimEnd(TrimStart(s))
  }

  lemma {:induction false} TrimStartSplits(s: string) returns (pre: string)
    ensures AllWhite(pre) && s == pre + TrimStart(s)
    ensures TrimStart(s) != "" ==> !IsWhite(TrimStart(s)[0])
  {
    pre := "";
    if s != "" && IsWhite(s[0]) {
      pre := TrimStartSplits(s[1..]);
      pre := [s[0]] + pre;
    }
  }

  lemma {:induction false} TrimEndSplits(s: string) returns (post: string)
    ensures AllWhite(post) && s == TrimEnd(s) + post
    ensures TrimEnd(s) != "" ==> !IsWhite(TrimEnd(s)[|TrimEnd(s)| - 1])
  {
    post := "";
    if s != "" && IsWhite(s[|s| - 1]) {
      post := TrimEndSplits(s[..|s| - 1]);
      post := post + [s[|s| - 1]];
    }
  }

  lemma {:induction false} TrimStartSkips(pre: string, s: string)
    requires AllWhite(pre) && (s == "" || !IsWhite(s[0]))
    ensures TrimStart(pre + s) == s
  {
    if pre == "" { assert pre + s == s; }
    else { assert (pre + s)[1..] == pre[1..] + s; TrimStartSkips(pre[1..], s); }
  }

  lemma {:induction false} TrimEndSkips(s: string, post: string)
    requires AllWhite(post) && (s == "" || !IsWhite(s[|s| - 1]))
    ensures TrimEnd(s + post) == s
  {
    if post == "" { assert s + post == s; }
    else {
      assert (s + post)[..|s + post| - 1] == s + post[..|post| - 1];
      TrimEndSkips(s, post[..|post| - 1]);
    }
  }

  /** Trim removes exactly the blanks at both ends. */
  lemma TrimSplits(s: string) returns (pre: string, post: string)
    ensures AllWhite(pre) && AllWhite(post) && s == pre + Trim(s) + post && Trimmed(Trim(s))
  {
    pre := TrimStartSplits(s);
    var middle := TrimStart(s);
    post := TrimEndSplits(middle);
    if Trim(s) != "" { assert Trim(s)[0] == middle[0]; }
  }

  lemma TrimUndoes(pre: string, s: string, post: string)
    requires AllWhite(pre) && AllWhite(post) && Trimmed(s)
    ensures Trim(pre + s + post) == s
  {
    if s == "" {
      assert pre + s + post == (pre + post) + "";
      TrimStartSkips(pre + post, "");
    } else {
      assert pre + s + post == pre + (s + post);
      TrimStartSkips(pre, s + post);
      TrimEndSkips(s, post);
    }
  }

  // ---------- Case ----------

  // String.prototype.toLowerCase on the Latin letters of ASCII and the Cyrillic letters U+0400 to U+042F.
  function LowerChar(c: char): char {
    if 'A' <= c <= 'Z' || '\U{0410}' <= c <= '\U{042F}' then (c as int + 32) as char
    else if '\U{0400}' <= c <= '\U{040F}' then (c as int + 80) as char
    else c
  }

  // SQLite's LOWER, and the case folding of its LIKE, know only ASCII.
  function AsciiLowerChar(c: char): char {
    if 'A' <= c <= 'Z' then (c as int + 32) as char else c
  }

  // By code: A to Z, and the Cyrillic capitals, whose first sixteen lie eighty below their small letters.
  lemma LowerCodes(c: char)
    ensures LowerChar(c) as int == c as int +
      (if 65 <= c as int <= 90 || 1040 <= c as int <= 1071 then 32 else if 1024 <= c as int <= 1039 then 80 else 0)
    ensures AsciiLowerChar(c) as int == c as int + if 65 <= c as int <= 90 then 32 else 0
  {
  }

  // By code: tabulators and line ends, and the spaces of Unicode.
  lemma WhiteCodes(c: char)
    ensures IsWhite(c) <==>
      9 <= c as int <= 13 || 8192 <= c as int <= 8202 || c as int in {32, 160, 5760, 8232, 8233, 8239, 8287, 12288, 65279}
  {
  }

  function Lower(s: string): (r: string)
    ensures |r| == |s| && forall i | 0 <= i < |s| :: r[i] == LowerChar(s[i])
  {
    seq(|s|, i requires 0 <= i < |s| => LowerChar(s[i]))
  }

  function AsciiLower(s: string): (r: string)
    ensures |r| == |s| && forall i | 0 <= i < |s| :: r[i] == AsciiLowerChar(s[i])
  {
    seq(|s|, i requires 0 <= i < |s| => AsciiLowerChar(s[i]))
  }

  lemma LowerFacts(s: string)
    ensures Lower(Lower(s)) == Lower(s) && Lower(AsciiLower(s)) == Lower(s)
    ensures AsciiLower(AsciiLower(s)) == AsciiLower(s) && AsciiLower(Lower(s)) == Lower(s)
    ensures Trimmed(s) ==> Trimmed(Lower(s))
  {
  }

  lemma LowerAppend(a: string, b: string)
    ensures Lower(a + b) == Lower(a) + Lower(b)
  {
  }

  // ---------- Substrings ----------

  predicate ContainsAt(t: string, w: string, i: nat) {
    i + |w| <= |t| && t[i..i + |w|] == w
  }

  predicate Contains(t: string, w: string) {
    exists i: nat | i <= |t| :: ContainsAt(t, w, i)
  }

  lemma ContainsInfix(pre: string, t: string, post: string, w: string)
    requires Contains(t, w)
    ensures Contains(pre + t + post, w)
  {
    var i: nat :| i <= |t| && ContainsAt(t, w, i);
    var all := pre + t + post;
    assert all[|pre| + i..|pre| + i + |w|] == t[i..i + |w|];
    assert ContainsAt(all, w, |pre| + i);
  }

  // A blank at either end does not help to contain a trimmed non-empty word.
  lemma ContainsPastBlank(t: string, w: string)
    requires w != "" && Trimmed(w)
    ensures Contains(" " + t, w) ==> Contains(t, w)
    ensures Contains(t + " ", w) ==> Contains(t, w)
  {
    if Contains(" " + t, w) {
      var s := " " + t;
      var i: nat :| i <= |s| && ContainsAt(s, w, i);
      assert w[0] == s[i];
      assert i > 0 && t[i - 1..i - 1 + |w|] == s[i..i + |w|];
      assert ContainsAt(t, w, i - 1);
    }
    if Contains(t + " ", w) {
      var s := t + " ";
      var i: nat :| i <= |s| && ContainsAt(s, w, i);
      assert w[|w| - 1] == s[i + |w| - 1];
      assert i + |w| <= |t| && t[i..i + |w|] == s[i..i + |w|];
      assert ContainsAt(t, w, i);
    }
  }

  lemma ContainsLower(t: string, w: string)
    requires Contains(t, w)
    ensures Contains(Lower(t), Lower(w))
  {
    var i: nat :| i <= |t| && ContainsAt(t, w, i);
    assert Lower(t)[i..i + |w|] == Lower(t[i..i + |w|]);
    assert ContainsAt(Lower(t), Lower(w), i);
  }

  // ---------- Order ----------

  // Comparison by character code, as Array.prototype.sort compares strings.
  predicate StrLess(a: string, b: string) {
    b != "" && (a == "" || a[0] < b[0] || (a[0] == b[0] && StrLess(a[1..], b[1..])))
  }

  lemma {:induction false} StrLessTotal(a: string, b: string)
    ensures a == b || StrLess(a, b) || StrLess(b, a)
    ensures !(StrLess(a, b) && StrLess(b, a)) && !StrLess(a, a)
  {
    if a != "" { StrLessTotal(a[1..], a[1..]); }
    if a != "" && b != "" && a[0] == b[0] {
      StrLessTotal(a[1..], b[1..]);
      assert a == [a[0]] + a[1..] && b == [b[0]] + b[1..];
    }
  }

  lemma {:induction false} StrLessTransitive(a: string, b: string, c: string)
    requires StrLess(a, b) && StrLess(b, c)
    ensures StrLess(a, c)
  {
    if a != "" && a[0] == b[0] && b[0] == c[0] { StrLessTransitive(a[1..], b[1..], c[1..]); }
  }
}
