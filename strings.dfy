/** String helpers with the JavaScript behaviour the modelled code relies on:
    `trim`, `toLowerCase` (ASCII letters), `split('\n')` and `join`. */
module Strings {

  /** The whitespace characters that `String.prototype.trim` removes (ASCII subset):
      space, and tab, line feed, vertical tab, form feed and carriage return (codes 9 to 13). */
  predicate IsWhitespace(c: char) {
    c == ' ' || '\t' <= c <= '\r'
  }

  predicate AllWhitespace(s: string) {
    forall i :: 0 <= i < |s| ==> IsWhitespace(s[i])
  }

  /** Number of whitespace characters at the start of `s`. */
  function LeadingWhitespace(s: string): (n: nat)
    ensures n <= |s|
    ensures n < |s| ==> !IsWhitespace(s[n])
  {
    if |s| > 0 && IsWhitespace(s[0]) then 1 + LeadingWhitespace(s[1..]) else 0
  }

  /** Number of whitespace characters at the end of `s`. */
  function TrailingWhitespace(s: string): (n: nat)
    ensures n <= |s|
    ensures n < |s| ==> !IsWhitespace(s[|s| - 1 - n])
  {
    if |s| > 0 && IsWhitespace(s[|s| - 1]) then 1 + TrailingWhitespace(s[..|s| - 1]) else 0
  }

  function TrimStart(s: string): string {
    s[LeadingWhitespace(s)..]
  }

  function TrimEnd(s: string): string {
    s[..|s| - TrailingWhitespace(s)]
  }

  /** `s.trim()`: `s` without its leading and trailing whitespace. */
  function Trim(s: string): string {
    TrimEnd(TrimStart(s))
  }

  function LowerChar(c: char): (r: char)
    ensures 'A' <= c <= 'Z' ==> r as int == c as int + 32
    ensures !('A' <= c <= 'Z') ==> r == c
  {
    if 'A' <= c <= 'Z' then (c as int + 32) as char else c
  }

  /** `s` begins with `keyword`, compared ignoring ASCII case (`keyword` is lower case). */
  predicate StartsWithIgnoringCase(s: string, keyword: string) {
    |keyword| <= |s| && forall i :: 0 <= i < |keyword| ==> LowerChar(s[i]) == keyword[i]
  }

  /** `lines.join(sep)`. */
  function Join(lines: seq<string>, sep: string): string {
    if |lines| == 0 then ""
    else if |lines| == 1 then lines[0]
    else lines[0] + sep + Join(lines[1..], sep)
  }

  /** `s.split(sep)` for a one-character separator: never empty, `""` gives `[""]`. */
  function Split(s: string, sep: char): (r: seq<string>)
    ensures |r| >= 1
    ensures forall i :: 0 <= i < |r| ==> sep !in r[i]
  {
    if |s| == 0 then [""]
    else
      var rest := Split(s[1..], sep);
      if s[0] == sep then [""] + rest
      else [[s[0]] + rest[0]] + rest[1..]
  }

  lemma {:induction false} JoinSplit(s: string, sep: char)
    ensures Join(Split(s, sep), [sep]) == s
  {
    if |s| > 0 {
      var rest := Split(s[1..], sep);
      JoinSplit(s[1..], sep);
      if s[0] == sep {
        assert Split(s, sep) == [""] + rest;
      } else {
        var r := Split(s, sep);
        assert r == [[s[0]] + rest[0]] + rest[1..];
        if |rest| == 1 {
          assert Join(r, [sep]) == [s[0]] + rest[0];
        } else {
          assert r[1..] == rest[1..];
          assert Join(r, [sep]) == [s[0]] + rest[0] + [sep] + Join(rest[1..], [sep]);
        }
        assert s == [s[0]] + s[1..];
      }
    }
  }

  /** Splitting a joined text gives back its lines when no line holds the separator. */
  lemma {:induction false} SplitJoin(lines: seq<string>, sep: char)
    requires |lines| >= 1
    requires forall i :: 0 <= i < |lines| ==> sep !in lines[i]
    ensures Split(Join(lines, [sep]), sep) == lines
  {
    if |lines| == 1 {
      SplitNoSeparator(lines[0], sep);
    } else {
      var tail := Join(lines[1..], [sep]);
      assert Join(lines, [sep]) == lines[0] + [sep] + tail;
      assert sep !in lines[0];
      SplitJoin(lines[1..], sep);
      SplitAppend(lines[0], tail, sep);
      assert lines == [lines[0]] + lines[1..];
    }
  }

  lemma {:induction false} SplitNoSeparator(s: string, sep: char)
    requires sep !in s
    ensures Split(s, sep) == [s]
  {
    if |s| > 0 {
      assert sep !in s[1..];
      SplitNoSeparator(s[1..], sep);
      assert s == [s[0]] + s[1..];
    }
  }

  lemma {:induction false} SplitAppend(head: string, tail: string, sep: char)
    requires sep !in head
    ensures Split(head + [sep] + tail, sep) == [head] + Split(tail, sep)
  {
    if |head| == 0 {
      assert head + [sep] + tail == [sep] + tail;
      assert ([sep] + tail)[1..] == tail;
    } else {
      assert (head + [sep] + tail)[1..] == head[1..] + [sep] + tail;
      assert sep !in head[1..];
      SplitAppend(head[1..], tail, sep);
      assert head == [head[0]] + head[1..];
    }
  }

  /** A text without surrounding whitespace is its own trim. */
  lemma TrimUnchanged(s: string)
    requires s == [] || (!IsWhitespace(s[0]) && !IsWhitespace(s[|s| - 1]))
    ensures Trim(s) == s
  {
    assert s[0..] == s;
    assert s[..|s|] == s;
  }

  /** Trimming ignores any whitespace added around the text. */
  lemma TrimIgnoresPadding(left: string, s: string, right: string)
    requires AllWhitespace(left) && AllWhitespace(right)
    ensures Trim(left + s + right) == Trim(s)
  {
    assert left + s + right == left + (s + right);
    TrimLeftPadding(left, s + right);
    TrimRightPadding(s, right);
  }

  /** Whitespace added on the left does not change the trim. */
  lemma TrimLeftPadding(left: string, u: string)
    requires AllWhitespace(left)
    ensures Trim(left + u) == Trim(u)
  {
    TrimStartPadding(left, u);
    assert TrimStart(left + u) == TrimStart(u);
  }

  /** Whitespace added on the right does not change the trim. */
  lemma TrimRightPadding(s: string, right: string)
    requires AllWhitespace(right)
    ensures Trim(s + right) == Trim(s)
  {
    TrimStartAppend(s, right);
    assert TrimEnd(TrimStart(s + right)) == TrimEnd(TrimStart(s));
  }

  lemma {:induction false} LeadingPadding(left: string, s: string)
    requires AllWhitespace(left)
    ensures LeadingWhitespace(left + s) == |left| + LeadingWhitespace(s)
  {
    if |left| > 0 {
      assert (left + s)[0] == left[0];
      assert (left + s)[1..] == left[1..] + s;
      LeadingPadding(left[1..], s);
    } else {
      assert left + s == s;
    }
  }

  lemma {:induction false} LeadingAppend(s: string, right: string)
    requires LeadingWhitespace(s) < |s|
    ensures LeadingWhitespace(s + right) == LeadingWhitespace(s)
  {
    assert (s + right)[0] == s[0];
    if IsWhitespace(s[0]) {
      assert (s + right)[1..] == s[1..] + right;
      LeadingAppend(s[1..], right);
    }
  }

  lemma {:induction false} TrailingPadding(s: string, right: string)
    requires AllWhitespace(right)
    ensures TrailingWhitespace(s + right) == |right| + TrailingWhitespace(s)
  {
    if |right| > 0 {
      var r' := right[..|right| - 1];
      assert (s + right)[|s + right| - 1] == right[|right| - 1];
      assert (s + right)[..|s + right| - 1] == s + r';
      TrailingPadding(s, r');
    } else {
      assert s + right == s;
    }
  }

  lemma TrimStartPadding(left: string, s: string)
    requires AllWhitespace(left)
    ensures TrimStart(left + s) == TrimStart(s)
  {
    LeadingPadding(left, s);
    assert (left + s)[|left| + LeadingWhitespace(s)..] == s[LeadingWhitespace(s)..];
  }

  lemma TrimEndPadding(s: string, right: string)
    requires AllWhitespace(right)
    ensures TrimEnd(s + right) == TrimEnd(s)
  {
    TrailingPadding(s, right);
    assert (s + right)[..|s| - TrailingWhitespace(s)] == s[..|s| - TrailingWhitespace(s)];
  }

  /** Trailing text survives `TrimStart` when the leading part is not all whitespace. */
  lemma TrimStartAppend(s: string, right: string)
    requires AllWhitespace(right)
    ensures TrimStart(s + right) == TrimStart(s) + right || (TrimStart(s) == [] && TrimStart(s + right) == [])
    ensures TrimEnd(TrimStart(s + right)) == TrimEnd(TrimStart(s))
  {
    var n := LeadingWhitespace(s);
    if n < |s| {
      LeadingAppend(s, right);
      assert (s + right)[n..] == s[n..] + right;
      TrimEndPadding(TrimStart(s), right);
    } else {
      TrimStartDropsWhitespace(s);
      LeadingPadding(s, right);
      LeadingPadding(right, []);
      assert right + [] == right;
    }
  }

  /** Everything `TrimStart` removes is whitespace. */
  lemma {:induction false} TrimStartDropsWhitespace(s: string)
    ensures forall i :: 0 <= i < LeadingWhitespace(s) ==> IsWhitespace(s[i])
  {
    if |s| > 0 && IsWhitespace(s[0]) {
      TrimStartDropsWhitespace(s[1..]);
      forall i | 1 <= i < LeadingWhitespace(s) ensures IsWhitespace(s[i]) {
        assert s[i] == s[1..][i - 1];
      }
    }
  }

  /** Everything `TrimEnd` removes is whitespace. */
  lemma {:induction false} TrimEndDropsWhitespace(s: string)
    ensures forall i :: |s| - TrailingWhitespace(s) <= i < |s| ==> IsWhitespace(s[i])
  {
    if |s| > 0 && IsWhitespace(s[|s| - 1]) {
      TrimEndDropsWhitespace(s[..|s| - 1]);
    }
  }

  /** `TrimEnd` keeps every character up to the last non-whitespace one. */
  lemma {:induction false} TrimEndKeeps(s: string, i: nat)
    requires i < |s| && !IsWhitespace(s[i])
    ensures |TrimEnd(s)| > i
  {
    if IsWhitespace(s[|s| - 1]) {
      TrimEndKeeps(s[..|s| - 1], i);
    }
  }
}
