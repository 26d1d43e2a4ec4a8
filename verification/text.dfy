/** String operations the Python backend and the JavaScript frontend rely on:
    substring search (`in`, `includes`, `split(sep)`), joining, ASCII lower-casing,
    Python's whitespace tokenising `split()` and JavaScript's `trim()`. */
module Text {
  import opened Outcomes

  // ---------------------------------------------------------------------------
  // Substrings

  /** `sub` occurs in `s` starting at index `i`. */
  predicate OccursAt(s: string, sub: string, i: int)
  {
    0 <= i && i + |sub| <= |s| && s[i..i + |sub|] == sub
  }

  /** Python's `sub in s`, JavaScript's `s.includes(sub)`. */
  predicate Contains(s: string, sub: string)
  {
    exists i :: 0 <= i <= |s| - |sub| && OccursAt(s, sub, i)
  }

  /** The first occurrence of `sub` in `s` at or after `from`. */
  function FindFrom(s: string, sub: string, from: nat): (r: Option<nat>)
    decreases |s| - from
    ensures r.Some? ==> from <= r.value && OccursAt(s, sub, r.value)
    ensures r.Some? ==> forall j :: from <= j < r.value ==> !OccursAt(s, sub, j)
    ensures r.None? ==> forall j :: from <= j ==> !OccursAt(s, sub, j)
  {
    if from + |sub| > |s| then None
    else if OccursAt(s, sub, from) then Some(from)
    else FindFrom(s, sub, from + 1)
  }

  /** Character-wise reading of an occurrence. */
  lemma OccursAtChars(s: string, sub: string, i: int)
    ensures OccursAt(s, sub, i) ==> forall k :: 0 <= k < |sub| ==> sub[k] == s[i + k]
  {
    if OccursAt(s, sub, i) {
      forall k | 0 <= k < |sub|
        ensures sub[k] == s[i + k]
      {
        assert sub[k] == s[i..i + |sub|][k];
      }
    }
  }

  /** A search from the start succeeds exactly when the substring is there, and
      it finds the leftmost occurrence. */
  lemma FindIffContains(s: string, sub: string)
    ensures FindFrom(s, sub, 0).Some? <==> Contains(s, sub)
    ensures forall i :: OccursAt(s, sub, i) ==> FindFrom(s, sub, 0).Some? && FindFrom(s, sub, 0).value <= i
  {
    var r := FindFrom(s, sub, 0);
    if r.Some? {
      assert OccursAt(s, sub, r.value);
    }
  }

  /** For a one-character needle, containment is membership. */
  lemma ContainsChar(s: string, c: char)
    ensures Contains(s, [c]) <==> c in s
  {
    if c in s {
      var i :| 0 <= i < |s| && s[i] == c;
      assert s[i..i + 1] == [c];
      assert OccursAt(s, [c], i);
    }
    if Contains(s, [c]) {
      var i :| 0 <= i <= |s| - 1 && OccursAt(s, [c], i);
      assert s[i] == s[i..i + 1][0];
    }
  }

  /** An occurrence inside either half is an occurrence in the concatenation. */
  lemma ContainsConcat(a: string, b: string, sub: string)
    ensures Contains(a, sub) ==> Contains(a + b, sub)
    ensures Contains(b, sub) ==> Contains(a + b, sub)
  {
    if Contains(a, sub) {
      var i :| 0 <= i <= |a| - |sub| && OccursAt(a, sub, i);
      assert (a + b)[i..i + |sub|] == a[i..i + |sub|];
      assert OccursAt(a + b, sub, i);
    }
    if Contains(b, sub) {
      var i :| 0 <= i <= |b| - |sub| && OccursAt(b, sub, i);
      assert (a + b)[|a| + i..|a| + i + |sub|] == b[i..i + |sub|];
      assert OccursAt(a + b, sub, |a| + i);
    }
  }

  // ---------------------------------------------------------------------------
  // Splitting on a separator and joining

  /** JavaScript's `s.split(sep)` (and Python's `s.split(sep)`) for a non-empty
      separator: the pieces between successive leftmost occurrences. */
  function Split(s: string, sep: string): (parts: seq<string>)
    requires |sep| > 0
    decreases |s|
    ensures |parts| >= 1
    ensures forall k :: 0 <= k < |parts| ==> !Contains(parts[k], sep)
  {
    match FindFrom(s, sep, 0)
    case None =>
      FindIffContains(s, sep);
      [s]
    case Some(i) =>
      var head := s[..i];
      assert !Contains(head, sep) by {
        if Contains(head, sep) {
          var j :| 0 <= j <= |head| - |sep| && OccursAt(head, sep, j);
          assert s[j..j + |sep|] == head[j..j + |sep|];
          assert OccursAt(s, sep, j);
        }
      }
      [head] + Split(s[i + |sep|..], sep)
  }

  /** `sep.join(parts)` in Python, `parts.join(sep)` in JavaScript. */
  function Join(parts: seq<string>, sep: string): string
  {
    if |parts| == 0 then ""
    else if |parts| == 1 then parts[0]
    else parts[0] + sep + Join(parts[1..], sep)
  }

  /** Joining the pieces of a split with the same separator restores the text. */
  lemma {:induction false} JoinSplit(s: string, sep: string)
    requires |sep| > 0
    decreases |s|
    ensures Join(Split(s, sep), sep) == s
  {
    match FindFrom(s, sep, 0)
    case None =>
    case Some(i) =>
      var rest := s[i + |sep|..];
      var tailParts := Split(rest, sep);
      assert Split(s, sep) == [s[..i]] + tailParts;
      JoinSplit(rest, sep);
      assert |tailParts| >= 1;
      assert Join([s[..i]] + tailParts, sep) == s[..i] + sep + Join(tailParts, sep);
      assert s[i..i + |sep|] == sep;
      assert s == s[..i] + sep + rest;
  }

  /** When no piece contains a one-character separator, splitting the join
      gives the pieces back. */
  lemma {:induction false} SplitJoin(parts: seq<string>, sep: string)
    requires |parts| >= 1 && |sep| == 1
    requires forall k :: 0 <= k < |parts| ==> sep[0] !in parts[k]
    ensures Split(Join(parts, sep), sep) == parts
  {
    if |parts| == 1 {
      ContainsChar(parts[0], sep[0]);
      assert [sep[0]] == sep;
      FindIffContains(parts[0], sep);
    } else {
      var head, tail := parts[0], Join(parts[1..], sep);
      var s := head + sep + tail;
      assert OccursAt(s, sep, |head|) by {
        assert s[|head|..|head| + 1] == sep;
      }
      FindIffContains(s, sep);
      var r := FindFrom(s, sep, 0);
      assert s[..|head|] == head;
      assert s[|head| + 1..] == tail;
      SplitJoin(parts[1..], sep);
      assert Split(s, sep) == [head] + parts[1..];
    }
  }

  /** An occurrence inside one piece is an occurrence in the join. */
  lemma {:induction false} ContainsJoinPart(parts: seq<string>, sep: string, sub: string, k: nat)
    requires k < |parts| && Contains(parts[k], sub)
    ensures Contains(Join(parts, sep), sub)
  {
    if |parts| > 1 {
      if k == 0 {
        ContainsConcat(parts[0], sep + Join(parts[1..], sep), sub);
        assert parts[0] + sep + Join(parts[1..], sep) == parts[0] + (sep + Join(parts[1..], sep));
      } else {
        ContainsJoinPart(parts[1..], sep, sub, k - 1);
        ContainsConcat(parts[0] + sep, Join(parts[1..], sep), sub);
      }
    }
  }

  /** A needle free of a one-character separator that occurs in a join occurs
      in one of the pieces. */
  lemma {:induction false} JoinOccurrenceInPart(parts: seq<string>, sep: string, sub: string)
    requires |parts| >= 1 && |sep| == 1 && sep[0] !in sub
    requires Contains(Join(parts, sep), sub)
    ensures exists k :: 0 <= k < |parts| && Contains(parts[k], sub)
  {
    if |parts| == 1 {
      assert Contains(parts[0], sub);
    } else if |parts| > 1 {
      var head, tail := parts[0], Join(parts[1..], sep);
      var s := head + sep + tail;
      var i :| 0 <= i <= |s| - |sub| && OccursAt(s, sub, i);
      OccursAtChars(s, sub, i);
      assert forall j :: i <= j < i + |sub| ==> s[j] == sub[j - i] && s[j] != sep[0];
      assert s[|head|] == sep[0];
      assert i + |sub| <= |head| || i >= |head| + 1;
      if i + |sub| <= |head| {
        assert head[i..i + |sub|] == s[i..i + |sub|];
        assert OccursAt(head, sub, i);
        assert Contains(parts[0], sub);
      } else if i >= |head| + 1 {
        assert tail[i - |head| - 1..i - |head| - 1 + |sub|] == s[i..i + |sub|];
        assert OccursAt(tail, sub, i - |head| - 1);
        JoinOccurrenceInPart(parts[1..], sep, sub);
        var k :| 0 <= k < |parts| - 1 && Contains(parts[1..][k], sub);
        assert Contains(parts[k + 1], sub);
      }
    }
  }

  // ---------------------------------------------------------------------------
  // Case

  /** Python's `str.lower()` restricted to ASCII letters. */
  function LowerChar(c: char): char
  {
    if 'A' <= c <= 'Z' then (c as int + 32) as char else c
  }

  function Lower(s: string): (r: string)
    ensures |r| == |s|
    ensures forall i :: 0 <= i < |s| ==> r[i] == LowerChar(s[i])
  {
    seq(|s|, i requires 0 <= i < |s| => LowerChar(s[i]))
  }

  // ---------------------------------------------------------------------------
  // Python's argument-less `split()`

  /** Characters `str.isspace()` accepts, which `str.split()` separates on. */
  predicate IsPySpace(c: char)
  {
    || '\t' <= c <= '\r'
    || '\U{1C}' <= c <= ' '
    || c == '\U{85}' || c == '\U{A0}' || c == '\U{1680}'
    || '\U{2000}' <= c <= '\U{200A}'
    || c == '\U{2028}' || c == '\U{2029}' || c == '\U{202F}' || c == '\U{205F}' || c == '\U{3000}'
  }

  /** Start of the longest run of non-whitespace characters that ends `s`. */
  function RunStart(s: string): (j: nat)
    ensures j <= |s|
    ensures forall k :: j <= k < |s| ==> !IsPySpace(s[k])
    ensures j == 0 || IsPySpace(s[j - 1])
  {
    if |s| == 0 || IsPySpace(s[|s| - 1]) then |s| else RunStart(s[..|s| - 1])
  }

  /** A token of `split()`: non-empty, with no whitespace in it. */
  predicate IsWord(w: string)
  {
    |w| > 0 && forall k :: 0 <= k < |w| ==> !IsPySpace(w[k])
  }

  /** Python's `s.split()`: the maximal runs of non-whitespace, in order. */
  function Words(s: string): (ws: seq<string>)
    decreases |s|
    ensures forall k :: 0 <= k < |ws| ==> IsWord(ws[k])
    ensures |ws| > 0 <==> exists k :: 0 <= k < |s| && !IsPySpace(s[k])
  {
    if |s| == 0 then []
    else if IsPySpace(s[|s| - 1]) then
      var ws := Words(s[..|s| - 1]);
      assert forall k :: 0 <= k < |s| - 1 ==> s[..|s| - 1][k] == s[k];
      ws
    else
      var j := RunStart(s);
      var ws := Words(s[..j]) + [s[j..]];
      assert !IsPySpace(s[|s| - 1]);
      ws
  }

  /** `s.split()[-1]`, or `None` where Python raises `IndexError`. */
  function LastWord(s: string): (r: Option<string>)
    ensures r.Some? ==> IsWord(r.value)
    ensures r.None? <==> forall k :: 0 <= k < |s| ==> IsPySpace(s[k])
  {
    var ws := Words(s);
    if |ws| == 0 then None else Some(ws[|ws| - 1])
  }

  /** The run ending a text that follows a whitespace character starts after it. */
  lemma {:induction false} RunStartAfterSpace(x: string, y: string)
    requires |x| > 0 && IsPySpace(x[|x| - 1])
    decreases |y|
    ensures RunStart(x + y) == |x| + RunStart(y)
  {
    var s := x + y;
    if |y| == 0 {
      assert s == x;
    } else if !IsPySpace(y[|y| - 1]) {
      var shorter := y[..|y| - 1];
      RunStartAfterSpace(x, shorter);
      assert s[..|s| - 1] == x + shorter;
      assert s[|s| - 1] == y[|y| - 1];
    } else {
      assert s[|s| - 1] == y[|y| - 1];
    }
  }

  /** A single token splits into itself. */
  lemma WordsOfWord(w: string)
    requires IsWord(w)
    ensures Words(w) == [w]
  {
    var j := RunStart(w);
    assert !IsPySpace(w[|w| - 1]);
    assert j == 0;
    assert w[..j] == [];
    assert w[j..] == w;
  }

  /** Trailing whitespace adds no token. */
  lemma {:induction false} WordsTrailingSpace(x: string, t: string)
    requires forall k :: 0 <= k < |t| ==> IsPySpace(t[k])
    decreases |t|
    ensures Words(x + t) == Words(x)
  {
    if |t| > 0 {
      var s := x + t;
      var shorter := t[..|t| - 1];
      assert s[|s| - 1] == t[|t| - 1];
      assert s[..|s| - 1] == x + shorter;
      WordsTrailingSpace(x, shorter);
    } else {
      assert x + t == x;
    }
  }

  /** One step of `Words` on a text ending in a token. */
  lemma WordsDropRun(s: string)
    requires |s| > 0 && !IsPySpace(s[|s| - 1])
    ensures RunStart(s) < |s|
    ensures Words(s) == Words(s[..RunStart(s)]) + [s[RunStart(s)..]]
  {
  }

  /** Whatever whitespace trails, the last token of `prefix + w + trailer` is
      `w` when `w` starts the text or follows a whitespace character. */
  lemma LastWordOf(prefix: string, w: string, trailer: string)
    requires |prefix| == 0 || IsPySpace(prefix[|prefix| - 1])
    requires IsWord(w)
    requires forall k :: 0 <= k < |trailer| ==> IsPySpace(trailer[k])
    ensures LastWord(prefix + w + trailer) == Some(w)
  {
    var s := prefix + w;
    WordsTrailingSpace(s, trailer);
    assert RunStart(w) == 0 by {
      assert !IsPySpace(w[|w| - 1]);
    }
    if |prefix| > 0 {
      RunStartAfterSpace(prefix, w);
    } else {
      assert s == w;
    }
    assert s[|s| - 1] == w[|w| - 1];
    WordsDropRun(s);
    assert s[|prefix|..] == w;
  }

  // ---------------------------------------------------------------------------
  // JavaScript's `trim()`

  /** JavaScript WhiteSpace and LineTerminator characters, which `trim()` removes. */
  predicate IsJsSpace(c: char)
  {
    || '\t' <= c <= '\r'
    || c == ' ' || c == '\U{A0}' || c == '\U{1680}'
    || '\U{2000}' <= c <= '\U{200A}'
    || c == '\U{2028}' || c == '\U{2029}' || c == '\U{202F}' || c == '\U{205F}' || c == '\U{3000}'
    || c == '\U{FEFF}'
  }

  function TrimStart(s: string): (r: string)
    ensures |r| <= |s| && r == s[|s| - |r|..]
    ensures forall k :: 0 <= k < |s| - |r| ==> IsJsSpace(s[k])
    ensures |r| == 0 || !IsJsSpace(r[0])
  {
    if |s| > 0 && IsJsSpace(s[0]) then TrimStart(s[1..]) else s
  }

  function TrimEnd(s: string): (r: string)
    ensures |r| <= |s| && r == s[..|r|]
    ensures forall k :: |r| <= k < |s| ==> IsJsSpace(s[k])
    ensures |r| == 0 || !IsJsSpace(r[|r| - 1])
  {
    if |s| > 0 && IsJsSpace(s[|s| - 1]) then TrimEnd(s[..|s| - 1]) else s
  }

  /** `s.trim()`. */
  function Trim(s: string): string
  {
    TrimEnd(TrimStart(s))
  }

  /** `s.trim()` is empty exactly when every character of `s` is whitespace. */
  lemma TrimEmptyIffBlank(s: string)
    ensures Trim(s) == "" <==> forall k :: 0 <= k < |s| ==> IsJsSpace(s[k])
  {
  }
}
