/**
 * The few java.lang.String operations the core relies on:
 * `isBlank`, `lastIndexOf(char)` and `replaceAll("\\[.*?]", "")`.
 * Strings are sequences of Unicode scalar values.
 */
module JavaStrings {
  import opened Wrappers

  /** `Character.isWhitespace`: the ASCII controls it lists and the Unicode
      space, line and paragraph separators except the non-breaking ones. */
  predicate IsWhitespace(c: char) {
    || c == ' ' || c == '\t' || c == '\n' || c == '\U{B}' || c == '\U{C}' || c == '\r'
    || ('\U{1C}' <= c <= '\U{1F}')
    || c == '\U{1680}'
    || ('\U{2000}' <= c <= '\U{2006}')
    || ('\U{2008}' <= c <= '\U{200A}')
    || c == '\U{2028}' || c == '\U{2029}' || c == '\U{205F}' || c == '\U{3000}'
  }

  /** `String.isBlank`: empty, or whitespace only. */
  predicate IsBlank(s: string) {
    forall i | 0 <= i < |s| :: IsWhitespace(s[i])
  }

  /** `String.lastIndexOf(c)`: the index of the last occurrence of `c`, or -1. */
  function LastIndexOf(s: string, c: char): (i: int)
    ensures -1 <= i < |s|
    ensures i >= 0 ==> s[i] == c && c !in s[i + 1..]
    ensures i == -1 <==> c !in s
  {
    if |s| == 0 then -1
    else if s[|s| - 1] == c then |s| - 1
    else
      assert s == s[..|s| - 1] + [s[|s| - 1]];
      LastIndexOf(s[..|s| - 1], c)
  }

  /** The characters that `.` does not match in a java.util.regex pattern
      compiled without DOTALL or UNIX_LINES. */
  predicate IsLineTerminator(c: char) {
    c == '\n' || c == '\r' || c == '\U{85}' || c == '\U{2028}' || c == '\U{2029}'
  }

  /** Where the lazy `.*?]` part of `\[.*?]` ends when matched from the start
      of `t`: the first `]` of `t`, provided no line terminator comes before it. */
  function FindClose(t: string): (k: Option<nat>)
    ensures k.Some? ==> k.value < |t| && t[k.value] == ']'
    ensures k.Some? ==> forall j | 0 <= j < k.value :: t[j] != ']' && !IsLineTerminator(t[j])
    ensures k.None? ==> forall j | 0 <= j < |t| && t[j] == ']' ::
                          exists l :: 0 <= l < j && IsLineTerminator(t[l])
  {
    if t == [] then None
    else if t[0] == ']' then Some(0)
    else if IsLineTerminator(t[0]) then None
    else
      match FindClose(t[1..])
      case Some(k) => Some(k + 1)
      case None =>
        assert forall j | 1 <= j < |t| && t[j] == ']' :: exists l :: 0 <= l < j && IsLineTerminator(t[l]) by {
          forall j | 1 <= j < |t| && t[j] == ']'
            ensures exists l :: 0 <= l < j && IsLineTerminator(t[l])
          {
            assert t[1..][j - 1] == ']';
            var l :| 0 <= l < j - 1 && IsLineTerminator(t[1..][l]);
            assert IsLineTerminator(t[l + 1]);
          }
        }
        None
  }

  /** `s.replaceAll("\\[.*?]", "")`: scanning left to right, every `[` that
      has a matching lazy close loses itself, everything up to and including
      that `]`; a `[` without one is kept and the scan moves on by one. */
  function StripBracketGroups(s: string): string
    decreases |s|
  {
    if s == [] then []
    else if s[0] == '[' && FindClose(s[1..]).Some? then StripBracketGroups(s[FindClose(s[1..]).value + 2..])
    else [s[0]] + StripBracketGroups(s[1..])
  }

  /** No part of `s` matches `\[.*?]`. */
  predicate GroupFree(s: string) {
    forall i | 0 <= i < |s| && s[i] == '[' :: FindClose(s[i + 1..]).None?
  }

  /** Stripping never introduces a `]` ahead of the first line terminator. */
  lemma {:induction false} StripKeepsUnclosed(t: string)
    requires FindClose(t).None?
    ensures FindClose(StripBracketGroups(t)).None?
    decreases |t|
  {
    if t != [] {
      assert t[0] != ']';
      if !IsLineTerminator(t[0]) {
        assert FindClose(t[1..]).None?;
        StripKeepsUnclosed(t[1..]);
        var r := StripBracketGroups(t[1..]);
        assert StripBracketGroups(t) == [t[0]] + r;
        assert ([t[0]] + r)[1..] == r;
      } else {
        assert StripBracketGroups(t) == [t[0]] + StripBracketGroups(t[1..]);
      }
    }
  }

  /** Prepending a character that is not `[` keeps a string group-free. */
  lemma ConsGroupFree(c: char, r: string)
    requires c != '[' && GroupFree(r)
    ensures GroupFree([c] + r)
  {
    var s := [c] + r;
    forall i | 0 <= i < |s| && s[i] == '['
      ensures FindClose(s[i + 1..]).None?
    {
      assert i >= 1 && s[i + 1..] == r[i..] && r[i - 1] == '[';
    }
  }

  /** The result of `replaceAll("\\[.*?]", "")` has nothing left to replace. */
  lemma {:induction false} StripIsGroupFree(s: string)
    ensures GroupFree(StripBracketGroups(s))
    decreases |s|
  {
    if s == [] {
    } else if s[0] == '[' && FindClose(s[1..]).Some? {
      StripIsGroupFree(s[FindClose(s[1..]).value + 2..]);
    } else {
      var r := StripBracketGroups(s[1..]);
      StripIsGroupFree(s[1..]);
      if s[0] == '[' {
        StripKeepsUnclosed(s[1..]);
        var t := [s[0]] + r;
        forall i | 0 <= i < |t| && t[i] == '['
          ensures FindClose(t[i + 1..]).None?
        {
          if i == 0 {
            assert t[1..] == r;
          } else {
            assert t[i + 1..] == r[i..] && r[i - 1] == '[';
          }
        }
      } else {
        ConsGroupFree(s[0], r);
      }
    }
  }

  /** A string with nothing to replace comes back unchanged. */
  lemma {:induction false} StripOfGroupFree(s: string)
    requires GroupFree(s)
    ensures StripBracketGroups(s) == s
    decreases |s|
  {
    if s != [] {
      assert s[0] == '[' ==> FindClose(s[1..]).None?;
      assert GroupFree(s[1..]) by {
        forall i | 0 <= i < |s[1..]| && s[1..][i] == '['
          ensures FindClose(s[1..][i + 1..]).None?
        {
          assert s[1..][i + 1..] == s[i + 2..] && s[i + 1] == '[';
        }
      }
      StripOfGroupFree(s[1..]);
      assert s == [s[0]] + s[1..];
    }
  }

  /** Stripping is idempotent. */
  lemma StripIdempotent(s: string)
    ensures StripBracketGroups(StripBracketGroups(s)) == StripBracketGroups(s)
  {
    StripIsGroupFree(s);
    StripOfGroupFree(StripBracketGroups(s));
  }

  /** Stripping only deletes characters. */
  lemma {:induction false} StripDeletesOnly(s: string)
    ensures multiset(StripBracketGroups(s)) <= multiset(s)
    decreases |s|
  {
    if s == [] {
    } else if s[0] == '[' && FindClose(s[1..]).Some? {
      var k := FindClose(s[1..]).value;
      StripDeletesOnly(s[k + 2..]);
      assert s == s[..k + 2] + s[k + 2..];
    } else {
      StripDeletesOnly(s[1..]);
      assert s == [s[0]] + s[1..];
    }
  }

  /** A string without `[` has nothing to strip. */
  lemma NoOpenIsGroupFree(s: string)
    requires '[' !in s
    ensures GroupFree(s) && StripBracketGroups(s) == s
  {
    StripOfGroupFree(s);
  }

  /** The last occurrence of `c` is at `i` when `c` does not follow it. */
  lemma LastIndexOfAt(s: string, c: char, i: nat)
    requires i < |s| && s[i] == c && c !in s[i + 1..]
    ensures LastIndexOf(s, c) == i
  {
    assert c in s;
  }

  /** A prefix without `[` passes through stripping unchanged. */
  lemma {:induction false} StripPlainPrefix(p: string, t: string)
    requires '[' !in p
    ensures StripBracketGroups(p + t) == p + StripBracketGroups(t)
    decreases |p|
  {
    if p != [] {
      assert p[0] != '[';
      assert (p + t)[0] == p[0] && (p + t)[1..] == p[1..] + t;
      StripPlainPrefix(p[1..], t);
      calc {
        StripBracketGroups(p + t);
        [p[0]] + StripBracketGroups(p[1..] + t);
        [p[0]] + (p[1..] + StripBracketGroups(t));
        { assert p == [p[0]] + p[1..]; }
        p + StripBracketGroups(t);
      }
    } else {
      assert p + t == t;
    }
  }

  /** A bracket group closed before any line terminator is deleted whole. */
  lemma StripLeadingGroup(g: string, t: string)
    requires |g| >= 2 && g[0] == '[' && g[|g| - 1] == ']'
    requires forall j | 1 <= j < |g| - 1 :: g[j] != ']' && !IsLineTerminator(g[j])
    ensures StripBracketGroups(g + t) == StripBracketGroups(t)
  {
    var s := g + t;
    var k := FindClose(s[1..]);
    assert s[1..][|g| - 2] == ']';
    assert forall j | 0 <= j < |g| - 2 :: s[1..][j] == g[j + 1];
    assert k.Some? && k.value == |g| - 2;
    assert s[|g|..] == t;
  }
}
