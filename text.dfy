/** The handful of Python `str` operations the agent relies on: `isspace`/`strip`,
    `in`, `split`, `join`, `startswith` and `replace`, stated over `seq<char>`. */
module Text {

  datatype Option<T> = None | Some(value: T)

  /** Python's `str.isspace` on one character: the characters `str.strip()` removes. */
  predicate IsSpace(c: char)
  {
    ('\t' <= c <= '\r') || ('\U{1c}' <= c <= ' ') || c == '\U{85}' || c == '\U{a0}'
    || c == '\U{1680}' || ('\U{2000}' <= c <= '\U{200a}') || c == '\U{2028}' || c == '\U{2029}'
    || c == '\U{202f}' || c == '\U{205f}' || c == '\U{3000}'
  }

  predicate AllSpace(s: string)
  {
    forall i :: 0 <= i < |s| ==> IsSpace(s[i])
  }

  /** No whitespace at either end: what `strip()` leaves. */
  predicate Trimmed(s: string)
  {
    s == [] || (!IsSpace(s[0]) && !IsSpace(s[|s| - 1]))
  }

  /** Index of the first character that is not whitespace, or `|s|`: where `strip()`
      starts. */
  function StripStart(s: string): (n: nat)
    ensures n <= |s|
    ensures forall i :: 0 <= i < n ==> IsSpace(s[i])
    ensures n < |s| ==> !IsSpace(s[n])
    decreases |s|
  {
    if s == [] || !IsSpace(s[0]) then 0
    else
      var m := StripStart(s[1..]);
      assert forall i :: 1 <= i <= m ==> s[i] == s[1..][i - 1];
      1 + m
  }

  /** One past the last character that is not whitespace, or 0: where `strip()` ends. */
  function StripEnd(s: string): (n: nat)
    ensures n <= |s|
    ensures forall i :: n <= i < |s| ==> IsSpace(s[i])
    ensures 0 < n ==> !IsSpace(s[n - 1])
    decreases |s|
  {
    if s == [] || !IsSpace(s[|s| - 1]) then |s|
    else StripEnd(s[..|s| - 1])
  }

  /** `s.strip()`: the text between the leading and the trailing whitespace. */
  function Strip(s: string): string
  {
    var i, j := StripStart(s), StripEnd(s);
    if i < j then s[i..j] else []
  }

  /** The start of `strip()` is the one index with only whitespace before it and no
      whitespace at it. */
  lemma StripStartAt(s: string, k: nat)
    requires k <= |s| && (forall i :: 0 <= i < k ==> IsSpace(s[i])) && (k < |s| ==> !IsSpace(s[k]))
    ensures StripStart(s) == k
  {
  }

  lemma StripEndAt(s: string, k: nat)
    requires k <= |s| && (forall i :: k <= i < |s| ==> IsSpace(s[i])) && (0 < k ==> !IsSpace(s[k - 1]))
    ensures StripEnd(s) == k
  {
  }

  /** `strip()` returns a contiguous piece of its argument, with whitespace only around it
      and none at its own ends. */
  lemma StripIsInnerPiece(s: string)
    ensures var r := Strip(s);
      var i := StripStart(s);
      i + |r| <= |s| && r == s[i..i + |r|] && AllSpace(s[..i]) && AllSpace(s[i + |r|..]) && Trimmed(r)
  {
    var i, j := StripStart(s), StripEnd(s);
    StripBoundsOrdered(s);
    if i < j {
      assert Strip(s) == s[i..j];
      PieceBetween(s, i, j);
    } else {
      assert Strip(s) == s[i..i];
      PieceBetween(s, i, i);
    }
  }

  /** A piece with whitespace only before and after it, and none at its own ends. */
  lemma PieceBetween(s: string, i: nat, k: nat)
    requires i <= k <= |s|
    requires forall n :: 0 <= n < i ==> IsSpace(s[n])
    requires forall n :: k <= n < |s| ==> IsSpace(s[n])
    requires i < k ==> !IsSpace(s[i]) && !IsSpace(s[k - 1])
    ensures AllSpace(s[..i]) && AllSpace(s[k..]) && Trimmed(s[i..k])
  {
    SpacePrefix(s, i);
    SpaceSuffix(s, k);
    if i < k {
      InnerTrimmed(s, i, k);
    }
  }

  /** Either some character is not whitespace, and `strip()` starts before it ends, or
      the whole text is whitespace. */
  lemma StripBoundsOrdered(s: string)
    ensures StripStart(s) < StripEnd(s) || StripStart(s) == |s|
  {
  }

  lemma SpacePrefix(s: string, i: nat)
    requires i <= |s| && forall k :: 0 <= k < i ==> IsSpace(s[k])
    ensures AllSpace(s[..i])
  {
    assert forall k :: 0 <= k < i ==> s[..i][k] == s[k];
  }

  lemma SpaceSuffix(s: string, j: nat)
    requires j <= |s| && forall k :: j <= k < |s| ==> IsSpace(s[k])
    ensures AllSpace(s[j..])
  {
    assert forall k :: 0 <= k < |s| - j ==> s[j..][k] == s[j + k];
  }

  lemma InnerTrimmed(s: string, i: nat, j: nat)
    requires i < j <= |s| && !IsSpace(s[i]) && !IsSpace(s[j - 1])
    ensures Trimmed(s[i..j])
  {
    assert s[i..j][0] == s[i] && s[i..j][j - i - 1] == s[j - 1];
  }

  /** Conversely, `strip()` removes exactly the whitespace around a trimmed text. */
  lemma StripOf(a: string, m: string, b: string)
    requires AllSpace(a) && AllSpace(b) && Trimmed(m)
    ensures Strip(a + m + b) == m
  {
    var s := a + m + b;
    var k := |a| + |m|;
    assert forall i :: 0 <= i < |a| ==> s[i] == a[i];
    assert forall i :: |a| <= i < k ==> s[i] == m[i - |a|];
    assert forall i :: k <= i < |s| ==> s[i] == b[i - k];
    if m == [] {
      StripStartAt(s, |s|);
    } else {
      StripStartAt(s, |a|);
      StripEndAt(s, k);
      assert s[|a|..k] == m;
    }
  }

  /** A trimmed text strips to itself. */
  lemma TrimmedStrips(s: string)
    requires Trimmed(s)
    ensures Strip(s) == s
  {
    var none: string := [];
    assert none + s + none == s;
    StripOf(none, s, none);
  }

  /** One leading space in front of a trimmed text is stripped away. */
  lemma SpacedStrips(s: string)
    requires Trimmed(s)
    ensures Strip(" " + s) == s
  {
    var none: string := [];
    assert " " + s == " " + s + none;
    StripOf(" ", s, none);
  }

  /** Stripping text that starts, after whitespace, with a non-empty trimmed piece keeps
      that piece at its start. */
  lemma StripKeepsPrefix(lead: string, piece: string, tail: string)
    requires AllSpace(lead) && piece != [] && Trimmed(piece)
    ensures StartsWith(Strip(lead + piece + tail), piece)
  {
    var s := lead + piece + tail;
    var k := |lead| + |piece|;
    assert forall i :: 0 <= i < |lead| ==> s[i] == lead[i];
    assert s[|lead|] == piece[0];
    StripStartAt(s, |lead|);
    assert s[k - 1] == piece[|piece| - 1];
    var j := StripEnd(s);
    assert k <= j;
    assert s[|lead|..j][..|piece|] == s[|lead|..k] == piece;
  }

  // ---------------------------------------------------------------------------
  // Searching

  /** `pat` occurs in `s` starting at index `i`. */
  predicate OccursAt(s: string, pat: string, i: nat)
  {
    i + |pat| <= |s| && s[i..i + |pat|] == pat
  }

  /** The first index at or after `from` where `pat` occurs, as `s.find(pat, from)`. */
  function FindFrom(s: string, pat: string, from: nat): (r: Option<nat>)
    requires from <= |s|
    ensures r.Some? ==> from <= r.value && OccursAt(s, pat, r.value)
    ensures forall k :: from <= k && (r.None? || k < r.value) ==> !OccursAt(s, pat, k)
    decreases |s| - from
  {
    if OccursAt(s, pat, from) then Some(from)
    else if from == |s| then None
    else FindFrom(s, pat, from + 1)
  }

  /** `s.find(pat)`, with `None` for -1. */
  function Find(s: string, pat: string): (r: Option<nat>)
  {
    FindFrom(s, pat, 0)
  }

  /** Python's `pat in s`. */
  predicate Contains(s: string, pat: string)
  {
    Find(s, pat).Some?
  }

  lemma OccursContains(s: string, pat: string, i: nat)
    requires OccursAt(s, pat, i)
    ensures Contains(s, pat)
  {
  }

  /** A character that cannot start `pat`, put in front of a text without `pat`, does not
      make an occurrence. */
  lemma NotContainsAfter(c: char, s: string, pat: string)
    requires pat != [] && c != pat[0] && !Contains(s, pat)
    ensures !Contains([c] + s, pat)
  {
    var t := [c] + s;
    assert FindFrom(s, pat, 0).None?;
    forall k | 0 <= k <= |t| ensures !OccursAt(t, pat, k) {
      if k == 0 && |pat| <= |t| {
        assert t[0..|pat|][0] == c;
      } else if 0 < k && k + |pat| <= |t| {
        assert !OccursAt(s, pat, k - 1);
        assert t[k..k + |pat|] == s[k - 1..k - 1 + |pat|];
      }
    }
  }

  /** `s.startswith(pat)`. */
  predicate StartsWith(s: string, pat: string)
  {
    |pat| <= |s| && s[..|pat|] == pat
  }

  // ---------------------------------------------------------------------------
  // Splitting and joining

  /** `s.split(sep)` for a non-empty separator: the pieces between the occurrences of
      `sep` found left to right. */
  function Split(s: string, sep: string): (parts: seq<string>)
    requires sep != []
    ensures |parts| >= 1
    decreases |s|
  {
    match Find(s, sep)
    case None => [s]
    case Some(i) => [s[..i]] + Split(s[i + |sep|..], sep)
  }

  /** One step of `split`: the text before the first separator, then the pieces of what
      follows it. */
  lemma SplitCons(s: string, sep: string, i: nat)
    requires sep != [] && Find(s, sep) == Some(i)
    ensures Split(s, sep) == [s[..i]] + Split(s[i + |sep|..], sep)
  {
  }

  /** `sep.join(parts)`. */
  function Join(parts: seq<string>, sep: string): string
  {
    if |parts| == 0 then []
    else if |parts| == 1 then parts[0]
    else parts[0] + sep + Join(parts[1..], sep)
  }

  lemma JoinCons(head: string, tail: seq<string>, sep: string)
    requires tail != []
    ensures Join([head] + tail, sep) == head + sep + Join(tail, sep)
  {
    assert ([head] + tail)[1..] == tail;
  }

  lemma Reassemble(s: string, i: nat, j: nat)
    requires i <= j <= |s|
    ensures s == s[..i] + s[i..j] + s[j..]
  {
  }

  /** Joining the pieces with the separator gives back the text. */
  lemma {:induction false} JoinSplit(s: string, sep: string)
    requires sep != []
    ensures Join(Split(s, sep), sep) == s
    decreases |s|
  {
    var f := Find(s, sep);
    if f.Some? {
      var i := f.value;
      var rest := s[i + |sep|..];
      var parts := Split(rest, sep);
      SplitCons(s, sep, i);
      JoinSplit(rest, sep);
      JoinCons(s[..i], parts, sep);
      assert s[i..i + |sep|] == sep;
      Reassemble(s, i, i + |sep|);
    } else {
      assert Split(s, sep) == [s];
    }
  }

  /** The first piece is the text before the first separator (or all of it), and the
      remaining pieces, joined again, are everything after that separator. */
  lemma SplitFirst(s: string, sep: string)
    requires sep != []
    ensures var parts := Split(s, sep);
      match Find(s, sep)
      case None => parts == [s]
      case Some(i) => parts[0] == s[..i] && Join(parts[1..], sep) == s[i + |sep|..]
  {
    match Find(s, sep)
    case None =>
    case Some(i) =>
      SplitAtFirst(s, sep, i);
  }

  lemma SplitAtFirst(s: string, sep: string, i: nat)
    requires sep != [] && Find(s, sep) == Some(i)
    ensures Split(s, sep)[0] == s[..i] && Join(Split(s, sep)[1..], sep) == s[i + |sep|..]
  {
    var rest := s[i + |sep|..];
    var parts := Split(s, sep);
    SplitCons(s, sep, i);
    assert parts[1..] == Split(rest, sep);
    JoinSplit(rest, sep);
  }

  /** `StripStartContains`, stated for every text. */
  lemma StripStartContainsIf(s: string, pat: string)
    ensures StartsWith(Strip(s), pat) ==> Contains(s, pat)
  {
    if StartsWith(Strip(s), pat) {
      StripStartContains(s, pat);
    }
  }

  /** What the stripped text opens with occurs in the text itself. */
  lemma StripStartContains(s: string, pat: string)
    requires StartsWith(Strip(s), pat)
    ensures Contains(s, pat)
  {
    StripIsInnerPiece(s);
    var r := Strip(s);
    var i := StripStart(s);
    assert s[i..i + |pat|] == r[..|pat|];
    OccursContains(s, pat, i);
  }

  lemma OccursInSuffix(s: string, pat: string, j: nat, k: nat)
    requires j <= |s| && OccursAt(s[j..], pat, k)
    ensures OccursAt(s, pat, j + k)
  {
    assert s[j..][k..k + |pat|] == s[j + k..j + k + |pat|];
  }

  /** The last piece of `s.split(sep)`. */
  function LastPiece(s: string, sep: string): string
    requires sep != []
  {
    var parts := Split(s, sep);
    parts[|parts| - 1]
  }

  /** A separator whose first character occurs nowhere else in it. */
  predicate HeadUnique(sep: string)
  {
    sep != [] && forall k :: 0 < k < |sep| ==> sep[k] != sep[0]
  }

  /** Two occurrences of such a separator never overlap. */
  lemma OccurrencesApart(s: string, sep: string, p: nat, q: nat)
    requires HeadUnique(sep)
    requires OccursAt(s, sep, p) && OccursAt(s, sep, q) && p < q
    ensures p + |sep| <= q
  {
    assert s[q] == s[q..q + |sep|][0] == sep[0];
    assert forall k :: p < k < p + |sep| && k < |s| ==> s[k] == s[p..p + |sep|][k - p];
  }

  /** An occurrence at or after `j` is an occurrence in the suffix from `j`. */
  lemma SuffixContains(s: string, pat: string, j: nat, q: nat)
    requires j <= q && OccursAt(s, pat, q)
    ensures Contains(s[j..], pat)
  {
    assert s[j..][q - j..q - j + |pat|] == s[q..q + |pat|];
    OccursContains(s[j..], pat, q - j);
  }

  /** The last piece is what follows an occurrence of such a separator when no further
      occurrence comes after it. */
  lemma LastPieceAfterLast(s: string, before: string, sep: string, after: string)
    requires HeadUnique(sep)
    requires s == before + sep + after && !Contains(after, sep)
    ensures LastPiece(s, sep) == after
  {
    var b := |before|;
    assert OccursAt(s, sep, b) by {
      assert s[b..b + |sep|] == sep;
    }
    assert after == s[b + |sep|..];
    LastSeparatorAt(s, sep, b);
    SplitLast(s, sep);
  }

  /** The last separator stands at `b` when one stands there and none follows it. */
  lemma LastSeparatorAt(s: string, sep: string, b: nat)
    requires HeadUnique(sep) && OccursAt(s, sep, b) && !Contains(s[b + |sep|..], sep)
    ensures |LastPiece(s, sep)| + |sep| <= |s| && |s| - |LastPiece(s, sep)| - |sep| == b
  {
    OccursContains(s, sep, b);
    SplitLast(s, sep);
    var q := |s| - |LastPiece(s, sep)| - |sep|;
    if b < q {
      LaterOccurrence(s, sep, b, q);
    } else if q < b {
      LaterOccurrence(s, sep, q, b);
    }
  }

  /** After an occurrence of such a separator, a later occurrence lies wholly in the rest. */
  lemma LaterOccurrence(s: string, sep: string, p: nat, q: nat)
    requires HeadUnique(sep)
    requires OccursAt(s, sep, p) && OccursAt(s, sep, q) && p < q
    ensures p + |sep| <= |s| && Contains(s[p + |sep|..], sep)
  {
    OccurrencesApart(s, sep, p, q);
    SuffixContains(s, sep, p + |sep|, q);
  }

  lemma LastPieceOfCons(s: string, sep: string, i: nat)
    requires sep != [] && Find(s, sep) == Some(i)
    ensures LastPiece(s, sep) == LastPiece(s[i + |sep|..], sep)
  {
    var tail := Split(s[i + |sep|..], sep);
    var parts := Split(s, sep);
    SplitCons(s, sep, i);
    assert parts[|parts| - 1] == tail[|tail| - 1];
  }

  /** The last piece ends the text and holds no separator. */
  lemma {:induction false} LastPieceIsFreeSuffix(s: string, sep: string)
    requires sep != []
    ensures var r := LastPiece(s, sep);
      |r| <= |s| && r == s[|s| - |r|..] && !Contains(r, sep)
    decreases |s|
  {
    var f := Find(s, sep);
    if f.Some? {
      var rest := s[f.value + |sep|..];
      LastPieceIsFreeSuffix(rest, sep);
      LastPieceOfCons(s, sep, f.value);
      var r := LastPiece(rest, sep);
      assert s[|s| - |r|..] == rest[|rest| - |r|..];
    }
  }

  /** The last piece is the text after the last separator: a separator stands right
      before it, unless the text has none, in which case it is the whole text. */
  lemma {:induction false} SplitLast(s: string, sep: string)
    requires sep != []
    ensures var r := LastPiece(s, sep);
      |r| <= |s| && r == s[|s| - |r|..] && !Contains(r, sep)
      && (Contains(s, sep) ==> |r| + |sep| <= |s| && OccursAt(s, sep, |s| - |r| - |sep|))
      && (!Contains(s, sep) ==> r == s)
    decreases |s|
  {
    LastPieceIsFreeSuffix(s, sep);
    LastPieceAfterSeparator(s, sep);
  }

  /** The separator found first stands right before a rest that holds no other. */
  lemma SeparatorBeforeRest(s: string, sep: string, i: nat)
    requires sep != [] && Find(s, sep) == Some(i)
    requires LastPiece(s[i + |sep|..], sep) == s[i + |sep|..]
    ensures |s[i + |sep|..]| + |sep| <= |s|
    ensures OccursAt(s, sep, |s| - |s[i + |sep|..]| - |sep|)
  {
  }

  /** A separator standing before the last piece of the rest stands there in the text. */
  lemma SeparatorInRest(s: string, sep: string, i: nat)
    requires sep != [] && Find(s, sep) == Some(i)
    requires var rest := s[i + |sep|..];
      var r := LastPiece(rest, sep);
      |r| + |sep| <= |rest| && OccursAt(rest, sep, |rest| - |r| - |sep|)
    ensures var r := LastPiece(s[i + |sep|..], sep);
      |r| + |sep| <= |s| && OccursAt(s, sep, |s| - |r| - |sep|)
  {
    var rest := s[i + |sep|..];
    var r := LastPiece(rest, sep);
    OccursInSuffix(s, sep, i + |sep|, |rest| - |r| - |sep|);
  }

  lemma {:induction false} LastPieceAfterSeparator(s: string, sep: string)
    requires sep != []
    ensures var r := LastPiece(s, sep);
      (Contains(s, sep) ==> |r| + |sep| <= |s| && OccursAt(s, sep, |s| - |r| - |sep|))
      && (!Contains(s, sep) ==> r == s)
    decreases |s|
  {
    var f := Find(s, sep);
    if f.Some? {
      var i := f.value;
      var rest := s[i + |sep|..];
      LastPieceAfterSeparator(rest, sep);
      LastPieceOfCons(s, sep, i);
      if !Contains(rest, sep) {
        SeparatorBeforeRest(s, sep, i);
      } else {
        SeparatorInRest(s, sep, i);
      }
    } else {
      assert Split(s, sep) == [s];
    }
  }

  /** Number of occurrences of `c` in `s`. */
  function Count(s: string, c: char): nat
  {
    if s == [] then 0 else (if s[0] == c then 1 else 0) + Count(s[1..], c)
  }

  lemma {:induction false} CountAppend(a: string, b: string, c: char)
    ensures Count(a + b, c) == Count(a, c) + Count(b, c)
    decreases |a|
  {
    if a == [] {
      assert a + b == b;
    } else {
      assert (a + b)[1..] == a[1..] + b;
      CountAppend(a[1..], b, c);
    }
  }

  lemma {:induction false} CountAbsent(s: string, c: char)
    requires forall k :: 0 <= k < |s| ==> s[k] != c
    ensures Count(s, c) == 0
    decreases |s|
  {
    if s != [] {
      CountAbsent(s[1..], c);
    }
  }

  /** Splitting on one character yields one piece more than there are occurrences. */
  lemma {:induction false} SplitCount(s: string, c: char)
    ensures |Split(s, [c])| == Count(s, c) + 1
    decreases |s|
  {
    match Find(s, [c])
    case None =>
      forall k | 0 <= k < |s| ensures s[k] != c {
        assert !OccursAt(s, [c], k);
        assert s[k..k + 1] == [s[k]];
      }
      CountAbsent(s, c);
    case Some(i) =>
      var rest := s[i + 1..];
      SplitCount(rest, c);
      forall k | 0 <= k < i ensures s[..i][k] != c {
        assert !OccursAt(s, [c], k);
        assert s[k..k + 1] == [s[k]];
      }
      CountAbsent(s[..i], c);
      assert s == s[..i] + [c] + rest;
      CountAppend(s[..i] + [c], rest, c);
      CountAppend(s[..i], [c], c);
  }

  // ---------------------------------------------------------------------------
  // Replacing

  /** `s.replace(c, by)` for a one-character `c`: every `c` becomes `by`. */
  function Replace(s: string, c: char, with: string): string
  {
    if s == [] then [] else (if s[0] == c then with else [s[0]]) + Replace(s[1..], c, with)
  }

  lemma {:induction false} ReplaceAppend(a: string, b: string, c: char, with: string)
    ensures Replace(a + b, c, with) == Replace(a, c, with) + Replace(b, c, with)
    decreases |a|
  {
    if a == [] {
      assert a + b == b;
    } else {
      assert (a + b)[1..] == a[1..] + b;
      ReplaceAppend(a[1..], b, c, with);
    }
  }
}
