/** The pieces of Rust's `str` API that the key pipeline uses, on `seq<char>`. */
module Text {
  import opened Wrappers

  /** `n` copies of `c`. */
  function Repeat(c: char, n: nat): (r: string)
    ensures |r| == n && forall i :: 0 <= i < n ==> r[i] == c
  {
    seq(n, _ => c)
  }

  /** A text that starts with `n` copies of `c` has `c` at each of its first `n` places. */
  lemma {:induction false} RepeatPrefix(c: char, n: nat, rest: string, s: string)
    requires s == Repeat(c, n) + rest
    ensures forall k :: 0 <= k < n ==> s[k] == c
  {
    forall k | 0 <= k < n ensures s[k] == c {
      assert s[k] == Repeat(c, n)[k];
    }
  }

  /** `s.replace(c, "")` for a one-character pattern: every `c` is dropped,
      every other character is kept in order. */
  function RemoveChar(s: string, c: char): (r: string)
    ensures c !in r
    ensures |r| <= |s|
    ensures c !in s ==> r == s
    ensures forall x :: x != c ==> (x in r <==> x in s)
  {
    if s == [] then []
    else (if s[0] == c then [] else [s[0]]) + RemoveChar(s[1..], c)
  }

  /** Dropping a character distributes over concatenation. */
  lemma {:induction false} RemoveCharAppend(a: string, b: string, c: char)
    ensures RemoveChar(a + b, c) == RemoveChar(a, c) + RemoveChar(b, c)
  {
    if a != [] {
      assert (a + b)[1..] == a[1..] + b;
      RemoveCharAppend(a[1..], b, c);
    } else {
      assert a + b == b;
    }
  }

  /** `s.trim_start_matches(c)`: every leading `c` removed. */
  function TrimStartMatches(s: string, c: char): (r: string)
    ensures |r| <= |s|
    ensures s == Repeat(c, |s| - |r|) + r
    ensures r == [] || r[0] != c
  {
    if s != [] && s[0] == c then TrimStartMatches(s[1..], c) else s
  }

  /** Trimming one leading `c` that is not followed by another. */
  lemma {:induction false} TrimStartOnce(u: string, c: char)
    requires u == [] || u[0] != c
    ensures TrimStartMatches([c] + u, c) == u
  {
    assert ([c] + u)[1..] == u;
  }

  /** `s.trim_end_matches(c)`: every trailing `c` removed. */
  function TrimEndMatches(s: string, c: char): (r: string)
    ensures |r| <= |s|
    ensures s == r + Repeat(c, |s| - |r|)
    ensures r == [] || r[|r| - 1] != c
  {
    if s != [] && s[|s| - 1] == c then TrimEndMatches(s[..|s| - 1], c) else s
  }

  /** Trimming one trailing `c` that is not preceded by another. */
  lemma {:induction false} TrimEndOnce(u: string, c: char)
    requires u == [] || u[|u| - 1] != c
    ensures TrimEndMatches(u + [c], c) == u
  {
    assert (u + [c])[..|u|] == u;
  }

  /** `pat` occurs in `s` starting at index `i`. */
  predicate OccursAt(s: string, pat: string, i: int)
  {
    0 <= i && i + |pat| <= |s| && s[i..i + |pat|] == pat
  }

  /** An occurrence past the first character is one in the tail. */
  lemma {:induction false} OccursAtTail(s: string, pat: string)
    requires s != []
    ensures forall j :: 1 <= j ==> (OccursAt(s, pat, j) <==> OccursAt(s[1..], pat, j - 1))
  {
    forall j | 1 <= j ensures OccursAt(s, pat, j) <==> OccursAt(s[1..], pat, j - 1) {
      if j + |pat| <= |s| {
        var u := s[j..j + |pat|];
        var v := s[1..][j - 1..j - 1 + |pat|];
        assert forall k :: 0 <= k < |pat| ==> u[k] == v[k];
        assert u == v;
      }
    }
  }

  /** `s.find(pat)`: the index of the leftmost occurrence of `pat`. */
  function Find(s: string, pat: string): (r: Option<nat>)
    ensures r.Some? ==> OccursAt(s, pat, r.value)
    ensures r.Some? ==> forall j :: 0 <= j < r.value ==> !OccursAt(s, pat, j)
    ensures r.None? ==> forall j :: !OccursAt(s, pat, j)
    decreases |s|
  {
    if |s| < |pat| then None
    else if s[..|pat|] == pat then Some(0)
    else
      var rest := Find(s[1..], pat);
      OccursAtTail(s, pat);
      match rest
      case None => None
      case Some(i) => Some(i + 1)
  }

  /** `pat` occurs at `i` and nowhere before it. */
  predicate FirstOccurrence(s: string, pat: string, i: int)
  {
    OccursAt(s, pat, i) && forall j :: 0 <= j < i ==> !OccursAt(s, pat, j)
  }

  /** `s.replacen(pat, rep, 1)`: only the leftmost occurrence is replaced. */
  function ReplaceFirst(s: string, pat: string, rep: string): (r: string)
    ensures (forall j :: !OccursAt(s, pat, j)) ==> r == s
    ensures forall i :: FirstOccurrence(s, pat, i) ==> r == s[..i] + rep + s[i + |pat|..]
    ensures rep == pat ==> r == s
  {
    match Find(s, pat)
    case None => s
    case Some(i) =>
      assert s == s[..i] + s[i..i + |pat|] + s[i + |pat|..];
      s[..i] + rep + s[i + |pat|..]
  }

  /** `s.replace(pat, rep)` for a non-empty pattern: every non-overlapping
      occurrence, scanning left to right, is replaced. */
  function ReplaceAll(s: string, pat: string, rep: string): (r: string)
    requires pat != []
    ensures rep == pat ==> r == s
    ensures |rep| <= |pat| ==> |r| <= |s|
    ensures |rep| == |pat| ==> |r| == |s|
    decreases |s|
  {
    if |s| < |pat| then s
    else if s[..|pat|] == pat then
      assert s == pat + s[|pat|..];
      rep + ReplaceAll(s[|pat|..], pat, rep)
    else
      assert s == [s[0]] + s[1..];
      [s[0]] + ReplaceAll(s[1..], pat, rep)
  }

  /** A text without the pattern's first character is left as it is. */
  lemma {:induction false} ReplaceAllAbsent(s: string, pat: string, rep: string)
    requires pat != []
    ensures pat[0] !in s ==> ReplaceAll(s, pat, rep) == s
    decreases |s|
  {
    if pat[0] !in s && |s| >= |pat| {
      assert s[..|pat|][0] == s[0] && s[0] in s;
      assert pat[0] !in s[1..] by {
        assert forall x :: x in s[1..] ==> x in s;
      }
      ReplaceAllAbsent(s[1..], pat, rep);
      assert [s[0]] + s[1..] == s;
    }
  }

  /** A prefix without the pattern's first character is never rewritten. */
  lemma {:induction false} ReplaceAllSkip(a: string, b: string, pat: string, rep: string)
    requires pat != [] && pat[0] !in a
    ensures ReplaceAll(a + b, pat, rep) == a + ReplaceAll(b, pat, rep)
  {
    if a != [] {
      var s := a + b;
      if |s| >= |pat| {
        assert s[..|pat|][0] == a[0] != pat[0];
      }
      assert s[1..] == a[1..] + b;
      ReplaceAllSkip(a[1..], b, pat, rep);
    } else {
      assert a + b == b;
    }
  }

  /** Text that does not start with the pattern keeps its first character. */
  lemma {:induction false} ReplaceAllMiss(s: string, pat: string, rep: string)
    requires pat != [] && s != [] && !OccursAt(s, pat, 0)
    ensures ReplaceAll(s, pat, rep) == [s[0]] + ReplaceAll(s[1..], pat, rep)
  {
    if |s| >= |pat| {
      assert s[..|pat|] != pat;
    } else {
      assert [s[0]] + s[1..] == s;
    }
  }

  /** An occurrence at the very start is replaced and scanning resumes after it. */
  lemma {:induction false} ReplaceAllHead(b: string, pat: string, rep: string)
    requires pat != []
    ensures ReplaceAll(pat + b, pat, rep) == rep + ReplaceAll(b, pat, rep)
  {
    var s := pat + b;
    assert s[..|pat|] == pat;
    assert s[|pat|..] == b;
  }

  /** The position of the first `c` in `s`. */
  function IndexOf(s: string, c: char): (r: Option<nat>)
    ensures r.Some? ==> r.value < |s| && s[r.value] == c && c !in s[..r.value]
    ensures r.None? ==> c !in s
  {
    if s == [] then None
    else if s[0] == c then Some(0)
    else match IndexOf(s[1..], c)
      case None => None
      case Some(i) =>
        assert s[..i + 1] == [s[0]] + s[1..][..i];
        Some(i + 1)
  }

  /** The first `c` is at `j` when `s[j]` is `c` and no `c` comes before it. */
  lemma {:induction false} IndexOfAt(s: string, c: char, j: nat)
    requires j < |s| && s[j] == c && c !in s[..j]
    ensures IndexOf(s, c) == Some(j)
  {
    assert s[j] in s;
    var i := IndexOf(s, c).value;
    forall k | 0 <= k < j ensures s[k] != c {
      assert s[..j][k] == s[k];
    }
    forall k | 0 <= k < i ensures s[k] != c {
      assert s[..i][k] == s[k];
    }
  }

  /** `parts.join(sep)` for a one-character separator. */
  function Join(parts: seq<string>, sep: char): string
    requires |parts| >= 1
  {
    if |parts| == 1 then parts[0] else parts[0] + [sep] + Join(parts[1..], sep)
  }

  /** `s.split(sep)` collected into a vector: the pieces between separators,
      empty pieces included, so there is always at least one. */
  function Split(s: string, sep: char): (parts: seq<string>)
    ensures |parts| >= 1
    ensures forall i :: 0 <= i < |parts| ==> sep !in parts[i]
    ensures Join(parts, sep) == s
    decreases |s|
  {
    match IndexOf(s, sep)
    case None => [s]
    case Some(i) =>
      var rest := Split(s[i + 1..], sep);
      assert s == s[..i] + [sep] + s[i + 1..];
      [s[..i]] + rest
  }

  /** Splitting undoes joining pieces that do not contain the separator. */
  lemma {:induction false} SplitJoin(parts: seq<string>, sep: char)
    requires |parts| >= 1
    requires forall i :: 0 <= i < |parts| ==> sep !in parts[i]
    ensures Split(Join(parts, sep), sep) == parts
  {
    if |parts| > 1 {
      var s := Join(parts, sep);
      var p0 := parts[0];
      assert s == p0 + [sep] + Join(parts[1..], sep);
      assert s[..|p0|] == p0;
      assert s[|p0|] == sep;
      var k := IndexOf(s, sep);
      assert k == Some(|p0|);
      assert s[|p0| + 1..] == Join(parts[1..], sep);
      SplitJoin(parts[1..], sep);
    }
  }

  /** Literal pieces with items between them: `gaps[0] + items[0] + gaps[1] + ...`. */
  function Weave(gaps: seq<string>, items: seq<string>): string
    requires |gaps| == |items| + 1
  {
    if items == [] then gaps[0] else gaps[0] + items[0] + Weave(gaps[1..], items[1..])
  }

  /** The first gap and item of a non-empty weave. */
  lemma {:induction false} WeaveCons(gaps: seq<string>, items: seq<string>)
    requires |gaps| == |items| + 1 && items != []
    ensures Weave(gaps, items) == gaps[0] + (items[0] + Weave(gaps[1..], items[1..]))
  {
  }

  /** `n` empty `{}` holes. */
  function Holes(n: nat): (r: seq<string>)
    ensures |r| == n && forall i :: 0 <= i < n ==> r[i] == "{}"
  {
    seq(n, _ => "{}")
  }

  /** Cutting a woven string at the item that follows `xs`. */
  lemma {:induction false} WeaveSplit(gaps: seq<string>, xs: seq<string>, x: string, ys: seq<string>)
    requires |gaps| == |xs| + |ys| + 2
    ensures Weave(gaps, xs + [x] + ys)
         == Weave(gaps[..|xs| + 1], xs) + x + Weave(gaps[|xs| + 1..], ys)
  {
    if xs == [] {
      assert xs + [x] + ys == [x] + ys;
      assert gaps[1..] == gaps[|xs| + 1..];
    } else {
      WeaveSplit(gaps[1..], xs[1..], x, ys);
      WeaveSplitCons(gaps, xs, x, ys);
    }
  }

  /** The step of `WeaveSplit`: the cut after the first item follows from the
      cut of the rest. */
  lemma {:induction false} WeaveSplitCons(gaps: seq<string>, xs: seq<string>, x: string, ys: seq<string>)
    requires |gaps| == |xs| + |ys| + 2 && xs != []
    requires Weave(gaps[1..], xs[1..] + [x] + ys)
          == Weave(gaps[1..][..|xs|], xs[1..]) + x + Weave(gaps[1..][|xs|..], ys)
    ensures Weave(gaps, xs + [x] + ys)
         == Weave(gaps[..|xs| + 1], xs) + x + Weave(gaps[|xs| + 1..], ys)
  {
    var items := xs + [x] + ys;
    var front := gaps[..|xs| + 1];
    var back := gaps[|xs| + 1..];
    assert items[0] == xs[0] && items[1..] == xs[1..] + [x] + ys;
    assert gaps[1..][..|xs|] == front[1..] && front[0] == gaps[0];
    assert gaps[1..][|xs|..] == back;
    var mid := Weave(front[1..], xs[1..]);
    assert Weave(gaps, items) == gaps[0] + xs[0] + (mid + x + Weave(back, ys));
    assert Weave(front, xs) == gaps[0] + xs[0] + mid;
  }

  /** A character missing from every piece is missing from the woven string. */
  lemma {:induction false} WeaveFree(gaps: seq<string>, items: seq<string>, c: char)
    requires |gaps| == |items| + 1
    requires forall i :: 0 <= i < |gaps| ==> c !in gaps[i]
    requires forall i :: 0 <= i < |items| ==> c !in items[i]
    ensures c !in Weave(gaps, items)
  {
    if items != [] {
      WeaveFree(gaps[1..], items[1..], c);
    }
  }

  /** Weaving with a longer first gap. */
  lemma {:induction false} WeaveConsGap(c: char, g: string, gaps: seq<string>, items: seq<string>)
    requires |gaps| == |items|
    ensures Weave([[c] + g] + gaps, items) == [c] + Weave([g] + gaps, items)
  {
    var longer := [[c] + g] + gaps;
    var shorter := [g] + gaps;
    assert longer[0] == [c] + g && shorter[0] == g;
    if items != [] {
      assert longer[1..] == gaps == shorter[1..];
      var w := items[0] + Weave(gaps, items[1..]);
      assert Weave(longer, items) == ([c] + g) + w;
      assert Weave(shorter, items) == g + w;
    }
  }
}
