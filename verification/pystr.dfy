/** The few Python `str` operations the backend relies on, over `seq<char>`:
    `str.isspace`, `str.strip()`, `sub in s`, `str.find`, `str.split(sep)`,
    `sep.join(parts)` and `str.lower()` (ASCII letters only). */
module PyStr {
  import opened Wrappers

  /** Python's `str.isspace()` for one character. */
  predicate IsSpace(c: char) {
    || c == ' '
    || ('\t' <= c <= '\r')
    || ('\U{1c}' <= c <= '\U{1f}')
    || c == '\U{85}' || c == '\U{a0}' || c == '\U{1680}'
    || ('\U{2000}' <= c <= '\U{200a}')
    || c == '\U{2028}' || c == '\U{2029}' || c == '\U{202f}'
    || c == '\U{205f}' || c == '\U{3000}'
  }

  ghost predicate AllSpace(s: string) {
    forall k :: 0 <= k < |s| ==> IsSpace(s[k])
  }

  /** Neither end of `r` is whitespace. */
  predicate Trimmed(r: string) {
    |r| == 0 || (!IsSpace(r[0]) && !IsSpace(r[|r| - 1]))
  }

  /** `s[i..j]` is what remains once all leading and trailing whitespace of `s` is removed. */
  ghost predicate StrippedAt(s: string, i: int, j: int) {
    && 0 <= i <= j <= |s|
    && AllSpace(s[..i])
    && AllSpace(s[j..])
    && Trimmed(s[i..j])
  }

  function LeadingSpaces(s: string): (n: nat)
    ensures n <= |s|
    ensures AllSpace(s[..n])
    ensures n < |s| ==> !IsSpace(s[n])
  {
    if |s| == 0 || !IsSpace(s[0]) then 0
    else
      var n := 1 + LeadingSpaces(s[1..]);
      assert forall k :: 1 <= k < n ==> s[..n][k] == s[1..][..n - 1][k - 1];
      n
  }

  function TrailingSpaces(s: string): (n: nat)
    ensures n <= |s|
    ensures AllSpace(s[|s| - n..])
    ensures n < |s| ==> !IsSpace(s[|s| - n - 1])
  {
    if |s| == 0 || !IsSpace(s[|s| - 1]) then 0
    else
      var t := s[..|s| - 1];
      var n := 1 + TrailingSpaces(t);
      assert s[|s| - n..] == t[|t| - (n - 1)..] + [s[|s| - 1]];
      n
  }

  /** Where the strip of `s` starts and ends. */
  function StripBounds(s: string): (b: (nat, nat))
    ensures StrippedAt(s, b.0, b.1)
  {
    var i := LeadingSpaces(s);
    var t := s[i..];
    var n := TrailingSpaces(t);
    var j := i + (|t| - n);
    assert s[i..j] == t[..|t| - n];
    assert s[j..] == t[|t| - n..];
    assert j < |s| && i < j ==> !IsSpace(s[j - 1]) by {
      if j < |s| && i < j { assert s[j - 1] == t[|t| - n - 1]; }
    }
    (i, j)
  }

  /** Python's `s.strip()` with no argument. */
  function Strip(s: string): (r: string)
    ensures exists i, j :: StrippedAt(s, i, j) && r == s[i..j]
    ensures Trimmed(r)
  {
    var b := StripBounds(s);
    s[b.0..b.1]
  }

  /** The strip of a string is unique: any slice meeting the description of
      `StrippedAt` is the one `Strip` returns. */
  lemma StripUnique(s: string, i: int, j: int)
    requires StrippedAt(s, i, j)
    ensures Strip(s) == s[i..j]
  {
    var (i0, j0) := StripBounds(s);
    if i < j {
      assert !IsSpace(s[i]) && !IsSpace(s[j - 1]) by {
        assert s[i..j][0] == s[i] && s[i..j][j - i - 1] == s[j - 1];
      }
    }
    if i0 < j0 {
      assert !IsSpace(s[i0]) && !IsSpace(s[j0 - 1]) by {
        assert s[i0..j0][0] == s[i0] && s[i0..j0][j0 - i0 - 1] == s[j0 - 1];
      }
    }
  }

  /** A string already free of surrounding whitespace is its own strip. */
  lemma StripTrimmed(s: string)
    requires Trimmed(s)
    ensures Strip(s) == s
  {
    assert s[..0] == [] && s[|s|..] == [] && s[0..|s|] == s;
    StripUnique(s, 0, |s|);
  }

  /** Surrounding a string with extra whitespace does not change its strip. */
  lemma StripPadded(pre: string, p: string, post: string)
    requires AllSpace(pre) && AllSpace(post)
    ensures Strip(pre + p + post) == Strip(p)
  {
    var (i, j) := StripBounds(p);
    var s := pre + p + post;
    var a, b := |pre| + i, |pre| + j;
    assert s[a..b] == p[i..j];
    forall k | 0 <= k < a
      ensures IsSpace(s[..a][k])
    {
      assert s[..a][k] == s[k];
      if k < |pre| {
        assert s[k] == pre[k];
      } else {
        assert s[k] == p[k - |pre|] == p[..i][k - |pre|];
      }
    }
    forall k | 0 <= k < |s| - b
      ensures IsSpace(s[b..][k])
    {
      assert s[b..][k] == s[b + k];
      if k < |p| - j {
        assert s[b + k] == p[j + k] == p[j..][k];
      } else {
        assert s[b + k] == post[k - (|p| - j)];
      }
    }
    assert StrippedAt(s, a, b);
    StripUnique(s, a, b);
  }

  /** A non-empty head with no surrounding whitespace survives stripping. */
  lemma StripKeepsHead(t: string, x: string)
    requires |t| > 0 && Trimmed(t)
    ensures |Strip(t + x)| >= |t| && Strip(t + x)[..|t|] == t
  {
    var s := t + x;
    var (i, j) := StripBounds(s);
    assert s[0] == t[0] && s[|t| - 1] == t[|t| - 1];
    assert s[..|t|] == t;
  }

  /** `pat` occurs in `s` at index `i`. */
  predicate OccursAt(s: string, pat: string, i: int) {
    0 <= i && i + |pat| <= |s| && s[i..i + |pat|] == pat
  }

  /** Index of the first occurrence of `pat` in `s` at or after `from`. */
  function FindFrom(s: string, pat: string, from: nat): (r: Option<nat>)
    ensures r.Some? ==> from <= r.value && OccursAt(s, pat, r.value)
    ensures r.Some? ==> forall k :: from <= k < r.value ==> !OccursAt(s, pat, k)
    ensures r.None? ==> forall k :: from <= k ==> !OccursAt(s, pat, k)
    decreases |s| - from
  {
    if from + |pat| > |s| then None
    else if s[from..from + |pat|] == pat then Some(from)
    else FindFrom(s, pat, from + 1)
  }

  /** Python's `s.find(pat)`, with `None` for -1. */
  function Find(s: string, pat: string): (r: Option<nat>)
    ensures r.Some? ==> OccursAt(s, pat, r.value)
    ensures r.Some? ==> forall k :: 0 <= k < r.value ==> !OccursAt(s, pat, k)
    ensures r.None? ==> forall k :: !OccursAt(s, pat, k)
  {
    FindFrom(s, pat, 0)
  }

  /** Python's `pat in s`. */
  predicate Contains(s: string, pat: string)
  {
    Find(s, pat).Some?
  }

  /** `pat in s` holds exactly when `pat` occurs in `s` at some index. */
  lemma ContainsMeansOccurs(s: string, pat: string)
    ensures Contains(s, pat) <==> exists i :: OccursAt(s, pat, i)
  {
    if Contains(s, pat) {
      assert OccursAt(s, pat, Find(s, pat).value);
    }
  }

  lemma ContainsAt(s: string, pat: string, i: int)
    requires OccursAt(s, pat, i)
    ensures Contains(s, pat)
  {
  }

  /** A first occurrence is what `Find` reports. */
  lemma FindFirst(s: string, pat: string, i: nat)
    requires OccursAt(s, pat, i)
    requires forall k :: 0 <= k < i ==> !OccursAt(s, pat, k)
    ensures Find(s, pat) == Some(i)
  {
  }

  /** An occurrence inside a piece is an occurrence in any string built around it. */
  lemma OccursInConcat(x: string, a: string, y: string, pat: string, i: int)
    requires OccursAt(a, pat, i)
    ensures OccursAt(x + a + y, pat, |x| + i)
  {
    assert (x + a + y)[|x| + i..|x| + i + |pat|] == a[i..i + |pat|];
  }

  /** An occurrence in a prefix of `s` is an occurrence in `s`. */
  lemma OccursInPrefix(s: string, n: int, pat: string, k: int)
    requires 0 <= n <= |s|
    requires OccursAt(s[..n], pat, k)
    ensures OccursAt(s, pat, k)
  {
    assert s[..n][k..k + |pat|] == s[k..k + |pat|];
  }

  /** An occurrence inside a slice is an occurrence in the whole string. */
  lemma ContainsInSlice(s: string, i: int, j: int, pat: string)
    requires 0 <= i <= j <= |s| && Contains(s[i..j], pat)
    ensures Contains(s, pat)
  {
    var k := Find(s[i..j], pat).value;
    assert OccursAt(s[i..j], pat, k);
    assert s[i + k..i + k + |pat|] == pat by {
      forall m | 0 <= m < |pat|
        ensures s[i + k..i + k + |pat|][m] == pat[m]
      {
        assert pat[m] == s[i..j][k..k + |pat|][m];
      }
    }
    ContainsAt(s, pat, i + k);
  }

  /** Containment is transitive. */
  lemma ContainsTrans(s: string, a: string, pat: string)
    requires Contains(s, a) && Contains(a, pat)
    ensures Contains(s, pat)
  {
    var i := Find(s, a).value;
    var k := Find(a, pat).value;
    OccursInConcat(s[..i], a, s[i + |a|..], pat, k);
    assert s[..i] + a + s[i + |a|..] == s;
    ContainsAt(s, pat, i + k);
  }

  /** Stripping cannot create an occurrence. */
  lemma StripKeepsAbsence(s: string, pat: string)
    ensures Contains(Strip(s), pat) ==> Contains(s, pat)
  {
    var (i, j) := StripBounds(s);
    if Contains(Strip(s), pat) {
      ContainsInSlice(s, i, j, pat);
    }
  }

  /** Nothing before the first occurrence of `sep` contains `sep`. */
  lemma NoneBeforeFirst(s: string, sep: string, i: nat)
    requires |sep| > 0 && i <= |s|
    requires forall k :: 0 <= k < i ==> !OccursAt(s, sep, k)
    ensures !Contains(s[..i], sep)
  {
    var r := Find(s[..i], sep);
    if r.Some? {
      OccursInPrefix(s, i, sep, r.value);
    }
  }

  /** Python's `sep.join(parts)`: nothing for no parts, and otherwise text
      that starts with the first part. */
  function Join(parts: seq<string>, sep: string): (r: string)
    ensures |parts| == 0 ==> r == ""
    ensures |parts| >= 1 ==> |parts[0]| <= |r| && r[..|parts[0]|] == parts[0]
  {
    if |parts| == 0 then ""
    else if |parts| == 1 then parts[0]
    else parts[0] + sep + Join(parts[1..], sep)
  }

  /** Every part occurs in the joined text. */
  lemma {:induction false} JoinContainsParts(parts: seq<string>, sep: string)
    ensures forall k :: 0 <= k < |parts| ==> Contains(Join(parts, sep), parts[k])
    decreases |parts|
  {
    if |parts| == 1 {
      ContainsSelf(parts[0]);
    } else if |parts| >= 2 {
      var tail := Join(parts[1..], sep);
      JoinContainsParts(parts[1..], sep);
      ContainsAround(parts[0], sep, tail, parts[1..]);
      assert parts == [parts[0]] + parts[1..];
    }
  }

  lemma ContainsSelf(s: string)
    ensures Contains(s, s)
  {
    assert OccursAt(s, s, 0);
  }

  /** What a string contains, any string built around it contains too. */
  lemma ContainsAround(head: string, sep: string, tail: string, pats: seq<string>)
    requires forall k :: 0 <= k < |pats| ==> Contains(tail, pats[k])
    ensures Contains(head + sep + tail, head)
    ensures forall k :: 0 <= k < |pats| ==> Contains(head + sep + tail, pats[k])
  {
    var s := head + sep + tail;
    assert s[..|head|] == head;
    assert OccursAt(s, head, 0);
    forall k | 0 <= k < |pats|
      ensures Contains(s, pats[k])
    {
      var i := Find(tail, pats[k]).value;
      OccursInConcat(head + sep, tail, [], pats[k], i);
      assert head + sep + tail + [] == s;
      ContainsAt(s, pats[k], |head + sep| + i);
    }
  }

  /** Python's `s.split(sep)` for a non-empty separator (an empty one raises
      `ValueError` in Python). */
  function Split(s: string, sep: string): (parts: seq<string>)
    requires |sep| > 0
    ensures |parts| >= 1
    ensures Contains(s, sep) <==> |parts| >= 2
    ensures Join(parts, sep) == s
    ensures forall k :: 0 <= k < |parts| ==> !Contains(parts[k], sep)
    ensures |parts| >= 2 ==> Find(s, sep) == Some(|parts[0]|)
    decreases |s|
  {
    match Find(s, sep)
    case None => [s]
    case Some(i) =>
      var rest := Split(s[i + |sep|..], sep);
      SplitCons(s, sep, i, rest);
      [s[..i]] + rest
  }

  /** One step of `Split`: the text before the first separator, followed by
      the pieces of what comes after it, are pieces of the whole text. */
  lemma SplitCons(s: string, sep: string, i: nat, rest: seq<string>)
    requires |sep| > 0 && Find(s, sep) == Some(i) && |rest| >= 1
    requires Join(rest, sep) == s[i + |sep|..]
    requires forall k :: 0 <= k < |rest| ==> !Contains(rest[k], sep)
    ensures var parts := [s[..i]] + rest;
      && Join(parts, sep) == s
      && (forall k :: 0 <= k < |parts| ==> !Contains(parts[k], sep))
  {
    var parts := [s[..i]] + rest;
    AroundOccurrence(s, sep, i);
    JoinCons(s[..i], sep, rest);
    assert !Contains(parts[0], sep) by {
      NoneBeforeFirst(s, sep, i);
    }
    forall k | 1 <= k < |parts|
      ensures !Contains(parts[k], sep)
    {
      assert parts[k] == rest[k - 1];
    }
  }

  /** A text is what precedes an occurrence, the occurrence, and what follows it. */
  lemma AroundOccurrence(s: string, pat: string, i: int)
    requires OccursAt(s, pat, i)
    ensures s == s[..i] + pat + s[i + |pat|..]
  {
    assert s == s[..i] + s[i..i + |pat|] + s[i + |pat|..];
  }

  /** Joining a part in front of at least one more part puts the separator between. */
  lemma JoinCons(head: string, sep: string, rest: seq<string>)
    requires |rest| >= 1
    ensures Join([head] + rest, sep) == head + sep + Join(rest, sep)
  {
    assert ([head] + rest)[1..] == rest;
  }

  /** Every cut of `Split` is at the leftmost occurrence of the separator in
      what remains: the joined rest from piece `k` on has its first separator
      right after piece `k`. */
  lemma {:induction false} SplitCutsLeftmost(s: string, sep: string)
    requires |sep| > 0
    ensures forall k :: 0 <= k < |Split(s, sep)| - 1 ==>
      Find(Join(Split(s, sep)[k..], sep), sep) == Some(|Split(s, sep)[k]|)
    decreases |s|
  {
    var parts := Split(s, sep);
    if |parts| >= 2 {
      var i := Find(s, sep).value;
      var tail := s[i + |sep|..];
      var rest := Split(tail, sep);
      assert parts == [s[..i]] + rest;
      SplitCutsLeftmost(tail, sep);
      forall k | 0 <= k < |parts| - 1
        ensures Find(Join(parts[k..], sep), sep) == Some(|parts[k]|)
      {
        if k == 0 {
          assert parts[0..] == parts;
          assert Join(parts, sep) == s && |parts[0]| == i;
        } else {
          var j := k - 1;
          assert Find(Join(rest[j..], sep), sep) == Some(|rest[j]|);
          assert parts[k..] == rest[j..] && parts[k] == rest[j];
        }
      }
    }
  }

  /** `Split`'s contract determines its result: pieces that are free of the
      separator, join back to `s` and are cut at the leftmost occurrence each
      time are exactly the pieces of `Split(s, sep)`. */
  lemma {:induction false} SplitDetermined(s: string, sep: string, parts: seq<string>)
    requires |sep| > 0 && |parts| >= 1 && Join(parts, sep) == s
    requires forall k :: 0 <= k < |parts| ==> !Contains(parts[k], sep)
    requires forall k :: 0 <= k < |parts| - 1 ==> Find(Join(parts[k..], sep), sep) == Some(|parts[k]|)
    ensures Split(s, sep) == parts
    decreases |parts|
  {
    if |parts| == 1 {
      assert s == parts[0];
    } else {
      var i := |parts[0]|;
      var tail := Join(parts[1..], sep);
      assert parts[0..] == parts;
      assert Find(s, sep) == Some(i);
      assert s == parts[0] + sep + tail;
      assert s[..i] == parts[0];
      assert s[i + |sep|..] == tail;
      forall k | 0 <= k < |parts[1..]| - 1
        ensures Find(Join(parts[1..][k..], sep), sep) == Some(|parts[1..][k]|)
      {
        assert parts[1..][k..] == parts[k + 1..];
      }
      SplitDetermined(tail, sep, parts[1..]);
      assert parts == [parts[0]] + parts[1..];
    }
  }

  /** The first piece of a split is everything before the first separator. */
  lemma SplitHead(s: string, sep: string)
    requires |sep| > 0
    ensures Find(s, sep).None? ==> Split(s, sep)[0] == s
    ensures Find(s, sep).Some? ==> Split(s, sep)[0] == s[..Find(s, sep).value]
  {
  }

  /** The second piece of a split is the first piece of what follows the first separator. */
  lemma SplitSecond(s: string, sep: string)
    requires |sep| > 0 && Contains(s, sep)
    ensures Split(s, sep)[1] == Split(s[Find(s, sep).value + |sep|..], sep)[0]
  {
  }

  /** With a one-character separator that no part contains, splitting undoes joining. */
  lemma {:induction false} SplitJoin(parts: seq<string>, sep: string)
    requires |sep| == 1 && |parts| >= 1
    requires forall k :: 0 <= k < |parts| ==> !Contains(parts[k], sep)
    ensures Split(Join(parts, sep), sep) == parts
    decreases |parts|
  {
    var p := parts[0];
    if |parts| == 1 {
      assert Find(p, sep).None?;
    } else {
      var tail := Join(parts[1..], sep);
      var s := p + sep + tail;
      assert OccursAt(s, sep, |p|) by { assert s[|p|..|p| + 1] == sep; }
      forall k | 0 <= k < |p|
        ensures !OccursAt(s, sep, k)
      {
        if OccursAt(s, sep, k) {
          assert s[k..k + 1] == p[k..k + 1];
          ContainsAt(p, sep, k);
        }
      }
      FindFirst(s, sep, |p|);
      assert s[..|p|] == p;
      assert s[|p| + 1..] == tail;
      SplitJoin(parts[1..], sep);
      assert parts == [p] + parts[1..];
    }
  }

  function LowerChar(c: char): char {
    if 'A' <= c <= 'Z' then (c as int + 32) as char else c
  }

  /** Python's `s.lower()` restricted to the ASCII letters. */
  function Lower(s: string): (r: string)
    ensures |r| == |s|
    ensures forall k :: 0 <= k < |s| ==> r[k] == LowerChar(s[k])
  {
    seq(|s|, k requires 0 <= k < |s| => LowerChar(s[k]))
  }
}
