/** The zone root that `updateDnsRecord` derives from a record name with the
    regular expression `^.+?\.([^.]+\.[^.]+)$` replaced by its group: a name
    `P.L1.L2` (P non-empty, L1 and L2 non-empty and dot-free) becomes `L1.L2`,
    and every other name is left as it is. Multi-label public suffixes such as
    `co.uk` get no special treatment. */
module ZoneRoots {

  /** The characters JavaScript's `.` does not match without the `s` flag. */
  predicate IsLineTerminator(c: char)
  {
    c == '\n' || c == '\r' || c == '\U{2028}' || c == '\U{2029}'
  }

  predicate NoLineTerminator(s: string)
  {
    forall i :: 0 <= i < |s| ==> !IsLineTerminator(s[i])
  }

  /** What `[^.]+` matches. */
  predicate IsLabel(s: string)
  {
    |s| > 0 && forall i :: 0 <= i < |s| ==> s[i] != '.'
  }

  /** What `[^.]+\.[^.]+` matches: two labels joined by one dot. */
  predicate IsTwoLabels(s: string)
  {
    exists i :: 0 <= i < |s| && s[i] == '.' && IsLabel(s[..i]) && IsLabel(s[i + 1..])
  }

  /** The whole regular expression matches `name`, with the dot after `.+?` at index `k`. */
  predicate SplitsAt(name: string, k: int)
  {
    0 < k < |name| && name[k] == '.' && NoLineTerminator(name[..k]) && IsTwoLabels(name[k + 1..])
  }

  /** Index of the last dot of `s` below `n`, or -1 when there is none. */
  function LastDotBelow(s: string, n: nat): (i: int)
    requires n <= |s|
    ensures -1 <= i < n
    ensures i >= 0 ==> s[i] == '.'
    ensures forall j :: i < j < n ==> s[j] != '.'
  {
    if n == 0 then -1
    else if s[n - 1] == '.' then n - 1
    else LastDotBelow(s, n - 1)
  }

  /** Index of the dot after the lazy `.+?` when the regular expression matches
      `name`, or -1 when it does not: the match must end at the last dot's label,
      so that dot is the last one and the captured group starts after the one
      before it. */
  function MatchDot(name: string): int
  {
    var last := LastDotBelow(name, |name|);
    if last < 0 then -1
    else
      var second := LastDotBelow(name, last);
      if 1 <= second && last - second >= 2 && last < |name| - 1 && NoLineTerminator(name[..second])
      then second
      else -1
  }

  /** The zone name looked up for the record `name`: the captured group when the
      regular expression matches, else the name itself. */
  function ZoneRoot(name: string): string
  {
    var k := MatchDot(name);
    if k < 0 then name else name[k + 1..]
  }

  /** After a dot at `second`, a last dot at `last` with characters on both sides
      and no other dot makes the rest two labels. */
  lemma TwoLabelsAfter(name: string, second: int, last: int)
    requires 0 <= second && second + 2 <= last < |name| - 1 && name[last] == '.'
    requires forall j :: second < j < last ==> name[j] != '.'
    requires forall j :: last < j < |name| ==> name[j] != '.'
    ensures IsTwoLabels(name[second + 1..])
  {
    var rest := name[second + 1..];
    var i := last - second - 1;
    var head, tail := rest[..i], rest[i + 1..];
    forall j | 0 <= j < |head|
      ensures head[j] != '.'
    {
      assert head[j] == name[second + 1 + j];
    }
    forall j | 0 <= j < |tail|
      ensures tail[j] != '.'
    {
      assert tail[j] == name[last + 1 + j];
    }
    assert rest[i] == '.' && IsLabel(head) && IsLabel(tail);
  }

  /** A position the derivation finds is a match of the regular expression. */
  lemma MatchDotSplits(name: string)
    ensures MatchDot(name) >= 0 ==> SplitsAt(name, MatchDot(name))
  {
    var last := LastDotBelow(name, |name|);
    if MatchDot(name) >= 0 {
      var second := LastDotBelow(name, last);
      TwoLabelsAfter(name, second, last);
    }
  }

  /** The match read off the dots: the last dot at `last`, the one before it at
      `second`, both labels non-empty and nothing but line-terminator-free
      characters before `second`. */
  lemma MatchDotByDots(name: string, second: int, last: int)
    requires 1 <= second && second + 2 <= last < |name| - 1
    requires name[second] == '.' && name[last] == '.'
    requires forall j :: second < j < last ==> name[j] != '.'
    requires forall j :: last < j < |name| ==> name[j] != '.'
    requires forall j :: 0 <= j < second ==> !IsLineTerminator(name[j])
    ensures MatchDot(name) == second
  {
    assert LastDotBelow(name, |name|) == last;
    assert LastDotBelow(name, last) == second;
    assert forall j :: 0 <= j < second ==> name[..second][j] == name[j];
  }

  /** A match at `k` spelled out as the dots around the captured group. */
  lemma SplitDots(name: string, k: int) returns (last: int)
    requires SplitsAt(name, k)
    ensures 1 <= k && k + 2 <= last < |name| - 1
    ensures name[k] == '.' && name[last] == '.'
    ensures forall j :: k < j < last ==> name[j] != '.'
    ensures forall j :: last < j < |name| ==> name[j] != '.'
    ensures forall j :: 0 <= j < k ==> !IsLineTerminator(name[j])
  {
    var rest := name[k + 1..];
    var i :| 0 <= i < |rest| && rest[i] == '.' && IsLabel(rest[..i]) && IsLabel(rest[i + 1..]);
    last := k + 1 + i;
    var prefix, head, tail := name[..k], rest[..i], rest[i + 1..];
    forall j | k < j < last
      ensures name[j] != '.'
    {
      assert name[j] == head[j - k - 1];
    }
    forall j | last < j < |name|
      ensures name[j] != '.'
    {
      assert name[j] == tail[j - last - 1];
    }
    forall j | 0 <= j < k
      ensures !IsLineTerminator(name[j])
    {
      assert name[j] == prefix[j];
    }
  }

  /** Every match of the regular expression is the one the derivation finds; the
      group it captures is everything after its dot. */
  lemma ZoneRootOfSplit(name: string, k: int)
    requires SplitsAt(name, k)
    ensures MatchDot(name) == k
    ensures ZoneRoot(name) == name[k + 1..]
  {
    var last := SplitDots(name, k);
    MatchDotByDots(name, k, last);
  }

  /** The derivation changes a name exactly when the regular expression matches it. */
  lemma ZoneRootMatchesRegex(name: string)
    ensures MatchDot(name) >= 0 <==> exists k :: SplitsAt(name, k)
  {
    MatchDotSplits(name);
    if exists k :: SplitsAt(name, k) {
      var k :| SplitsAt(name, k);
      ZoneRootOfSplit(name, k);
    }
  }

  /** A name `P.L1.L2` with a non-empty prefix P is looked up under `L1.L2`. */
  lemma ZoneRootOfShape(p: string, l1: string, l2: string)
    requires |p| > 0 && NoLineTerminator(p) && IsLabel(l1) && IsLabel(l2)
    ensures ZoneRoot(p + "." + l1 + "." + l2) == l1 + "." + l2
  {
    var name := p + "." + l1 + "." + l2;
    var k := |p|;
    var rest := l1 + "." + l2;
    assert name[k + 1..] == rest;
    assert name[..k] == p;
    assert rest[..|l1|] == l1 && rest[|l1| + 1..] == l2;
    assert IsTwoLabels(rest);
    ZoneRootOfSplit(name, k);
  }

  /** A name the regular expression does not match is passed through unchanged. */
  lemma ZoneRootOtherwise(name: string)
    requires forall k :: !SplitsAt(name, k)
    ensures ZoneRoot(name) == name
  {
    MatchDotSplits(name);
  }

  /** Two labels are too few for the regular expression: such a name is its own root. */
  lemma ZoneRootOfTwoLabels(s: string)
    requires IsTwoLabels(s)
    ensures MatchDot(s) == -1 && ZoneRoot(s) == s
  {
    var j :| 0 <= j < |s| && s[j] == '.' && IsLabel(s[..j]) && IsLabel(s[j + 1..]);
    assert forall i :: j < i < |s| ==> s[i] == s[j + 1..][i - j - 1];
    assert LastDotBelow(s, |s|) == j;
    assert forall i :: 0 <= i < j ==> s[i] == s[..j][i];
    assert LastDotBelow(s, j) == -1;
  }

  /** A derived root never matches again, so deriving twice is deriving once. */
  lemma ZoneRootIdempotent(name: string)
    ensures ZoneRoot(ZoneRoot(name)) == ZoneRoot(name)
  {
    MatchDotSplits(name);
    if MatchDot(name) >= 0 {
      ZoneRootOfTwoLabels(name[MatchDot(name) + 1..]);
    }
  }

  /** A record one label below a registered domain is looked up under that domain. */
  lemma ZoneRootOfHost()
    ensures ZoneRoot("home.example.com") == "example.com"
  {
    MatchDotByDots("home.example.com", 4, 12);
  }

  /** Deeper names keep only their last two labels. */
  lemma ZoneRootOfDeepName()
    ensures ZoneRoot("a.b.example.com") == "example.com"
  {
    MatchDotByDots("a.b.example.com", 3, 11);
  }

  /** The limitation kept from the source: a multi-label public suffix is taken as the zone. */
  lemma ZoneRootOfPublicSuffix()
    ensures ZoneRoot("sub.host.example.co.uk") == "co.uk"
  {
    MatchDotByDots("sub.host.example.co.uk", 16, 19);
  }

  /** A bare registered domain is two labels and stays as it is. */
  lemma ZoneRootOfBareDomain()
    ensures ZoneRoot("example.com") == "example.com"
  {
    var name := "example.com";
    assert name[7] == '.' && forall j :: 0 <= j < |name| && j != 7 ==> name[j] != '.';
    assert LastDotBelow(name, |name|) == 7;
    assert LastDotBelow(name, 7) == -1;
  }

  /** Names the regular expression leaves alone because `.+?` needs a non-empty
      prefix, or a label is empty: a leading dot, a trailing dot. */
  lemma ZoneRootUnmatchedExamples()
    ensures ZoneRoot(".example.com") == ".example.com"
    ensures ZoneRoot("example.com.") == "example.com."
  {
    assert LastDotBelow(".example.com", 12) == 8;
    assert LastDotBelow(".example.com", 8) == 0;
    assert LastDotBelow("example.com.", 12) == 11;
  }
}
