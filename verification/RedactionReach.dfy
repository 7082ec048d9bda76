/**
 * How far the redaction reaches: for which secrets the diagnostics stay silent
 * whatever Compose prints, with all other secrets in the environment.
 */
module RedactionReach {
  import opened Redaction

  // ---------------------------------------------------------------- texts without spaces

  predicate Solid(s: string) {
    forall i | 0 <= i < |s| :: !IsWhitespace(s[i])
  }

  lemma {:induction false} ReplaceKeepsSolid(s: string, w: string)
    requires w != "" && Solid(s)
    ensures Solid(Replace(s, w))
    decreases |s|
  {
    if |s| >= |w| {
      ReplaceKeepsSolid(s[if s[..|w|] == w then |w| else 1..], w);
    }
  }

  lemma {:induction false} ReplaceKeepsLength(s: string, w: string)
    requires w != ""
    ensures |Replace(s, w)| * |w| >= |s|
    decreases |s|
  {
    if |s| < |w| {
      Products(|s|, 0, |w|);
    } else if s[..|w|] == w {
      ReplaceKeepsLength(s[|w|..], w);
      Products(|MARK|, |Replace(s[|w|..], w)|, |w|);
    } else {
      ReplaceKeepsLength(s[1..], w);
      Products(1, |Replace(s[1..], w)|, |w|);
    }
  }

  lemma Products(a: nat, b: nat, w: nat)
    requires w > 0
    ensures (a + b) * w == a * w + b * w && a * w >= a && (a > 0 ==> a * w >= w)
  {
  }

  lemma {:induction false} FoldKeepsSolid(s: string, values: seq<string>)
    requires NonEmpty(values) && Solid(s)
    ensures Solid(ReplaceAll(s, values))
    decreases |values|
  {
    if values != [] {
      ReplaceKeepsSolid(s, values[0]);
      FoldKeepsSolid(Replace(s, values[0]), values[1..]);
    }
  }

  /** So long that the fold cannot bring the text below the cut. */
  function Enough(values: seq<string>): nat {
    if values == [] then LIMIT + 1 else |values[0]| * Enough(values[1..])
  }

  lemma {:induction false} FoldKeepsEnough(s: string, values: seq<string>)
    requires NonEmpty(values) && |s| >= Enough(values)
    ensures |ReplaceAll(s, values)| > LIMIT
    decreases |values|
  {
    if values != [] {
      var w, r := values[0], Replace(s, values[0]);
      ReplaceKeepsLength(s, w);
      assert |r| * |w| >= Enough(values[1..]) * |w|;
      NoSmaller(|r|, Enough(values[1..]), |w|);
      FoldKeepsEnough(r, values[1..]);
    }
  }

  lemma NoSmaller(a: nat, b: nat, w: nat)
    requires w > 0 && a * w >= b * w
    ensures a >= b
  {
    assert (b - a) * w == b * w - a * w;
  }

  // --------------------------------------------------------------- the note on no output

  /** Without any output the first note is shown, whatever the secrets. */
  lemma {:induction false} NothingToReplace(values: seq<string>)
    requires NonEmpty(values)
    ensures ReplaceAll("", values) == ""
    decreases |values|
  {
    if values != [] {
      NothingToReplace(values[1..]);
    }
  }

  lemma EmptyNoteShows(secrets: seq<string>, v: string)
    requires NonEmpty(secrets) && Contains(EMPTY_NOTE, v)
    ensures Contains(Shown("", secrets), v)
  {
    SortingKeepsMembers(secrets);
    NothingToReplace(SortLongestFirst(secrets));
  }

  // ----------------------------------------------------------------- the truncation note

  /** A long enough output without white space is cut, whatever the secrets. */
  lemma TruncationNoteShows(secrets: seq<string>, v: string) returns (raw: string)
    requires NonEmpty(secrets) && Contains(TRUNCATION_NOTE, v)
    ensures Contains(Shown(raw, secrets), v)
  {
    var values := SortLongestFirst(secrets);
    SortingKeepsMembers(secrets);
    raw := seq(Enough(values), _ => '[');
    FoldKeepsEnough(raw, values);
    FoldKeepsSolid(raw, values);
    var text := ReplaceAll(raw, values);
    TrimmedStays(text);
    ShowsPrefix(TRUNCATION_NOTE, text[|text| - LIMIT..], v);
  }

  lemma ShowsPrefix(note: string, rest: string, v: string)
    requires Contains(note, v)
    ensures Contains(note + rest, v)
  {
    assert (note + rest)[..|note|] == note;
    OccursInPrefix(note + rest, |note|, v);
  }

  // ---------------------------------------------------------------------------- the mark

  lemma Regroup(a: string, x: string, m: string, y: string)
    ensures a + (x + m + y) == (a + x) + m + y
  {
  }

  lemma EmptyBefore(m: string, y: string)
    ensures "" + m + y == m + y
  {
  }

  lemma Associates(a: string, b: string, c: string)
    ensures a + (b + c) == (a + b) + c
  {
  }

  lemma SliceTwice(s: string, i: nat, k: nat)
    requires i + k <= |s|
    ensures s[i..][k..] == s[i + k..]
  {
  }

  lemma MarkBefore(s: string, w: string, x: string, k: nat)
    requires w != "" && |s| >= |w| && s[..|w|] == w && k <= |s| - |w|
    requires Replace(s[|w|..], w) == x + MARK + s[|w|..][k..]
    ensures Replace(s, w) == (MARK + x) + MARK + s[|w| + k..]
  {
    SliceTwice(s, |w|, k);
    Regroup(MARK, x, MARK, s[|w| + k..]);
  }

  lemma CharacterBefore(s: string, w: string, x: string, k: nat)
    requires w != "" && |s| >= |w| && s[..|w|] != w && k < |s|
    requires Replace(s[1..], w) == x + MARK + s[1..][k..]
    ensures Replace(s, w) == ([s[0]] + x) + MARK + s[1 + k..]
  {
    SliceTwice(s, 1, k);
    Regroup([s[0]], x, MARK, s[1 + k..]);
  }

  lemma NoMoreAfter(s: string, w: string)
    requires w != "" && |s| >= |w| && s[..|w|] == w && !Contains(s[|w|..], w)
    ensures Replace(s, w) == "" + MARK + s[|w|..]
  {
    AbsentIsKept(s[|w|..], w);
    EmptyBefore(MARK, s[|w|..]);
  }

  lemma ContainsFits(s: string, w: string)
    requires Contains(s, w)
    ensures |s| >= |w|
  {
  }

  lemma ContainsInTail(s: string, w: string)
    requires w != "" && |s| >= |w| && s[..|w|] != w && Contains(s, w)
    ensures Contains(s[1..], w)
  {
    var i: nat :| i <= |s| && OccursAt(s, i, w);
    assert s == [s[0]] + s[1..];
    OccursInTail(s[1..], s[0], i, w);
  }

  /** The last replacement, and the untouched text after it. */
  lemma {:induction false} LastReplacement(s: string, w: string) returns (x: string, k: nat)
    requires w != "" && Contains(s, w)
    ensures |w| <= k <= |s| && Replace(s, w) == x + MARK + s[k..]
    decreases |s|
  {
    ContainsFits(s, w);
    if s[..|w|] != w {
      ContainsInTail(s, w);
      x, k := LastReplacement(s[1..], w);
      CharacterBefore(s, w, x, k);
      x, k := [s[0]] + x, 1 + k;
    } else if Contains(s[|w|..], w) {
      x, k := LastReplacement(s[|w|..], w);
      MarkBefore(s, w, x, k);
      x, k := MARK + x, |w| + k;
    } else {
      NoMoreAfter(s, w);
      x, k := "", |w|;
    }
  }

  /** The text is `x`, a mark, and `t`. */
  predicate EndsInMark(s: string, x: string, t: string) {
    s == x + MARK + t
  }

  /** Behind the last mark at most nine characters are added by one replacement. */
  lemma MarkStaysNearEnd(s: string, x: string, t: string, w: string) returns (x': string, t': string)
    requires w != "" && EndsInMark(s, x, t)
    ensures EndsInMark(Replace(s, w), x', t') && |t'| <= |t| + 9
  {
    x', t' := x, t;
    if Contains(s, w) {
      var y, k := LastReplacement(s, w);
      if k <= |x| {
        x', t' := y + MARK + x[k..], t;
        assert s[k..] == x[k..] + MARK + t;
        assert y + MARK + (x[k..] + MARK + t) == x' + MARK + t';
      } else {
        x', t' := y, s[k..];
      }
    } else {
      AbsentIsKept(s, w);
    }
  }

  lemma {:induction false} FoldKeepsMarkNearEnd(s: string, x: string, t: string, values: seq<string>)
    returns (x': string, t': string)
    requires NonEmpty(values) && EndsInMark(s, x, t)
    ensures EndsInMark(ReplaceAll(s, values), x', t') && |t'| <= |t| + 9 * |values|
    decreases |values|
  {
    x', t' := x, t;
    if values != [] {
      x', t' := MarkStaysNearEnd(s, x, t, values[0]);
      x', t' := FoldKeepsMarkNearEnd(Replace(s, values[0]), x', t', values[1..]);
    }
  }

  lemma MarkNearEndShows(s: string, x: string, t: string, v: string)
    requires EndsInMark(s, x, t) && Solid(s) && |t| + |MARK| <= LIMIT && Contains(MARK, v)
    ensures Contains(Present(s), v)
  {
    TrimmedStays(s);
    var shown := if |s| <= LIMIT then s else s[|s| - LIMIT..];
    var i := |shown| - |t| - |MARK|;
    assert shown[i..][..|MARK|] == MARK;
    OccursInPrefix(shown[i..], |MARK|, v);
    OccursInSuffix(shown, i, v);
    if |s| > LIMIT {
      assert Present(s)[|TRUNCATION_NOTE|..] == shown;
      OccursInSuffix(Present(s), |TRUNCATION_NOTE|, v);
    }
  }

  lemma {:induction false} LengthAdds(a: string, b: string)
    ensures Utf8Length(a + b) == Utf8Length(a) + Utf8Length(b)
  {
    if a == "" {
      assert a + b == b;
    } else {
      assert (a + b)[1..] == a[1..] + b;
      LengthAdds(a[1..], b);
    }
  }

  /** Lengths are in bytes of UTF-8 (section 3 of RFC 3629). */
  lemma LengthOfCharacter(c: char)
    ensures Utf8Length([c]) ==
            if c <= '\U{7F}' then 1 else if c <= '\U{7FF}' then 2 else if c <= '\U{FFFF}' then 3 else 4
  {
    assert [c][1..] == "";
  }

  /** A string holds no other string that is at least as long. */
  lemma OnlyShorterOccur(v: string, w: string)
    requires Utf8Length(w) >= Utf8Length(v) && Contains(v, w)
    ensures w == v
  {
    var i: nat :| i <= |v| && OccursAt(v, i, w);
    var a, b := v[..i], v[i + |w|..];
    assert v == a + (w + b);
    LengthAdds(a, w + b);
    LengthAdds(w, b);
    assert a == "" && b == "";
  }

  /** An output that is one of the secrets becomes the mark, before the secrets that follow it. */
  lemma SecretBecomesMark(values: seq<string>, k: nat)
    requires NonEmpty(values) && LongestFirst(values) && k < |values| && values[k] !in values[..k]
    ensures ReplaceAll(values[k], values) == ReplaceAll(MARK, values[k + 1..])
  {
    var v := values[k];
    forall w | w in values && w != v && Utf8Length(w) >= Utf8Length(v)
      ensures !Contains(v, w)
    {
      if Contains(v, w) {
        OnlyShorterOccur(v, w);
      }
    }
    WholeValuesGoFirst(v, values, k);
    ReplacedBySelf(v);
  }

  lemma ReplacedBySelf(v: string)
    requires v != ""
    ensures Replace(v, v) == MARK
  {
    assert v[..|v|] == v && v[|v|..] == "";
    assert MARK + "" == MARK;
  }

  lemma {:induction false} FirstIndex(values: seq<string>, v: string) returns (k: nat)
    requires v in values
    ensures k < |values| && values[k] == v && v !in values[..k]
  {
    k := 0;
    if values[0] != v {
      k := FirstIndex(values[1..], v);
      k := k + 1;
      assert values[..k] == [values[0]] + values[1..][..k - 1];
    }
  }

  lemma SortingKeepsCount(values: seq<string>)
    ensures |SortLongestFirst(values)| == |values|
  {
    SortingOrders(values);
    assert |SortLongestFirst(values)| == |multiset(SortLongestFirst(values))| == |multiset(values)|;
  }

  /** So few that the cut cannot remove the last mark. */
  const FEW := 444

  lemma FewKeepMark(text: string, values: seq<string>, v: string)
    requires NonEmpty(values) && |values| < FEW && Contains(MARK, v)
    requires EndsInMark(text, "", "") && Solid(text)
    ensures Contains(Present(ReplaceAll(text, values)), v)
  {
    var x, t := FoldKeepsMarkNearEnd(text, "", "", values);
    FoldKeepsSolid(text, values);
    MarkNearEndShows(ReplaceAll(text, values), x, t, v);
  }

  lemma MarkIsSolid()
    ensures EndsInMark(MARK, "", "") && Solid(MARK)
  {
    assert "" + MARK + "" == MARK;
  }

  lemma FewShowMark(values: seq<string>, k: nat)
    requires NonEmpty(values) && LongestFirst(values) && |values| <= FEW
    requires k < |values| && values[k] !in values[..k] && Contains(MARK, values[k])
    ensures Contains(Present(ReplaceAll(values[k], values)), values[k])
  {
    SecretBecomesMark(values, k);
    MarkIsSolid();
    FewKeepMark(MARK, values[k + 1..], values[k]);
  }

  /** With few secrets, repeated or not: printing `v` itself leaves a mark close enough to the end. */
  lemma MarkShowsAmongFew(secrets: seq<string>, v: string)
    requires NonEmpty(secrets) && v in secrets && |secrets| <= FEW && Contains(MARK, v)
    ensures Contains(Shown(v, secrets), v)
  {
    var values := SortLongestFirst(secrets);
    SortingKeepsMembers(secrets);
    SortingOrders(secrets);
    SortingKeepsCount(secrets);
    var k := FirstIndex(values, v);
    FewShowMark(values, k);
  }

  // ------------------------------------------------- repeated pieces of the mark, or few

  /** A piece of the mark that is a secret is one only once. */
  predicate PiecesUnrepeated(secrets: seq<string>) {
    forall w | w in secrets && Contains(MARK, w) :: multiset(secrets)[w] == 1
  }

  lemma {:induction false} CountedOnce(secrets: seq<string>, w: string)
    requires forall i, j | 0 <= i < j < |secrets| :: secrets[i] != secrets[j]
    ensures multiset(secrets)[w] == if w in secrets then 1 else 0
  {
    if secrets != [] {
      assert secrets == [secrets[0]] + secrets[1..];
      assert secrets[0] !in secrets[1..];
      CountedOnce(secrets[1..], w);
    }
  }

  /** In particular pairwise distinct secrets repeat nothing. */
  lemma DistinctAreUnrepeated(secrets: seq<string>)
    requires forall i, j | 0 <= i < j < |secrets| :: secrets[i] != secrets[j]
    ensures PiecesUnrepeated(secrets)
  {
    forall w | w in secrets
      ensures multiset(secrets)[w] == 1
    {
      CountedOnce(secrets, w);
    }
  }

  lemma {:induction false} LastPiece(values: seq<string>) returns (k: nat)
    requires exists w :: w in values && Contains(MARK, w)
    ensures k < |values| && Contains(MARK, values[k])
    ensures forall w | w in values[k + 1..] :: !Contains(MARK, w)
    decreases |values|
  {
    var w :| w in values && Contains(MARK, w);
    k := |values| - 1;
    if !Contains(MARK, values[k]) {
      assert values == values[..k] + [values[k]];
      assert w in values[..k];
      var n := k;
      k := LastPiece(values[..k]);
      assert values[k + 1..] == values[..n][k + 1..] + [values[n]];
    }
  }

  lemma OnceMeansFirst(values: seq<string>, k: nat)
    requires k < |values| && multiset(values)[values[k]] == 1
    ensures values[k] !in values[..k]
  {
    assert values == values[..k] + [values[k]] + values[k + 1..];
    assert values[k] in values[..k] <==> values[k] in multiset(values[..k]);
  }

  /** With the pieces of the mark unrepeated: printing the last of them leaves exactly the mark. */
  lemma MarkShowsUnrepeated(secrets: seq<string>, v: string) returns (raw: string)
    requires NonEmpty(secrets) && v in secrets && PiecesUnrepeated(secrets) && Contains(MARK, v)
    ensures Contains(Shown(raw, secrets), v)
  {
    var values := SortLongestFirst(secrets);
    SortingKeepsMembers(secrets);
    SortingOrders(secrets);
    assert v in values;
    var k := LastPiece(values);
    raw := values[k];
    assert raw in secrets;
    OnceMeansFirst(values, k);
    SecretBecomesMark(values, k);
    FoldKeepsAbsent(MARK, values[k + 1..]);
    TrimmedStays(MARK);
  }

  // ------------------------------------------------------------ secrets without white space

  /** A plain secret inside one of the fixed texts is shown for some output. */
  lemma FixedTextShows(secrets: seq<string>, v: string) returns (raw: string)
    requires NonEmpty(secrets) && v in secrets && Plain(v) && InfixOfFixedText(v)
    requires |secrets| <= FEW || PiecesUnrepeated(secrets)
    ensures Contains(Shown(raw, secrets), v)
  {
    if Contains(EMPTY_NOTE, v) {
      raw := "";
      EmptyNoteShows(secrets, v);
    } else if Contains(TRUNCATION_NOTE, v) {
      raw := TruncationNoteShows(secrets, v);
    } else if |secrets| <= FEW {
      raw := v;
      MarkShowsAmongFew(secrets, v);
    } else {
      raw := MarkShowsUnrepeated(secrets, v);
    }
  }

  /**
   * A secret without brackets and white space stays hidden for every output,
   * among any other secrets, exactly when no fixed text holds it.  Secrets may
   * repeat; a piece of the mark may not, unless the secrets are few.
   */
  lemma PlainSecretsStayHiddenExactly(secrets: seq<string>, v: string)
    requires NonEmpty(secrets) && v in secrets && Plain(v)
    requires |secrets| <= FEW || PiecesUnrepeated(secrets)
    ensures (forall raw: string :: !Contains(Shown(raw, secrets), v)) <==> !InfixOfFixedText(v)
  {
    if InfixOfFixedText(v) {
      var raw := FixedTextShows(secrets, v);
    } else {
      PlainIsApart(v);
      forall raw: string
        ensures !Contains(Shown(raw, secrets), v)
      {
        RedactionHides(raw, secrets);
      }
    }
  }

  // --------------------------------------------------- secrets with space, or that end in ']'

  predicate MadeOf(s: string, letters: set<char>) {
    forall i | 0 <= i < |s| :: s[i] in letters
  }

  /** `v` is a secret once, and every other one has some character besides these letters. */
  predicate Aloof(secrets: seq<string>, v: string, letters: set<char>) {
    multiset(secrets)[v] == 1 && forall w | w in secrets && w != v :: !MadeOf(w, letters)
  }

  /** `v` begins with some end of `a`. */
  predicate BeginsWithEndOf(v: string, a: string) {
    exists k | 0 <= k < |a| :: a[k..] <= v
  }

  lemma ForeignIsAbsent(text: string, letters: set<char>, w: string)
    requires MadeOf(text, letters) && !MadeOf(w, letters)
    ensures !Contains(text, w)
  {
    var j :| 0 <= j < |w| && w[j] !in letters;
    forall i: nat | i <= |text|
      ensures !OccursAt(text, i, w)
    {
      assert i + |w| <= |text| ==> text[i..i + |w|][j] == text[i + j];
    }
  }

  lemma OnlyOneFolded(values: seq<string>, v: string, letters: set<char>, raw: string)
    requires NonEmpty(values) && LongestFirst(values) && v in values && Aloof(values, v, letters)
    requires MadeOf(raw, letters) && MadeOf(Replace(raw, v), letters)
    ensures ReplaceAll(raw, values) == Replace(raw, v)
  {
    var k := FirstIndex(values, v);
    var after := Replace(raw, v);
    forall w | w in values && w != v
      ensures !Contains(raw, w) && !Contains(after, w)
    {
      ForeignIsAbsent(raw, letters, w);
      ForeignIsAbsent(after, letters, w);
    }
    WholeValuesGoFirst(raw, values, k);
    OnceMeansLast(values, k);
    assert forall w | w in values[k + 1..] :: w in values;
    FoldKeepsAbsent(after, values[k + 1..]);
  }

  /** Among aloof secrets a text of these letters sees only the replacement of `v`. */
  lemma OnlyOneReplaced(secrets: seq<string>, v: string, letters: set<char>, raw: string)
    requires NonEmpty(secrets) && v in secrets && Aloof(secrets, v, letters)
    requires MadeOf(raw, letters) && MadeOf(Replace(raw, v), letters)
    ensures Shown(raw, secrets) == Present(Replace(raw, v))
  {
    SortingKeepsMembers(secrets);
    SortingOrders(secrets);
    OnlyOneFolded(SortLongestFirst(secrets), v, letters, raw);
  }

  lemma OnceMeansLast(values: seq<string>, k: nat)
    requires k < |values| && multiset(values)[values[k]] == 1
    ensures values[k] !in values[k + 1..]
  {
    assert values == values[..k] + [values[k]] + values[k + 1..];
    assert values[k] in values[k + 1..] <==> values[k] in multiset(values[k + 1..]);
  }

  predicate Brackets(s: string) {
    forall i | 0 <= i < |s| :: s[i] == '['
  }

  /** A value without '[' occurs among brackets only inside what is no bracket. */
  lemma TooShortBetweenBrackets(a: string, q: string, b: string, v: string)
    requires Brackets(a) && Brackets(b) && '[' !in v && |q| < |v|
    ensures !Contains(a + q + b, v)
  {
    var s := a + q + b;
    forall i: nat | i <= |s|
      ensures !OccursAt(s, i, v)
    {
      assert i + |v| <= |s| ==> s[i..i + |v|][0] == s[i] && s[i..i + |v|][|v| - 1] == s[i + |v| - 1];
      assert v[0] in v && v[|v| - 1] in v;
    }
  }

  lemma ReplacesLeading(v: string, q: string)
    requires v != "" && !Contains(q, v)
    ensures Replace(v + q, v) == MARK + q
  {
    assert (v + q)[..|v|] == v && (v + q)[|v|..] == q;
    AbsentIsKept(q, v);
  }

  lemma OccursBehindCut(text: string, cut: nat, k: nat, v: string)
    requires cut <= k && OccursAt(text, k, v)
    ensures Contains(text[cut..], v)
  {
    assert text[cut..][k - cut..k - cut + |v|] == text[k..k + |v|];
    assert OccursAt(text[cut..], k - cut, v);
  }

  lemma ShowsRest(note: string, rest: string, v: string)
    requires Contains(rest, v)
    ensures Contains(note + rest, v)
  {
    assert (note + rest)[|note|..] == rest;
    OccursInSuffix(note + rest, |note|, v);
  }

  lemma TidyIsPresented(text: string)
    requires text != "" && !IsWhitespace(text[0]) && !IsWhitespace(text[|text| - 1])
    ensures Present(text) == if |text| <= LIMIT then text else TRUNCATION_NOTE + text[|text| - LIMIT..]
  {
    TrimmedStays(text);
  }

  /** A text is shown up to its last four thousand characters. */
  lemma EndIsShown(text: string, k: nat, v: string)
    requires text != "" && !IsWhitespace(text[0]) && !IsWhitespace(text[|text| - 1])
    requires OccursAt(text, k, v) && |text| - k <= LIMIT
    ensures Contains(Present(text), v)
  {
    TidyIsPresented(text);
    if |text| > LIMIT {
      OccursBehindCut(text, |text| - LIMIT, k, v);
      ShowsRest(TRUNCATION_NOTE, text[|text| - LIMIT..], v);
    }
  }

  lemma EndOfFront(a: string, k: nat, q: string, b: string)
    requires k <= |a|
    ensures OccursAt(a + (q + b), k, a[k..] + q)
  {
    assert (a + (q + b))[k..k + |a[k..] + q|] == a[k..] + q;
  }

  /** The letters of the mark and of a secret. */
  predicate Covers(letters: set<char>, v: string) {
    MadeOf(MARK, letters) && MadeOf(v, letters)
  }

  lemma BracketIsCovered(letters: set<char>, v: string)
    requires Covers(letters, v)
    ensures '[' in letters
  {
    assert MARK[0] == '[';
  }

  /** `v` once more, without what the mark will supply of it: the mark and the rest of `v`. */
  lemma SecondCopyCompleted(v: string, q: string)
    requires '[' !in v && |q| < |v|
    ensures Replace(v + (q + "["), v) == MARK + (q + "[")
  {
    assert "" + q + "[" == q + "[";
    TooShortBetweenBrackets("", q, "[", v);
    ReplacesLeading(v, q + "[");
  }

  lemma CompletedIsShown(k: nat, q: string)
    requires k < |MARK| && |MARK[k..] + q| < LIMIT
    ensures Contains(Present(MARK + (q + "[")), MARK[k..] + q)
  {
    var text := MARK + (q + "[");
    EndOfFront(MARK, k, q, "[");
    assert text[0] == '[' && text[|text| - 1] == '[';
    EndIsShown(text, k, MARK[k..] + q);
  }

  /** A secret that begins with an end of the mark is shown: the mark of the one before completes it. */
  lemma MarkCompletes(secrets: seq<string>, v: string, letters: set<char>, k: nat)
    requires NonEmpty(secrets) && v in secrets && Aloof(secrets, v, letters) && Covers(letters, v)
    requires '[' !in v && |v| < LIMIT && k < |MARK| && MARK[k..] <= v
    ensures Contains(Shown(v + (v[|MARK| - k..] + "["), secrets), v)
  {
    var q := v[|MARK| - k..];
    assert v == MARK[k..] + q;
    BracketIsCovered(letters, v);
    SecondCopyCompleted(v, q);
    OnlyOneReplaced(secrets, v, letters, v + (q + "["));
    CompletedIsShown(k, q);
  }

  lemma CutAfterBracket(q: string, rest: string)
    requires |q| + |rest| == LIMIT && rest != "" && Brackets(rest)
    ensures Present("[" + q + rest) == TRUNCATION_NOTE + (q + rest)
  {
    var raw := "[" + q + rest;
    assert raw[|raw| - 1] == rest[|rest| - 1];
    TrimmedStays(raw);
    assert raw[1..] == q + rest;
  }

  /** A secret that begins with an end of the truncation note is shown behind it. */
  lemma NoteCompletesSecret(secrets: seq<string>, v: string, letters: set<char>, k: nat) returns (raw: string)
    requires NonEmpty(secrets) && v in secrets && Aloof(secrets, v, letters) && Covers(letters, v)
    requires '[' !in v && |v| < LIMIT && k < |TRUNCATION_NOTE| && TRUNCATION_NOTE[k..] <= v
    ensures Contains(Shown(raw, secrets), v)
  {
    var q := v[|TRUNCATION_NOTE| - k..];
    var rest := seq(LIMIT - |q|, _ => '[');
    raw := "[" + q + rest;
    assert v == TRUNCATION_NOTE[k..] + q;
    BracketIsCovered(letters, v);
    TooShortBetweenBrackets("[", q, rest, v);
    AbsentIsKept(raw, v);
    OnlyOneReplaced(secrets, v, letters, raw);
    CutAfterBracket(q, rest);
    EndOfFront(TRUNCATION_NOTE, k, q, rest);
  }

  /** A secret that is a piece of the mark is shown by it. */
  lemma MarkShowsAloof(secrets: seq<string>, v: string, letters: set<char>)
    requires NonEmpty(secrets) && v in secrets && Aloof(secrets, v, letters) && Covers(letters, v)
    requires Contains(MARK, v)
    ensures Contains(Shown(v, secrets), v)
  {
    ReplacedBySelf(v);
    OnlyOneReplaced(secrets, v, letters, v);
    TrimmedStays(MARK);
  }

  lemma BracketFreeIsApart(v: string)
    requires v != "" && '[' !in v && !BeginsWithEndOf(v, MARK) && !BeginsWithEndOf(v, TRUNCATION_NOTE)
    ensures Apart(v)
  {
    forall k | 0 <= k < |v|
      ensures !(v[k..] <= MARK) && !(MARK <= v[k..])
    {
      assert v[k..][0] == v[k] && v[k] in v;
      assert MARK[0] == '[';
    }
  }

  /** A bracket-free secret outside the reach of the redaction is shown for some output. */
  lemma UnredactableShows(secrets: seq<string>, v: string, letters: set<char>) returns (raw: string)
    requires NonEmpty(secrets) && v in secrets && Aloof(secrets, v, letters) && Covers(letters, v)
    requires '[' !in v && |v| < LIMIT
    requires InfixOfFixedText(v) || BeginsWithEndOf(v, MARK) || BeginsWithEndOf(v, TRUNCATION_NOTE)
    ensures Contains(Shown(raw, secrets), v)
  {
    if Contains(EMPTY_NOTE, v) {
      raw := "";
      EmptyNoteShows(secrets, v);
    } else if Contains(TRUNCATION_NOTE, v) {
      raw := TruncationNoteShows(secrets, v);
    } else if Contains(MARK, v) {
      raw := v;
      MarkShowsAloof(secrets, v, letters);
    } else if BeginsWithEndOf(v, MARK) {
      var k :| 0 <= k < |MARK| && MARK[k..] <= v;
      raw := v + (v[|MARK| - k..] + "[");
      MarkCompletes(secrets, v, letters, k);
    } else {
      var k :| 0 <= k < |TRUNCATION_NOTE| && TRUNCATION_NOTE[k..] <= v;
      raw := NoteCompletesSecret(secrets, v, letters, k);
    }
  }

  /**
   * A secret without '[', with or without white space, stays hidden for every
   * output among aloof secrets exactly when no fixed text holds it and it begins
   * with no end of the mark or of the truncation note.
   */
  lemma BracketFreeSecretsStayHiddenExactly(secrets: seq<string>, v: string, letters: set<char>)
    requires NonEmpty(secrets) && v in secrets && Aloof(secrets, v, letters) && Covers(letters, v)
    requires '[' !in v && |v| < LIMIT
    ensures (forall raw: string :: !Contains(Shown(raw, secrets), v)) <==>
            !InfixOfFixedText(v) && !BeginsWithEndOf(v, MARK) && !BeginsWithEndOf(v, TRUNCATION_NOTE)
  {
    if InfixOfFixedText(v) || BeginsWithEndOf(v, MARK) || BeginsWithEndOf(v, TRUNCATION_NOTE) {
      var raw := UnredactableShows(secrets, v, letters);
    } else {
      BracketFreeIsApart(v);
      forall raw: string
        ensures !Contains(Shown(raw, secrets), v)
      {
        RedactionHides(raw, secrets);
      }
    }
  }

  // ---------------------------------------------------------------- the same of diagnostics

  lemma DiagnosticsOfOne(stdout: string, environment: seq<Entry>)
    ensures Diagnostics(stdout, "", environment) == Shown(stdout, Secrets(environment))
  {
    assert stdout + "" == stdout;
  }

  /** Some output of Compose makes the diagnostics show a plain secret that one of the fixed texts holds. */
  lemma FixedTextsShow(environment: seq<Entry>, v: string) returns (stdout: string)
    requires v in Secrets(environment) && Plain(v) && InfixOfFixedText(v)
    requires |Secrets(environment)| <= FEW || PiecesUnrepeated(Secrets(environment))
    ensures Contains(Diagnostics(stdout, "", environment), v)
  {
    stdout := FixedTextShows(Secrets(environment), v);
    DiagnosticsOfOne(stdout, environment);
  }

  lemma DiagnosticsHidePlainSecretsExactly(environment: seq<Entry>, v: string)
    requires v in Secrets(environment) && Plain(v)
    requires |Secrets(environment)| <= FEW || PiecesUnrepeated(Secrets(environment))
    ensures (forall stdout: string, stderr: string :: !Contains(Diagnostics(stdout, stderr, environment), v))
            <==> !InfixOfFixedText(v)
  {
    PlainSecretsStayHiddenExactly(Secrets(environment), v);
    if InfixOfFixedText(v) {
      var stdout := FixedTextsShow(environment, v);
    }
  }

  /** A secret that begins with an end of the mark is shown by printing it and then the rest of it and a bracket. */
  lemma MarkCompletesSecret(environment: seq<Entry>, v: string, letters: set<char>, k: nat)
    requires v in Secrets(environment) && Aloof(Secrets(environment), v, letters) && Covers(letters, v)
    requires '[' !in v && |v| < LIMIT && k < |MARK| && MARK[k..] <= v
    ensures Contains(Diagnostics(v + (v[|MARK| - k..] + "["), "", environment), v)
  {
    MarkCompletes(Secrets(environment), v, letters, k);
    DiagnosticsOfOne(v + (v[|MARK| - k..] + "["), environment);
  }

  lemma DiagnosticsHideBracketFreeSecretsExactly(environment: seq<Entry>, v: string, letters: set<char>)
    requires v in Secrets(environment) && Aloof(Secrets(environment), v, letters) && Covers(letters, v)
    requires '[' !in v && |v| < LIMIT
    ensures (forall stdout: string, stderr: string :: !Contains(Diagnostics(stdout, stderr, environment), v)) <==>
            !InfixOfFixedText(v) && !BeginsWithEndOf(v, MARK) && !BeginsWithEndOf(v, TRUNCATION_NOTE)
  {
    BracketFreeSecretsStayHiddenExactly(Secrets(environment), v, letters);
    if exists raw: string :: Contains(Shown(raw, Secrets(environment)), v) {
      var raw: string :| Contains(Shown(raw, Secrets(environment)), v);
      DiagnosticsOfOne(raw, environment);
    }
  }

  /**
   * Of an output that is a secret nothing is left but the mark, whatever shorter
   * secrets it contains: the longest goes first.
   */
  lemma SecretAloneShowsMark(stdout: string, stderr: string, environment: seq<Entry>)
    requires IsSecretOf(environment, stdout + stderr)
    requires forall w: string | IsSecretOf(environment, w) :: !Contains("[REDACTED]", w)
    ensures Diagnostics(stdout, stderr, environment) == "[REDACTED]"
  {
    var secrets, v := Secrets(environment), stdout + stderr;
    var values := SortLongestFirst(secrets);
    SecretsExactly(environment, v);
    SortingKeepsMembers(secrets);
    SortingOrders(secrets);
    var k := FirstIndex(values, v);
    SecretBecomesMark(values, k);
    forall w | w in values[k + 1..]
      ensures !Contains(MARK, w)
    {
      assert w in values;
      SecretsExactly(environment, w);
    }
    FoldKeepsAbsent(MARK, values[k + 1..]);
    TrimmedStays(MARK);
  }

  // ------------------------------------------------------- why pieces must not repeat

  predicate Lacks(s: string, c: char) {
    forall i | 0 <= i < |s| :: s[i] != c
  }

  /** No 'E' is left in the last `n` characters up to some closing bracket, nor after it. */
  ghost predicate Outlived(s: string, n: nat) {
    Lacks(s, 'E') || exists e :: OutlivedAt(s, n, e)
  }

  predicate OutlivedAt(s: string, n: nat, e: nat) {
    n <= e <= |s| && (n > 0 ==> s[e - 1] == ']') && Lacks(s[e - n..], 'E')
  }

  lemma {:induction false} OneCharacterSplits(a: string, b: string, c: char)
    ensures Replace(a + b, [c]) == Replace(a, [c]) + Replace(b, [c])
  {
    if a == "" {
      assert a + b == b;
    } else {
      assert (a + b)[1..] == a[1..] + b && (a + b)[..1] == [a[0]] == a[..1];
      OneCharacterSplits(a[1..], b, c);
      Associates(if a[..1] == [c] then MARK else [a[0]], Replace(a[1..], [c]), Replace(b, [c]));
    }
  }

  lemma {:induction false} LackingIsKept(s: string, c: char)
    requires Lacks(s, c)
    ensures Replace(s, [c]) == s
  {
    if s != "" {
      assert s[..1] == [s[0]];
      LackingIsKept(s[1..], c);
    }
  }

  lemma {:induction false} LastE(s: string) returns (p: nat)
    requires !Lacks(s, 'E')
    ensures p < |s| && s[p] == 'E' && Lacks(s[p + 1..], 'E')
    decreases |s|
  {
    p := |s| - 1;
    if s[p] != 'E' {
      var n := p;
      p := LastE(s[..n]);
      assert s[p + 1..] == s[..n][p + 1..] + [s[n]];
    }
  }

  /** Replacing every 'E' by the mark puts "D]" behind the last one. */
  lemma OutlivedGrows(s: string, n: nat)
    requires Outlived(s, n)
    ensures Outlived(Replace(s, "E"), n + 2)
  {
    if Lacks(s, 'E') {
      LackingIsKept(s, 'E');
    } else {
      var e: nat :| OutlivedAt(s, n, e);
      var p := LastE(s);
      OutlivedBeyond(s, n, e, p);
    }
  }

  lemma OutlivedBeyond(s: string, n: nat, e: nat, p: nat)
    requires OutlivedAt(s, n, e) && p < |s| && s[p] == 'E' && Lacks(s[p + 1..], 'E')
    ensures Outlived(Replace(s, "E"), n + 2)
  {
    var a, b := s[..p], s[p + 1..];
    assert s == a + (['E'] + b);
    OneCharacterSplits(a, ['E'] + b, 'E');
    OneCharacterSplits(['E'], b, 'E');
    LackingIsKept(b, 'E');
    ReplacedBySelf("E");
    var r, x := Replace(s, "E"), Replace(a, "E");
    assert r == x + (MARK + b);
    assert forall j | e - n <= j < |s| :: s[j] == s[e - n..][j - (e - n)];
    BehindLastMark(x, b, n, if n == 0 then 0 else e - p - 1);
  }

  lemma BehindLastMark(x: string, b: string, n: nat, e: nat)
    requires Lacks(b, 'E') && n <= e <= |b| && (n == 0 ==> e == 0) && (n > 0 ==> b[e - 1] == ']')
    ensures Outlived(x + (MARK + b), n + 2)
  {
    var r, e' := x + (MARK + b), |x| + |MARK| + e;
    assert MARK[8] == 'D' && MARK[9] == ']';
    assert r[e' - 1] == ']';
    var tail := r[e' - (n + 2)..];
    forall i | 0 <= i < |tail|
      ensures tail[i] != 'E'
    {
      assert tail[i] == (MARK + b)[e' - (n + 2) + i - |x|];
    }
    assert OutlivedAt(r, n + 2, e');
  }

  function Es(n: nat): seq<string> {
    if n == 0 then [] else ["E"] + Es(n - 1)
  }

  lemma {:induction false} EsAreEs(n: nat)
    ensures |Es(n)| == n && forall i | 0 <= i < n :: Es(n)[i] == "E"
  {
    if n > 0 {
      EsAreEs(n - 1);
    }
  }

  lemma {:induction false} RepeatsOutlive(s: string, n: nat, m: nat)
    requires Outlived(s, m)
    ensures NonEmpty(Es(n)) && Outlived(ReplaceAll(s, Es(n)), m + 2 * n)
    decreases n
  {
    EsAreEs(n);
    if n > 0 {
      OutlivedGrows(s, m);
      assert Es(n)[1..] == Es(n - 1);
      RepeatsOutlive(Replace(s, "E"), n - 1, m + 2);
    }
  }

  lemma {:induction false} NothingOutlived(s: string)
    ensures Outlived(s, 0)
  {
    assert OutlivedAt(s, 0, |s|);
  }

  lemma TrimKeepsBracket(s: string, i: nat, k: nat, e: nat)
    requires i <= |s| && k <= |s| - i && 0 < e <= |s| && s[e - 1] == ']'
    requires forall j | k <= j < |s| - i :: IsWhitespace(s[i..][j])
    ensures i + k >= e
  {
    assert e - 1 >= i ==> s[i..][e - 1 - i] == ']';
  }

  lemma TailLacks(s: string, i: nat, cut: nat, n: nat, e: nat)
    requires OutlivedAt(s, n, e) && i + cut <= |s| && i + cut >= e - n
    ensures Lacks(s[i + cut..], 'E')
  {
    assert s[i + cut..] == s[e - n..][i + cut - (e - n)..];
  }

  lemma NotesLack()
    ensures Lacks(EMPTY_NOTE, 'E') && Lacks(TRUNCATION_NOTE, 'E')
  {
  }

  /** Where the part of the message that is kept starts. */
  function Cut(message: string): nat {
    if |message| <= LIMIT then 0 else |message| - LIMIT
  }

  lemma PresentLacks(s: string)
    requires Lacks(Trim(s)[Cut(Trim(s))..], 'E')
    ensures Lacks(Present(s), 'E')
  {
    NotesLack();
    var message := Trim(s);
    if message != "" && |message| <= LIMIT {
      assert message[0..] == message;
    }
  }

  lemma OutlivedIsCut(s: string, n: nat)
    requires Outlived(s, n) && n >= LIMIT
    ensures Lacks(Present(s), 'E')
  {
    var i := TrimStartIsSuffix(s);
    var k := TrimEndIsPrefix(TrimStart(s));
    var message, cut := Trim(s), Cut(Trim(s));
    assert message == s[i..][..k];
    assert message[cut..] == s[i + cut..][..k - cut];
    if !Lacks(s, 'E') {
      var e: nat :| OutlivedAt(s, n, e);
      TrimKeepsBracket(s, i, k, e);
      TailLacks(s, i, cut, n, e);
    }
    PresentLacks(s);
  }

  lemma {:induction false} SortedStays(values: seq<string>)
    requires LongestFirst(values)
    ensures SortLongestFirst(values) == values
  {
    if values != [] {
      SortedStays(values[1..]);
    }
  }

  /**
   * The hypothesis on repeats cannot be dropped: "RED" is a piece of the mark,
   * yet two thousand and one copies of "E" beside it keep it from ever being shown.
   */
  lemma RepeatsCanHide(n: nat, raw: string)
    requires n > LIMIT / 2
    ensures NonEmpty(["RED"] + Es(n)) && Plain("RED") && InfixOfFixedText("RED")
    ensures !Contains(Shown(raw, ["RED"] + Es(n)), "RED")
  {
    var secrets := ["RED"] + Es(n);
    EsAreEs(n);
    assert MARK[1..4] == "RED";
    assert OccursAt(MARK, 1, "RED");
    RedIsLonger();
    SortedStays(secrets);
    assert secrets[1..] == Es(n);
    NothingOutlived(Replace(raw, "RED"));
    RepeatsOutlive(Replace(raw, "RED"), n, 0);
    OutlivedIsCut(ReplaceAll(raw, secrets), 2 * n);
    LackingHidesRed(Shown(raw, secrets));
  }

  lemma RedIsLonger()
    ensures Utf8Length("RED") >= Utf8Length("E")
  {
    assert "RED"[1..] == "ED" && "ED"[1..] == "D" && "E"[1..] == "" && "D"[1..] == "";
  }

  lemma LackingHidesRed(s: string)
    requires Lacks(s, 'E')
    ensures !Contains(s, "RED")
  {
    forall i: nat | i <= |s|
      ensures !OccursAt(s, i, "RED")
    {
      assert i + 3 <= |s| ==> s[i..i + 3][1] == s[i + 1] && "RED"[1] == 'E';
    }
  }
}
