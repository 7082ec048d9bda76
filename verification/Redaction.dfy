/** Diagnostics of a failed command, with every configured secret replaced. */
module Redaction {
  import opened Wrappers

  const MARK := "[REDACTED]"
  const EMPTY_NOTE := "Compose returned no diagnostic output"
  const TRUNCATION_NOTE := "[earlier diagnostics truncated] "
  const LIMIT := 4000

  predicate OccursAt(s: string, i: nat, w: string) {
    i + |w| <= |s| && s[i..i + |w|] == w
  }

  predicate Contains(s: string, w: string) {
    exists i | 0 <= i <= |s| :: OccursAt(s, i, w)
  }

  /** str::replace: every leftmost, non-overlapping occurrence of a non-empty value. */
  function Replace(s: string, w: string): string
    requires w != ""
  {
    if |s| < |w| then s
    else if s[..|w|] == w then MARK + Replace(s[|w|..], w)
    else [s[0]] + Replace(s[1..], w)
  }

  predicate NonEmpty(values: seq<string>) {
    forall i | 0 <= i < |values| :: values[i] != ""
  }

  /** One value after the other. */
  function ReplaceAll(s: string, values: seq<string>): string
    requires NonEmpty(values)
    decreases |values|
  {
    if values == [] then s else ReplaceAll(Replace(s, values[0]), values[1..])
  }

  // ----------------------------------------------------------------- the final text

  /** The characters str::trim removes: Unicode White_Space. */
  predicate IsWhitespace(c: char) {
    var n := c as int;
    9 <= n <= 13 || n in {0x20, 0x85, 0xA0, 0x1680, 0x2028, 0x2029, 0x202F, 0x205F, 0x3000} || 0x2000 <= n <= 0x200A
  }

  function TrimStart(s: string): string {
    if s != "" && IsWhitespace(s[0]) then TrimStart(s[1..]) else s
  }

  function TrimEnd(s: string): string {
    if s != "" && IsWhitespace(s[|s| - 1]) then TrimEnd(s[..|s| - 1]) else s
  }

  function Trim(s: string): string {
    TrimEnd(TrimStart(s))
  }

  /** The last characters of the trimmed text, or a note that there is none. */
  function Present(redacted: string): string {
    var message := Trim(redacted);
    if message == "" then EMPTY_NOTE
    else if |message| <= LIMIT then message
    else TRUNCATION_NOTE + message[|message| - LIMIT..]
  }

  // ----------------------------------------------------------------- sensitive values

  predicate EndsWith(s: string, suffix: string) {
    |suffix| <= |s| && s[|s| - |suffix|..] == suffix
  }

  predicate SensitiveKey(key: string) {
    EndsWith(key, "_PASSWORD") || EndsWith(key, "_DATABASE_URL")
  }

  function Utf8Width(c: char): nat {
    if (c as int) < 0x80 then 1 else if (c as int) < 0x800 then 2 else if (c as int) < 0x10000 then 3 else 4
  }

  /** str::len. */
  function Utf8Length(s: string): nat {
    if s == "" then 0 else Utf8Width(s[0]) + Utf8Length(s[1..])
  }

  predicate LongestFirst(values: seq<string>) {
    forall i, j | 0 <= i < j < |values| :: Utf8Length(values[i]) >= Utf8Length(values[j])
  }

  /** Insertion that leaves equal lengths in their order, as the standard stable sort does. */
  function Insert(v: string, values: seq<string>): seq<string> {
    if values == [] || Utf8Length(v) >= Utf8Length(values[0]) then [v] + values
    else [values[0]] + Insert(v, values[1..])
  }

  function SortLongestFirst(values: seq<string>): seq<string> {
    if values == [] then [] else Insert(values[0], SortLongestFirst(values[1..]))
  }

  lemma {:induction false} InsertAddsOne(v: string, values: seq<string>)
    ensures multiset(Insert(v, values)) == multiset(values) + multiset{v}
  {
    if values != [] && Utf8Length(v) < Utf8Length(values[0]) {
      InsertAddsOne(v, values[1..]);
      assert values == [values[0]] + values[1..];
    }
  }

  /** The first of an ordered list bounds the list; a bound may be put in front of one. */
  predicate Bounds(n: nat, values: seq<string>) {
    forall i | 0 <= i < |values| :: Utf8Length(values[i]) <= n
  }

  lemma {:induction false} InsertKeepsBound(v: string, values: seq<string>, n: nat)
    requires Bounds(n, values) && Utf8Length(v) <= n
    ensures Bounds(n, Insert(v, values))
  {
    if values != [] && Utf8Length(v) < Utf8Length(values[0]) {
      InsertKeepsBound(v, values[1..], n);
    }
  }

  lemma {:induction false} InsertKeepsOrder(v: string, values: seq<string>)
    requires LongestFirst(values)
    ensures LongestFirst(Insert(v, values))
  {
    if values != [] && Utf8Length(v) < Utf8Length(values[0]) {
      InsertKeepsOrder(v, values[1..]);
      InsertKeepsBound(v, values[1..], Utf8Length(values[0]));
    }
  }

  lemma {:induction false} SortingOrders(values: seq<string>)
    ensures LongestFirst(SortLongestFirst(values))
    ensures multiset(SortLongestFirst(values)) == multiset(values)
  {
    if values != [] {
      SortingOrders(values[1..]);
      InsertKeepsOrder(values[0], SortLongestFirst(values[1..]));
      InsertAddsOne(values[0], SortLongestFirst(values[1..]));
      assert values == [values[0]] + values[1..];
    }
  }

  lemma SortingKeepsMembers(values: seq<string>)
    ensures forall v :: v in SortLongestFirst(values) <==> v in values
    ensures NonEmpty(values) ==> NonEmpty(SortLongestFirst(values))
  {
    SortingOrders(values);
    var sorted := SortLongestFirst(values);
    forall v
      ensures v in sorted <==> v in values
    {
      assert v in multiset(sorted) <==> v in multiset(values);
    }
    assert forall i | 0 <= i < |sorted| :: sorted[i] in values;
  }

  /** An entry of the environment handed to Compose. */
  datatype Entry = Entry(key: string, value: string)

  predicate IsSensitive(e: Entry) {
    e.value != "" && SensitiveKey(e.key)
  }

  /** The non-empty values of the sensitive keys, in the order of the entries. */
  function Secrets(environment: seq<Entry>): (r: seq<string>)
    ensures NonEmpty(r)
    ensures forall e | e in environment && IsSensitive(e) :: e.value in r
  {
    if environment == [] then []
    else
      var last := environment[|environment| - 1];
      Secrets(environment[..|environment| - 1]) + if IsSensitive(last) then [last.value] else []
  }

  // -------------------------------------------------------- occurrences in the text

  lemma OccursInTail(s: string, c: char, i: nat, w: string)
    requires i > 0 && OccursAt([c] + s, i, w)
    ensures OccursAt(s, i - 1, w)
  {
    assert ([c] + s)[i..i + |w|] == s[i - 1..i - 1 + |w|];
  }

  lemma OccursInSuffix(s: string, k: nat, w: string)
    requires k <= |s| && Contains(s[k..], w)
    ensures Contains(s, w)
  {
    var i: nat :| i <= |s[k..]| && OccursAt(s[k..], i, w);
    assert s[k..][i..i + |w|] == s[k + i..k + i + |w|];
    assert OccursAt(s, k + i, w);
  }

  lemma OccursInPrefix(s: string, k: nat, w: string)
    requires k <= |s| && Contains(s[..k], w)
    ensures Contains(s, w)
  {
    var i: nat :| i <= k && OccursAt(s[..k], i, w);
    assert s[..k][i..i + |w|] == s[i..i + |w|];
    assert OccursAt(s, i, w);
  }

  /** An occurrence in `p + rest` lies in `p`, or in `rest`, or runs over the end of `p`. */
  lemma OccursBeside(p: string, rest: string, i: nat, t: string)
    requires OccursAt(p + rest, i, t)
    ensures OccursAt(p, i, t) || (i >= |p| && OccursAt(rest, i - |p|, t)) || (i < |p| && p[i..] <= t)
  {
    var s := p + rest;
    if i >= |p| {
      assert s[i..i + |t|] == rest[i - |p|..i - |p| + |t|];
    } else if i + |t| <= |p| {
      assert s[i..i + |t|] == p[i..i + |t|];
    } else {
      assert p[i..] == s[i..|p|] == s[i..i + |t|][..|p| - i];
    }
  }

  /** `t` ends with a prefix of the mark or holds the whole mark. */
  predicate Meets(t: string) {
    exists k | 0 <= k < |t| :: t[k..] <= MARK || MARK <= t[k..]
  }

  /** What the replaced text starts with, the original text starts with, unless it touches a mark. */
  lemma {:induction false} OccursAtFront(s: string, w: string, t: string)
    requires w != "" && OccursAt(Replace(s, w), 0, t)
    ensures OccursAt(s, 0, t) || Meets(t)
    decreases |s|
  {
    var r := Replace(s, w);
    if |s| >= |w| && t != "" {
      if s[..|w|] == w {
        assert t[0..] == t == r[..|t|];
        assert t[0..] <= MARK || MARK <= t[0..];
      } else {
        var tail := Replace(s[1..], w);
        assert t[0] == r[..|t|][0] == s[0];
        assert t[1..] == r[..|t|][1..] == tail[..|t| - 1];
        OccursAtFront(s[1..], w, t[1..]);
        if OccursAt(s[1..], 0, t[1..]) {
          assert s[..|t|] == [s[0]] + s[1..][..|t| - 1] == t;
        } else {
          var k :| 0 <= k < |t[1..]| && (t[1..][k..] <= MARK || MARK <= t[1..][k..]);
          assert t[1..][k..] == t[k + 1..];
        }
      }
    }
  }

  // --------------------------------------------------------------- nothing survives

  /** A value that can run over neither end of a mark nor the end of the truncation note. */
  predicate Apart(v: string) {
    && v != ""
    && !Meets(v)
    && (forall k | 0 <= k < |MARK| :: !(MARK[k..] <= v))
    && (forall k | 0 <= k < |TRUNCATION_NOTE| :: !(TRUNCATION_NOTE[k..] <= v))
  }

  predicate InfixOfFixedText(v: string) {
    Contains(MARK, v) || Contains(EMPTY_NOTE, v) || Contains(TRUNCATION_NOTE, v)
  }

  /** A value the redaction is bound to hide. */
  predicate Redactable(v: string) {
    Apart(v) && !InfixOfFixedText(v)
  }

  /** Free of brackets and whitespace. */
  predicate Plain(v: string) {
    v != "" && forall i | 0 <= i < |v| :: v[i] != '[' && v[i] != ']' && !IsWhitespace(v[i])
  }

  lemma EndsStrangely(a: string, k: nat, v: string)
    requires k < |a| && a[|a| - 1] !in v
    ensures !(a[k..] <= v)
  {
    var last := |a| - 1 - k;
    assert last < |v| ==> v[last] in v && a[k..][last] == a[|a| - 1];
  }

  lemma PlainIsApart(v: string)
    requires Plain(v)
    ensures Apart(v)
  {
    forall k | 0 <= k < |v|
      ensures !(v[k..] <= MARK) && !(MARK <= v[k..])
    {
      assert v[k..][0] == v[k];
      assert MARK[0] == '[';
    }
    assert MARK[|MARK| - 1] == ']' && TRUNCATION_NOTE[|TRUNCATION_NOTE| - 1] == ' ';
    forall k | 0 <= k < |MARK|
      ensures !(MARK[k..] <= v)
    {
      EndsStrangely(MARK, k, v);
    }
    forall k | 0 <= k < |TRUNCATION_NOTE|
      ensures !(TRUNCATION_NOTE[k..] <= v)
    {
      EndsStrangely(TRUNCATION_NOTE, k, v);
    }
  }

  /** Wherever the replaced text shows `t`, the original text did, and `t` is not the value replaced. */
  lemma {:induction false} OccurrencesComeFromText(s: string, w: string, t: string, i: nat)
    requires w != "" && Apart(t) && !Contains(MARK, t)
    requires OccursAt(Replace(s, w), i, t)
    ensures t != w && Contains(s, t)
    decreases |s|
  {
    if |s| < |w| {
      assert OccursAt(s, i, t);
    } else if s[..|w|] == w {
      OccursBeside(MARK, Replace(s[|w|..], w), i, t);
      OccurrencesComeFromText(s[|w|..], w, t, i - |MARK|);
      OccursInSuffix(s, |w|, t);
    } else if i == 0 {
      OccursAtFront(s, w, t);
    } else {
      OccursInTail(Replace(s[1..], w), s[0], i, t);
      OccurrencesComeFromText(s[1..], w, t, i - 1);
      OccursInSuffix(s, 1, t);
    }
  }

  lemma ReplacementClears(s: string, w: string, t: string)
    requires w != "" && Apart(t) && !Contains(MARK, t)
    requires t == w || !Contains(s, t)
    ensures !Contains(Replace(s, w), t)
  {
    if Contains(Replace(s, w), t) {
      var i: nat :| i <= |Replace(s, w)| && OccursAt(Replace(s, w), i, t);
      OccurrencesComeFromText(s, w, t, i);
    }
  }

  /** The fold hides every redactable value among those it is given, whatever the others are. */
  lemma {:induction false} FoldClears(s: string, values: seq<string>, t: string)
    requires NonEmpty(values) && Apart(t) && !Contains(MARK, t)
    requires t in values || !Contains(s, t)
    ensures !Contains(ReplaceAll(s, values), t)
    decreases |values|
  {
    if values != [] {
      if t == values[0] || !Contains(s, t) {
        ReplacementClears(s, values[0], t);
      }
      FoldClears(Replace(s, values[0]), values[1..], t);
    }
  }

  lemma {:induction false} TrimStartIsSuffix(s: string) returns (k: nat)
    ensures k <= |s| && TrimStart(s) == s[k..]
  {
    k := 0;
    if s != "" && IsWhitespace(s[0]) {
      k := TrimStartIsSuffix(s[1..]);
      k := k + 1;
    }
  }

  lemma {:induction false} TrimEndIsPrefix(s: string) returns (k: nat)
    ensures k <= |s| && TrimEnd(s) == s[..k]
    ensures forall i | k <= i < |s| :: IsWhitespace(s[i])
  {
    k := |s|;
    if s != "" && IsWhitespace(s[|s| - 1]) {
      k := TrimEndIsPrefix(s[..|s| - 1]);
    }
  }

  lemma TrimAddsNothing(s: string, t: string)
    requires Contains(Trim(s), t)
    ensures Contains(s, t)
  {
    var i := TrimStartIsSuffix(s);
    var j := TrimEndIsPrefix(TrimStart(s));
    OccursInPrefix(TrimStart(s), j, t);
    OccursInSuffix(s, i, t);
  }

  lemma PrefixAddsNothing(p: string, rest: string, t: string)
    requires !Contains(p, t) && forall k | 0 <= k < |p| :: !(p[k..] <= t)
    requires Contains(p + rest, t)
    ensures Contains(rest, t)
  {
    var i: nat :| i <= |p + rest| && OccursAt(p + rest, i, t);
    OccursBeside(p, rest, i, t);
  }

  /** Trimming and cutting show no redactable value that the text did not show. */
  lemma PresentAddsNothing(s: string, t: string)
    requires Redactable(t) && Contains(Present(s), t)
    ensures Contains(s, t)
  {
    var message := Trim(s);
    if message != "" {
      if |message| > LIMIT {
        PrefixAddsNothing(TRUNCATION_NOTE, message[|message| - LIMIT..], t);
        OccursInSuffix(message, |message| - LIMIT, t);
      }
      TrimAddsNothing(s, t);
    }
  }

  // ------------------------------------------------------------------ the diagnostics

  /** The text shown for an output, given the secrets in the order of the environment. */
  function Shown(raw: string, secrets: seq<string>): string
    requires NonEmpty(secrets)
  {
    SortingKeepsMembers(secrets);
    Present(ReplaceAll(raw, SortLongestFirst(secrets)))
  }

  function Diagnostics(stdout: string, stderr: string, environment: seq<Entry>): string {
    Shown(stdout + stderr, Secrets(environment))
  }

  ghost predicate Hides(message: string, secrets: seq<string>) {
    forall v | v in secrets && Redactable(v) :: !Contains(message, v)
  }

  lemma RedactionHides(raw: string, secrets: seq<string>)
    requires NonEmpty(secrets)
    ensures Hides(Shown(raw, secrets), secrets)
  {
    SortingKeepsMembers(secrets);
    var redacted := ReplaceAll(raw, SortLongestFirst(secrets));
    forall v | v in secrets && Redactable(v)
      ensures !Contains(Present(redacted), v)
    {
      FoldClears(raw, SortLongestFirst(secrets), v);
      if Contains(Present(redacted), v) {
        PresentAddsNothing(redacted, v);
      }
    }
  }

  // ------------------------------------------------------- which entries are secrets

  ghost predicate NamesSecret(key: string) {
    exists prefix: string :: key == prefix + "_PASSWORD" || key == prefix + "_DATABASE_URL"
  }

  lemma EndsExactly(key: string, suffix: string)
    ensures EndsWith(key, suffix) <==> exists prefix: string :: key == prefix + suffix
  {
    if EndsWith(key, suffix) {
      assert key == key[..|key| - |suffix|] + suffix;
    }
  }

  lemma SensitiveExactly(key: string)
    ensures SensitiveKey(key) <==> NamesSecret(key)
  {
    EndsExactly(key, "_PASSWORD");
    EndsExactly(key, "_DATABASE_URL");
  }

  ghost predicate IsSecretOf(environment: seq<Entry>, v: string) {
    exists e :: e in environment && e.value == v && v != "" && NamesSecret(e.key)
  }

  /** The secrets are the non-empty values whose keys end in _PASSWORD or _DATABASE_URL, and nothing else. */
  lemma {:induction false} SecretsExactly(environment: seq<Entry>, v: string)
    ensures v in Secrets(environment) <==> IsSecretOf(environment, v)
  {
    if environment != [] {
      var front, last := environment[..|environment| - 1], environment[|environment| - 1];
      assert environment == front + [last];
      SecretsExactly(front, v);
      SensitiveExactly(last.key);
    }
  }

  // -------------------------------------------------------- outputs without any secret

  ghost predicate Unmentioned(raw: string, environment: seq<Entry>) {
    forall v: string | IsSecretOf(environment, v) :: !Contains(raw, v)
  }

  predicate Blank(s: string) {
    forall i | 0 <= i < |s| :: s[i] in {' ', '\t', '\n', '\r'}
  }

  predicate Visible(c: char) { '!' <= c <= '~' }

  predicate VisibleEnds(s: string) {
    s != "" && Visible(s[0]) && Visible(s[|s| - 1])
  }

  ghost function LastPart(s: string): string {
    if |s| <= 4000 then s else "[earlier diagnostics truncated] " + s[|s| - 4000..]
  }

  /** The text is the output without the blanks around it, or its last part. */
  ghost predicate ShowsOutput(text: string, raw: string) {
    && (Blank(raw) ==> text == "Compose returned no diagnostic output")
    && forall before: string, core: string, after: string ::
         raw == before + core + after && Blank(before) && VisibleEnds(core) && Blank(after) ==> text == LastPart(core)
  }

  lemma {:induction false} TrimStartDropsBlank(before: string, rest: string)
    requires Blank(before) && (rest == "" || Visible(rest[0]))
    ensures TrimStart(before + rest) == rest
  {
    if before == "" {
      assert before + rest == rest;
    } else {
      assert (before + rest)[1..] == before[1..] + rest;
      TrimStartDropsBlank(before[1..], rest);
    }
  }

  lemma {:induction false} TrimEndDropsBlank(core: string, after: string)
    requires Blank(after) && VisibleEnds(core)
    ensures TrimEnd(core + after) == core
  {
    if after == "" {
      assert core + after == core;
    } else {
      var n := |core + after| - 1;
      assert (core + after)[..n] == core + after[..|after| - 1];
      TrimEndDropsBlank(core, after[..|after| - 1]);
    }
  }

  lemma TrimDropsBlanks(before: string, core: string, after: string)
    requires Blank(before) && VisibleEnds(core) && Blank(after)
    ensures Trim(before + core + after) == core
  {
    assert before + core + after == before + (core + after);
    TrimStartDropsBlank(before, core + after);
    TrimEndDropsBlank(core, after);
  }

  lemma PresentsCore(raw: string, core: string)
    requires core != "" && Trim(raw) == core
    ensures Present(raw) == LastPart(core)
  {
  }

  lemma BlankIsTrimmed(raw: string)
    requires Blank(raw)
    ensures Trim(raw) == ""
  {
    assert raw + "" == raw;
    TrimStartDropsBlank(raw, "");
  }

  lemma PresentShows(raw: string)
    ensures ShowsOutput(Present(raw), raw)
  {
    if Blank(raw) {
      BlankIsTrimmed(raw);
    }
    forall before: string, core: string, after: string |
      raw == before + core + after && Blank(before) && VisibleEnds(core) && Blank(after)
      ensures Present(raw) == LastPart(core)
    {
      TrimDropsBlanks(before, core, after);
      PresentsCore(raw, core);
    }
  }

  /** An output that mentions no secret is shown as it is, from standard output and then standard error. */
  lemma UnmentionedIsShown(raw: string, environment: seq<Entry>)
    requires Unmentioned(raw, environment)
    ensures ShowsOutput(Shown(raw, Secrets(environment)), raw)
  {
    var secrets := Secrets(environment);
    SortingKeepsMembers(secrets);
    forall w | w in SortLongestFirst(secrets)
      ensures !Contains(raw, w)
    {
      SecretsExactly(environment, w);
    }
    FoldKeepsAbsent(raw, SortLongestFirst(secrets));
    PresentShows(raw);
  }

  // ------------------------------------------------------------- what one replacement does

  lemma OccursOneLater(s: string, i: nat, w: string)
    requires s != "" && OccursAt(s[1..], i, w)
    ensures OccursAt(s, i + 1, w)
  {
    assert s[1..][i..i + |w|] == s[i + 1..i + 1 + |w|];
  }

  /** The first occurrence becomes the mark, and the replacing goes on behind it. */
  lemma {:induction false} ReplacesFromTheLeft(before: string, w: string, rest: string)
    requires w != ""
    requires forall i: nat | i < |before| :: !OccursAt(before + w + rest, i, w)
    ensures Replace(before + w + rest, w) == before + "[REDACTED]" + Replace(rest, w)
  {
    var s := before + w + rest;
    if before == "" {
      assert s[..|w|] == w && s[|w|..] == rest;
    } else {
      var tail := before[1..] + w + rest;
      assert !OccursAt(s, 0, w);
      assert s[1..] == tail;
      forall i: nat | i < |before| - 1
        ensures !OccursAt(tail, i, w)
      {
        if OccursAt(tail, i, w) {
          OccursOneLater(s, i, w);
        }
      }
      ReplacesFromTheLeft(before[1..], w, rest);
      assert [s[0]] + (before[1..] + "[REDACTED]" + Replace(rest, w)) == before + "[REDACTED]" + Replace(rest, w);
    }
  }

  /** The diagnostics of a failed Compose command: never empty, never long, without a redactable secret. */
  method RedactedDiagnostics(stdout: string, stderr: string, environment: seq<Entry>) returns (text: string)
    ensures text == Diagnostics(stdout, stderr, environment)
    ensures Hides(text, Secrets(environment))
    ensures Unmentioned(stdout + stderr, environment) ==> ShowsOutput(text, stdout + stderr)
    ensures 0 < |text| <= 4032
  {
    var sensitiveValues: seq<string> := [];
    var i := 0;
    while i < |environment|
      invariant 0 <= i <= |environment|
      invariant sensitiveValues == Secrets(environment[..i])
    {
      assert environment[..i + 1][..i] == environment[..i];
      if IsSensitive(environment[i]) {
        sensitiveValues := sensitiveValues + [environment[i].value];
      }
      i := i + 1;
    }
    assert environment[..i] == environment;
    RedactionHides(stdout + stderr, sensitiveValues);
    if Unmentioned(stdout + stderr, environment) {
      UnmentionedIsShown(stdout + stderr, environment);
    }
    SortingKeepsMembers(sensitiveValues);
    var sorted := SortLongestFirst(sensitiveValues);
    var redacted := stdout + stderr;
    i := 0;
    while i < |sorted|
      invariant 0 <= i <= |sorted|
      invariant NonEmpty(sorted[i..])
      invariant ReplaceAll(redacted, sorted[i..]) == ReplaceAll(stdout + stderr, sorted)
    {
      assert sorted[i..][1..] == sorted[i + 1..];
      redacted := Replace(redacted, sorted[i]);
      i := i + 1;
    }
    text := Present(redacted);
  }

  // ------------------------------------------------------ the exact reach of the promise

  lemma {:induction false} AbsentIsKept(s: string, w: string)
    requires w != "" && !Contains(s, w)
    ensures Replace(s, w) == s
    decreases |s|
  {
    if |s| >= |w| {
      assert !OccursAt(s, 0, w);
      if Contains(s[1..], w) {
        OccursInSuffix(s, 1, w);
      }
      AbsentIsKept(s[1..], w);
    }
  }

  lemma {:induction false} FoldKeepsAbsent(s: string, values: seq<string>)
    requires NonEmpty(values) && forall w | w in values :: !Contains(s, w)
    ensures ReplaceAll(s, values) == s
    decreases |values|
  {
    if values != [] {
      AbsentIsKept(s, values[0]);
      FoldKeepsAbsent(s, values[1..]);
    }
  }

  lemma TrimmedStays(s: string)
    requires s != "" && !IsWhitespace(s[0]) && !IsWhitespace(s[|s| - 1])
    ensures Trim(s) == s
  {
  }

  /** A value is replaced whole if no other value that is at least as long occurs in the text. */
  lemma {:induction false} WholeValuesGoFirst(raw: string, values: seq<string>, k: nat)
    requires NonEmpty(values) && LongestFirst(values) && k < |values|
    requires forall w | w in values && w != values[k] && Utf8Length(w) >= Utf8Length(values[k]) :: !Contains(raw, w)
    requires values[k] !in values[..k]
    ensures ReplaceAll(raw, values) == ReplaceAll(Replace(raw, values[k]), values[k + 1..])
    decreases k
  {
    if k > 0 {
      assert values[0] in values && values[0] in values[..k];
      AbsentIsKept(raw, values[0]);
      assert values[1..][..k - 1] == values[..k][1..];
      WholeValuesGoFirst(raw, values[1..], k - 1);
      assert values[1..][k..] == values[k + 1..];
    }
  }
}
