// Two scanners for the answer inside `\boxed{...}`: one takes the last box of a text (math_utils/utils.py), the other
// the first (evaluation/verifier.py).
module BoxedAnswer {
  import opened Common

  const BOXED := "\\boxed"
  const FBOX := "\\fbox"
  const LEFT := "\\boxed{"

  // ---------- Searching ----------

  predicate OccursAt(s: string, pattern: string, i: nat) {
    i + |pattern| <= |s| && s[i..i + |pattern|] == pattern
  }

  /** `s.find(pattern, start)` */
  function Find(s: string, pattern: string, start: nat): (r: Option<nat>)
    requires start <= |s|
    ensures r.Some? ==> start <= r.value && OccursAt(s, pattern, r.value)
    ensures r.Some? ==> forall i: nat :: start <= i < r.value ==> !OccursAt(s, pattern, i)
    ensures r.None? ==> forall i: nat :: start <= i <= |s| ==> !OccursAt(s, pattern, i)
    decreases |s| - start
  {
    if OccursAt(s, pattern, start) then Some(start) else if start == |s| then None else Find(s, pattern, start + 1)
  }

  /** `s.rfind(pattern)` */
  function FindLast(s: string, pattern: string, end: nat): (r: Option<nat>)
    requires end <= |s|
    ensures r.Some? ==> r.value <= end && OccursAt(s, pattern, r.value)
    ensures r.Some? ==> forall i: nat :: r.value < i <= end ==> !OccursAt(s, pattern, i)
    ensures r.None? ==> forall i: nat :: i <= end ==> !OccursAt(s, pattern, i)
  {
    if OccursAt(s, pattern, end) then Some(end) else if end == 0 then None else FindLast(s, pattern, end - 1)
  }

  // ---------- Braces ----------

  function Weight(c: char): int {
    if c == '{' then 1 else if c == '}' then -1 else 0
  }

  /** Opening braces minus closing braces. */
  function Depth(s: string): int {
    if s == [] then 0 else Weight(s[0]) + Depth(s[1..])
  }

  lemma {:induction false} DepthCounts(s: string)
    ensures Depth(s) + multiset(s)['}'] == multiset(s)['{']
  {
    if s != [] {
      DepthCounts(s[1..]);
      assert s == [s[0]] + s[1..];
    }
  }

  /** As many closing braces as opening ones, and nowhere more. */
  ghost predicate Balanced(s: string) {
    Depth(s) == 0 && forall k :: 0 <= k <= |s| ==> Depth(s[..k]) >= 0
  }

  /** Counting on from `open`, the count stays positive. */
  predicate StaysOpen(open: int, s: string)
    decreases |s|
  {
    open >= 1 && (s == [] || StaysOpen(open + Weight(s[0]), s[1..]))
  }

  lemma {:induction false} StaysOpenIff(open: int, s: string)
    ensures StaysOpen(open, s) <==> forall k :: 0 <= k <= |s| ==> open + Depth(s[..k]) >= 1
    decreases |s|
  {
    assert s[..0] == [];
    if s != [] {
      StaysOpenIff(open + Weight(s[0]), s[1..]);
      forall k | 1 <= k <= |s| ensures Depth(s[..k]) == Weight(s[0]) + Depth(s[1..][..k - 1]) {
        assert s[..k][1..] == s[1..][..k - 1];
      }
      if forall k :: 0 <= k <= |s| ==> open + Depth(s[..k]) >= 1 {
        forall k | 0 <= k <= |s[1..]| ensures open + Weight(s[0]) + Depth(s[1..][..k]) >= 1 {
          assert open + Depth(s[..k + 1]) >= 1;
        }
      }
    }
  }

  /** The loop of both scanners: from i on, the first closing brace at which the count of open braces is zero. */
  function Scan(s: string, i: nat, open: int): Option<nat>
    requires i <= |s|
    decreases |s| - i
  {
    if i == |s| then None
    else if s[i] == '{' then Scan(s, i + 1, open + 1)
    else if s[i] == '}' then (if open - 1 == 0 then Some(i) else Scan(s, i + 1, open - 1))
    else Scan(s, i + 1, open)
  }

  lemma {:induction false} ScanIff(s: string, i: nat, open: int, r: nat)
    requires i <= |s| && open >= 1
    ensures Scan(s, i, open) == Some(r) <==>
      i <= r < |s| && s[r] == '}' && StaysOpen(open, s[i..r]) && open + Depth(s[i..r]) == 1
    decreases |s| - i
  {
    if i < |s| {
      if i < r < |s| {
        assert s[i..r][1..] == s[i + 1..r];
      }
      if s[i] == '}' && open == 1 {
        assert i == r ==> s[i..r] == [];
      } else {
        ScanIff(s, i + 1, open + Weight(s[i]), r);
        assert i == r ==> s[i..r] == [];
      }
    }
  }

  /** Scanning from an opening brace finds the matching closing one: what lies between is balanced. */
  lemma ScanFindsMatch(s: string, i: nat, r: nat)
    requires i < |s| && s[i] == '{'
    ensures Scan(s, i, 0) == Some(r) <==> i < r < |s| && s[r] == '}' && Balanced(s[i + 1..r])
  {
    ScanIff(s, i + 1, 1, r);
    if i < r < |s| { StaysOpenIff(1, s[i + 1..r]); }
  }

  /** The depth of the text from `i` up to and including place `k`. */
  function DepthAt(s: string, i: nat, k: int): int
    requires i <= k < |s|
  {
    Depth(s[i..k + 1])
  }

  /** The first closing brace from `i` on, counting from `open`, at which the count is zero. */
  ghost predicate ClosesAt(s: string, i: nat, open: int, r: nat) {
    && i <= r < |s| && s[r] == '}' && open + DepthAt(s, i, r) == 0
    && forall k :: i <= k < r && s[k] == '}' ==> open + DepthAt(s, i, k) != 0
  }

  lemma DepthFrom(s: string, i: nat, k: int)
    requires i <= k < |s|
    ensures DepthAt(s, i, k) == Weight(s[i]) + if i < k then DepthAt(s, i + 1, k) else 0
  {
    assert s[i..k + 1][0] == s[i] && s[i..k + 1][1..] == s[i + 1..k + 1];
    assert i == k ==> s[i + 1..k + 1] == [] && Depth(s[i + 1..k + 1]) == 0;
  }

  lemma {:induction false} ScanExact(s: string, i: nat, open: int, r: nat)
    requires i <= |s|
    ensures Scan(s, i, open) == Some(r) <==> ClosesAt(s, i, open, r)
    decreases |s| - i
  {
    if i < |s| {
      forall k | i <= k < |s| ensures DepthAt(s, i, k) == Weight(s[i]) + if i < k then DepthAt(s, i + 1, k) else 0 {
        DepthFrom(s, i, k);
      }
      hide DepthAt;
      ScanExact(s, i + 1, open + Weight(s[i]), r);
    }
  }

  method ScanLoop(s: string, start: nat) returns (right: Option<nat>)
    requires start <= |s|
    ensures right == Scan(s, start, 0)
  {
    var i, open := start, 0;
    while i < |s|
      invariant start <= i <= |s| && Scan(s, start, 0) == Scan(s, i, open)
    {
      if s[i] == '{' {
        open := open + 1;
      }
      if s[i] == '}' {
        open := open - 1;
        if open == 0 {
          return Some(i);
        }
      }
      i := i + 1;
    }
    return None;
  }

  // ---------- The last box ----------

  method LastBoxedOnlyString(s: string) returns (r: Option<string>)
    ensures r == LastBoxed(s)
  {
    var at := FindLast(s, BOXED, |s|);
    if at.None? {
      at := FindLast(s, FBOX, |s|);
      if at.None? {
        return None;
      }
    }
    var right := ScanLoop(s, at.value);
    if right.None? {
      return None;
    }
    ScanBounds(s, at.value, 0);
    return Some(s[at.value..right.value + 1]);
  }

  lemma {:induction false} ScanBounds(s: string, i: nat, open: int)
    requires i <= |s|
    ensures Scan(s, i, open).Some? ==> var r := Scan(s, i, open).value; i <= r < |s| && s[r] == '}'
    decreases |s| - i
  {
    if i < |s| { ScanBounds(s, i + 1, open + Weight(s[i])); }
  }

  function LastBoxed(s: string): Option<string> {
    match FindLast(s, BOXED, |s|)
    case Some(at) => UpTo(s, at)
    case None => match FindLast(s, FBOX, |s|) case Some(at) => UpTo(s, at) case None => None
  }

  /** From a place to the brace that the scan finds. */
  function UpTo(s: string, at: nat): Option<string>
    requires at <= |s|
  {
    match Scan(s, at, 0)
    case None => None
    case Some(r) => ScanBounds(s, at, 0); Some(s[at..r + 1])
  }

  /** The content between the braces, or None if the text has another form. */
  function RemoveBoxed(s: Option<string>): Option<string> {
    if s.Some? && LEFT <= s.value && s.value[|s.value| - 1] == '}' then Some(Inner(s.value)) else None
  }

  /** `s[7:-1]` */
  function Inner(s: string): string {
    if |s| > |LEFT| then s[|LEFT|..|s| - 1] else []
  }

  function ExtractBoxedAnswer(s: string): Option<string> {
    RemoveBoxed(LastBoxed(s))
  }

  /** A box at `at` that encloses `content`. */
  ghost predicate Encloses(s: string, at: nat, content: string) {
    && OccursAt(s, LEFT, at)
    && var start := at + |LEFT|;
    && start + |content| < |s| && s[start..start + |content|] == content && s[start + |content|] == '}'
    && Balanced(content)
  }

  ghost predicate IsLast(s: string, pattern: string, at: nat) {
    OccursAt(s, pattern, at) && forall i: nat :: at < i <= |s| ==> !OccursAt(s, pattern, i)
  }

  /** Where the text that the last-box scanner returns begins: at the last `\\boxed`, or without one at the last `\\fbox`. */
  ghost predicate IsLastBox(s: string, at: nat) {
    IsLast(s, BOXED, at) || ((forall i: nat | i <= |s| :: !OccursAt(s, BOXED, i)) && IsLast(s, FBOX, at))
  }

  lemma FindLastIff(s: string, pattern: string, at: nat)
    ensures FindLast(s, pattern, |s|) == Some(at) <==> IsLast(s, pattern, at)
  {
    hide FindLast;
  }

  /** It ends with the brace that closes what was opened since. */
  lemma LastBoxedIff(s: string, text: string)
    ensures LastBoxed(s) == Some(text) <==>
      exists at: nat, r: nat :: IsLastBox(s, at) && ClosesAt(s, at, 0, r) && text == s[at..r + 1]
  {
    hide FindLast, Scan, OccursAt;
    forall at: nat ensures FindLast(s, BOXED, |s|) == Some(at) <==> IsLast(s, BOXED, at) { FindLastIff(s, BOXED, at); }
    forall at: nat ensures FindLast(s, FBOX, |s|) == Some(at) <==> IsLast(s, FBOX, at) { FindLastIff(s, FBOX, at); }
    forall at: nat, r: nat | at <= |s| ensures Scan(s, at, 0) == Some(r) <==> ClosesAt(s, at, 0, r) { ScanExact(s, at, 0, r); }
    hide ClosesAt;
  }

  lemma {:induction false} ScanSkips(s: string, i: nat, j: nat)
    requires i <= j <= |s| && forall k :: i <= k < j ==> Weight(s[k]) == 0
    ensures Scan(s, i, 0) == Scan(s, j, 0)
    decreases j - i
  {
    if i < j { ScanSkips(s, i + 1, j); }
  }

  lemma PatternAt(s: string, pattern: string, at: nat, k: nat)
    requires OccursAt(s, pattern, at) && k < |pattern|
    ensures at + k < |s| && s[at + k] == pattern[k]
  {
    assert s[at..at + |pattern|][k] == pattern[k];
  }

  /** The word itself has no braces, so the scan begins behind it. */
  lemma ScanBehind(s: string, at: nat)
    requires OccursAt(s, BOXED, at)
    ensures Scan(s, at, 0) == Scan(s, at + |BOXED|, 0)
  {
    forall k | at <= k < at + |BOXED| ensures Weight(s[k]) == 0 { PatternAt(s, BOXED, at, k - at); }
    ScanSkips(s, at, at + |BOXED|);
  }

  lemma LeftIff(s: string, at: nat)
    requires OccursAt(s, BOXED, at)
    ensures OccursAt(s, LEFT, at) <==> at + |BOXED| < |s| && s[at + |BOXED|] == '{'
  {
    assert LEFT == BOXED + ['{'];
    if at + |BOXED| < |s| { assert s[at..at + |LEFT|] == s[at..at + |BOXED|] + [s[at + |BOXED|]]; }
  }

  lemma PrefixOccurs(s: string, pattern: string, at: nat, r: nat)
    requires at <= r < |s| && pattern <= s[at..r + 1]
    ensures OccursAt(s, pattern, at)
  {
    assert s[at..r + 1][..|pattern|] == s[at..at + |pattern|];
  }

  lemma NoBox(s: string)
    requires FindLast(s, BOXED, |s|).None?
    ensures ExtractBoxedAnswer(s) == None
  {
    hide Scan, FindLast, OccursAt;
    if FindLast(s, FBOX, |s|).Some? {
      var at := FindLast(s, FBOX, |s|).value;
      ScanBounds(s, at, 0);
      if Scan(s, at, 0).Some? && LEFT <= s[at..Scan(s, at, 0).value + 1] {
        PrefixOccurs(s, LEFT, at, Scan(s, at, 0).value);
        LeftHasBoxed(s, at);
      }
    }
  }

  lemma LeftHasBoxed(s: string, at: nat)
    requires OccursAt(s, LEFT, at)
    ensures OccursAt(s, BOXED, at)
  {
    assert s[at..at + |BOXED|] == s[at..at + |LEFT|][..|BOXED|];
  }

  /** What is extracted when `at` is the place of the last `\\boxed`. */
  lemma ExtractedAt(s: string, at: nat)
    requires FindLast(s, BOXED, |s|) == Some(at)
    ensures OccursAt(s, LEFT, at) && Scan(s, at + |BOXED|, 0).Some? ==>
      var r := Scan(s, at + |BOXED|, 0).value; at + |LEFT| <= r < |s| && ExtractBoxedAnswer(s) == Some(s[at + |LEFT|..r])
    ensures !(OccursAt(s, LEFT, at) && Scan(s, at + |BOXED|, 0).Some?) ==> ExtractBoxedAnswer(s) == None
  {
    hide Scan, FindLast;
    ScanBehind(s, at);
    LeftIff(s, at);
    ScanBounds(s, at, 0);
    if Scan(s, at, 0).Some? {
      var r := Scan(s, at, 0).value;
      if OccursAt(s, LEFT, at) {
        ScanFindsMatch(s, at + |BOXED|, r);
        BoxContent(s, at, r);
      } else {
        NotLeft(s, at, r);
      }
    }
  }

  lemma NotLeft(s: string, at: nat, r: nat)
    requires OccursAt(s, BOXED, at) && !OccursAt(s, LEFT, at) && at <= r < |s|
    ensures RemoveBoxed(Some(s[at..r + 1])) == None
  {
    if LEFT <= s[at..r + 1] { PrefixOccurs(s, LEFT, at, r); }
  }

  /** A box encloses what lies before the brace that the scan finds. */
  lemma EnclosesIff(s: string, at: nat, content: string)
    requires OccursAt(s, LEFT, at)
    ensures Encloses(s, at, content) <==>
      match Scan(s, at + |BOXED|, 0) case None => false case Some(r) => at + |LEFT| <= r < |s| && s[at + |LEFT|..r] == content
  {
    hide Scan, OccursAt, Balanced;
    var start := at + |LEFT|;
    PatternAt(s, LEFT, at, |BOXED|);
    assert start - 1 < |s| && s[start - 1] == '{';
    if Encloses(s, at, content) {
      ScanFindsMatch(s, start - 1, start + |content|);
    }
    if Scan(s, start - 1, 0).Some? {
      var r := Scan(s, start - 1, 0).value;
      ScanFindsMatch(s, start - 1, r);
      if s[start..r] == content { assert r == start + |content|; }
    }
  }

  lemma BoxAt(s: string, at: nat, content: string)
    requires FindLast(s, BOXED, |s|) == Some(at)
    ensures ExtractBoxedAnswer(s) == Some(content) <==> Encloses(s, at, content)
  {
    hide Scan, FindLast, ExtractBoxedAnswer, Balanced, OccursAt;
    ExtractedAt(s, at);
    if OccursAt(s, LEFT, at) { EnclosesIff(s, at, content); }
  }

  lemma BoxContent(s: string, at: nat, r: nat)
    requires OccursAt(s, LEFT, at) && at + |LEFT| <= r < |s| && s[r] == '}'
    ensures RemoveBoxed(Some(s[at..r + 1])) == Some(s[at + |LEFT|..r])
  {
    var x := s[at..r + 1];
    assert x[..|LEFT|] == s[at..at + |LEFT|] == LEFT && x[|x| - 1] == s[r];
    assert x[|LEFT|..|x| - 1] == s[at + |LEFT|..r];
  }

  /** The extraction succeeds exactly with the balanced content of a box at the last `\boxed` of the text. */
  lemma ExtractsLastBoxIff(s: string, content: string)
    ensures ExtractBoxedAnswer(s) == Some(content) <==> exists at: nat :: IsLast(s, BOXED, at) && Encloses(s, at, content)
  {
    match FindLast(s, BOXED, |s|)
    case None => NoBox(s);
    case Some(at) =>
      BoxAt(s, at, content);
      assert IsLast(s, BOXED, at);
  }

  // ---------- The first box ----------

  /** What `str.strip` removes. */
  predicate IsSpace(c: char) {
    var n := c as int;
    || 0x09 <= n <= 0x0D || 0x1C <= n <= 0x20 || n == 0x85 || n == 0xA0 || n == 0x1680 || 0x2000 <= n <= 0x200A
    || n == 0x2028 || n == 0x2029 || n == 0x202F || n == 0x205F || n == 0x3000
  }

  predicate AllSpace(s: string) {
    forall k :: 0 <= k < |s| ==> IsSpace(s[k])
  }

  /** `t` is what is left of `s` without the white space at its two ends. */
  ghost predicate IsStripped(s: string, t: string) {
    && (t != [] ==> !IsSpace(t[0]) && !IsSpace(t[|t| - 1]))
    && exists before: string, behind: string :: AllSpace(before) && AllSpace(behind) && s == before + t + behind
  }

  function Strip(s: string): string {
    if s == [] then [] else if IsSpace(s[0]) then Strip(s[1..])
    else if IsSpace(s[|s| - 1]) then Strip(s[..|s| - 1]) else s
  }

  lemma SpaceAround(c: char, s: string, t: string)
    requires IsSpace(c) && IsStripped(s, t)
    ensures IsStripped([c] + s, t) && IsStripped(s + [c], t)
  {
    var before, behind :| AllSpace(before) && AllSpace(behind) && s == before + t + behind;
    assert AllSpace([c] + before) && [c] + s == ([c] + before) + t + behind;
    assert AllSpace(behind + [c]) && s + [c] == before + t + (behind + [c]);
  }

  lemma {:induction false} StripStrips(s: string)
    ensures IsStripped(s, Strip(s))
    decreases |s|
  {
    if s != [] && IsSpace(s[0]) {
      hide IsStripped, IsSpace;
      StripStrips(s[1..]);
      SpaceAround(s[0], s[1..], Strip(s));
      assert s == [s[0]] + s[1..];
    } else if s != [] && IsSpace(s[|s| - 1]) {
      hide IsStripped, IsSpace;
      var n := |s| - 1;
      StripStrips(s[..n]);
      SpaceAround(s[n], s[..n], Strip(s));
      assert s == s[..n] + [s[n]];
    } else {
      assert AllSpace([]) && s == [] + s + [];
    }
  }

  /** Where the content of the first box begins and ends: the first opening brace anywhere behind the first `\boxed`,
      and the brace that closes it. */
  function FirstBox(s: string): Option<(nat, nat)> {
    match Find(s, BOXED, 0)
    case None => None
    case Some(start) =>
      match Find(s, "{", start)
      case None => None
      case Some(brace) => match Scan(s, brace, 0) case None => None case Some(r) => Some((brace, r))
  }

  /** The first opening brace from `at` on is at `brace`. */
  predicate FirstBrace(s: string, at: nat, brace: nat) {
    at <= brace < |s| && s[brace] == '{' && forall i :: at <= i < brace ==> s[i] != '{'
  }

  lemma FindIs(s: string, pattern: string, start: nat, at: nat)
    requires start <= at <= |s| && OccursAt(s, pattern, at) && forall i: nat :: start <= i < at ==> !OccursAt(s, pattern, i)
    ensures Find(s, pattern, start) == Some(at)
  {
  }

  lemma FindBrace(s: string, at: nat, brace: nat)
    requires at <= |s|
    ensures Find(s, "{", at) == Some(brace) <==> FirstBrace(s, at, brace)
  {
    hide Find;
    forall i: nat | at <= i < |s| ensures OccursAt(s, "{", i) <==> s[i] == '{' {
      if OccursAt(s, "{", i) { PatternAt(s, "{", i, 0); } else { assert s[i..i + 1] == [s[i]]; }
    }
    if FirstBrace(s, at, brace) { FindIs(s, "{", at, brace); }
  }

  ghost predicate IsFirst(s: string, pattern: string, at: nat) {
    OccursAt(s, pattern, at) && forall i: nat :: i < at ==> !OccursAt(s, pattern, i)
  }

  /** The first opening brace behind the first `\\boxed`, and the one that matches it. */
  ghost predicate IsFirstBox(s: string, brace: nat, r: nat) {
    && (exists at: nat :: IsFirst(s, BOXED, at) && FirstBrace(s, at, brace))
    && brace < r < |s| && s[r] == '}' && Balanced(s[brace + 1..r])
  }

  lemma FirstBoxExact(s: string, brace: nat, r: nat)
    ensures FirstBox(s) == Some((brace, r)) <==> IsFirstBox(s, brace, r)
  {
    hide Find, Scan, OccursAt, Balanced;
    if FirstBox(s) == Some((brace, r)) {
      var at := Find(s, BOXED, 0).value;
      OccursInside(s, BOXED, at);
      FindBrace(s, at, brace);
      ScanFindsMatch(s, brace, r);
      assert IsFirst(s, BOXED, at);
    } else if IsFirstBox(s, brace, r) {
      var at: nat :| IsFirst(s, BOXED, at) && FirstBrace(s, at, brace);
      OccursInside(s, BOXED, at);
      FindIs(s, BOXED, 0, at);
      FindBrace(s, at, brace);
      ScanFindsMatch(s, brace, r);
    }
  }

  lemma OccursInside(s: string, pattern: string, at: nat)
    requires OccursAt(s, pattern, at)
    ensures at <= |s|
  {
  }

  method FindFirstBoxedEnd(s: string) returns (end: Option<nat>)
    ensures end == match FirstBox(s) case None => None case Some((_, r)) => Some(r + 1)
    ensures end.Some? ==> exists brace: nat, r: nat :: IsFirstBox(s, brace, r) && end.value == r + 1
    ensures end.None? ==> forall brace: nat, r: nat :: !IsFirstBox(s, brace, r)
  {
    forall brace: nat, r: nat ensures FirstBox(s) == Some((brace, r)) <==> IsFirstBox(s, brace, r) { FirstBoxExact(s, brace, r); }
    var start := Find(s, BOXED, 0);
    if start.None? {
      return None;
    }
    var brace := Find(s, "{", start.value);
    if brace.None? {
      return None;
    }
    var r := ScanLoop(s, brace.value);
    return if r.None? then None else Some(r.value + 1);
  }

  method ExtractFirstBoxedContent(s: string) returns (content: Option<string>)
    ensures content == FirstContent(s)
    ensures content.Some? ==> exists brace: nat, r: nat :: IsFirstBox(s, brace, r) && IsStripped(s[brace + 1..r], content.value)
    ensures content.None? ==> forall brace: nat, r: nat :: !IsFirstBox(s, brace, r)
  {
    forall brace: nat, r: nat ensures FirstBox(s) == Some((brace, r)) <==> IsFirstBox(s, brace, r) { FirstBoxExact(s, brace, r); }
    var start := Find(s, BOXED, 0);
    if start.None? {
      return None;
    }
    var brace := Find(s, "{", start.value);
    if brace.None? {
      return None;
    }
    var r := ScanLoop(s, brace.value);
    if r.None? {
      return None;
    }
    FirstBoxIs(s);
    StripStrips(s[brace.value + 1..r.value]);
    assert IsFirstBox(s, brace.value, r.value);
    return Some(Strip(s[brace.value + 1..r.value]));
  }

  function FirstContent(s: string): Option<string> {
    match FirstBox(s)
    case None => None
    case Some((brace, r)) => FirstBoxIs(s); Some(Strip(s[brace + 1..r]))
  }

  /** The end lies just past the brace that matches the first one, with balanced content in between. */
  lemma FirstBoxIs(s: string)
    ensures FirstBox(s).Some? ==> var (brace, r) := FirstBox(s).value;
      brace < r < |s| && s[brace] == '{' && s[r] == '}' && Balanced(s[brace + 1..r])
  {
    if FirstBox(s).Some? {
      var (brace, r) := FirstBox(s).value;
      PatternAt(s, "{", brace, 0);
      ScanFindsMatch(s, brace, r);
    }
  }

  // ---------- Agreement ----------

  /** The verifier's result is that of the extraction, up to white space around it. */
  predicate Agree(last: Option<string>, first: Option<string>) {
    if last.None? then first.None? else first == Some(Strip(last.value))
  }

  /** Somewhere behind `at` there is an opening brace, and the first of them encloses balanced text. */
  ghost predicate BraceEncloses(s: string, at: nat) {
    exists brace: nat, r: nat :: FirstBrace(s, at, brace) && brace < r < |s| && s[r] == '}' && Balanced(s[brace + 1..r])
  }

  /** Whether the verifier finds a box is a matter of the text behind the first `\\boxed`. */
  lemma FirstBoxIff(s: string, at: nat)
    requires Find(s, BOXED, 0) == Some(at)
    ensures FirstBox(s).Some? <==> BraceEncloses(s, at)
  {
    hide Find, Scan, Balanced;
    if FirstBox(s).Some? {
      var (brace, r) := FirstBox(s).value;
      FirstBoxIs(s);
      FindBrace(s, at, brace);
    }
    if brace: nat, r: nat :| FirstBrace(s, at, brace) && brace < r < |s| && s[r] == '}' && Balanced(s[brace + 1..r]) {
      FindBrace(s, at, brace);
      ScanFindsMatch(s, brace, r);
    }
  }

  /** On a text with a single `\\boxed` the two scanners agree, if and only if a brace follows it at once or no box is
      enclosed by the first brace anywhere behind it. */
  lemma ScannersAgreeIff(s: string, at: nat)
    requires Find(s, BOXED, 0) == FindLast(s, BOXED, |s|) == Some(at)
    ensures Agree(ExtractBoxedAnswer(s), FirstContent(s)) <==> OccursAt(s, LEFT, at) || !BraceEncloses(s, at)
  {
    hide Scan, Find, FindLast, FirstBox, OccursAt, ExtractBoxedAnswer, Strip, Balanced, BraceEncloses;
    ExtractedAt(s, at);
    FirstBoxIs(s);
    FirstBoxIff(s, at);
    if OccursAt(s, LEFT, at) { BoxFollows(s, at); }
  }

  lemma BoxFollows(s: string, at: nat)
    requires Find(s, BOXED, 0) == Some(at) && OccursAt(s, LEFT, at)
    ensures FirstBox(s) ==
      match Scan(s, at + |BOXED|, 0) case None => None case Some(r) => Some((at + |BOXED|, r))
  {
    hide Scan, Find;
    BraceFollows(s, at);
  }

  /** The first opening brace is the one that follows the word. */
  lemma BraceFollows(s: string, at: nat)
    requires OccursAt(s, BOXED, at) && OccursAt(s, LEFT, at)
    ensures Find(s, "{", at) == Some(at + |BOXED|)
  {
    LeftIff(s, at);
    var brace := at + |BOXED|;
    forall k: nat | at <= k < brace ensures !OccursAt(s, "{", k) {
      PatternAt(s, BOXED, at, k - at);
      if OccursAt(s, "{", k) { PatternAt(s, "{", k, 0); }
    }
    assert s[brace..brace + 1] == "{";
    assert OccursAt(s, "{", brace);
    FindIs(s, "{", at, brace);
  }
}
