/** How `analyzeBill` and `analyzeAudio` cut a JSON text out of the model's
    reply (src/lib/gemini.ts:86-87 and 119-120):

      text.match(/```json\n([\s\S]*?)\n```/) || text.match(/\{[\s\S]*\}/)
      jsonBlock ? jsonBlock[0].replace(/```json|```/g, '') : text

    The two `match` calls are modelled the way a backtracking regular
    expression engine runs them (start positions from left to right; the lazy
    group stops at the first closing fence, the greedy one backs off from the
    end of the text), and are then proved equal to plain descriptions: "the
    first opening fence up to the nearest closing fence after it" and "the
    first `{` up to the last `}`". */
module JsonExtraction {
  import opened Wrappers
  import opened Strings

  /** The opening of a fenced JSON block: three backticks, `json`, a newline. */
  const FenceOpen: string := "```json\n"
  /** The closing of a fenced block: a newline and three backticks. */
  const FenceClose: string := "\n```"
  /** The two alternatives of `/```json|```/g`, in the order they are tried. */
  const TaggedFence: string := "```json"
  const BareFence: string := "```"

  /** The part `text[start..end]` that a regular expression matched. */
  datatype Span = Span(start: nat, end: nat)

  /** The first index at or after `from` where `p` occurs in `s`. */
  function FindFrom(s: string, p: string, from: nat): (r: Option<nat>)
    ensures r.Some? ==> from <= r.value && OccursAt(s, p, r.value)
    ensures r.Some? ==> forall k: nat :: from <= k < r.value ==> !OccursAt(s, p, k)
    ensures r.None? ==> forall k: nat :: from <= k ==> !OccursAt(s, p, k)
    decreases |s| - from
  {
    if from + |p| > |s| then None
    else if OccursAt(s, p, from) then Some(from)
    else FindFrom(s, p, from + 1)
  }

  /** The index of the last `c` in `s`, if any. */
  function LastIndex(s: string, c: char): (r: Option<nat>)
    ensures r.Some? ==> r.value < |s| && s[r.value] == c
    ensures r.Some? ==> forall k :: r.value < k < |s| ==> s[k] != c
    ensures r.None? ==> forall k :: 0 <= k < |s| ==> s[k] != c
  {
    if s == [] then None
    else if s[|s| - 1] == c then Some(|s| - 1)
    else LastIndex(s[..|s| - 1], c)
  }

  // ---------------------------------------------------------------------
  // The fenced-block expression /```json\n([\s\S]*?)\n```/
  // ---------------------------------------------------------------------

  /** The engine's search from start position `i` on: when the opening
      fence matches at `i`, the lazy group grows until the first closing
      fence; when there is none, the engine moves on to `i + 1`. */
  function FencedSearch(s: string, i: nat): (r: Option<Span>)
    ensures r.Some? ==> i <= r.value.start <= r.value.end <= |s|
    decreases |s| - i
  {
    if i > |s| then None
    else if OccursAt(s, FenceOpen, i) then
      match FindFrom(s, FenceClose, i + |FenceOpen|)
      case Some(j) => Some(Span(i, j + |FenceClose|))
      case None => FencedSearch(s, i + 1)
    else FencedSearch(s, i + 1)
  }

  function FencedMatch(s: string): (r: Option<Span>)
    ensures r.Some? ==> r.value.start <= r.value.end <= |s|
  {
    FencedSearch(s, 0)
  }

  lemma {:induction false} FencedSearchSkips(s: string, i: nat, target: nat)
    requires i <= target <= |s|
    requires forall k: nat :: i <= k < target ==> !OccursAt(s, FenceOpen, k)
    ensures FencedSearch(s, i) == FencedSearch(s, target)
    decreases target - i
  {
    if i < target {
      FencedSearchSkips(s, i + 1, target);
    }
  }

  lemma {:induction false} FencedSearchFails(s: string, i: nat, m: nat)
    requires FindFrom(s, FenceClose, m).None?
    requires m <= i + |FenceOpen|
    ensures FencedSearch(s, i) == None
    decreases |s| - i
  {
    if i <= |s| {
      if OccursAt(s, FenceOpen, i) {
        assert FindFrom(s, FenceClose, i + |FenceOpen|).None?;
      }
      FencedSearchFails(s, i + 1, m);
    }
  }

  lemma {:induction false} FencedSearchNoOpening(s: string, i: nat)
    requires forall k: nat :: i <= k ==> !OccursAt(s, FenceOpen, k)
    ensures FencedSearch(s, i) == None
    decreases |s| - i
  {
    if i <= |s| {
      FencedSearchNoOpening(s, i + 1);
    }
  }

  /** The fenced match, when there is one, runs from the FIRST opening fence
      in the text to the NEAREST closing fence after that opening; when the
      first opening has no closing after it, there is no match at all. */
  lemma FencedMatchIsFirstOpening(s: string)
    ensures FencedMatch(s) == FirstFence(s)
  {
    match FindFrom(s, FenceOpen, 0)
    case None =>
      FencedSearchNoOpening(s, 0);
    case Some(i) =>
      FencedSearchSkips(s, 0, i);
      if FindFrom(s, FenceClose, i + |FenceOpen|).None? {
        FencedSearchFails(s, i + 1, i + |FenceOpen|);
      }
  }

  // ---------------------------------------------------------------------
  // The brace expression /\{[\s\S]*\}/
  // ---------------------------------------------------------------------

  /** The greedy `[\s\S]*` after the `{` at `i` first takes the whole rest
      of the text and then gives characters back until `\}` matches at `j`;
      `j` runs from `hi` down to `i + 1`. */
  function GreedyEnd(s: string, i: nat, hi: int): (r: Option<nat>)
    requires hi < |s|
    ensures r.Some? ==> i < r.value <= hi && s[r.value] == '}'
    ensures r.Some? ==> forall k :: r.value < k <= hi ==> s[k] != '}'
    ensures r.None? ==> forall k :: i < k <= hi ==> s[k] != '}'
    decreases hi
  {
    if hi <= i then None
    else if s[hi] == '}' then Some(hi)
    else GreedyEnd(s, i, hi - 1)
  }

  /** The engine's search from start position `i` on. */
  function BraceSearch(s: string, i: nat): (r: Option<Span>)
    ensures r.Some? ==> i <= r.value.start < r.value.end <= |s|
    decreases |s| - i
  {
    if i >= |s| then None
    else if s[i] == '{' then
      match GreedyEnd(s, i, |s| - 1)
      case Some(j) => Some(Span(i, j + 1))
      case None => BraceSearch(s, i + 1)
    else BraceSearch(s, i + 1)
  }

  function BraceMatch(s: string): (r: Option<Span>)
    ensures r.Some? ==> r.value.start < r.value.end <= |s|
  {
    BraceSearch(s, 0)
  }

  lemma {:induction false} BraceSearchSkips(s: string, i: nat, target: nat)
    requires i <= target <= |s|
    requires forall k :: i <= k < target ==> s[k] != '{'
    ensures BraceSearch(s, i) == BraceSearch(s, target)
    decreases target - i
  {
    if i < target {
      BraceSearchSkips(s, i + 1, target);
    }
  }

  lemma {:induction false} BraceSearchFails(s: string, i: nat, f: nat)
    requires f < i
    requires forall k :: f < k < |s| ==> s[k] != '}'
    ensures BraceSearch(s, i) == None
    decreases |s| - i
  {
    if i < |s| {
      BraceSearchFails(s, i + 1, f);
    }
  }

  lemma GreedyEndIsLast(s: string, f: nat, l: Option<nat>)
    requires f < |s| && l == LastIndex(s, '}')
    ensures GreedyEnd(s, f, |s| - 1) == if l.Some? && f < l.value then l else None
  {
    var g := GreedyEnd(s, f, |s| - 1);
    if l.Some? && f < l.value {
      assert s[l.value] == '}';
      assert g.Some?;
      assert g.value <= l.value;
      assert g.value >= l.value;
    } else if l.Some? {
      assert forall k :: f < k < |s| ==> s[k] != '}';
    }
  }

  /** The brace match is the text from the first `{` to the last `}`, and it
      exists exactly when that `{` comes before that `}`. */
  lemma BraceMatchIsFirstToLast(s: string)
    ensures BraceMatch(s) == OuterBraces(s)
  {
    var f := IndexOf(s, '{');
    var l := LastIndex(s, '}');
    BraceSearchSkips(s, 0, f);
    if f < |s| {
      GreedyEndIsLast(s, f, l);
      if !(l.Some? && f < l.value) {
        BraceSearchFails(s, f + 1, f);
      }
    }
  }

  // ---------------------------------------------------------------------
  // The fence deletion .replace(/```json|```/g, '')
  // ---------------------------------------------------------------------

  /** Scans left to right; at each position it tries `` ```json `` and then
      `` ``` ``, deletes what matched and resumes after it, and otherwise
      keeps the character. Deleting never lengthens the text. */
  function RemoveFences(s: string): (r: string)
    ensures |r| <= |s|
    decreases |s|
  {
    if s == [] then []
    else if IsPrefix(TaggedFence, s) then RemoveFences(s[|TaggedFence|..])
    else if IsPrefix(BareFence, s) then RemoveFences(s[|BareFence|..])
    else [s[0]] + RemoveFences(s[1..])
  }

  /** No three consecutive backticks anywhere in `t`. */
  predicate FenceFree(t: string)
  {
    forall k: nat :: k < |t| ==> !OccursAt(t, BareFence, k)
  }

  lemma FenceFreeTail(s: string)
    requires s != [] && FenceFree(s)
    ensures FenceFree(s[1..])
  {
    forall k: nat
      ensures !OccursAt(s[1..], BareFence, k)
    {
      if k + 3 <= |s[1..]| {
        assert s[k + 1..k + 4] == s[1..][k..k + 3];
        assert !OccursAt(s, BareFence, k + 1);
      }
    }
  }

  /** Text without backticks is fence-free. */
  lemma NoBacktickFenceFree(s: string)
    requires '`' !in s
    ensures FenceFree(s)
  {
    forall k: nat
      ensures !OccursAt(s, BareFence, k)
    {
      if k + 3 <= |s| {
        assert s[k] in s;
        assert s[k..k + 3][0] == s[k];
      }
    }
  }

  /** The deletion leaves no fence behind: it can never join backticks on
      the two sides of a deleted token into a new fence. */
  lemma {:induction false} RemoveFencesLeavesNoFence(s: string)
    ensures FenceFree(RemoveFences(s))
    decreases |s|
  {
    if s == [] {
    } else if IsPrefix(TaggedFence, s) {
      RemoveFencesLeavesNoFence(s[|TaggedFence|..]);
    } else if IsPrefix(BareFence, s) {
      RemoveFencesLeavesNoFence(s[|BareFence|..]);
    } else {
      var rest := RemoveFences(s[1..]);
      RemoveFencesLeavesNoFence(s[1..]);
      assert RemoveFences(s) == [s[0]] + rest;
      assert !OccursAt([s[0]] + rest, BareFence, 0) by {
        // when `s` starts with a backtick, `rest` does not start with two
        if s[0] == '`' && |s| >= 2 && s[1] == '`' {
          assert |s| == 2 || s[2] != '`' by {
            if |s| >= 3 {
              assert s[..3] != BareFence;
            }
          }
          assert !IsPrefix(BareFence, s[1..]);
          assert !IsPrefix(TaggedFence, s[1..]);
          assert rest == ['`'] + RemoveFences(s[2..]);
          assert RemoveFences(s[2..]) == [] || RemoveFences(s[2..])[0] == s[2];
        } else if s[0] == '`' && |s| >= 2 {
          assert !IsPrefix(BareFence, s[1..]);
          assert !IsPrefix(TaggedFence, s[1..]);
          assert rest[0] == s[1];
        }
      }
      FenceFreeCons(s[0], rest);
    }
  }

  /** A character in front of fence-free text makes no fence unless it
      starts one. */
  lemma FenceFreeCons(c: char, rest: string)
    requires FenceFree(rest) && !OccursAt([c] + rest, BareFence, 0)
    ensures FenceFree([c] + rest)
  {
    forall k: nat
      ensures !OccursAt([c] + rest, BareFence, k)
    {
      if k > 0 && k + 3 <= |[c] + rest| {
        assert ([c] + rest)[k..k + 3] == rest[k - 1..k + 2];
        assert !OccursAt(rest, BareFence, k - 1);
      }
    }
  }

  /** On fence-free text the deletion changes nothing. */
  lemma {:induction false} RemoveFencesKeepsFenceFree(s: string)
    requires FenceFree(s)
    ensures RemoveFences(s) == s
    decreases |s|
  {
    if s != [] {
      assert !OccursAt(s, BareFence, 0);
      assert !IsPrefix(TaggedFence, s) by {
        if |s| >= 7 {
          assert s[..7][..3] == s[..3];
        }
      }
      FenceFreeTail(s);
      RemoveFencesKeepsFenceFree(s[1..]);
    }
  }

  /** Deleting twice deletes nothing more. */
  lemma RemoveFencesIdempotent(s: string)
    ensures RemoveFences(RemoveFences(s)) == RemoveFences(s)
  {
    RemoveFencesLeavesNoFence(s);
    RemoveFencesKeepsFenceFree(RemoveFences(s));
  }

  /** Backtick-free text in front passes through the deletion unchanged,
      whatever follows it: no token can start inside it. */
  lemma RemoveFencesKeepsBacktickFreeFront(a: string, b: string)
    requires '`' !in a
    ensures RemoveFences(a + b) == a + RemoveFences(b)
  {
    var s := a + b;
    forall i | 0 <= i < |a|
      ensures s[i] != '`'
    {
      assert s[i] == a[i];
      assert a[i] in a;
    }
    KeptPrefix(s, |a|);
    assert s[..|a|] == a;
    assert s[|a|..] == b;
  }

  /** The deletion keeps a backtick-free prefix of its input and goes on
      after it. */
  lemma {:induction false} KeptPrefix(s: string, k: nat)
    requires k <= |s| && forall i :: 0 <= i < k ==> s[i] != '`'
    ensures RemoveFences(s) == s[..k] + RemoveFences(s[k..])
    decreases k
  {
    if k == 0 {
      assert s[..0] == [];
      assert s[0..] == s;
    } else {
      var t := s[k - 1..];
      calc {
        RemoveFences(s);
        { KeptPrefix(s, k - 1); }
        s[..k - 1] + RemoveFences(t);
        { CharKept(t); }
        s[..k - 1] + ([t[0]] + RemoveFences(t[1..]));
        { assert t[0] == s[k - 1]; assert t[1..] == s[k..]; }
        s[..k - 1] + ([s[k - 1]] + RemoveFences(s[k..]));
        { assert s[..k] == s[..k - 1] + [s[k - 1]]; }
        s[..k] + RemoveFences(s[k..]);
      }
    }
  }

  /** A character other than a backtick starts no token and is kept. */
  lemma CharKept(s: string)
    requires s != [] && s[0] != '`'
    ensures RemoveFences(s) == [s[0]] + RemoveFences(s[1..])
  {
    NotPrefixWhenFirstDiffers(TaggedFence, s);
    NotPrefixWhenFirstDiffers(BareFence, s);
  }

  lemma NotPrefixWhenFirstDiffers(p: string, s: string)
    requires p != [] && s != [] && s[0] != p[0]
    ensures !IsPrefix(p, s)
  {
    if |p| <= |s| {
      assert s[..|p|][0] == s[0];
    }
  }

  // ---------------------------------------------------------------------
  // The whole extraction
  // ---------------------------------------------------------------------

  /** The string handed to `JSON.parse`: the fenced match if there is one,
      else the brace match, each with its fence tokens deleted; with no
      match, the whole reply, untouched. It is never longer than the reply,
      and whenever a match was cut out it holds no fence. */
  function JsonString(text: string): (r: string)
    ensures |r| <= |text|
    ensures FencedMatch(text).Some? || BraceMatch(text).Some? ==> FenceFree(r)
  {
    match FencedMatch(text)
    case Some(m) =>
      RemoveFencesLeavesNoFence(text[m.start..m.end]);
      RemoveFences(text[m.start..m.end])
    case None =>
      match BraceMatch(text)
      case Some(m) =>
        RemoveFencesLeavesNoFence(text[m.start..m.end]);
        RemoveFences(text[m.start..m.end])
      case None => text
  }

  /** The first opening fence up to the nearest closing fence after it,
      found by plain searches rather than by the engine. */
  function FirstFence(text: string): (r: Option<Span>)
    ensures r.Some? ==> r.value.start <= r.value.end <= |text|
  {
    match FindFrom(text, FenceOpen, 0)
    case None => None
    case Some(i) =>
      match FindFrom(text, FenceClose, i + |FenceOpen|)
      case None => None
      case Some(j) => Some(Span(i, j + |FenceClose|))
  }

  /** The first `{` up to the last `}`, when that `}` comes after it. */
  function OuterBraces(text: string): (r: Option<Span>)
    ensures r.Some? ==> r.value.start < r.value.end <= |text|
  {
    var f := IndexOf(text, '{');
    var l := LastIndex(text, '}');
    if f < |text| && l.Some? && f < l.value then Some(Span(f, l.value + 1)) else None
  }

  /** The same choice described without the regular expression engine: the
      first opening fence up to the nearest closing fence after it; failing
      that, the first `{` up to the last `}` when it comes after; failing
      that, the whole text. */
  function ReferenceJsonString(text: string): string
  {
    match FirstFence(text)
    case Some(m) => RemoveFences(text[m.start..m.end])
    case None =>
      match OuterBraces(text)
      case Some(m) => RemoveFences(text[m.start..m.end])
      case None => text
  }

  /** The engine-style extraction and the plain description agree on every
      text: a fenced block takes precedence over braces, and with no match
      the text reaches `JSON.parse` with its fences intact. */
  lemma JsonStringIsReference(text: string)
    ensures JsonString(text) == ReferenceJsonString(text)
  {
    FencedMatchIsFirstOpening(text);
    BraceMatchIsFirstToLast(text);
  }

  /** `FindFrom` is determined by its contract. */
  lemma FindFromIs(s: string, p: string, from: nat, i: nat)
    requires from <= i && OccursAt(s, p, i)
    requires forall k: nat :: from <= k < i ==> !OccursAt(s, p, k)
    ensures FindFrom(s, p, from) == Some(i)
  {
    var r := FindFrom(s, p, from);
    assert r.Some?;
    assert !(r.value < i);
  }

  /** `LastIndex` is determined by its contract. */
  lemma LastIndexIs(s: string, c: char, l: nat)
    requires l < |s| && s[l] == c
    requires forall k :: l < k < |s| ==> s[k] != c
    ensures LastIndex(s, c) == Some(l)
  {
    var r := LastIndex(s, c);
    assert r.Some?;
    assert !(r.value < l);
  }

  /** Text without backticks holds no opening fence. */
  lemma NoBacktickNoFencedMatch(s: string)
    requires '`' !in s
    ensures FencedMatch(s) == None
  {
    forall k: nat | k + |FenceOpen| <= |s|
      ensures !OccursAt(s, FenceOpen, k)
    {
      assert s[k..k + |FenceOpen|][0] == s[k];
      assert s[k] in s;
    }
    FencedMatchIsFirstOpening(s);
  }

  /** A reply made of prose without backticks, a fenced block whose content
      has no backticks, and anything after it: the block's content, between
      the two newlines of the fence, is what gets parsed. */
  lemma FencedBlockExtracted(pre: string, inner: string, post: string)
    requires '`' !in pre && '`' !in inner
    ensures JsonString(pre + FenceOpen + inner + FenceClose + post) == "\n" + inner + "\n"
  {
    var text := pre + FenceOpen + inner + FenceClose + post;
    var i := |pre|;
    var e := |pre| + |FenceOpen| + |inner| + |FenceClose|;
    FencedBlockLocated(pre, inner, post);
    FencedMatchIsFirstOpening(text);
    assert JsonString(text) == RemoveFences(text[i..e]);
    assert text[i..e] == FenceOpen + inner + FenceClose;
    FencedBlockStripped(inner);
  }

  /** In such a reply the first opening fence is the block's, and the
      nearest closing fence after it is the block's too. */
  lemma FencedBlockLocated(pre: string, inner: string, post: string)
    requires '`' !in pre && '`' !in inner
    ensures FirstFence(pre + FenceOpen + inner + FenceClose + post)
      == Some(Span(|pre|, |pre| + |FenceOpen| + |inner| + |FenceClose|))
  {
    var text := pre + FenceOpen + inner + FenceClose + post;
    var i := |pre|;
    var j := |pre| + |FenceOpen| + |inner|;
    assert text == [] + pre + (FenceOpen + inner + FenceClose + post);
    BacktickFreeMiddle([], pre, FenceOpen + inner + FenceClose + post);
    assert text[i..i + |FenceOpen|] == FenceOpen;
    assert text == (pre + FenceOpen) + inner + (FenceClose + post);
    BacktickFreeMiddle(pre + FenceOpen, inner, FenceClose + post);
    assert text[j..j + |FenceClose|] == FenceClose;
    FirstFenceAt(text, i, j);
  }

  /** The first fence is the one at `i` closed at `j` when no backtick
      comes before `i` or between the opening and `j`. */
  lemma FirstFenceAt(text: string, i: nat, j: nat)
    requires OccursAt(text, FenceOpen, i) && i + |FenceOpen| <= j && OccursAt(text, FenceClose, j)
    requires forall m :: 0 <= m < i ==> text[m] != '`'
    requires forall m :: i + |FenceOpen| <= m < j ==> text[m] != '`'
    ensures FirstFence(text) == Some(Span(i, j + |FenceClose|))
  {
    OpeningFenceAt(text, i);
    ClosingFenceAt(text, i + |FenceOpen|, j);
  }

  /** A backtick-free middle part puts no backtick in those positions. */
  lemma BacktickFreeMiddle(a: string, b: string, c: string)
    requires '`' !in b
    ensures forall m :: |a| <= m < |a| + |b| ==> (a + b + c)[m] != '`'
  {
    forall m | |a| <= m < |a| + |b|
      ensures (a + b + c)[m] != '`'
    {
      assert (a + b + c)[m] == b[m - |a|];
      assert b[m - |a|] in b;
    }
  }

  /** An opening fence with no backtick before it is the first one. */
  lemma OpeningFenceAt(text: string, i: nat)
    requires OccursAt(text, FenceOpen, i)
    requires forall m :: 0 <= m < i ==> text[m] != '`'
    ensures FindFrom(text, FenceOpen, 0) == Some(i)
  {
    NoOccurrenceWithoutBacktick(text, FenceOpen, 0, 0, i);
    FindFromIs(text, FenceOpen, 0, i);
  }

  /** A closing fence with no backtick between `lo` and it is the first one
      from `lo` on: any earlier one would need a backtick right after its
      newline. */
  lemma ClosingFenceAt(text: string, lo: nat, j: nat)
    requires lo <= j && OccursAt(text, FenceClose, j)
    requires forall m :: lo <= m < j ==> text[m] != '`'
    ensures FindFrom(text, FenceClose, lo) == Some(j)
  {
    assert text[j] == text[j..j + |FenceClose|][0] == '\n';
    NoOccurrenceWithoutBacktick(text, FenceClose, 1, lo, j);
    FindFromIs(text, FenceClose, lo, j);
  }

  /** No pattern occurs where the text lacks a backtick the pattern has at
      offset `d`. */
  lemma NoOccurrenceWithoutBacktick(text: string, p: string, d: nat, lo: nat, hi: nat)
    requires d < |p| && p[d] == '`'
    requires forall m :: lo + d <= m < hi + d && m < |text| ==> text[m] != '`'
    ensures forall k: nat :: lo <= k < hi ==> !OccursAt(text, p, k)
  {
    forall k: nat | lo <= k < hi
      ensures !OccursAt(text, p, k)
    {
      if k + |p| <= |text| {
        assert text[k..k + |p|][d] == text[k + d];
        assert k + d < |text|;
      }
    }
  }

  /** Deleting the fence tokens from a whole fenced block with backtick-free
      content leaves the content between its two newlines. */
  lemma FencedBlockStripped(inner: string)
    requires '`' !in inner
    ensures RemoveFences(FenceOpen + inner + FenceClose) == "\n" + inner + "\n"
  {
    var block := FenceOpen + inner + FenceClose;
    var rest := inner + FenceClose;
    assert block[..|TaggedFence|] == TaggedFence;
    assert block[|TaggedFence|..] == ['\n'] + rest;
    NewlineKept(rest);
    RemoveFencesKeepsBacktickFreeFront(inner, FenceClose);
    ClosingFenceStripped();
  }

  /** A newline is never part of a fence token, so it is kept. */
  lemma NewlineKept(rest: string)
    ensures RemoveFences(['\n'] + rest) == ['\n'] + RemoveFences(rest)
  {
    var t := ['\n'] + rest;
    assert t[0] == '\n';
    assert !IsPrefix(TaggedFence, t) by { assert TaggedFence[0] != '\n'; }
    assert !IsPrefix(BareFence, t) by { assert BareFence[0] != '\n'; }
    assert t[1..] == rest;
  }

  /** The closing fence loses its backticks and keeps its newline. */
  lemma ClosingFenceStripped()
    ensures RemoveFences(FenceClose) == "\n"
  {
    NewlineKept(BareFence);
    assert FenceClose == ['\n'] + BareFence;
    assert IsPrefix(BareFence, BareFence);
    assert !IsPrefix(TaggedFence, BareFence);
    assert BareFence[|BareFence|..] == [];
  }

  /** Where the first `{` of `pre + "{" + body + "}" + post` is when `pre`
      has no `{`. */
  lemma FirstOpenBrace(pre: string, body: string, post: string)
    requires '{' !in pre
    ensures IndexOf(pre + "{" + body + "}" + post, '{') == |pre|
  {
    var text := pre + "{" + body + "}" + post;
    assert text[|pre|] == '{';
    forall k | 0 <= k < |pre|
      ensures text[k] != '{'
    {
      assert text[k] == pre[k];
      assert pre[k] in pre;
    }
  }

  /** Where the last `}` of `pre + "{" + body + "}" + post` is when `post`
      has no `}`. */
  lemma LastCloseBrace(pre: string, body: string, post: string)
    requires '}' !in post
    ensures LastIndex(pre + "{" + body + "}" + post, '}') == Some(|pre| + |body| + 1)
  {
    var text := pre + "{" + body + "}" + post;
    var l := |pre| + |body| + 1;
    assert text[l] == '}';
    forall k | l < k < |text|
      ensures text[k] != '}'
    {
      assert text[k] == post[k - l - 1];
      assert post[k - l - 1] in post;
    }
    LastIndexIs(text, '}', l);
  }

  /** A reply without backticks whose only braces are the outer ones of one
      `{...}` region: exactly that region is parsed. */
  lemma BraceRegionExtracted(pre: string, body: string, post: string)
    requires '`' !in pre && '`' !in body && '`' !in post
    requires '{' !in pre && '}' !in post
    ensures JsonString(pre + "{" + body + "}" + post) == "{" + body + "}"
  {
    var text := pre + "{" + body + "}" + post;
    var region := "{" + body + "}";
    assert text == pre + region + post;
    assert '`' !in region;
    assert '`' !in text;
    NoBacktickNoFencedMatch(text);
    FirstOpenBrace(pre, body, post);
    LastCloseBrace(pre, body, post);
    BraceMatchIsFirstToLast(text);
    assert text[|pre|..|pre| + |body| + 2] == region;
    NoBacktickFenceFree(region);
    RemoveFencesKeepsFenceFree(region);
  }
}
