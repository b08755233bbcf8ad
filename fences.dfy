/** The two `re.search` calls of `clean_llm_response` (aigrok/cli.py:88, 94),
    both with `re.DOTALL`:

      json: ```(?:json)?\s*(\[.*?\]|\{.*?\})\s*```
      csv:  ```(?:csv)?\s*(.*?)\s*```

    `MatchAt` follows the order in which Python's backtracking engine tries
    the alternatives at one start position (the optional tag first, then the
    longest `\s*`, then the shortest `.*?`), `Search` the leftmost start
    position, and `StripFence` is `m.group(1).strip()` or the unchanged
    response. The lemmas relate this to declarative descriptions of the
    match that mention no search order at all. */
module Fences {
  import opened Wrappers
  import opened Text

  datatype Mode = JsonBlock | CsvBlock

  function Tag(mode: Mode): string {
    match mode
    case JsonBlock => "json"
    case CsvBlock => "csv"
  }

  /** A "```" starts at `i`. */
  predicate FenceAt(s: string, i: nat) {
    i + 3 <= |s| && s[i..i + 3] == "```"
  }

  /** Where `\s*` starting at `k` stops: the end of the longest run of white
      space from `k`. */
  function SkipSpace(s: string, k: nat): (r: nat)
    requires k <= |s|
    ensures k <= r <= |s| && AllSpace(s[k..r])
    ensures r < |s| ==> !IsSpace(s[r])
    decreases |s| - k
  {
    if k < |s| && IsSpace(s[k]) then
      var r := SkipSpace(s, k + 1);
      assert s[k..r] == [s[k]] + s[k + 1..r];
      r
    else k
  }

  /** Where `(?:tag)?` after the fence at `i` stops: behind the tag when it
      is there (the engine tries that first). */
  function AfterTag(s: string, i: nat, tag: string): (t: nat)
    requires FenceAt(s, i)
    ensures i + 3 <= t <= |s|
  {
    if i + 3 + |tag| <= |s| && s[i + 3..i + 3 + |tag|] == tag then i + 3 + |tag| else i + 3
  }

  /** `\s*```` matches from `c`. */
  predicate ClosesAt(s: string, c: nat)
    requires c <= |s|
  {
    FenceAt(s, SkipSpace(s, c))
  }

  /** Some run of white space from `c` ends where a fence starts. */
  ghost predicate ClosedBy(s: string, c: nat) {
    c <= |s| && exists f :: c <= f <= |s| && AllSpace(s[c..f]) && FenceAt(s, f)
  }

  lemma FenceIsNotSpace(s: string, f: nat)
    requires FenceAt(s, f)
    ensures !IsSpace(s[f])
  {
    assert s[f] == s[f..f + 3][0];
  }

  /** The greedy `\s*```` succeeds exactly when some space run ends at a
      fence. */
  lemma ClosesAtIff(s: string, c: nat)
    requires c <= |s|
    ensures ClosesAt(s, c) <==> ClosedBy(s, c)
  {
    if ClosedBy(s, c) {
      var f :| c <= f <= |s| && AllSpace(s[c..f]) && FenceAt(s, f);
      FenceIsNotSpace(s, f);
    }
  }

  /** The capture may end (exclusive) at `c`: the closing `\s*```` follows,
      and a bracketed capture ends with its closing bracket. */
  predicate EndsAt(s: string, c: nat, close: Option<char>)
    requires c <= |s|
  {
    ClosesAt(s, c) && (close.Some? ==> 0 < c && s[c - 1] == close.value)
  }

  /** The lazy `.*?`: the first end at or after `from`. */
  function FirstEnd(s: string, from: nat, close: Option<char>): (r: Option<nat>)
    requires from <= |s|
    ensures r.Some? ==> from <= r.value <= |s| && EndsAt(s, r.value, close)
    ensures r.Some? ==> forall c :: from <= c < r.value ==> !EndsAt(s, c, close)
    ensures r.None? ==> forall c :: from <= c <= |s| ==> !EndsAt(s, c, close)
    decreases |s| - from
  {
    if EndsAt(s, from, close) then Some(from)
    else if from == |s| then None
    else FirstEnd(s, from + 1, close)
  }

  function Closer(open: char): char {
    if open == '[' then ']' else '}'
  }

  /** Where the capture starts for the fence at `i`: behind the optional tag
      and the longest `\s*`. */
  function CaptureStart(s: string, mode: Mode, i: nat): nat
    requires FenceAt(s, i)
  {
    SkipSpace(s, AfterTag(s, i, Tag(mode)))
  }

  /** The json pattern tried at start position `i`: the capture's bounds. */
  function JsonMatchAt(s: string, i: nat): (r: Option<(nat, nat)>)
    requires i <= |s|
    ensures r.Some? ==> r.value.0 <= r.value.1 <= |s|
  {
    if !FenceAt(s, i) then None
    else
      var q := CaptureStart(s, JsonBlock, i);
      if q + 2 <= |s| && (s[q] == '[' || s[q] == '{') then
        match FirstEnd(s, q + 2, Some(Closer(s[q])))
        case Some(c) => Some((q, c))
        case None => None
      else None
  }

  /** The csv pattern tried at start position `i`: the capture's bounds. */
  function CsvMatchAt(s: string, i: nat): (r: Option<(nat, nat)>)
    requires i <= |s|
    ensures r.Some? ==> r.value.0 <= r.value.1 <= |s|
  {
    if !FenceAt(s, i) then None
    else
      var q := CaptureStart(s, CsvBlock, i);
      match FirstEnd(s, q, None)
      case Some(c) => Some((q, c))
      case None => None
  }

  function MatchAt(s: string, mode: Mode, i: nat): (r: Option<(nat, nat)>)
    requires i <= |s|
    ensures r.Some? ==> r.value.0 <= r.value.1 <= |s|
  {
    match mode
    case JsonBlock => JsonMatchAt(s, i)
    case CsvBlock => CsvMatchAt(s, i)
  }

  /** `re.search`: the leftmost start position from `from` on that matches. */
  function Search(s: string, mode: Mode, from: nat): (r: Option<(nat, nat, nat)>)
    requires from <= |s|
    ensures r.Some? ==> from <= r.value.0 <= |s| && MatchAt(s, mode, r.value.0) == Some((r.value.1, r.value.2))
    ensures r.Some? ==> r.value.1 <= r.value.2 <= |s|
    ensures r.Some? ==> forall i :: from <= i < r.value.0 ==> MatchAt(s, mode, i).None?
    ensures r.None? ==> forall i :: from <= i <= |s| ==> MatchAt(s, mode, i).None?
    decreases |s| - from
  {
    match MatchAt(s, mode, from)
    case Some((q, c)) => Some((from, q, c))
    case None => if from == |s| then None else Search(s, mode, from + 1)
  }

  /** The search finds the leftmost start position that matches. */
  lemma SearchLeftmost(s: string, mode: Mode, i: nat)
    requires i <= |s| && MatchAt(s, mode, i).Some?
    requires forall i' :: 0 <= i' < i ==> MatchAt(s, mode, i').None?
    ensures Search(s, mode, 0).Some? && Search(s, mode, 0).value.0 == i
  {
  }

  /** `m.group(1).strip()` for the first match, or the response unchanged. */
  function StripFence(response: string, mode: Mode): string {
    match Search(response, mode, 0)
    case Some((_, q, c)) => Trim(response[q..c])
    case None => response
  }

  // ---------------------------------------------------------------------
  // The json pattern, described without a search order

  /** The fence at `i`, an optional `json` tag and white space lead to the
      opening bracket at `q`. */
  ghost predicate JsonOpens(s: string, i: nat, q: nat) {
    && FenceAt(s, i)
    && AfterTag(s, i, "json") <= q < |s|
    && AllSpace(s[AfterTag(s, i, "json")..q])
    && (s[q] == '[' || s[q] == '{')
  }

  /** The bracketed text `s[q..c]` ends with the bracket matching `s[q]` and
      is followed by white space and a fence. */
  ghost predicate JsonCloses(s: string, q: nat, c: nat) {
    q < |s| && q + 2 <= c <= |s| && s[c - 1] == Closer(s[q]) && ClosedBy(s, c)
  }

  /** The match at `i`: the shortest bracketed text that closes. */
  ghost predicate JsonBlockAt(s: string, i: nat, q: nat, c: nat) {
    && JsonOpens(s, i, q) && JsonCloses(s, q, c)
    && forall c' :: q + 2 <= c' < c ==> !JsonCloses(s, q, c')
  }

  ghost predicate JsonBlockStartsAt(s: string, i: nat) {
    exists q, c :: JsonOpens(s, i, q) && JsonCloses(s, q, c)
  }

  /** The opening bracket is where the longest white space run after the
      tag ends. */
  lemma JsonOpenIsSkip(s: string, i: nat, q: nat)
    requires JsonOpens(s, i, q)
    ensures q == CaptureStart(s, JsonBlock, i)
  {
  }

  /** When the engine matches at `i`, its capture is the declarative match. */
  lemma JsonMatchSome(s: string, i: nat)
    requires i <= |s| && JsonMatchAt(s, i).Some?
    ensures JsonBlockAt(s, i, JsonMatchAt(s, i).value.0, JsonMatchAt(s, i).value.1)
  {
    var q := CaptureStart(s, JsonBlock, i);
    var close := Some(Closer(s[q]));
    var c := FirstEnd(s, q + 2, close).value;
    assert JsonMatchAt(s, i) == Some((q, c));
    ClosesAtIff(s, c);
    forall c' | q + 2 <= c' < c
      ensures !JsonCloses(s, q, c')
    {
      ClosesAtIff(s, c');
      assert !EndsAt(s, c', close);
    }
  }

  /** The engine matches at `i` exactly when a declarative match starts
      there. */
  lemma JsonMatchIff(s: string, i: nat)
    requires i <= |s|
    ensures JsonMatchAt(s, i).Some? <==> JsonBlockStartsAt(s, i)
  {
    if JsonMatchAt(s, i).Some? {
      JsonMatchSome(s, i);
      var (q, c) := JsonMatchAt(s, i).value;
      assert JsonOpens(s, i, q) && JsonCloses(s, q, c);
    }
    if JsonBlockStartsAt(s, i) {
      var q: nat, c: nat :| JsonOpens(s, i, q) && JsonCloses(s, q, c);
      JsonOpenIsSkip(s, i, q);
      ClosesAtIff(s, c);
      assert EndsAt(s, c, Some(Closer(s[q])));
    }
  }

  /** At one start position there is at most one declarative match. */
  lemma JsonBlockUnique(s: string, i: nat, q: nat, c: nat, q': nat, c': nat)
    requires JsonBlockAt(s, i, q, c) && JsonBlockAt(s, i, q', c')
    ensures q == q' && c == c'
  {
    JsonOpenIsSkip(s, i, q);
    JsonOpenIsSkip(s, i, q');
  }

  /** The search lands on the leftmost position where a declarative match
      starts. */
  lemma JsonLeftmost(s: string, i: nat)
    requires i <= |s| && JsonBlockStartsAt(s, i)
    requires forall i' :: 0 <= i' < i ==> !JsonBlockStartsAt(s, i')
    ensures Search(s, JsonBlock, 0).Some? && Search(s, JsonBlock, 0).value.0 == i
  {
    JsonMatchIff(s, i);
    forall i' | 0 <= i' < i
      ensures MatchAt(s, JsonBlock, i').None?
    {
      JsonMatchIff(s, i');
    }
    SearchLeftmost(s, JsonBlock, i);
  }

  /** The leftmost declarative match is what the json cleaning returns. */
  lemma JsonStripFound(s: string, i: nat, q: nat, c: nat)
    requires JsonBlockAt(s, i, q, c)
    requires forall i' :: 0 <= i' < i ==> !JsonBlockStartsAt(s, i')
    ensures StripFence(s, JsonBlock) == s[q..c]
  {
    JsonSearchFinds(s, i, q, c);
    TrimUnpadded(s[q..c]);
  }

  lemma JsonSearchFinds(s: string, i: nat, q: nat, c: nat)
    requires JsonBlockAt(s, i, q, c)
    requires forall i' :: 0 <= i' < i ==> !JsonBlockStartsAt(s, i')
    ensures Search(s, JsonBlock, 0) == Some((i, q, c))
  {
    assert JsonBlockStartsAt(s, i);
    JsonLeftmost(s, i);
    JsonMatchSome(s, i);
    var m := JsonMatchAt(s, i).value;
    JsonBlockUnique(s, i, q, c, m.0, m.1);
  }

  /** Without any declarative match the response is returned unchanged. */
  lemma JsonStripNotFound(s: string)
    requires forall i :: 0 <= i <= |s| ==> !JsonBlockStartsAt(s, i)
    ensures StripFence(s, JsonBlock) == s
  {
    forall i | 0 <= i <= |s|
      ensures MatchAt(s, JsonBlock, i).None?
    {
      JsonMatchIff(s, i);
    }
  }

  /** The json cleaning returns the response unchanged, or a bracketed
      substring of it: `[...]` or `{...}`. */
  lemma JsonStripShape(s: string)
    ensures var out := StripFence(s, JsonBlock);
      || out == s
      || ((exists q, c :: 0 <= q < c <= |s| && out == s[q..c])
          && 2 <= |out|
          && ((out[0] == '[' && out[|out| - 1] == ']') || (out[0] == '{' && out[|out| - 1] == '}')))
  {
    match Search(s, JsonBlock, 0)
    case Some((i0, q, c)) =>
      JsonMatchSome(s, i0);
      TrimUnpadded(s[q..c]);
      assert StripFence(s, JsonBlock) == s[q..c];
    case None =>
  }

  // ---------------------------------------------------------------------
  // The csv pattern, described without a search order

  /** A fence at `i` (with its optional `csv` tag) and another fence after
      it. */
  ghost predicate CsvOpensAt(s: string, i: nat) {
    FenceAt(s, i) && exists f :: AfterTag(s, i, "csv") <= f && FenceAt(s, f)
  }

  /** `f` is the first fence after the opening fence at `i` and its tag. */
  ghost predicate CsvBlockAt(s: string, i: nat, f: nat) {
    && FenceAt(s, i) && AfterTag(s, i, "csv") <= f && FenceAt(s, f)
    && forall j :: AfterTag(s, i, "csv") <= j < f ==> !FenceAt(s, j)
  }

  /** A fence starts with a backquote. */
  lemma FenceHead(s: string, j: nat)
    ensures FenceAt(s, j) ==> s[j] == '`'
  {
    if FenceAt(s, j) {
      assert s[j] == s[j..j + 3][0];
    }
  }

  /** Every character of a white space run is white space. */
  lemma SpaceRunHas(s: string, lo: int, hi: int, k: int)
    ensures 0 <= lo <= k < hi <= |s| && AllSpace(s[lo..hi]) ==> IsSpace(s[k])
  {
    if 0 <= lo <= k < hi <= |s| {
      assert s[k] == s[lo..hi][k - lo];
    }
  }

  lemma SpaceCharNotFence(s: string, lo: nat, hi: nat, j: nat)
    requires lo <= j < hi <= |s| && AllSpace(s[lo..hi])
    ensures !FenceAt(s, j)
  {
    SpaceRunHas(s, lo, hi, j);
    FenceHead(s, j);
  }

  /** A capture may always end right where a fence starts. */
  lemma FenceEnds(s: string, j: nat)
    requires j <= |s|
    ensures FenceAt(s, j) ==> EndsAt(s, j, None)
  {
    if FenceAt(s, j) {
      FenceIsNotSpace(s, j);
    }
  }

  /** Stripping `s[q..c]` is stripping the white space around it as well. */
  lemma TrimAround(s: string, t: nat, q: nat, c: nat, f: nat)
    requires t <= q <= c <= f <= |s|
    requires AllSpace(s[t..q]) && AllSpace(s[c..f])
    ensures Trim(s[q..c]) == Trim(s[t..f])
  {
    assert s[t..f] == s[t..q] + s[q..c] + s[c..f];
    TrimPadded(s[t..q], s[q..c], s[c..f]);
  }

  /** When the engine matches at `i`, its capture, stripped, is the stripped
      text between the opening fence (and tag) and the next fence. */
  lemma CsvMatchSome(s: string, i: nat)
    requires i <= |s| && CsvMatchAt(s, i).Some?
    ensures var (q, c) := CsvMatchAt(s, i).value;
      var f := SkipSpace(s, c);
      q <= c && CsvBlockAt(s, i, f) && Trim(s[q..c]) == Trim(s[AfterTag(s, i, "csv")..f])
  {
    var t := AfterTag(s, i, "csv");
    var q := CaptureStart(s, CsvBlock, i);
    var c := FirstEnd(s, q, None).value;
    assert CsvMatchAt(s, i) == Some((q, c));
    var f := SkipSpace(s, c);
    forall j | t <= j < f
      ensures !FenceAt(s, j)
    {
      if j < q {
        SpaceCharNotFence(s, t, q, j);
      } else if j < c {
        FenceEnds(s, j);
      } else {
        SpaceCharNotFence(s, c, f, j);
      }
    }
    TrimAround(s, t, q, c, f);
  }

  /** The engine matches at `i` exactly when a later fence follows the
      fence at `i`. */
  lemma CsvMatchIff(s: string, i: nat)
    requires i <= |s|
    ensures CsvMatchAt(s, i).Some? <==> CsvOpensAt(s, i)
  {
    if CsvMatchAt(s, i).Some? {
      CsvMatchSome(s, i);
      var f := SkipSpace(s, CsvMatchAt(s, i).value.1);
      assert AfterTag(s, i, "csv") <= f && FenceAt(s, f);
    }
    if CsvOpensAt(s, i) {
      var t := AfterTag(s, i, "csv");
      var q := CaptureStart(s, CsvBlock, i);
      var f: nat :| t <= f && FenceAt(s, f);
      SpaceRunHas(s, t, q, f);
      FenceHead(s, f);
      FenceEnds(s, f);
    }
  }

  /** The search lands on the leftmost opening fence that has a later
      fence. */
  lemma CsvLeftmost(s: string, i: nat)
    requires i <= |s| && CsvOpensAt(s, i)
    requires forall i' :: 0 <= i' < i ==> !CsvOpensAt(s, i')
    ensures Search(s, CsvBlock, 0).Some? && Search(s, CsvBlock, 0).value.0 == i
  {
    CsvMatchIff(s, i);
    forall i' | 0 <= i' < i
      ensures MatchAt(s, CsvBlock, i').None?
    {
      CsvMatchIff(s, i');
    }
    SearchLeftmost(s, CsvBlock, i);
  }

  /** The leftmost opening fence with a later fence decides the csv
      cleaning: the trimmed text up to the next fence. */
  lemma CsvStripFound(s: string, i: nat, f: nat)
    requires CsvBlockAt(s, i, f)
    requires forall i' :: 0 <= i' < i ==> !CsvOpensAt(s, i')
    ensures StripFence(s, CsvBlock) == Trim(s[AfterTag(s, i, "csv")..f])
  {
    assert CsvOpensAt(s, i);
    CsvLeftmost(s, i);
    CsvMatchSome(s, i);
    CsvBlockUnique(s, i, f, SkipSpace(s, CsvMatchAt(s, i).value.1));
  }

  lemma CsvBlockUnique(s: string, i: nat, f: nat, f': nat)
    requires CsvBlockAt(s, i, f) && CsvBlockAt(s, i, f')
    ensures f == f'
  {
  }

  /** Without an opening fence followed by another fence the response is
      returned unchanged. */
  lemma CsvStripNotFound(s: string)
    requires forall i :: 0 <= i <= |s| ==> !CsvOpensAt(s, i)
    ensures StripFence(s, CsvBlock) == s
  {
    forall i | 0 <= i <= |s|
      ensures MatchAt(s, CsvBlock, i).None?
    {
      CsvMatchIff(s, i);
    }
  }

  /** Two fences that do not overlap are enough for the csv pattern to match
      at the first of them. */
  lemma CsvTwoFences(s: string, i: nat, j: nat)
    requires FenceAt(s, i) && FenceAt(s, j) && i + 3 <= j
    ensures CsvOpensAt(s, i)
  {
    FenceHead(s, j);
    TagChars(s, i, j);
    assert AfterTag(s, i, "csv") <= j;
  }

  /** Inside the `csv` tag after the fence at `i` there are only tag
      letters. */
  lemma TagChars(s: string, i: nat, j: nat)
    ensures i + 6 <= |s| && s[i + 3..i + 6] == "csv" && i + 3 <= j < i + 6 ==> s[j] in "csv"
  {
    if i + 6 <= |s| && s[i + 3..i + 6] == "csv" && i + 3 <= j < i + 6 {
      assert s[j] == s[i + 3..i + 6][j - (i + 3)];
    }
  }

}
