/**
 * `extract_json_from_response` (`src/utils/json_helpers.py`): find the JSON
 * text in a model reply and decode it.  The two regular expressions are
 * written out as the spans they select; `json.loads` is an input `decode`
 * that answers `None` where it would raise `JSONDecodeError`.
 */
module JsonHelpers {
  import opened Wrappers
  import opened Text
  import opened Values

  /** `json.loads`, with `None` for a decoding error. */
  type Decoder = string -> Option<Value>

  // ---------------------------------------------------------------------
  // ```(?:json)?\n(.*?)\n```  (dot matches newlines)
  // ---------------------------------------------------------------------

  /**
   * Where the captured content of a fence opened at `i` starts: after
   * "```json" and a newline, or after "```" and a newline.
   */
  function ContentStart(text: string, i: nat): (s: Option<nat>)
    ensures s.Some? ==> OccursAt(text, "```", i) && i + 4 <= s.value <= |text| && text[i] == '`'
    ensures s.Some? ==> OccursAt(text, "\n", s.value - 1)
  {
    if !OccursAt(text, "```", i) then None
    else if OccursAt(text, "json\n", i + 3) then Some(i + 8)
    else if OccursAt(text, "\n", i + 3) then Some(i + 4)
    else None
  }

  /** The first position at or after `from` where a newline and "```" close the block (the lazy `.*?`). */
  function Closing(text: string, from: nat): (e: Option<nat>)
    ensures e.Some? ==> from <= e.value && OccursAt(text, "\n```", e.value)
    ensures e.Some? ==> forall j :: from <= j < e.value ==> !OccursAt(text, "\n```", j)
    ensures e.None? ==> forall j :: from <= j ==> !OccursAt(text, "\n```", j)
    decreases |text| - from
  {
    if from + 4 > |text| then None
    else if OccursAt(text, "\n```", from) then Some(from)
    else Closing(text, from + 1)
  }

  /** The span of the captured content when the pattern matches at `i`. */
  function FenceAt(text: string, i: nat): (r: Option<(nat, nat)>)
    ensures r.Some? ==> OccursAt(text, "```", i) && i + 4 <= r.value.0 <= r.value.1 && OccursAt(text, "\n```", r.value.1)
    ensures r.Some? ==> forall j :: r.value.0 <= j < r.value.1 ==> !OccursAt(text, "\n```", j)
  {
    match ContentStart(text, i)
    case None => None
    case Some(s) =>
      match Closing(text, s)
      case None => None
      case Some(e) => Some((s, e))
  }

  /** The leftmost position at or after `i` where the fence pattern matches. */
  function FirstFence(text: string, i: nat): (j: Option<nat>)
    ensures j.Some? ==> i <= j.value && FenceAt(text, j.value).Some?
    ensures j.Some? ==> forall k :: i <= k < j.value ==> FenceAt(text, k).None?
    ensures j.None? ==> forall k :: i <= k ==> FenceAt(text, k).None?
    decreases |text| - i
  {
    if i + 4 > |text| then None
    else if FenceAt(text, i).Some? then Some(i)
    else FirstFence(text, i + 1)
  }

  /** The captured content of the first fenced block, if there is one. */
  function FencedContent(text: string): (r: Option<string>)
    ensures r.Some? ==> |r.value| + 8 <= |text|
  {
    match FirstFence(text, 0)
    case None => None
    case Some(j) =>
      var span := FenceAt(text, j).value;
      var s, e := span.0, span.1;
      assert OccursAt(text, "\n```", e);
      Some(text[s..e])
  }

  /** The content is that of a block the pattern matches, and there is none exactly when no block matches. */
  lemma FencedContentSpec(text: string)
    ensures FencedContent(text).Some? ==>
            exists j, s, e :: FenceAt(text, j) == Some((s, e)) && s <= e <= |text| && FencedContent(text).value == text[s..e]
    ensures FencedContent(text).None? <==> forall k :: FenceAt(text, k).None?
  {
    match FirstFence(text, 0)
    case None =>
    case Some(j) =>
      var span := FenceAt(text, j).value;
      assert OccursAt(text, "\n```", span.1);
  }

  // ---------------------------------------------------------------------
  // \{.*\}  (dot matches newlines)
  // ---------------------------------------------------------------------

  /** The first index at or after `from` holding `c`. */
  function IndexOf(text: string, c: char, from: nat): (r: Option<nat>)
    ensures r.Some? ==> from <= r.value < |text| && text[r.value] == c
    ensures r.Some? ==> forall k :: from <= k < r.value ==> text[k] != c
    ensures r.None? ==> forall k :: from <= k < |text| ==> text[k] != c
    decreases |text| - from
  {
    if from >= |text| then None
    else if text[from] == c then Some(from)
    else IndexOf(text, c, from + 1)
  }

  /** The last index below `n` holding `c`. */
  function LastIndexOf(text: string, c: char, n: nat): (r: Option<nat>)
    requires n <= |text|
    ensures r.Some? ==> r.value < n && text[r.value] == c
    ensures r.Some? ==> forall k :: r.value < k < n ==> text[k] != c
    ensures r.None? ==> forall k :: 0 <= k < n ==> text[k] != c
  {
    if n == 0 then None
    else if text[n - 1] == c then Some(n - 1)
    else LastIndexOf(text, c, n - 1)
  }

  /**
   * The greedy brace match: from the first "{" to the last "}", when that
   * "}" comes after the "{"; no match exactly when no "{" is followed
   * anywhere later by a "}".
   */
  function BraceSpan(text: string): (r: Option<(nat, nat)>)
    ensures r.Some? ==> r.value.0 < r.value.1 < |text| && text[r.value.0] == '{' && text[r.value.1] == '}'
  {
    var first := IndexOf(text, '{', 0);
    var last := LastIndexOf(text, '}', |text|);
    if first.Some? && last.Some? && first.value < last.value then Some((first.value, last.value))
    else None
  }

  /** The span runs from the first "{" to the last "}", and there is none exactly when no "{" precedes a "}". */
  lemma BraceSpanSpec(text: string)
    ensures BraceSpan(text).Some? ==> forall k :: 0 <= k < BraceSpan(text).value.0 ==> text[k] != '{'
    ensures BraceSpan(text).Some? ==> forall k :: BraceSpan(text).value.1 < k < |text| ==> text[k] != '}'
    ensures BraceSpan(text).None? <==> !exists a, b :: 0 <= a < b < |text| && text[a] == '{' && text[b] == '}'
  {
    var first := IndexOf(text, '{', 0);
    var last := LastIndexOf(text, '}', |text|);
  }

  // ---------------------------------------------------------------------
  // The extraction.
  // ---------------------------------------------------------------------

  /**
   * `extract_json_from_response`: the stripped content of the first fenced
   * block when it decodes; otherwise the brace span when there is one and
   * it decodes; otherwise nothing.
   */
  function ExtractJson(text: string, decode: Decoder): (r: Option<Value>)
    ensures FencedContent(text).Some? && decode(Strip(FencedContent(text).value)).Some? ==>
            r == decode(Strip(FencedContent(text).value))
    ensures (FencedContent(text).None? || decode(Strip(FencedContent(text).value)).None?) && BraceSpan(text).Some? ==>
            r == decode(text[BraceSpan(text).value.0..BraceSpan(text).value.1 + 1])
    ensures (FencedContent(text).None? || decode(Strip(FencedContent(text).value)).None?) && BraceSpan(text).None? ==>
            r.None?
  {
    var fenced := if FencedContent(text).Some? then decode(Strip(FencedContent(text).value)) else None;
    if fenced.Some? then fenced
    else
      match BraceSpan(text)
      case None => None
      case Some(span) => decode(text[span.0..span.1 + 1])
  }

  /**
   * A bare object embedded in prose is recovered: with no backquote in the
   * reply, no "{" before the object and no "}" after it, the object's own
   * text is what gets decoded (`something {"b": 2} end` gives `{"b": 2}`).
   */
  lemma {:induction false} ProseObjectRecovered(prose: string, obj: string, tail: string, decode: Decoder)
    requires '`' !in prose + obj + tail
    requires '{' !in prose && '}' !in tail
    requires |obj| >= 2 && obj[0] == '{' && obj[|obj| - 1] == '}'
    ensures ExtractJson(prose + obj + tail, decode) == decode(obj)
  {
    var text := prose + obj + tail;
    assert forall k: nat :: ContentStart(text, k).None?;
    FencedContentSpec(text);
    var a, b := |prose|, |prose| + |obj| - 1;
    assert text[a] == '{' && text[b] == '}';
    forall k | 0 <= k < a
      ensures text[k] != '{'
    {
      assert text[k] == prose[k];
    }
    forall k | b < k < |text|
      ensures text[k] != '}'
    {
      assert text[k] == tail[k - |prose| - |obj|];
    }
    BraceSpanSpec(text);
    assert BraceSpan(text) == Some((a, b));
    assert text[a..b + 1] == obj;
  }
}
