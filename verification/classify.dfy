/**
 * The `classify` action of the ticket view set: a chain of guards (a
 * description is required, then an API key), a call to the language model,
 * a clean-up of the model's reply, and a fixed fallback suggestion when the
 * call or the parse fails.
 *
 * The model call and `json.loads` are outside the model: the call's reply
 * arrives as `completion` (`None` when the call, or reading the reply,
 * raised), and the JSON parser as `parse` (`None` when it raised).
 */
module Classify {
  import opened Wrappers
  import opened Tickets

  const DescriptionRequired: string := "Description is required"
  const KeyNotConfigured: string := "LLM API Key not configured"
  const FallbackWarning: string := "LLM classification failed, using defaults."

  /** The markdown code fence, and the fence opening a JSON block. */
  const Fence: string := "```"
  const JsonFence: string := "```json"

  /** The action's responses; `J` is whatever the JSON parser produced. */
  datatype ClassifyResponse<J> =
    | BadRequest(error: string)
    | Unavailable(error: string)
    | Suggested(result: J)
    | Fallback(suggestedCategory: string, suggestedPriority: string, warning: string)
  {
    function StatusCode(): int
    {
      match this
      case BadRequest(_) => 400
      case Unavailable(_) => 503
      case _ => 200
    }
  }

  /** Python's `not v` for a value that is a string or absent. */
  predicate Falsy(v: Option<string>)
  {
    v.None? || v.value == ""
  }

  // ---------------------------------------------------------------------
  // The clean-up pipeline
  // ---------------------------------------------------------------------

  /** `pat` occurs in `s` starting at position `i`. */
  predicate OccursAt(s: string, pat: string, i: nat)
  {
    i + |pat| <= |s| && s[i..i + |pat|] == pat
  }

  /** `pat` occurs nowhere in `s`. */
  ghost predicate Free(s: string, pat: string)
  {
    forall i: nat :: !OccursAt(s, pat, i)
  }

  /** An occurrence inside a slice is an occurrence in the whole text. */
  lemma OccursInSlice(s: string, pat: string, a: nat, b: nat, i: nat)
    requires a <= b <= |s|
    ensures OccursAt(s[a..b], pat, i) ==> OccursAt(s, pat, a + i)
  {
    if i + |pat| <= b - a {
      var inner, outer := s[a..b][i..i + |pat|], s[a + i..a + i + |pat|];
      forall k | 0 <= k < |pat| ensures inner[k] == outer[k] {
        assert inner[k] == s[a..b][i + k] == s[a + i + k];
      }
      assert inner == outer;
    }
  }

  /**
   * `s.replace(pat, '')`: a left-to-right scan that drops each
   * non-overlapping occurrence of `pat`. `RemoveAllOfFree` and
   * `RemoveAllStep` below characterise it on every text.
   */
  function RemoveAll(s: string, pat: string): (r: string)
    requires pat != []
    ensures |r| <= |s|
    decreases |s|
  {
    if |s| < |pat| then
      s
    else if s[..|pat|] == pat then
      RemoveAll(s[|pat|..], pat)
    else
      [s[0]] + RemoveAll(s[1..], pat)
  }

  /** Text without the pattern is left as it is. */
  lemma {:induction false} RemoveAllOfFree(s: string, pat: string)
    requires pat != [] && Free(s, pat)
    ensures RemoveAll(s, pat) == s
    decreases |s|
  {
    if |pat| <= |s| {
      assert !OccursAt(s, pat, 0);
      assert s[..|pat|] == s[0..|pat|];
      FreeSlice(s, pat, 1, |s|);
      assert s[1..] == s[1..|s|];
      RemoveAllOfFree(s[1..], pat);
      assert s == [s[0]] + s[1..];
    }
  }

  /** A first character that is not a backtick survives fence removal, in front. */
  lemma KeepsPlainHead(s: string)
    requires s != [] && s[0] != '`'
    ensures RemoveAll(s, Fence) == [s[0]] + RemoveAll(s[1..], Fence)
  {
    if |s| < |Fence| {
      assert s == [s[0]] + s[1..];
    } else {
      assert s[..|Fence|][0] == s[0];
    }
  }

  /**
   * Keeping the first character of a text that does not start with a fence
   * cannot create a fence at the front.
   */
  lemma {:induction false} NoFenceAtFront(s: string)
    requires |s| >= |Fence| && s[..|Fence|] != Fence
    ensures !OccursAt([s[0]] + RemoveAll(s[1..], Fence), Fence, 0)
  {
    var rest := RemoveAll(s[1..], Fence);
    var r := [s[0]] + rest;
    if s[0] != '`' {
      assert r[0] != Fence[0];
    } else if s[1] != '`' {
      KeepsPlainHead(s[1..]);
      assert r[1] == s[1] != Fence[1];
    } else {
      assert s[2] != '`' by {
        assert s[..3] != Fence;
      }
      var t := s[1..];
      if |t| < |Fence| {
        assert r[2] == s[2] != Fence[2];
      } else {
        assert t[..3][1] == s[2];
        assert rest == [t[0]] + RemoveAll(t[1..], Fence);
        KeepsPlainHead(t[1..]);
        assert r[2] == s[2] != Fence[2];
      }
    }
  }

  /** After `replace('```', '')` no fence is left, even one formed by joining the remaining pieces. */
  lemma {:induction false} RemoveFencesLeavesNone(s: string)
    ensures Free(RemoveAll(s, Fence), Fence)
    decreases |s|
  {
    if |s| < |Fence| {
      forall i: nat ensures !OccursAt(s, Fence, i) { }
    } else if s[..|Fence|] == Fence {
      RemoveFencesLeavesNone(s[|Fence|..]);
    } else {
      var rest := RemoveAll(s[1..], Fence);
      var r := [s[0]] + rest;
      assert r == RemoveAll(s, Fence);
      RemoveFencesLeavesNone(s[1..]);
      NoFenceAtFront(s);
      assert rest == r[1..|r|];
      forall i: nat | i > 0 ensures OccursAt(r, Fence, i) ==> OccursAt(rest, Fence, i - 1) {
        if i + |Fence| <= |r| {
          assert r[i..i + |Fence|] == rest[i - 1..i - 1 + |Fence|];
        }
      }
    }
  }

  /** Python's `str.isspace` for one character. */
  predicate IsSpace(c: char)
  {
    var n := c as int;
    || 0x09 <= n <= 0x0d || 0x1c <= n <= 0x20
    || n == 0x85 || n == 0xa0 || n == 0x1680 || 0x2000 <= n <= 0x200a
    || n == 0x2028 || n == 0x2029 || n == 0x202f || n == 0x205f || n == 0x3000
  }

  /** Neither the first nor the last character is whitespace. */
  predicate Trimmed(s: string)
  {
    s == [] || (!IsSpace(s[0]) && !IsSpace(s[|s| - 1]))
  }

  /** `s.lstrip()`: the longest suffix of `s` that does not start with whitespace. */
  function TrimStart(s: string): (r: string)
    ensures |r| <= |s| && r == s[|s| - |r|..]
    ensures r == [] || !IsSpace(r[0])
    ensures forall i | 0 <= i < |s| - |r| :: IsSpace(s[i])
  {
    if s != [] && IsSpace(s[0]) then
      var r := TrimStart(s[1..]);
      assert forall i | 1 <= i < |s| :: s[i] == s[1..][i - 1];
      r
    else
      s
  }

  /** `s.rstrip()`: the longest prefix of `s` that does not end with whitespace. */
  function TrimEnd(s: string): (r: string)
    ensures |r| <= |s| && r == s[..|r|]
    ensures r == [] || !IsSpace(r[|r| - 1])
    ensures forall i | |r| <= i < |s| :: IsSpace(s[i])
  {
    if s != [] && IsSpace(s[|s| - 1]) then
      var r := TrimEnd(s[..|s| - 1]);
      assert forall i | 0 <= i < |s| - 1 :: s[i] == s[..|s| - 1][i];
      r
    else
      s
  }

  /** `s.strip()`: a slice of `s` that neither starts nor ends with whitespace. */
  function Strip(s: string): (r: string)
    ensures exists a, b ::
              && 0 <= a <= b <= |s| && r == s[a..b]
              && (forall i | 0 <= i < a :: IsSpace(s[i]))
              && (forall i | b <= i < |s| :: IsSpace(s[i]))
    ensures Trimmed(r)
    ensures Trimmed(s) ==> r == s
    ensures |r| <= |s|
  {
    var left := TrimStart(s);
    var r := TrimEnd(left);
    assert r == s[|s| - |left|..|s| - |left| + |r|];
    r
  }

  /** A slice of fence-free text is fence-free. */
  lemma FreeSlice(s: string, pat: string, a: nat, b: nat)
    requires a <= b <= |s|
    requires Free(s, pat)
    ensures Free(s[a..b], pat)
  {
    forall i: nat ensures OccursAt(s[a..b], pat, i) ==> OccursAt(s, pat, a + i) {
      OccursInSlice(s, pat, a, b, i);
    }
  }

  /** `content.replace('```json', '').replace('```', '').strip()`. */
  function Clean(content: string): (r: string)
    ensures |r| <= |content|
    ensures Trimmed(r)
  {
    var unjson := RemoveAll(content, JsonFence);
    var unfenced := RemoveAll(unjson, Fence);
    Strip(unfenced)
  }

  /** The cleaned reply holds no code fence and no surrounding whitespace. */
  lemma CleanRemovesFencesAndSpace(content: string)
    ensures Free(Clean(content), Fence)
    ensures Trimmed(Clean(content))
  {
    var unfenced := RemoveAll(RemoveAll(content, JsonFence), Fence);
    RemoveFencesLeavesNone(RemoveAll(content, JsonFence));
    var a, b :| 0 <= a <= b <= |unfenced| && Clean(content) == unfenced[a..b];
    FreeSlice(unfenced, Fence, a, b);
  }

  /** Text before the first backtick passes through the removal of any fence pattern. */
  lemma {:induction false} RemoveAllKeepsPlainPrefix(x: string, y: string, pat: string)
    requires pat != [] && pat[0] == '`'
    requires '`' !in x
    ensures RemoveAll(x + y, pat) == x + RemoveAll(y, pat)
  {
    if x != [] {
      var s := x + y;
      assert s[0] == x[0];
      assert s[1..] == x[1..] + y;
      RemoveAllKeepsPlainPrefix(x[1..], y, pat);
      if |s| >= |pat| {
        assert s[..|pat|][0] == s[0];
      }
      assert x == [x[0]] + x[1..];
    } else {
      assert x + y == y;
    }
  }

  /** No occurrence of `pat` starts before position `k`. */
  predicate NoneBefore(s: string, pat: string, k: nat)
    decreases k
  {
    k == 0 || (!OccursAt(s, pat, k - 1) && NoneBefore(s, pat, k - 1))
  }

  lemma {:induction false} NoneBeforeOfAll(s: string, pat: string, k: nat)
    requires forall j: nat | j < k :: !OccursAt(s, pat, j)
    ensures NoneBefore(s, pat, k)
  {
    if k > 0 {
      NoneBeforeOfAll(s, pat, k - 1);
    }
  }

  lemma {:induction false} NoneBeforeFront(s: string, pat: string, k: nat)
    requires 0 < k && NoneBefore(s, pat, k)
    ensures !OccursAt(s, pat, 0)
  {
    if k > 1 {
      NoneBeforeFront(s, pat, k - 1);
    }
  }

  /** Dropping the first character shifts an occurrence one to the left. */
  lemma ShiftOccurrence(s: string, pat: string, i: nat)
    requires s != []
    ensures OccursAt(s[1..], pat, i) <==> OccursAt(s, pat, i + 1)
  {
    if i + |pat| <= |s| - 1 {
      assert s[1..][i..i + |pat|] == s[i + 1..i + 1 + |pat|];
    }
  }

  lemma {:induction false} ShiftNoneBefore(s: string, pat: string, k: nat)
    requires s != [] && 0 < k && NoneBefore(s, pat, k)
    ensures NoneBefore(s[1..], pat, k - 1)
  {
    if k > 1 {
      ShiftNoneBefore(s, pat, k - 1);
      ShiftOccurrence(s, pat, k - 2);
    }
  }

  /**
   * Text before the first occurrence of `pat` is kept as it is: when no
   * occurrence starts inside `x`, the scan of `x + t` keeps `x` and goes
   * on with `t`.
   */
  lemma {:induction false} RemoveAllPlainPrefix(x: string, t: string, pat: string)
    requires pat != [] && NoneBefore(x + t, pat, |x|)
    ensures RemoveAll(x + t, pat) == x + RemoveAll(t, pat)
    decreases |x|
  {
    if x == [] {
      assert x + t == t;
    } else {
      var s := x + t;
      if |pat| <= |s| {
        assert s[1..] == x[1..] + t;
        ShiftNoneBefore(s, pat, |x|);
        RemoveAllPlainPrefix(x[1..], t, pat);
        NoneBeforeFront(s, pat, |x|);
        SkipPlainHead(s, pat);
        ConsAppend(x, RemoveAll(t, pat));
      } else {
        assert RemoveAll(s, pat) == s && RemoveAll(t, pat) == t;
      }
    }
  }

  lemma ConsAppend(x: string, r: string)
    requires x != []
    ensures [x[0]] + (x[1..] + r) == x + r
  {
    assert x == [x[0]] + x[1..];
  }

  /** An occurrence at the very front is dropped. */
  lemma DropFront(s: string, pat: string)
    requires pat != [] && OccursAt(s, pat, 0)
    ensures RemoveAll(s, pat) == RemoveAll(s[|pat|..], pat)
  {
    assert s[..|pat|] == pat;
  }

  /**
   * One step of the scan: in `x + pat + y` with no earlier
   * occurrence, `x` is kept and the scan resumes on `y`. With
   * `RemoveAllOfFree` this fixes the result on every text.
   */
  lemma RemoveAllStep(x: string, y: string, pat: string)
    requires pat != []
    requires forall j: nat | j < |x| :: !OccursAt(x + pat + y, pat, j)
    ensures RemoveAll(x + pat + y, pat) == x + RemoveAll(y, pat)
  {
    var t := pat + y;
    assert x + pat + y == x + t;
    NoneBeforeOfAll(x + t, pat, |x|);
    RemoveAllPlainPrefix(x, t, pat);
    assert t[..|pat|] == pat && t[|pat|..] == y;
    DropFront(t, pat);
  }

  /** A text that does not start with the pattern keeps its first character. */
  lemma SkipPlainHead(s: string, pat: string)
    requires pat != [] && |pat| <= |s|
    requires !OccursAt(s, pat, 0)
    ensures RemoveAll(s, pat) == [s[0]] + RemoveAll(s[1..], pat)
  {
    assert s[..|pat|] == s[0..|pat|];
  }

  /**
   * What the clean-up is for: a reply wrapped in a JSON code block, whose
   * body holds no backtick, is cleaned to its stripped body.
   */
  lemma CleanUnwrapsJsonBlock(body: string)
    requires '`' !in body
    ensures Clean(JsonFence + body + Fence) == Strip(body)
  {
    var s := JsonFence + body + Fence;
    assert s[..|JsonFence|] == JsonFence;
    assert s[|JsonFence|..] == body + Fence;
    assert RemoveAll(Fence, JsonFence) == Fence;
    RemoveAllKeepsPlainPrefix(body, Fence, JsonFence);
    assert RemoveAll(s, JsonFence) == body + Fence;
    assert Fence[..|Fence|] == Fence && Fence[|Fence|..] == [];
    assert RemoveAll(Fence, Fence) == [];
    RemoveAllKeepsPlainPrefix(body, Fence, Fence);
    assert body + [] == body;
  }

  /** Text free of a pattern is free of every longer pattern starting with it. */
  lemma FreeOfLonger(s: string, pat: string, longer: string)
    requires |pat| <= |longer| && longer[..|pat|] == pat
    requires Free(s, pat)
    ensures Free(s, longer)
  {
    forall i: nat ensures OccursAt(s, longer, i) ==> OccursAt(s, pat, i) {
      if i + |longer| <= |s| {
        assert s[i..i + |pat|] == s[i..i + |longer|][..|pat|];
      }
    }
  }

  /** Cleaning twice is cleaning once. */
  lemma CleanIsIdempotent(content: string)
    ensures Clean(Clean(content)) == Clean(content)
  {
    var c := Clean(content);
    CleanRemovesFencesAndSpace(content);
    FreeOfLonger(c, Fence, JsonFence);
    RemoveAllOfFree(c, JsonFence);
    RemoveAllOfFree(c, Fence);
    assert Strip(c) == c;
  }

  // ---------------------------------------------------------------------
  // The action
  // ---------------------------------------------------------------------

  /**
   * The classify action. An absent or empty description is refused with 400
   * before anything else is looked at; then an absent or empty key gives
   * 503; only then is the model's reply used. A reply that arrives and
   * parses is returned as parsed, without any check of its keys or values;
   * any failure gives the fixed general/medium suggestion with a warning.
   */
  function ClassifyRequest<J>(description: Option<string>, apiKey: Option<string>,
                              completion: Option<string>, parse: string -> Option<J>): (r: ClassifyResponse<J>)
    ensures r.StatusCode() == 400 <==> Falsy(description)
    ensures r.StatusCode() == 503 <==> !Falsy(description) && Falsy(apiKey)
    ensures r.BadRequest? ==> r.error == DescriptionRequired
    ensures r.Unavailable? ==> r.error == KeyNotConfigured
    ensures r.Suggested? <==>
      !Falsy(description) && !Falsy(apiKey) && completion.Some? && parse(Clean(completion.value)).Some?
    ensures r.Suggested? ==> Some(r.result) == parse(Clean(completion.value))
    ensures r.Fallback? ==> r == Fallback(CategoryName(General), PriorityName(Medium), FallbackWarning)
  {
    if Falsy(description) then
      BadRequest(DescriptionRequired)
    else if Falsy(apiKey) then
      Unavailable(KeyNotConfigured)
    else if completion.None? then
      Fallback(CategoryName(General), PriorityName(Medium), FallbackWarning)
    else
      match parse(Clean(completion.value))
      case Some(result) => Suggested(result)
      case None => Fallback(CategoryName(General), PriorityName(Medium), FallbackWarning)
  }

  /** A refused request never depends on what the model would have answered. */
  lemma GuardsPrecedeModelCall<J>(description: Option<string>, apiKey: Option<string>,
                                  reply1: Option<string>, reply2: Option<string>, parse: string -> Option<J>)
    requires Falsy(description) || Falsy(apiKey)
    ensures ClassifyRequest(description, apiKey, reply1, parse) == ClassifyRequest(description, apiKey, reply2, parse)
    ensures ClassifyRequest(description, apiKey, reply1, parse).StatusCode() in {400, 503}
  {
  }

  /** Every request that passes the guards is answered with 200. */
  lemma PassedGuardsAnswerOk<J>(description: Option<string>, apiKey: Option<string>,
                                completion: Option<string>, parse: string -> Option<J>)
    requires !Falsy(description) && !Falsy(apiKey)
    ensures ClassifyRequest(description, apiKey, completion, parse).StatusCode() == 200
  {
  }
}
