/** The task endpoint the client talks to: normalisation of the URL the user
    types (todo_streamlit_app.py:24-34) and the "is the API configured" test
    (todo_streamlit_app.py:38-47). */
module Endpoint {

  /** The URL the text box starts with (todo_streamlit_app.py:13-15),
      `https://tio2f44dq1.execute-api.us-east-1.amazonaws.com/api/tasks`,
      spelled in pieces so that its parts can be named. */
  const DefaultEndpoint: string := "https://tio2f44dq1." + ApiMarker + ".us-east-1.amazonaws.com/api" + TasksSuffix

  /** The collection path segment the endpoint must end with. */
  const TasksSuffix: string := "/tasks"

  /** The host marker of an API Gateway URL. */
  const ApiMarker: string := "execute-api"

  predicate AllSlashes(s: string)
  {
    forall i :: 0 <= i < |s| ==> s[i] == '/'
  }

  predicate NoSlash(s: string)
  {
    forall i :: 0 <= i < |s| ==> s[i] != '/'
  }

  /** Neither the first nor the last character is a slash. */
  predicate NoEdgeSlash(s: string)
  {
    s == [] || (s[0] != '/' && s[|s| - 1] != '/')
  }

  /** Python's `s.endswith(suffix)`. */
  predicate EndsWith(s: string, suffix: string)
  {
    |suffix| <= |s| && s[|s| - |suffix|..] == suffix
  }

  /** `w` occurs in `s` starting at index `k`. */
  predicate OccursAt(s: string, w: string, k: int)
  {
    0 <= k && k + |w| <= |s| && s[k..k + |w|] == w
  }

  /** Python's `w in s` on strings. */
  predicate Contains(s: string, w: string)
  {
    exists k | 0 <= k <= |s| - |w| :: OccursAt(s, w, k)
  }

  /** `r` is `s` with the slash-only prefix `s[..k]` and a slash-only suffix removed. */
  ghost predicate FramedBySlashes(s: string, r: string, k: int)
  {
    && OccursAt(s, r, k)
    && (forall i :: 0 <= i < k ==> s[i] == '/')
    && (forall i :: k + |r| <= i < |s| ==> s[i] == '/')
  }

  /** Removes leading slashes: the left half of Python's `s.strip("/")`. */
  function TrimLeft(s: string): (r: string)
    ensures |r| <= |s| && r == s[|s| - |r|..]
    ensures forall i :: 0 <= i < |s| - |r| ==> s[i] == '/'
    ensures r == [] || r[0] != '/'
    decreases |s|
  {
    if |s| > 0 && s[0] == '/' then
      var r := TrimLeft(s[1..]);
      assert s[|s| - |r|..] == s[1..][|s| - 1 - |r|..];
      r
    else
      s
  }

  /** Removes trailing slashes: the right half of Python's `s.strip("/")`. */
  function TrimRight(s: string): (r: string)
    ensures |r| <= |s| && r == s[..|r|]
    ensures forall i :: |r| <= i < |s| ==> s[i] == '/'
    ensures r == [] || r[|r| - 1] != '/'
    decreases |s|
  {
    if |s| > 0 && s[|s| - 1] == '/' then
      var r := TrimRight(s[..|s| - 1]);
      assert s[..|r|] == s[..|s| - 1][..|r|];
      r
    else
      s
  }

  /** How many leading slashes `strip("/")` removes. */
  function StripOffset(s: string): nat
  {
    |s| - |TrimLeft(s)|
  }

  /** Python's `s.strip("/")`: slashes are removed from BOTH ends. The result
      has no slash at either end and sits in `s` at `StripOffset(s)` with only
      slashes before and after it. */
  function Strip(s: string): (r: string)
    ensures NoEdgeSlash(r)
    ensures FramedBySlashes(s, r, StripOffset(s))
  {
    var left := TrimLeft(s);
    var r := TrimRight(left);
    TrimsFrame(s, left, r);
    r
  }

  /** Trimming the right end of the left-trimmed string leaves a piece framed
      by slashes in the original. */
  lemma TrimsFrame(s: string, left: string, r: string)
    requires |left| <= |s| && left == s[|s| - |left|..]
    requires forall i :: 0 <= i < |s| - |left| ==> s[i] == '/'
    requires |r| <= |left| && r == left[..|r|]
    requires forall i :: |r| <= i < |left| ==> left[i] == '/'
    ensures FramedBySlashes(s, r, |s| - |left|)
  {
  }

  /** The endpoint built from the user's input: empty input stays empty;
      otherwise the input is stripped of slashes at both ends and `/tasks` is
      appended unless the stripped input already ends with it. */
  function Normalize(input: string): (endpoint: string)
    ensures input == [] ==> endpoint == []
    ensures input != [] ==> EndsWith(endpoint, TasksSuffix)
    ensures input != [] ==> |Strip(input)| <= |endpoint| && endpoint[..|Strip(input)|] == Strip(input)
    ensures EndsWith(Strip(input), TasksSuffix) ==> endpoint == Strip(input)
    ensures input != [] && !EndsWith(Strip(input), TasksSuffix) ==> |endpoint| == |Strip(input)| + |TasksSuffix|
  {
    if input == [] then
      []
    else
      var base := Strip(input);
      if EndsWith(base, TasksSuffix) then base else base + TasksSuffix
  }

  /** `is_api_configured()`: the endpoint is non-empty and names an API Gateway host. */
  predicate IsConfigured(endpoint: string)
  {
    endpoint != [] && Contains(endpoint, ApiMarker)
  }

  /** Stripping a string with no slash at either end leaves it unchanged. */
  lemma StripKeepsUnslashed(s: string)
    requires NoEdgeSlash(s)
    ensures Strip(s) == s
  {
  }

  /** If `b + t` ends with `t + t`, then `b` ends with `t`. */
  lemma SuffixOfAppended(b: string, t: string)
    requires EndsWith(b + t, t + t)
    ensures EndsWith(b, t)
  {
    var e := b + t;
    assert e[|e| - 2 * |t|..] == t + t;
    assert b[|b| - |t|..] == e[|e| - 2 * |t|..][..|t|];
  }

  /** Appending `t` only to a string not already ending with `t` never
      yields a string ending with `t + t` that the original did not. */
  lemma AppendOnce(b: string, e: string, t: string)
    requires (EndsWith(b, t) && e == b) || (!EndsWith(b, t) && e == b + t)
    ensures EndsWith(e, t + t) ==> EndsWith(b, t + t)
  {
    if !EndsWith(b, t) && EndsWith(e, t + t) {
      SuffixOfAppended(b, t);
      assert false;
    }
  }

  /** `/tasks` is appended at most once: the endpoint ends in `/tasks/tasks`
      only if the stripped input already did. */
  lemma AppendsSuffixOnce(input: string)
    ensures EndsWith(Normalize(input), TasksSuffix + TasksSuffix) ==> EndsWith(Strip(input), TasksSuffix + TasksSuffix)
  {
    if input != [] {
      AppendOnce(Strip(input), Normalize(input), TasksSuffix);
    }
  }

  /** Whenever the stripped input is non-empty, the endpoint has no slash at
      either end, and normalising it again changes nothing. */
  lemma NormalizeIdempotent(input: string)
    requires Strip(input) != []
    ensures NoEdgeSlash(Normalize(input))
    ensures Normalize(Normalize(input)) == Normalize(input)
  {
  }

  /** An input of slashes only yields the bare `/tasks`. */
  lemma NormalizeSlashesOnly(input: string)
    requires input != [] && AllSlashes(input)
    ensures Normalize(input) == TasksSuffix
  {
  }

  /** Idempotence fails exactly at that corner: `/` becomes `/tasks`, which in
      turn becomes `tasks/tasks`. */
  lemma NormalizeNotIdempotentOnSlash()
    ensures Normalize("/") == "/tasks"
    ensures Normalize(Normalize("/")) == "tasks/tasks"
  {
    NormalizeSlashesOnly("/");
    StripTasksSuffix();
    assert Normalize(TasksSuffix) == "tasks" + TasksSuffix;
  }

  /** Stripping the bare suffix drops its leading slash. */
  lemma StripTasksSuffix()
    ensures Strip(TasksSuffix) == "tasks"
    ensures !EndsWith("tasks", TasksSuffix)
    ensures "tasks" + TasksSuffix == "tasks/tasks"
  {
    assert TasksSuffix[1..] == "tasks";
    assert TrimLeft("tasks") == "tasks";
    assert TrimRight("tasks") == "tasks";
  }

  /** Every occurrence in the stripped string is an occurrence in the original. */
  lemma ContainsStripSound(s: string, w: string)
    requires Contains(Strip(s), w)
    ensures Contains(s, w)
  {
    var r := Strip(s);
    var k := StripOffset(s);
    var j :| 0 <= j <= |r| - |w| && OccursAt(r, w, j);
    OccurrenceThroughFrame(s, r, k, w, j);
  }

  /** The characters of an occurrence of a slash-free needle are not slashes. */
  lemma OccurrenceHasNoSlash(s: string, w: string, j: int)
    requires NoSlash(w) && OccursAt(s, w, j)
    ensures forall i :: j <= i < j + |w| ==> s[i] != '/'
  {
  }

  lemma SliceOfSlice(s: string, a: int, b: int, c: int, d: int)
    requires 0 <= a <= b <= |s| && 0 <= c <= d <= b - a
    ensures s[a..b][c..d] == s[a + c..a + d]
  {
    assert forall i :: 0 <= i < d - c ==> s[a..b][c..d][i] == s[a + c..a + d][i];
  }

  /** An occurrence in the occurrence of `r` at `k` is an occurrence in `s`. */
  lemma OccurrenceThroughFrame(s: string, r: string, k: int, w: string, j: int)
    requires OccursAt(s, r, k) && OccursAt(r, w, j)
    ensures OccursAt(s, w, k + j)
  {
    SliceOfSlice(s, k, k + |r|, j, j + |w|);
  }

  /** An occurrence lying inside the occurrence of `r` at `k` is an occurrence in `r`. */
  lemma OccurrenceInsideFrame(s: string, r: string, k: int, w: string, j: int)
    requires OccursAt(s, r, k) && OccursAt(s, w, j)
    requires k <= j && j + |w| <= k + |r|
    ensures OccursAt(r, w, j - k)
  {
    SliceOfSlice(s, k, k + |r|, j - k, j - k + |w|);
  }

  /** A non-empty slash-free needle cannot overlap the slashes stripped away,
      so each of its occurrences survives stripping. */
  lemma ContainsStripComplete(s: string, w: string)
    requires w != [] && NoSlash(w)
    requires Contains(s, w)
    ensures Contains(Strip(s), w)
  {
    var r := Strip(s);
    var k := StripOffset(s);
    var j :| 0 <= j <= |s| - |w| && OccursAt(s, w, j);
    assert k <= j && j + |w| <= k + |r| by {
      OccurrenceHasNoSlash(s, w, j);
      assert s[j] != '/' && s[j + |w| - 1] != '/';
    }
    OccurrenceInsideFrame(s, r, k, w, j);
  }

  /** Appending `/tasks` cannot create or destroy an occurrence of a
      slash-free needle at least as long as the suffix. */
  lemma ContainsAppendSuffix(b: string, w: string)
    requires |w| >= |TasksSuffix| && NoSlash(w)
    ensures Contains(b + TasksSuffix, w) <==> Contains(b, w)
  {
    var e := b + TasksSuffix;
    if Contains(b, w) {
      var j :| 0 <= j <= |b| - |w| && OccursAt(b, w, j);
      assert e[j..j + |w|] == b[j..j + |w|];
      assert OccursAt(e, w, j);
    }
    if Contains(e, w) {
      var j :| 0 <= j <= |e| - |w| && OccursAt(e, w, j);
      OccurrenceHasNoSlash(e, w, j);
      assert e[|b|] == '/';
      assert j + |w| <= |b|;
      assert b[j..j + |w|] == e[j..j + |w|];
      assert OccursAt(b, w, j);
    }
  }

  /** The client counts as configured exactly when the text the user typed
      contains `execute-api`: stripping slashes and appending `/tasks` never
      change that answer. */
  lemma ConfiguredIffMarker(input: string)
    ensures IsConfigured(Normalize(input)) <==> Contains(input, ApiMarker)
  {
    assert NoSlash(ApiMarker);
    var base := Strip(input);
    if Contains(base, ApiMarker) {
      ContainsStripSound(input, ApiMarker);
    }
    if Contains(input, ApiMarker) {
      ContainsStripComplete(input, ApiMarker);
    }
    if input == [] {
      assert !Contains(input, ApiMarker);
    } else if !EndsWith(base, TasksSuffix) {
      ContainsAppendSuffix(base, ApiMarker);
    }
  }

  /** The default URL passes the configured check. */
  lemma DefaultEndpointConfigured()
    ensures IsConfigured(DefaultEndpoint)
  {
    var host := "https://tio2f44dq1.";
    assert OccursAt(DefaultEndpoint, ApiMarker, |host|) by {
      var rest := ".us-east-1.amazonaws.com/api" + TasksSuffix;
      assert DefaultEndpoint == host + ApiMarker + rest;
      assert DefaultEndpoint[|host|..|host| + |ApiMarker|] == ApiMarker;
    }
  }

  /** The default URL is already normal: normalising it changes nothing. */
  lemma DefaultEndpointNormal()
    ensures Normalize(DefaultEndpoint) == DefaultEndpoint
  {
  }
}
