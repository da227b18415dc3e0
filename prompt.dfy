/** `loadPrompt`: fill the `{{KEY}}` placeholders of the configured prompt
    template, one key at a time, with `String.prototype.replaceAll`. */
module Prompt {
  import opened JsValues

  /** The parsed configuration file: the template and the generation
      configuration, which is passed through untouched. */
  datatype PromptConfig<G> = PromptConfig(promptTemplate: string, generationConfig: G)

  /** The four values of `vars`; `None` is null or undefined. */
  datatype PromptVars = PromptVars(diff: Option<string>, srcBranch: Option<string>, dstBranch: Option<string>,
                                   jiraKey: Option<string>)

  /** The keys of `vars`, in the order `Object.entries` yields them. */
  const Keys: seq<string> := ["DIFF", "SRC_BRANCH", "DST_BRANCH", "JIRA_KEY"]

  function Values(data: PromptVars): (r: seq<Option<string>>)
    ensures |r| == |Keys|
  {
    [data.diff, data.srcBranch, data.dstBranch, data.jiraKey]
  }

  function Placeholder(key: string): string {
    "{{" + key + "}}"
  }

  /** Whether `pattern` occurs in `s` starting at index `j`. */
  predicate MatchesAt(s: string, pattern: string, j: nat) {
    j + |pattern| <= |s| && s[j..j + |pattern|] == pattern
  }

  predicate Occurs(pattern: string, s: string) {
    exists j: nat :: j <= |s| && MatchesAt(s, pattern, j)
  }

  /** `s.replaceAll(pattern, value)` for a non-empty string pattern: every
      leftmost, non-overlapping occurrence is replaced, scanning left to
      right; replaced text is not scanned again. */
  function ReplaceAll(s: string, pattern: string, value: string): string
    requires |pattern| > 0
    decreases |s|
  {
    if |s| < |pattern| then s
    else if s[..|pattern|] == pattern then value + ReplaceAll(s[|pattern|..], pattern, value)
    else [s[0]] + ReplaceAll(s[1..], pattern, value)
  }

  /** The template after the first `n` passes of the loop; a missing value
      is replaced by "". */
  function Substitute(template: string, values: seq<Option<string>>, n: nat): string
    requires n <= |values| <= |Keys|
  {
    if n == 0 then template
    else ReplaceAll(Substitute(template, values, n - 1), Placeholder(Keys[n - 1]), values[n - 1].GetOr(""))
  }

  /** The substitution loop of `loadPrompt` over an already parsed config. */
  method LoadPrompt<G>(cfg: PromptConfig<G>, data: PromptVars) returns (prompt: string, genCfg: G)
    ensures prompt == Substitute(cfg.promptTemplate, Values(data), |Keys|)
    ensures genCfg == cfg.generationConfig
  {
    prompt := cfg.promptTemplate;
    var vars := Values(data);
    for i := 0 to |Keys|
      invariant prompt == Substitute(cfg.promptTemplate, vars, i)
    {
      prompt := ReplaceAll(prompt, Placeholder(Keys[i]), vars[i].GetOr(""));
    }
    genCfg := cfg.generationConfig;
  }

  /** A pattern that does not occur leaves the string unchanged. */
  lemma {:induction false} ReplaceAllAbsent(s: string, pattern: string, value: string)
    requires |pattern| > 0 && !Occurs(pattern, s)
    ensures ReplaceAll(s, pattern, value) == s
    decreases |s|
  {
    if |s| >= |pattern| {
      assert !MatchesAt(s, pattern, 0);
      assert s[..|pattern|] != pattern;
      forall j: nat
        ensures !MatchesAt(s[1..], pattern, j)
      {
        if MatchesAt(s[1..], pattern, j) {
          assert s[1..][j..j + |pattern|] == s[j + 1..j + 1 + |pattern|];
          assert MatchesAt(s, pattern, j + 1);
        }
      }
      ReplaceAllAbsent(s[1..], pattern, value);
      assert s == [s[0]] + s[1..];
    }
  }

  /** A prefix in which no occurrence starts is copied as it is. */
  lemma {:induction false} ReplaceAllSkip(a: string, b: string, pattern: string, value: string)
    requires |pattern| > 0
    requires forall j: nat :: j < |a| ==> !MatchesAt(a + b, pattern, j)
    ensures ReplaceAll(a + b, pattern, value) == a + ReplaceAll(b, pattern, value)
    decreases |a|
  {
    if a != [] {
      var s := a + b;
      if |s| < |pattern| {
        assert ReplaceAll(b, pattern, value) == b;
      } else {
        assert !MatchesAt(s, pattern, 0);
        assert s[1..] == a[1..] + b;
        forall j: nat | j < |a[1..]|
          ensures !MatchesAt(a[1..] + b, pattern, j)
        {
          assert !MatchesAt(s, pattern, j + 1);
          if j + |pattern| <= |a[1..] + b| {
            assert s[j + 1..j + 1 + |pattern|] == (a[1..] + b)[j..j + |pattern|];
          }
        }
        ReplaceAllSkip(a[1..], b, pattern, value);
        assert a == [a[0]] + a[1..];
      }
    } else {
      assert a + b == b;
    }
  }

  /** An occurrence at the front is replaced and scanning resumes after it. */
  lemma ReplaceAllHit(b: string, pattern: string, value: string)
    requires |pattern| > 0
    ensures ReplaceAll(pattern + b, pattern, value) == value + ReplaceAll(b, pattern, value)
  {
    assert (pattern + b)[..|pattern|] == pattern;
    assert (pattern + b)[|pattern|..] == b;
  }

  /** A template with none of the four placeholders comes back unchanged. */
  lemma {:induction false} NoPlaceholderUnchanged(template: string, data: PromptVars, n: nat)
    requires n <= |Keys|
    requires forall i :: 0 <= i < |Keys| ==> !Occurs(Placeholder(Keys[i]), template)
    ensures Substitute(template, Values(data), n) == template
  {
    if n > 0 {
      NoPlaceholderUnchanged(template, data, n - 1);
      ReplaceAllAbsent(template, Placeholder(Keys[n - 1]), Values(data)[n - 1].GetOr(""));
    }
  }

  /** A null or undefined value substitutes the empty string. */
  lemma MissingValueIsEmpty(template: string, data: PromptVars)
    ensures Substitute(template, Values(data.(jiraKey := None)), |Keys|)
         == Substitute(template, Values(data.(jiraKey := Some(""))), |Keys|)
    ensures Substitute(template, Values(data.(diff := None)), |Keys|)
         == Substitute(template, Values(data.(diff := Some(""))), |Keys|)
  {
    assert Values(data.(jiraKey := None))[..3] == Values(data.(jiraKey := Some("")))[..3];
    SubstituteAgrees(template, Values(data.(jiraKey := None)), Values(data.(jiraKey := Some(""))), |Keys|);
    SubstituteAgrees(template, Values(data.(diff := None)), Values(data.(diff := Some(""))), |Keys|);
  }

  /** Two value lists that give the same strings give the same result. */
  lemma {:induction false} SubstituteAgrees(template: string, v1: seq<Option<string>>, v2: seq<Option<string>>, n: nat)
    requires n <= |v1| == |v2| <= |Keys|
    requires forall i :: 0 <= i < |v1| ==> v1[i].GetOr("") == v2[i].GetOr("")
    ensures Substitute(template, v1, n) == Substitute(template, v2, n)
  {
    if n > 0 {
      SubstituteAgrees(template, v1, v2, n - 1);
    }
  }

  /** No curly brace at all. */
  predicate BraceFree(s: string) {
    forall i :: 0 <= i < |s| ==> s[i] != '{' && s[i] != '}'
  }

  /** No occurrence of a `{`-led pattern starts inside a prefix without `{`. */
  lemma NoMatchInOpenFree(a: string, b: string, pattern: string)
    requires |pattern| > 0 && pattern[0] == '{'
    requires forall i :: 0 <= i < |a| ==> a[i] != '{'
    ensures forall j: nat :: j < |a| ==> !MatchesAt(a + b, pattern, j)
  {
    forall j: nat | j < |a|
      ensures !MatchesAt(a + b, pattern, j)
    {
      if j + |pattern| <= |a + b| {
        assert (a + b)[j..j + |pattern|][0] == a[j] != pattern[0];
      }
    }
  }

  /** No occurrence of one placeholder starts inside another one. */
  lemma NoMatchInOtherPlaceholder(q: string, k: string, b: string)
    requires q != k && |q| > 0 && |k| > 0 && BraceFree(q) && BraceFree(k)
    ensures forall j: nat :: j < |Placeholder(q)| ==> !MatchesAt(Placeholder(q) + b, Placeholder(k), j)
  {
    var a := Placeholder(q);
    var p := Placeholder(k);
    var s := a + b;
    forall j: nat | j < |a|
      ensures !MatchesAt(s, p, j)
    {
      if j + |p| <= |s| {
        var w := s[j..j + |p|];
        if j >= 2 {
          assert w[0] == a[j];
          if j < 2 + |q| {
            assert a[j] == q[j - 2];
          }
          assert w[0] != p[0];
        } else if j == 1 {
          assert w[1] == s[2] == q[0];
          assert w[1] != p[1];
        } else if |k| < |q| {
          assert w[2 + |k|] == q[|k|] != p[2 + |k|];
        } else if |k| > |q| {
          assert w[2 + |q|] == a[2 + |q|] != p[2 + |q|];
        } else {
          if forall t :: 0 <= t < |k| ==> k[t] == q[t] {
            assert false;
          }
          var t :| 0 <= t < |k| && k[t] != q[t];
          assert w[2 + t] == q[t] != p[2 + t];
        }
      }
    }
  }

  lemma KeysAreDistinctAndBraceFree()
    ensures forall i :: 0 <= i < |Keys| ==> |Keys[i]| > 0 && BraceFree(Keys[i])
    ensures forall i, j :: 0 <= i < j < |Keys| ==> Keys[i] != Keys[j]
  {
    assert Keys[0][0] != Keys[1][0] && Keys[0][0] != Keys[2][1] && Keys[0][0] != Keys[3][0];
    assert Keys[1][0] != Keys[2][0] && Keys[1][0] != Keys[3][0] && Keys[2][0] != Keys[3][0];
  }

  /** A template read as pieces: text without braces, or the placeholder of
      key number `key`. */
  datatype Segment = Text(t: string) | Slot(key: nat)

  predicate WellFormed(segments: seq<Segment>) {
    forall i :: 0 <= i < |segments| ==>
      (segments[i].Text? ==> BraceFree(segments[i].t)) && (segments[i].Slot? ==> segments[i].key < |Keys|)
  }

  /** A segment after the first `k` passes: the slots of the first `k` keys
      hold their values, the others still hold their placeholders. */
  function Piece(segment: Segment, values: seq<Option<string>>, k: nat): string
    requires |values| == |Keys|
    requires segment.Slot? ==> segment.key < |Keys|
  {
    match segment
    case Text(t) => t
    case Slot(i) => if i < k then values[i].GetOr("") else Placeholder(Keys[i])
  }

  function Render(segments: seq<Segment>, values: seq<Option<string>>, k: nat): string
    requires |values| == |Keys| && WellFormed(segments)
  {
    if segments == [] then "" else Piece(segments[0], values, k) + Render(segments[1..], values, k)
  }

  /** Pass number `k` turns the rendering after `k` passes into the one
      after `k + 1` passes, when no value contains a brace. */
  lemma {:induction false} PassStep(segments: seq<Segment>, values: seq<Option<string>>, k: nat)
    requires |values| == |Keys| && WellFormed(segments) && k < |Keys|
    requires forall i :: 0 <= i < |values| ==> BraceFree(values[i].GetOr(""))
    ensures ReplaceAll(Render(segments, values, k), Placeholder(Keys[k]), values[k].GetOr(""))
         == Render(segments, values, k + 1)
  {
    if segments != [] {
      var p := Placeholder(Keys[k]);
      var v := values[k].GetOr("");
      var first := Piece(segments[0], values, k);
      var rest := Render(segments[1..], values, k);
      assert WellFormed(segments[1..]) by {
        forall i | 0 <= i < |segments[1..]|
          ensures (segments[1..][i].Text? ==> BraceFree(segments[1..][i].t))
                  && (segments[1..][i].Slot? ==> segments[1..][i].key < |Keys|)
        {
          assert segments[1..][i] == segments[i + 1];
        }
      }
      PassStep(segments[1..], values, k);
      KeysAreDistinctAndBraceFree();
      match segments[0]
      case Text(t) =>
        NoMatchInOpenFree(t, rest, p);
        ReplaceAllSkip(t, rest, p, v);
      case Slot(i) =>
        if i < k {
          NoMatchInOpenFree(values[i].GetOr(""), rest, p);
          ReplaceAllSkip(values[i].GetOr(""), rest, p, v);
        } else if i == k {
          ReplaceAllHit(rest, p, v);
        } else {
          NoMatchInOtherPlaceholder(Keys[i], Keys[k], rest);
          ReplaceAllSkip(first, rest, p, v);
        }
    }
  }

  /** The rendering after `n` passes is built from brace-free pieces and
      placeholders of the keys not yet processed. */
  lemma {:induction false} RenderedPassesAgree(segments: seq<Segment>, data: PromptVars, n: nat)
    requires WellFormed(segments) && n <= |Keys|
    requires forall i :: 0 <= i < |Keys| ==> BraceFree(Values(data)[i].GetOr(""))
    ensures Substitute(Render(segments, Values(data), 0), Values(data), n) == Render(segments, Values(data), n)
  {
    if n > 0 {
      RenderedPassesAgree(segments, data, n - 1);
      PassStep(segments, Values(data), n - 1);
    }
  }

  lemma {:induction false} FilledIsBraceFree(segments: seq<Segment>, values: seq<Option<string>>)
    requires |values| == |Keys| && WellFormed(segments)
    requires forall i :: 0 <= i < |values| ==> BraceFree(values[i].GetOr(""))
    ensures BraceFree(Render(segments, values, |Keys|))
  {
    if segments != [] {
      assert WellFormed(segments[1..]) by {
        forall i | 0 <= i < |segments[1..]|
          ensures (segments[1..][i].Text? ==> BraceFree(segments[1..][i].t))
                  && (segments[1..][i].Slot? ==> segments[1..][i].key < |Keys|)
        {
          assert segments[1..][i] == segments[i + 1];
        }
      }
      FilledIsBraceFree(segments[1..], values);
      var first := Piece(segments[0], values, |Keys|);
      var rest := Render(segments[1..], values, |Keys|);
      assert BraceFree(first);
      assert forall i :: 0 <= i < |first + rest| ==> (first + rest)[i] == if i < |first| then first[i] else rest[i - |first|];
    }
  }

  /** For a template made of brace-free text and the four placeholders, with
      brace-free values, the sequential passes amount to filling every slot
      with its value at once, and no placeholder is left in the prompt. */
  lemma WellFormedTemplateIsFilled(segments: seq<Segment>, data: PromptVars)
    requires WellFormed(segments)
    requires forall i :: 0 <= i < |Keys| ==> BraceFree(Values(data)[i].GetOr(""))
    ensures Substitute(Render(segments, Values(data), 0), Values(data), |Keys|) == Render(segments, Values(data), |Keys|)
    ensures forall i :: 0 <= i < |Keys| ==>
      !Occurs(Placeholder(Keys[i]), Substitute(Render(segments, Values(data), 0), Values(data), |Keys|))
  {
    RenderedPassesAgree(segments, data, |Keys|);
    var r := Render(segments, Values(data), |Keys|);
    FilledIsBraceFree(segments, Values(data));
    forall i, j: nat | 0 <= i < |Keys|
      ensures !MatchesAt(r, Placeholder(Keys[i]), j)
    {
      if j + |Placeholder(Keys[i])| <= |r| {
        assert r[j..j + |Placeholder(Keys[i])|][0] == r[j] != Placeholder(Keys[i])[0];
      }
    }
  }

  /** Later passes run over text inserted by earlier ones: a diff holding
      the SRC_BRANCH placeholder has it replaced by the source branch. */
  lemma DiffPlaceholdersCascade(srcBranch: string, dstBranch: Option<string>, jiraKey: Option<string>)
    requires BraceFree(srcBranch)
    ensures Substitute(Placeholder("DIFF"),
                       Values(PromptVars(Some(Placeholder("SRC_BRANCH")), Some(srcBranch), dstBranch, jiraKey)),
                       |Keys|) == srcBranch
  {
    var values := Values(PromptVars(Some(Placeholder("SRC_BRANCH")), Some(srcBranch), dstBranch, jiraKey));
    ReplaceAllHit("", Placeholder(Keys[0]), Placeholder("SRC_BRANCH"));
    assert Placeholder("DIFF") + "" == Placeholder("DIFF");
    assert Substitute(Placeholder("DIFF"), values, 1) == Placeholder("SRC_BRANCH");
    ReplaceAllHit("", Placeholder(Keys[1]), srcBranch);
    assert Placeholder("SRC_BRANCH") + "" == Placeholder("SRC_BRANCH");
    assert Substitute(Placeholder("DIFF"), values, 2) == srcBranch;
    NoMatchInOpenFree(srcBranch, "", Placeholder(Keys[2]));
    ReplaceAllSkip(srcBranch, "", Placeholder(Keys[2]), values[2].GetOr(""));
    assert srcBranch + "" == srcBranch;
    NoMatchInOpenFree(srcBranch, "", Placeholder(Keys[3]));
    ReplaceAllSkip(srcBranch, "", Placeholder(Keys[3]), values[3].GetOr(""));
  }

  /** `{{{{key}}key}}`: the placeholder of `key` with a second copy of it
      nested between its braces and its name. */
  function Nested(key: string): string {
    "{{" + Placeholder(key) + key + "}}"
  }

  /** The pass for `key` with "" over `{{{{key}}key}}` leaves `{{key}}`. */
  lemma SurvivingFirstPass(key: string)
    requires |key| > 0 && BraceFree(key)
    ensures ReplaceAll(Nested(key), Placeholder(key), "") == Placeholder(key)
  {
    var p := Placeholder(key);
    var tail := key + "}}";
    var t := "{{" + (p + tail);
    assert Nested(key) == t;
    assert ReplaceAll(t, p, "") == "{{" + ReplaceAll(p + tail, p, "") by {
      forall j: nat | j < 2
        ensures !MatchesAt(t, p, j)
      {
        assert t[j..j + |p|][2] == '{' != key[0] == p[2];
      }
      ReplaceAllSkip("{{", p + tail, p, "");
    }
    assert ReplaceAll(p + tail, p, "") == tail by {
      ReplaceAllHit(tail, p, "");
      NoMatchInOpenFree(tail, "", p);
      ReplaceAllSkip(tail, "", p, "");
      assert tail + "" == tail && "" + tail == tail;
    }
    assert "{{" + tail == p;
  }

  /** The passes after the first leave a lone `{{DIFF}}` as it is. */
  lemma {:induction false} LaterPassesKeepDiffPlaceholder(values: seq<Option<string>>, n: nat)
    requires 1 <= n <= |values| == |Keys|
    requires ReplaceAll(Substitute(Nested(Keys[0]), values, 0), Placeholder(Keys[0]), values[0].GetOr(""))
          == Placeholder(Keys[0])
    ensures Substitute(Nested(Keys[0]), values, n) == Placeholder(Keys[0])
  {
    if n > 1 {
      LaterPassesKeepDiffPlaceholder(values, n - 1);
      var p := Placeholder(Keys[0]);
      KeysAreDistinctAndBraceFree();
      NoMatchInOtherPlaceholder(Keys[0], Keys[n - 1], "");
      ReplaceAllSkip(p, "", Placeholder(Keys[n - 1]), values[n - 1].GetOr(""));
      assert p + "" == p;
    }
  }

  /** Even when no value contains a placeholder, one can survive: with an
      empty or missing diff and brace-free branches and key, the template
      `{{{{DIFF}}DIFF}}` becomes `{{DIFF}}`, because removing the inner
      placeholder joins the text around it into a new one. */
  lemma PlaceholderCanSurvive(data: PromptVars)
    requires data.diff.GetOr("") == ""
    requires forall i :: 1 <= i < |Keys| ==> BraceFree(Values(data)[i].GetOr(""))
    ensures forall i :: 0 <= i < |Keys| ==> !Occurs(Placeholder(Keys[i]), Values(data)[i].GetOr(""))
    ensures Substitute(Nested(Keys[0]), Values(data), |Keys|) == Placeholder(Keys[0])
    ensures Occurs(Placeholder(Keys[0]), Substitute(Nested(Keys[0]), Values(data), |Keys|))
  {
    var values := Values(data);
    KeysAreDistinctAndBraceFree();
    forall i, j: nat | 0 <= i < |Keys|
      ensures !MatchesAt(values[i].GetOr(""), Placeholder(Keys[i]), j)
    {
      var v, p := values[i].GetOr(""), Placeholder(Keys[i]);
      if j + |p| <= |v| {
        assert v[j..j + |p|][0] == v[j] != p[0];
      }
    }
    SurvivingFirstPass(Keys[0]);
    LaterPassesKeepDiffPlaceholder(values, |Keys|);
    assert MatchesAt(Placeholder(Keys[0]), Placeholder(Keys[0]), 0);
  }
}
