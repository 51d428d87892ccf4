/** The small pure helpers of the targeted page's dashboard: metric labels, which
    metrics form grid cells, and the widths of the prediction and metric bars. */
module MetricDisplay {
  import opened Json
  import opened Reals
  import opened CloakResponse

  /** A character `\w` matches (ASCII letters, digits and `_`). */
  predicate IsWordChar(c: char)
  {
    'a' <= c <= 'z' || 'A' <= c <= 'Z' || '0' <= c <= '9' || c == '_'
  }

  /** `String.prototype.toUpperCase` on a `\w` character. */
  function ToUpper(c: char): char
  {
    if 'a' <= c <= 'z' then (c as int - 32) as char else c
  }

  /** `s.replace(/_/g, " ")` */
  function SpaceUnderscores(s: string): (r: string)
    ensures |r| == |s|
    ensures forall i :: 0 <= i < |s| ==> r[i] == if s[i] == '_' then ' ' else s[i]
  {
    if s == [] then [] else [if s[0] == '_' then ' ' else s[0]] + SpaceUnderscores(s[1..])
  }

  /** `s.replace(/\b\w/g, c => c.toUpperCase())`, scanning left to right; `afterWord`
      says whether the character before `s` is a word character. */
  function CapitalizeWords(s: string, afterWord: bool): string
  {
    if s == [] then []
    else [if IsWordChar(s[0]) && !afterWord then ToUpper(s[0]) else s[0]]
         + CapitalizeWords(s[1..], IsWordChar(s[0]))
  }

  /** The label a metric key is shown under. */
  function Label(key: string): string
  {
    CapitalizeWords(SpaceUnderscores(key), false)
  }

  /** Position `i` of `s` starts a word of `Label(s)`: a letter or digit with no letter or digit before it. */
  predicate StartsWord(s: string, i: nat)
    requires i < |s|
  {
    IsWordChar(s[i]) && s[i] != '_' && (i == 0 || !IsWordChar(s[i - 1]) || s[i - 1] == '_')
  }

  lemma {:induction false} CapitalizeWordsAt(s: string, afterWord: bool, i: nat)
    requires i < |s|
    ensures |CapitalizeWords(s, afterWord)| == |s|
    ensures CapitalizeWords(s, afterWord)[i] ==
      if IsWordChar(s[i]) && !(if i == 0 then afterWord else IsWordChar(s[i - 1])) then ToUpper(s[i]) else s[i]
    decreases i
  {
    CapitalizeWordsLength(s, afterWord);
    if i > 0 {
      CapitalizeWordsAt(s[1..], IsWordChar(s[0]), i - 1);
      if i > 1 { assert s[1..][i - 2] == s[i - 1]; }
    }
  }

  lemma {:induction false} CapitalizeWordsLength(s: string, afterWord: bool)
    ensures |CapitalizeWords(s, afterWord)| == |s|
  {
    if s != [] { CapitalizeWordsLength(s[1..], IsWordChar(s[0])); }
  }

  /** Each character of a label: an underscore becomes a space, the first letter of each
      word is upper-cased, and every other character is kept. */
  lemma LabelAt(key: string, i: nat)
    requires i < |key|
    ensures |Label(key)| == |key|
    ensures Label(key)[i] ==
      if key[i] == '_' then ' ' else if StartsWord(key, i) then ToUpper(key[i]) else key[i]
  {
    var spaced := SpaceUnderscores(key);
    CapitalizeWordsAt(spaced, false, i);
  }

  /** A label is as long as its key and has no underscore left. */
  lemma LabelShape(key: string)
    ensures |Label(key)| == |key|
    ensures '_' !in Label(key)
  {
    CapitalizeWordsLength(SpaceUnderscores(key), false);
    forall i | 0 <= i < |key| ensures Label(key)[i] != '_' {
      LabelAt(key, i);
    }
  }

  /** `sub` is `s` with some entries dropped and the others kept in their order. */
  predicate Subsequence(sub: seq<string>, s: seq<string>)
  {
    if sub == [] then true
    else if s == [] then false
    else (sub[0] == s[0] && Subsequence(sub[1..], s[1..])) || Subsequence(sub, s[1..])
  }

  predicate NoRepeats(s: seq<string>)
  {
    forall i, j :: 0 <= i < j < |s| ==> s[i] != s[j]
  }

  /** The keys the grid shows, in the order `Object.entries(metrics)` yields them
      (the whitelist order the page inserted them in), without `attack_success`. */
  function GridKeys(metrics: map<string, Value>, keys: seq<string>): (r: seq<string>)
    ensures forall k :: k in r <==> k in keys && k in metrics && k != "attack_success"
    ensures |r| <= |keys|
    ensures Subsequence(r, keys)
    ensures NoRepeats(keys) ==> NoRepeats(r)
  {
    if keys == [] then []
    else
      var rest := GridKeys(metrics, keys[1..]);
      if keys[0] in metrics && keys[0] != "attack_success" then [keys[0]] + rest else rest
  }

  /** `p.prob || 0`. A numeric text or other non-number that JavaScript would coerce is read as 0. */
  function ProbOrZero(p: Value): real
  {
    match Get(p, "prob")
    case Some(Num(x)) => x
    case Some(Bool(true)) => 1.0
    case _ => 0.0
  }

  /** The width, in percent, of one prediction bar: `max(2, min(100, (p.prob || 0) * 100))`. */
  function PredictionBarWidth(p: Value): (w: real)
    ensures 2.0 <= w <= 100.0
    ensures 0.02 <= ProbOrZero(p) <= 1.0 ==> w == ProbOrZero(p) * 100.0
    ensures ProbOrZero(p) <= 0.02 ==> w == 2.0
    ensures ProbOrZero(p) >= 1.0 ==> w == 100.0
  {
    Max(2.0, Min(100.0, ProbOrZero(p) * 100.0))
  }

  /** `part` occurs in `s` starting at position `i`. */
  predicate OccursAt(s: string, part: string, i: nat)
  {
    i + |part| <= |s| && s[i..i + |part|] == part
  }

  /** `s.includes(part)` */
  predicate Contains(s: string, part: string)
  {
    exists i: nat | i <= |s| :: OccursAt(s, part, i)
  }

  /** The metrics drawn with a bar: similarity and drop metrics and the cloaking score. */
  predicate HasBar(key: string)
  {
    Contains(key, "similarity") || Contains(key, "drop") || key == "effective_cloaking_score"
  }

  /** `parseFloat(val) || 0` for a number, a boolean or null; a text is read as 0. */
  function NumberOrZero(v: Value): real
  {
    if v.Num? then v.n else 0.0
  }

  /** The bar width of a metric cell: none for metrics without a bar, otherwise the value
      scaled by 800 for `similarity_drop` and by 100 for the others, clamped to [0, 100]. */
  function MetricBarWidth(key: string, v: Value): (w: Option<real>)
    ensures w.Some? <==> HasBar(key)
    ensures w.Some? ==> 0.0 <= w.value <= 100.0
    ensures w.Some? && 0.0 <= NumberOrZero(v) * (if key == "similarity_drop" then 800.0 else 100.0) <= 100.0
            ==> w.value == NumberOrZero(v) * (if key == "similarity_drop" then 800.0 else 100.0)
  {
    if HasBar(key) then
      Some(Min(100.0, Max(0.0, NumberOrZero(v) * (if key == "similarity_drop" then 800.0 else 100.0))))
    else None
  }

  /** Which whitelisted metrics get a bar. */
  lemma BarredMetrics()
    ensures HasBar("cosine_similarity_after") && HasBar("cosine_similarity_before")
    ensures HasBar("similarity_drop") && HasBar("effective_cloaking_score")
    ensures HasBar("target_similarity_after") && HasBar("target_similarity_before")
  {
    assert OccursAt("cosine_similarity_after", "similarity", 7);
    assert OccursAt("cosine_similarity_before", "similarity", 7);
    assert OccursAt("similarity_drop", "similarity", 0);
    assert OccursAt("target_similarity_after", "similarity", 7);
    assert OccursAt("target_similarity_before", "similarity", 7);
  }
}
