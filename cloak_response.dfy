/** The tolerant response interpreter both cloak pages run on a successful answer:
    the effective root, the two prediction lists and the metric whitelist. */
module CloakResponse {
  import opened Json

  /** The `predictions` state cell: `{ original, cloaked }`. */
  datatype Predictions = Predictions(original: seq<Value>, cloaked: seq<Value>)

  const NoPredictions: Predictions := Predictions([], [])

  /** The `response` state cell: the template `data:image/png;base64,${res.data.cloaked_image}`,
      kept as the field value it interpolates (`None` is JavaScript's `undefined`). */
  datatype DataUrl = PngDataUrl(base64: Option<Value>)

  /** `res?.data || {}`: the payload is never falsy. */
  function Payload(data: Value): (p: Value)
    ensures Truthy(p)
    ensures Truthy(data) ==> p == data
    ensures !Truthy(data) ==> p == Obj(map[])
  {
    if Truthy(data) then data else Obj(map[])
  }

  /** `payload.response || payload`: the nested `response` object when it is truthy, else the payload. */
  function EffectiveRoot(payload: Value): (root: Value)
    ensures !Falsy(Get(payload, "response")) ==> root == Get(payload, "response").value
    ensures Falsy(Get(payload, "response")) ==> root == payload
    ensures Truthy(payload) ==> Truthy(root)
  {
    var nested := Get(payload, "response");
    if !Falsy(nested) then nested.value else payload
  }

  /** `Array.isArray(root[field]) ? root[field] : []`. */
  function PredictionList(root: Value, field: string): (r: seq<Value>)
    ensures (Get(root, field).Some? && Get(root, field).value.Arr?) ==> r == Get(root, field).value.items
    ensures !(Get(root, field).Some? && Get(root, field).value.Arr?) ==> r == []
  {
    match Get(root, field)
    case Some(Arr(items)) => items
    case _ => []
  }

  function ExtractPredictions(root: Value): Predictions
  {
    Predictions(PredictionList(root, "original_top_predictions"), PredictionList(root, "cloaked_top_predictions"))
  }

  /** The prediction lists the server puts in a body are the ones a page reads back, whether
      they sit under a nested `response` object or at the top level of the body. */
  lemma PredictionsReadBack(lists: Predictions, fields: map<string, Value>, nested: bool)
    requires !nested ==> "response" !in fields
    ensures var root := Obj(fields["original_top_predictions" := Arr(lists.original)]
                                  ["cloaked_top_predictions" := Arr(lists.cloaked)]);
      var body := if nested then Obj(map["response" := root]) else root;
      ExtractPredictions(EffectiveRoot(Payload(body))) == lists
  {
    var root := Obj(fields["original_top_predictions" := Arr(lists.original)]
                          ["cloaked_top_predictions" := Arr(lists.cloaked)]);
    assert "response" != "original_top_predictions" && "response" != "cloaked_top_predictions" by {
      assert "response"[0] == 'r';
    }
    assert "original_top_predictions" != "cloaked_top_predictions" by { assert "cloaked_top_predictions"[0] == 'c'; }
    var body := if nested then Obj(map["response" := root]) else root;
    assert EffectiveRoot(Payload(body)) == root;
  }

  /** The metric keys the targeted page copies, in the order it copies them. */
  const METRIC_KEYS: seq<string> := [
    "adv_vs_orig_norm_ratio",
    "attack_success",
    "cosine_similarity_after",
    "cosine_similarity_before",
    "effective_cloaking_score",
    "embedding_distance_original_vs_adv",
    "embedding_moved_norm",
    "embedding_movement_per_pixel",
    "normalized_distance",
    "percent_change_in_distance",
    "similarity_drop",
    "push_toward_target",
    "target_push_strength",
    "target_similarity_after",
    "target_similarity_before"
  ]

  /** The whitelisted fields of `root` that are not undefined, each with its value as given. */
  function Whitelisted(root: Value): (m: map<string, Value>)
    ensures forall k :: k in m <==> k in METRIC_KEYS && Get(root, k).Some?
    ensures forall k :: k in m ==> Get(root, k) == Some(m[k])
  {
    map k | k in METRIC_KEYS && Get(root, k).Some? :: Get(root, k).value
  }

  /** The `metrics` cell after a success: the whitelisted copy, or null when it is empty. */
  function PickedMetrics(root: Value): (r: Option<map<string, Value>>)
    ensures r.None? <==> forall k :: k in METRIC_KEYS ==> Get(root, k).None?
    ensures r.Some? ==> r.value == Whitelisted(root) && |r.value| > 0
  {
    var m := Whitelisted(root);
    if |m| == 0 then None
    else
      PickedMetricsNonEmpty(root);
      Some(m)
  }

  lemma PickedMetricsNonEmpty(root: Value)
    requires |Whitelisted(root)| != 0
    ensures exists k :: k in METRIC_KEYS && Get(root, k).Some?
  {
    var m := Whitelisted(root);
    assert m != map[];
    var k :| k in m;
  }

  /** The `forEach` over the whitelist that fills `extracted` and then sets `metrics`. */
  method ExtractMetrics(root: Value) returns (metrics: Option<map<string, Value>>)
    ensures metrics == PickedMetrics(root)
  {
    var extracted: map<string, Value> := map[];
    for i := 0 to |METRIC_KEYS|
      invariant forall k :: k in extracted <==> k in METRIC_KEYS[..i] && Get(root, k).Some?
      invariant forall k :: k in extracted ==> Get(root, k) == Some(extracted[k])
    {
      var k := METRIC_KEYS[i];
      var v := Get(root, k);
      if v.Some? {
        extracted := extracted[k := v.value];
      }
    }
    assert METRIC_KEYS[..|METRIC_KEYS|] == METRIC_KEYS;
    assert extracted == Whitelisted(root);
    metrics := if |extracted| == 0 then None else Some(extracted);
  }
}
