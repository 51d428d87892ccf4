/** The Flask side of the two cloak endpoints: how a multipart request is read, the
    validation of `/face-cloak` and `/art-cloak`, the metric dictionary of a face cloak over
    abstract real-valued measurements, and the JSON envelopes of the answers. The neural
    networks are not modelled: what they produce is an input (`FaceAnalysis`, `ArtAnalysis`). */
module Server {
  import opened Json
  import opened Reals
  import opened Browser

  /** An HTTP answer: a status and a JSON body, or an unhandled exception, which Flask turns
      into a 500 page. */
  datatype Response = Response(status: nat, body: Value) | Crash

  function ErrorBody(message: string): (v: Value)
    ensures Get(v, "error") == Some(Str(message)) && v.Obj? && v.fields.Keys == {"error"}
  {
    Obj(map["error" := Str(message)])
  }

  // ---- Reading a multipart request ----

  /** `request.form.get(name)`: the first non-file part with that name. */
  function FormGet(form: FormData, name: string): Option<FormValue>
  {
    if form == [] then None
    else if form[0].0 == name && !form[0].1.FileValue? then Some(form[0].1)
    else FormGet(form[1..], name)
  }

  /** `request.files.get(name)`: the first file part with that name. */
  function FilesGet(form: FormData, name: string): Option<File>
  {
    if form == [] then None
    else if form[0].0 == name && form[0].1.FileValue? then Some(form[0].1.file)
    else FilesGet(form[1..], name)
  }

  /** When the first part with a name is a text or number, Flask's form view sees it; when it
      is a file, the files view does; when there is none, neither does. */
  lemma {:induction false} FlaskViews(form: FormData, name: string)
    ensures Lookup(form, name).None? ==> FormGet(form, name).None? && FilesGet(form, name).None?
    ensures Lookup(form, name).Some? && !Lookup(form, name).value.FileValue? ==> FormGet(form, name) == Lookup(form, name)
    ensures Lookup(form, name).Some? && Lookup(form, name).value.FileValue? ==> FilesGet(form, name) == Some(Lookup(form, name).value.file)
  {
    if form != [] && form[0].0 != name {
      FlaskViews(form[1..], name);
    }
  }

  /** Python's `str.lower` on ASCII letters. */
  function LowerChar(c: char): char
  {
    if 'A' <= c <= 'Z' then (c as int + 32) as char else c
  }

  function Lower(s: string): (r: string)
    ensures |r| == |s| && forall i :: 0 <= i < |s| ==> r[i] == LowerChar(s[i])
  {
    if s == [] then [] else [LowerChar(s[0])] + Lower(s[1..])
  }

  /** The text of a text part. A part appended as a number is read as a number by `float()`
      only; its decimal text is not modelled, and it reads as the empty text elsewhere. */
  function TextOf(v: FormValue): string
  {
    if v.TextValue? then v.text else ""
  }

  /** `float(request.form.get(name, default))`: the default when absent, the number when it was
      sent as one; `None` stands for the `ValueError` of a text that is not a number. */
  function FloatField(form: FormData, name: string, default: real): (r: Option<real>)
    ensures FormGet(form, name).None? ==> r == Some(default)
    ensures FormGet(form, name).Some? && FormGet(form, name).value.NumberValue? ==> r == Some(FormGet(form, name).value.x)
  {
    var v := FormGet(form, name);
    if v.None? then Some(default)
    else if v.value.NumberValue? then Some(v.value.x)
    else None
  }

  // ---- /face-cloak ----

  /** The attack method; any name but `fgsm` and `pgd` leaves the perturbation undefined. */
  datatype Method = Fgsm | Pgd | OtherMethod

  /** Where an image comes from: a base64 text part, or an uploaded file. */
  datatype ImageSource = Base64Part(part: FormValue) | Upload(file: File)

  datatype FaceRequest = FaceRequest(image: ImageSource, intensity: real, attack: Method, targeted: bool, target: Option<ImageSource>)

  /** A request is refused with an answer, crashes, or goes on with its parameters. */
  datatype Parsed<T> = Refused(response: Response) | Accepted(request: T)

  /** `request.form.get("method", "fgsm").lower()`, dispatched as `cloak_face_facenet` does. */
  function MethodOf(form: FormData): (m: Method)
    ensures m == Fgsm <==> FormGet(form, "method").None? || Lower(TextOf(FormGet(form, "method").value)) == "fgsm"
    ensures m == Pgd <==> FormGet(form, "method").Some? && Lower(TextOf(FormGet(form, "method").value)) == "pgd"
  {
    var v := FormGet(form, "method");
    var name := if v.None? then "fgsm" else Lower(TextOf(v.value));
    if name == "fgsm" then Fgsm else if name == "pgd" then Pgd else OtherMethod
  }

  /** `request.form.get("targeted", "false").lower() == "true"`. */
  function TargetedOf(form: FormData): (t: bool)
    ensures t <==> FormGet(form, "targeted").Some? && Lower(TextOf(FormGet(form, "targeted").value)) == "true"
  {
    var v := FormGet(form, "targeted");
    v.Some? && Lower(TextOf(v.value)) == "true"
  }

  /** With the flag as the only part, the request is targeted exactly when its text lowers to `true`. */
  lemma FlagOnly(v: FormValue)
    ensures TargetedOf([("targeted", v)]) <==> !v.FileValue? && Lower(TextOf(v)) == "true"
  {
    assert [("targeted", v)][1..] == [];
    assert FormGet([("targeted", v)], "targeted") == if v.FileValue? then None else Some(v);
  }

  /** A text part spelling `true`, in any case, makes a request targeted. */
  lemma TargetedSpellings()
    ensures TargetedOf([("targeted", TextValue("true"))]) && TargetedOf([("targeted", TextValue("True"))])
    ensures TargetedOf([("targeted", TextValue("TRUE"))])
  {
    FlagOnly(TextValue("true"));
    FlagOnly(TextValue("True"));
    FlagOnly(TextValue("TRUE"));
    assert Lower("True") == "true" by { assert Lower("True")[0] == 't'; }
    assert Lower("TRUE") == "true";
  }

  /** Any other spelling, a missing flag, or a number part leaves a request untargeted. */
  lemma UntargetedSpellings()
    ensures !TargetedOf([]) && !TargetedOf([("targeted", TextValue("false"))])
    ensures !TargetedOf([("targeted", TextValue("1"))]) && !TargetedOf([("targeted", TextValue("yes"))])
    ensures !TargetedOf([("targeted", TextValue("true "))]) && !TargetedOf([("targeted", NumberValue(1.0))])
  {
    FlagOnly(TextValue("false"));
    FlagOnly(TextValue("1"));
    FlagOnly(TextValue("yes"));
    FlagOnly(TextValue("true "));
    FlagOnly(NumberValue(1.0));
    assert Lower("false")[0] == 'f';
    assert |Lower("1")| == 1 && |Lower("yes")| == 3 && |Lower("true ")| == 5 && |Lower("")| == 0;
  }

  /** The validation half of `cloak_face_api`, in its order: the source image (a base64 part
      first, else the `file` upload, else 400), the intensity, the method, the flag, and for a
      targeted request the target image (a base64 part first, else the upload, else 400). */
  function ParseFaceRequest(form: FormData): (p: Parsed<FaceRequest>)
    ensures p.Accepted? <==>
      && (FormGet(form, "image_base64").Some? || FilesGet(form, "file").Some?)
      && FloatField(form, "intensity", 0.01).Some?
      && !(TargetedOf(form) && FormGet(form, "target_image_base64").None? && FilesGet(form, "target_image").None?)
    ensures FormGet(form, "image_base64").None? && FilesGet(form, "file").None? ==>
      p == Refused(Response(400, ErrorBody("No image provided")))
    ensures (FormGet(form, "image_base64").Some? || FilesGet(form, "file").Some?) && FloatField(form, "intensity", 0.01).None? ==>
      p == Refused(Crash)
    ensures p.Accepted? && FormGet(form, "image_base64").Some? ==> p.request.image == Base64Part(FormGet(form, "image_base64").value)
    ensures p.Accepted? && FormGet(form, "image_base64").None? ==> p.request.image == Upload(FilesGet(form, "file").value)
    ensures p.Accepted? && FormGet(form, "target_image_base64").Some? ==>
      p.request.target == Some(Base64Part(FormGet(form, "target_image_base64").value))
    ensures p.Accepted? && FormGet(form, "target_image_base64").None? ==>
      && (p.request.targeted ==> FilesGet(form, "target_image").Some? &&
                                 p.request.target == Some(Upload(FilesGet(form, "target_image").value)))
      && (!p.request.targeted ==> p.request.target.None?)
    ensures p.Accepted? ==> FloatField(form, "intensity", 0.01) == Some(p.request.intensity)
    ensures p.Accepted? ==> p.request.targeted == TargetedOf(form) && p.request.attack == MethodOf(form)
    ensures p.Accepted? && p.request.targeted ==> p.request.target.Some?
    ensures (FormGet(form, "image_base64").Some? || FilesGet(form, "file").Some?) &&
            FloatField(form, "intensity", 0.01).Some? && TargetedOf(form) &&
            FormGet(form, "target_image_base64").None? && FilesGet(form, "target_image").None? ==>
      p == Refused(Response(400, ErrorBody("Targeted attack requires target_image")))
  {
    var b64 := FormGet(form, "image_base64");
    var upload := FilesGet(form, "file");
    if b64.None? && upload.None? then Refused(Response(400, ErrorBody("No image provided")))
    else
      var image := if b64.Some? then Base64Part(b64.value) else Upload(upload.value);
      var intensity := FloatField(form, "intensity", 0.01);
      if intensity.None? then Refused(Crash)
      else
        var targeted := TargetedOf(form);
        var tb64 := FormGet(form, "target_image_base64");
        var targetUpload := FilesGet(form, "target_image");
        if targeted && tb64.None? && targetUpload.None? then
          Refused(Response(400, ErrorBody("Targeted attack requires target_image")))
        else
          var target := if tb64.Some? then Some(Base64Part(tb64.value))
                        else if targeted then Some(Upload(targetUpload.value)) else None;
          Accepted(FaceRequest(image, intensity.value, MethodOf(form), targeted, target))
  }

  /** What the face pipeline measures, as real numbers: the cosine similarities of the
      original and cloaked embeddings, their distance, the embedding's size and norm, the face
      box's size, and the target similarities before and after (used only when targeted). */
  datatype Measurements = Measurements(
    origSim: real, advSim: real, embDist: real, embDim: int, origNorm: real,
    faceH: int, faceW: int, targetSimBefore: real, targetSimAfter: real)

  /** The face detector's verdict on the source image. */
  datatype FaceAnalysis = NoFaceDetected | FaceFound(m: Measurements)

  const SUCCESS_THRESHOLD: real := 0.85
  const NORM_EPSILON: real := 0.000001

  /** The inputs on which the metric arithmetic is defined: a non-empty face box and
      embedding, and a norm that does not cancel the epsilon. */
  predicate Measurable(m: Measurements)
  {
    m.faceH > 0 && m.faceW > 0 && m.embDim > 0 && m.origNorm + NORM_EPSILON != 0.0
  }

  /** The metric dictionary `cloak_face_facenet` builds. */
  function MetricsOf(m: Measurements, targeted: bool): map<string, Value>
    requires Measurable(m)
  {
    var base := map[
      "cosine_similarity_before" := Num(m.origSim),
      "cosine_similarity_after" := Num(m.advSim),
      "similarity_drop" := Num(1.0 - m.advSim),
      "embedding_distance_original_vs_adv" := Num(m.embDist),
      "normalized_distance" := Num(m.embDist / m.embDim as real),
      "adv_vs_orig_norm_ratio" := Num(m.embDist / (m.origNorm + NORM_EPSILON)),
      "percent_change_in_distance" := Num(m.embDist / (m.origNorm + NORM_EPSILON) * 100.0),
      "embedding_moved_norm" := Num(m.embDist),
      "embedding_movement_per_pixel" := Num(m.embDist / (m.faceH * m.faceW) as real),
      "attack_success" := Bool(m.advSim < SUCCESS_THRESHOLD),
      "effective_cloaking_score" := Num(Min(1.0, (1.0 - m.advSim) * 1.3))
    ];
    if targeted then
      base["target_similarity_before" := Num(m.targetSimBefore)]
          ["target_similarity_after" := Num(m.targetSimAfter)]
          ["push_toward_target" := Num(m.targetSimAfter - m.targetSimBefore)]
          ["target_push_strength" := Num(Max(0.0, m.targetSimAfter - m.targetSimBefore))]
    else base
  }

  const BASE_METRIC_KEYS: set<string> := {
    "cosine_similarity_before", "cosine_similarity_after", "similarity_drop",
    "embedding_distance_original_vs_adv", "normalized_distance", "adv_vs_orig_norm_ratio",
    "percent_change_in_distance", "embedding_moved_norm", "embedding_movement_per_pixel",
    "attack_success", "effective_cloaking_score"}

  const TARGET_METRIC_KEYS: set<string> := {
    "target_similarity_before", "target_similarity_after", "push_toward_target", "target_push_strength"}

  /** The metric dictionary filled key by key, as `cloak_face_facenet` does. */
  method BuildMetrics(m: Measurements, targeted: bool) returns (metrics: map<string, Value>)
    requires Measurable(m)
    ensures metrics == MetricsOf(m, targeted)
  {
    metrics := map[];
    metrics := metrics["cosine_similarity_before" := Num(m.origSim)];
    metrics := metrics["cosine_similarity_after" := Num(m.advSim)];
    metrics := metrics["similarity_drop" := Num(1.0 - m.advSim)];
    metrics := metrics["embedding_distance_original_vs_adv" := Num(m.embDist)];
    metrics := metrics["normalized_distance" := Num(m.embDist / m.embDim as real)];
    metrics := metrics["adv_vs_orig_norm_ratio" := Num(m.embDist / (m.origNorm + NORM_EPSILON))];
    metrics := metrics["percent_change_in_distance" := Num(m.embDist / (m.origNorm + NORM_EPSILON) * 100.0)];
    metrics := metrics["embedding_moved_norm" := Num(m.embDist)];
    metrics := metrics["embedding_movement_per_pixel" := Num(m.embDist / (m.faceH * m.faceW) as real)];
    metrics := metrics["attack_success" := Bool(m.advSim < SUCCESS_THRESHOLD)];
    metrics := metrics["effective_cloaking_score" := Num(Min(1.0, (1.0 - m.advSim) * 1.3))];
    if targeted {
      metrics := metrics["target_similarity_before" := Num(m.targetSimBefore)];
      metrics := metrics["target_similarity_after" := Num(m.targetSimAfter)];
      metrics := metrics["push_toward_target" := Num(m.targetSimAfter - m.targetSimBefore)];
      var push := metrics["push_toward_target"].n;
      metrics := metrics["target_push_strength" := Num(Max(0.0, push))];
    }
  }

  /** The metric dictionary has the eleven base keys, and the four target keys exactly when
      the attack is targeted. */
  lemma MetricKeys(m: Measurements, targeted: bool)
    requires Measurable(m)
    ensures MetricsOf(m, targeted).Keys == if targeted then BASE_METRIC_KEYS + TARGET_METRIC_KEYS else BASE_METRIC_KEYS
  {
  }

  /** The relations the metric dictionary keeps between its entries. */
  lemma MetricRelations(m: Measurements, targeted: bool)
    requires Measurable(m)
    ensures var d := MetricsOf(m, targeted);
      && d["similarity_drop"] == Num(1.0 - d["cosine_similarity_after"].n)
      && d["attack_success"].Bool?
      && (d["attack_success"].b <==> d["cosine_similarity_after"].n < 0.85)
      && d["effective_cloaking_score"].n <= 1.0
      && d["embedding_moved_norm"] == d["embedding_distance_original_vs_adv"]
  {
  }

  /** On a targeted attack the push is the change in similarity to the target, and its
      strength is that change clamped at zero. */
  lemma TargetPush(m: Measurements)
    requires Measurable(m)
    ensures var d := MetricsOf(m, true);
      && d["push_toward_target"].n == d["target_similarity_after"].n - d["target_similarity_before"].n
      && d["target_push_strength"].n >= 0.0
      && d["target_push_strength"].n == Max(0.0, d["push_toward_target"].n)
  {
  }

  /** How `face_cloak_from_base64` (with `cloak_face_facenet` inside) ends: a cloaked image and
      its metrics, an error dictionary, or an exception. */
  datatype FaceOutcome = Cloaked(image: string, metrics: map<string, Value>) | Failed(body: Value) | FaceCrash

  /** A targeted call without a target yields its error dictionary; an image without a face
      yields the detector's; an unknown method or a degenerate face box or embedding raises;
      otherwise the metrics come with the cloaked image. */
  function FaceCloakFromBase64(req: FaceRequest, analysis: FaceAnalysis, cloaked: string): (o: FaceOutcome)
    ensures req.targeted && req.target.None? ==> o == Failed(ErrorBody("Targeted attack requires target_image"))
    ensures !(req.targeted && req.target.None?) && analysis.NoFaceDetected? ==> o == Failed(ErrorBody("No face detected"))
    ensures o.Cloaked? <==>
      !(req.targeted && req.target.None?) && analysis.FaceFound? && req.attack != OtherMethod && Measurable(analysis.m)
    ensures o.Cloaked? ==> o == Cloaked(cloaked, MetricsOf(analysis.m, req.targeted))
  {
    if req.targeted && req.target.None? then Failed(ErrorBody("Targeted attack requires target_image"))
    else if analysis.NoFaceDetected? then Failed(ErrorBody("No face detected"))
    else if req.attack == OtherMethod || !Measurable(analysis.m) then FaceCrash
    else Cloaked(cloaked, MetricsOf(analysis.m, req.targeted))
  }

  /** The success envelope: the image at the top level, everything else under `response`. */
  function Envelope(image: string, response: Value): (v: Value)
    ensures v.Obj? && v.fields.Keys == {"cloaked_image", "response"}
    ensures Get(v, "cloaked_image") == Some(Str(image)) && Get(v, "response") == Some(response)
  {
    Obj(map["cloaked_image" := Str(image), "response" := response])
  }

  /** `cloak_face_api`: validation, then the pipeline; an error dictionary is answered with
      400, metrics with 200 inside the envelope. */
  function CloakFaceApi(form: FormData, analysis: FaceAnalysis, cloaked: string): (r: Response)
    ensures ParseFaceRequest(form).Refused? ==> r == ParseFaceRequest(form).response
    ensures ParseFaceRequest(form).Accepted? && analysis.NoFaceDetected? ==> r == Response(400, ErrorBody("No face detected"))
    ensures ParseFaceRequest(form).Accepted? && analysis.FaceFound? ==>
      var req := ParseFaceRequest(form).request;
      if req.attack != OtherMethod && Measurable(analysis.m)
      then r == Response(200, Envelope(cloaked, Obj(MetricsOf(analysis.m, req.targeted))))
      else r == Crash
    ensures r.Response? && r.status == 200 ==>
      ParseFaceRequest(form).Accepted? && analysis.FaceFound? && Measurable(analysis.m) &&
      r.body == Envelope(cloaked, Obj(MetricsOf(analysis.m, ParseFaceRequest(form).request.targeted)))
  {
    var p := ParseFaceRequest(form);
    if p.Refused? then p.response
    else
      match FaceCloakFromBase64(p.request, analysis, cloaked)
      case Failed(body) => Response(400, body)
      case FaceCrash => Crash
      case Cloaked(image, metrics) => Response(200, Envelope(image, Obj(metrics)))
  }

  // ---- /art-cloak ----

  /** The first index of a largest entry, as `torch.argmax` picks it. */
  function ArgMax(p: seq<real>): (k: nat)
    requires |p| > 0
    ensures k < |p|
    ensures forall j :: 0 <= j < |p| ==> p[j] <= p[k]
    ensures forall j :: 0 <= j < k ==> p[j] < p[k]
  {
    if |p| == 1 then 0
    else
      var k := ArgMax(p[..|p| - 1]);
      assert forall j :: 0 <= j < |p| - 1 ==> p[..|p| - 1][j] == p[j];
      if p[|p| - 1] > p[k] then |p| - 1 else k
  }

  /** `idx_to_class.index(name)`: the first position of `name`, or `None` for the `ValueError`. */
  function IndexOf(classes: seq<string>, name: string): (r: Option<nat>)
    ensures r.None? <==> name !in classes
    ensures r.Some? ==> r.value < |classes| && classes[r.value] == name && name !in classes[..r.value]
  {
    if classes == [] then None
    else if classes[0] == name then Some(0)
    else
      var r := IndexOf(classes[1..], name);
      assert forall j :: 0 < j < |classes| ==> classes[j] == classes[1..][j - 1];
      if r.None? then None
      else
        assert classes[..r.value + 1] == [classes[0]] + classes[1..][..r.value];
        Some(r.value + 1)
  }

  /** `idx` is what `torch.topk(p, 3)` returns: three distinct positions whose values are in
      non-increasing order and at least every value left out. */
  predicate IsTop3(p: seq<real>, idx: seq<nat>)
  {
    && |idx| == 3
    && (forall i :: 0 <= i < 3 ==> idx[i] < |p|)
    && idx[0] != idx[1] && idx[0] != idx[2] && idx[1] != idx[2]
    && p[idx[0]] >= p[idx[1]] >= p[idx[2]]
    && (forall j :: 0 <= j < |p| && j !in idx ==> p[j] <= p[idx[2]])
  }

  /** The classifier's softmax outputs before and after cloaking, with their top-3 positions. */
  datatype ArtAnalysis = ArtAnalysis(probsBefore: seq<real>, probsAfter: seq<real>, topBefore: seq<nat>, topAfter: seq<nat>)

  /** What the classifier guarantees: one probability per class, and top-3 positions. */
  predicate Classified(classes: seq<string>, a: ArtAnalysis)
  {
    && |classes| >= 3 && |a.probsBefore| == |classes| && |a.probsAfter| == |classes|
    && IsTop3(a.probsBefore, a.topBefore) && IsTop3(a.probsAfter, a.topAfter)
  }

  /** One entry of a prediction list. */
  function PredictionEntry(name: string, prob: real): Value
  {
    Obj(map["class" := Str(name), "prob" := Num(prob)])
  }

  /** The list comprehension over `range(3)`: class name and probability of each top position. */
  function TopPredictions(classes: seq<string>, p: seq<real>, idx: seq<nat>): (r: seq<Value>)
    requires |p| == |classes| && IsTop3(p, idx)
    ensures |r| == 3
    ensures forall i :: 0 <= i < 3 ==> r[i] == PredictionEntry(classes[idx[i]], p[idx[i]])
  {
    seq(3, i requires 0 <= i < 3 => PredictionEntry(classes[idx[i]], p[idx[i]]))
  }

  datatype ArtRequest = ArtRequest(image: File, targetClass: Option<FormValue>, intensity: real, mode: string)

  /** The validation half of `cloak_image`, in its order: the intensity is parsed before the
      image is checked. */
  function ParseArtRequest(form: FormData): (p: Parsed<ArtRequest>)
    ensures p.Accepted? <==> FloatField(form, "intensity", 0.01).Some? && FilesGet(form, "image").Some?
    ensures FloatField(form, "intensity", 0.01).None? ==> p == Refused(Crash)
    ensures FloatField(form, "intensity", 0.01).Some? && FilesGet(form, "image").None? ==>
      p == Refused(Response(400, ErrorBody("No image file provided")))
    ensures p.Accepted? ==>
      && Some(p.request.image) == FilesGet(form, "image")
      && Some(p.request.intensity) == FloatField(form, "intensity", 0.01)
      && p.request.targetClass == FormGet(form, "target_class")
    ensures p.Accepted? && FormGet(form, "mode").None? ==> p.request.mode == "untargeted"
    ensures p.Accepted? && FormGet(form, "mode").Some? ==> p.request.mode == TextOf(FormGet(form, "mode").value)
  {
    var intensity := FloatField(form, "intensity", 0.01);
    var image := FilesGet(form, "image");
    var target := FormGet(form, "target_class");
    var mode := FormGet(form, "mode");
    if intensity.None? then Refused(Crash)
    else if image.None? then Refused(Response(400, ErrorBody("No image file provided")))
    else Accepted(ArtRequest(image.value, target, intensity.value, if mode.None? then "untargeted" else TextOf(mode.value)))
  }

  /** The target class: the classifier's first top class when none is named, the named class
      when it is in the list, and 400 otherwise. */
  function ResolveTarget(classes: seq<string>, probs: seq<real>, named: Option<FormValue>): (r: Parsed<(nat, string)>)
    requires |probs| == |classes| > 0
    ensures named.None? ==> r == Accepted((ArgMax(probs), classes[ArgMax(probs)]))
    ensures named.Some? && TextOf(named.value) !in classes ==> r == Refused(Response(400, ErrorBody("Invalid class name")))
    ensures r.Accepted? ==> r.request.0 < |classes| && classes[r.request.0] == r.request.1
    ensures named.Some? && r.Accepted? ==> r.request.1 == TextOf(named.value)
  {
    if named.None? then
      var k := ArgMax(probs);
      Accepted((k, classes[k]))
    else
      var k := IndexOf(classes, TextOf(named.value));
      if k.None? then Refused(Response(400, ErrorBody("Invalid class name")))
      else Accepted((k.value, TextOf(named.value)))
  }

  /** The body nested under `response` of an art cloak. */
  function ArtBody(mode: string, target: string, classes: seq<string>, a: ArtAnalysis): (v: Value)
    requires Classified(classes, a)
    ensures Get(v, "mode") == Some(Str(mode)) && Get(v, "target_class") == Some(Str(target))
    ensures Get(v, "original_top_predictions") == Some(Arr(TopPredictions(classes, a.probsBefore, a.topBefore)))
    ensures Get(v, "cloaked_top_predictions") == Some(Arr(TopPredictions(classes, a.probsAfter, a.topAfter)))
  {
    Obj(map[
      "mode" := Str(mode),
      "target_class" := Str(target),
      "original_top_predictions" := Arr(TopPredictions(classes, a.probsBefore, a.topBefore)),
      "cloaked_top_predictions" := Arr(TopPredictions(classes, a.probsAfter, a.topAfter))])
  }

  /** `cloak_image`: validation, target resolution, then the envelope with both top-3 lists. */
  function CloakImage(form: FormData, classes: seq<string>, a: ArtAnalysis, cloaked: string): (r: Response)
    requires Classified(classes, a)
    ensures ParseArtRequest(form).Refused? ==> r == ParseArtRequest(form).response
    ensures ParseArtRequest(form).Accepted? &&
            ResolveTarget(classes, a.probsBefore, ParseArtRequest(form).request.targetClass).Refused? ==>
      r == ResolveTarget(classes, a.probsBefore, ParseArtRequest(form).request.targetClass).response
    ensures r.Response? && r.status == 200 <==>
      ParseArtRequest(form).Accepted? && ResolveTarget(classes, a.probsBefore, ParseArtRequest(form).request.targetClass).Accepted?
    ensures r.Response? && r.status == 200 ==>
      var req := ParseArtRequest(form).request;
      r.body == Envelope(cloaked, ArtBody(req.mode, ResolveTarget(classes, a.probsBefore, req.targetClass).request.1, classes, a))
  {
    var p := ParseArtRequest(form);
    if p.Refused? then p.response
    else
      var t := ResolveTarget(classes, a.probsBefore, p.request.targetClass);
      if t.Refused? then t.response
      else Response(200, Envelope(cloaked, ArtBody(p.request.mode, t.request.1, classes, a)))
  }
}
