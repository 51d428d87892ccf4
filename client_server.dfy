/** The two cloak pages against the two endpoints: how axios hands an answer to a page, that
    the forms the pages post pass the server's validation, and that what a page extracts from
    a success is what the server put in it. */
module ClientServer {
  import opened Json
  import opened Browser
  import opened CloakResponse
  import opened Server
  import FaceCloak
  import ArtCloak

  function Digit(d: nat): char
    requires d < 10
  {
    "0123456789"[d]
  }

  /** The decimal text of a status code. */
  function NatToString(n: nat): (s: string)
    ensures |s| > 0
  {
    if n < 10 then [Digit(n)] else NatToString(n / 10) + [Digit(n % 10)]
  }

  /** What axios reports when the browser withholds the answer. The service runs in debug mode,
      where an unhandled exception reaches the debugger's error page without the cross-origin
      headers the pages need, so a crash never reaches a page as a response. */
  const NETWORK_ERROR: string := "Network Error"

  /** How axios settles on an answer: a 2xx status resolves with the body; any other status
      rejects with the body as `err.response.data` and the message naming the status; a crash
      rejects with no response at all. */
  function Deliver(r: Response): (o: HttpOutcome)
    ensures r.Response? && 200 <= r.status < 300 ==> o == Resolved(r.body)
    ensures r.Response? && !(200 <= r.status < 300) ==>
      o == Rejected(Some(r.body), "Request failed with status code " + NatToString(r.status))
    ensures r.Crash? ==> o == Rejected(None, NETWORK_ERROR)
  {
    match r
    case Response(status, body) =>
      if 200 <= status < 300 then Resolved(body)
      else Rejected(Some(body), "Request failed with status code " + NatToString(status))
    case Crash => Rejected(None, NETWORK_ERROR)
  }

  /** Only a 2xx answer reaches the success path, carrying the body unchanged; every other
      answer and every crash takes the error path. */
  lemma OnlySuccessResolves(r: Response)
    ensures Deliver(r).Resolved? <==> r.Response? && 200 <= r.status < 300
    ensures Deliver(r).Resolved? ==> Deliver(r).data == r.body
    ensures Deliver(r).Rejected? ==> (Deliver(r).responseData.Some? <==> r.Response?)
  {
  }

  /** The message of an error body the server answers with is the reason the page shows, for
      any non-2xx status; an empty message falls back to axios's status message. */
  lemma ErrorMessageReachesAlert(status: nat, message: string)
    requires !(200 <= status < 300)
    ensures var o := Deliver(Response(status, ErrorBody(message)));
      && o.Rejected?
      && (message != "" ==> FailureReason(o.responseData, o.message) == Str(message))
      && (message == "" ==> FailureReason(o.responseData, o.message) == Str("Request failed with status code " + NatToString(status)))
  {
  }

  /** The names the face page never sends. */
  lemma FaceFormOmits(file: File, targeted: bool, target: Option<File>, intensity: real)
    ensures var form := FaceCloak.SubmitForm(file, targeted, target, intensity);
      FormGet(form, "image_base64").None? && FormGet(form, "method").None? && FormGet(form, "target_image_base64").None?
  {
    var form := FaceCloak.SubmitForm(file, targeted, target, intensity);
    var names := {"file", "target_image", "targeted", "intensity"};
    assert "image_base64" !in names && "method" !in names && "target_image_base64" !in names by {
      assert "image_base64"[1] == 'm' && "intensity"[1] == 'n';
      assert |"method"| == 6 && |"target_image_base64"| == 19;
    }
    LookupFirst(form, "image_base64");
    LookupFirst(form, "method");
    LookupFirst(form, "target_image_base64");
    FlaskViews(form, "image_base64");
    FlaskViews(form, "method");
    FlaskViews(form, "target_image_base64");
  }

  /** What Flask reads from the names the face page sends. */
  lemma FaceFormFields(file: File, targeted: bool, target: Option<File>, intensity: real)
    ensures var form := FaceCloak.SubmitForm(file, targeted, target, intensity);
      && FilesGet(form, "file") == Some(file)
      && FormGet(form, "targeted") == Some(TextValue(if targeted then "true" else "false"))
      && FormGet(form, "intensity") == Some(NumberValue(intensity))
      && FilesGet(form, "target_image") == if targeted && target.Some? then Some(target.value) else None
  {
    var form := FaceCloak.SubmitForm(file, targeted, target, intensity);
    FlaskViews(form, "file");
    FlaskViews(form, "targeted");
    FlaskViews(form, "intensity");
    FlaskViews(form, "target_image");
  }

  lemma LowerFlags()
    ensures Lower("true") == "true" && Lower("false") == "false"
  {
    assert Lower("true") == "true";
    assert Lower("false") == "false";
  }

  /** Every form the face page posts reaches the pipeline: the uploaded source, the slider's
      intensity, the default `fgsm` method, the page's flag, and the uploaded target exactly
      when targeted. */
  lemma FaceFormAccepted(file: File, targeted: bool, target: Option<File>, intensity: real)
    requires !targeted || target.Some?
    ensures ParseFaceRequest(FaceCloak.SubmitForm(file, targeted, target, intensity)) ==
      Accepted(FaceRequest(Upload(file), intensity, Fgsm, targeted, if targeted then Some(Upload(target.value)) else None))
  {
    FaceFormOmits(file, targeted, target, intensity);
    FaceFormFields(file, targeted, target, intensity);
    LowerFlags();
  }

  /** Every base key of the server's metric dictionary is on the page's whitelist. */
  lemma BaseKeysWhitelisted()
    ensures forall k :: k in BASE_METRIC_KEYS ==> k in METRIC_KEYS
  {
    forall k | k in BASE_METRIC_KEYS
      ensures k in METRIC_KEYS
    {
      if k == "adv_vs_orig_norm_ratio" {
        assert METRIC_KEYS[0] == k;
      } else if k == "attack_success" {
        assert METRIC_KEYS[1] == k;
      } else if k == "cosine_similarity_after" {
        assert METRIC_KEYS[2] == k;
      } else if k == "cosine_similarity_before" {
        assert METRIC_KEYS[3] == k;
      } else if k == "effective_cloaking_score" {
        assert METRIC_KEYS[4] == k;
      } else if k == "embedding_distance_original_vs_adv" {
        assert METRIC_KEYS[5] == k;
      } else if k == "embedding_moved_norm" {
        assert METRIC_KEYS[6] == k;
      } else if k == "embedding_movement_per_pixel" {
        assert METRIC_KEYS[7] == k;
      } else if k == "normalized_distance" {
        assert METRIC_KEYS[8] == k;
      } else if k == "percent_change_in_distance" {
        assert METRIC_KEYS[9] == k;
      } else if k == "similarity_drop" {
        assert METRIC_KEYS[10] == k;
      }
    }
  }

  /** Every target key of the server's metric dictionary is on the page's whitelist. */
  lemma TargetKeysWhitelisted()
    ensures forall k :: k in TARGET_METRIC_KEYS ==> k in METRIC_KEYS
  {
    forall k | k in TARGET_METRIC_KEYS
      ensures k in METRIC_KEYS
    {
      if k == "push_toward_target" {
        assert METRIC_KEYS[11] == k;
      } else if k == "target_push_strength" {
        assert METRIC_KEYS[12] == k;
      } else if k == "target_similarity_after" {
        assert METRIC_KEYS[13] == k;
      } else if k == "target_similarity_before" {
        assert METRIC_KEYS[14] == k;
      }
    }
  }

  /** No metric key names a prediction list. */
  lemma PredictionFieldsNotMetrics()
    ensures "original_top_predictions" !in BASE_METRIC_KEYS && "original_top_predictions" !in TARGET_METRIC_KEYS
    ensures "cloaked_top_predictions" !in BASE_METRIC_KEYS && "cloaked_top_predictions" !in TARGET_METRIC_KEYS
  {
    assert "original_top_predictions"[0] == 'o';
    assert "cloaked_top_predictions"[1] == 'l';
    forall k | k in BASE_METRIC_KEYS || k in TARGET_METRIC_KEYS
      ensures k != "original_top_predictions" && k != "cloaked_top_predictions"
    {
      if k == "adv_vs_orig_norm_ratio" {
        assert k[0] == 'a';
      } else if k == "attack_success" {
        assert k[0] == 'a';
      } else if k == "cosine_similarity_after" {
        assert k[0] == 'c' && k[1] == 'o';
      } else if k == "cosine_similarity_before" {
        assert k[0] == 'c' && k[1] == 'o';
      } else if k == "effective_cloaking_score" {
        assert k[0] == 'e';
      } else if k == "embedding_distance_original_vs_adv" {
        assert k[0] == 'e';
      } else if k == "embedding_moved_norm" {
        assert k[0] == 'e';
      } else if k == "embedding_movement_per_pixel" {
        assert k[0] == 'e';
      } else if k == "normalized_distance" {
        assert k[0] == 'n';
      } else if k == "percent_change_in_distance" {
        assert k[0] == 'p';
      } else if k == "similarity_drop" {
        assert k[0] == 's';
      } else if k == "push_toward_target" {
        assert k[0] == 'p';
      } else if k == "target_push_strength" {
        assert k[0] == 't';
      } else if k == "target_similarity_after" {
        assert k[0] == 't';
      } else if k == "target_similarity_before" {
        assert k[0] == 't';
      }
    }
  }

  /** The face page's reading of a success envelope whose `response` is a non-empty dictionary
      of whitelisted metrics: the image field, the whole body as raw data, no prediction lists,
      and exactly that dictionary as metrics. */
  lemma InterpretEnvelope(image: string, metrics: map<string, Value>)
    requires |metrics| > 0
    requires forall k :: k in metrics ==> k in METRIC_KEYS
    requires "original_top_predictions" !in metrics && "cloaked_top_predictions" !in metrics
    ensures var body := Envelope(image, Obj(metrics));
      FaceCloak.Interpret(body) == Some(FaceCloak.Interpretation(PngDataUrl(Some(Str(image))), body, NoPredictions, Some(metrics)))
  {
    var body := Envelope(image, Obj(metrics));
    assert Payload(body) == body;
    assert EffectiveRoot(body) == Obj(metrics);
    var w := Whitelisted(Obj(metrics));
    assert w.Keys == metrics.Keys;
    assert w == metrics;
  }

  /** The server's metric dictionary is something the face page can read back whole: it is
      non-empty, every key is whitelisted, and no key names a prediction list. */
  lemma MetricsReadable(m: Measurements, targeted: bool)
    requires Measurable(m)
    ensures var d := MetricsOf(m, targeted);
      && |d| > 0 && (forall k :: k in d ==> k in METRIC_KEYS)
      && "original_top_predictions" !in d && "cloaked_top_predictions" !in d
  {
    MetricKeys(m, targeted);
    BaseKeysWhitelisted();
    TargetKeysWhitelisted();
    PredictionFieldsNotMetrics();
    assert "similarity_drop" in MetricsOf(m, targeted);
  }

  /** The face endpoint answers the page's form with the metrics in the success envelope. */
  lemma FaceApiSuccess(file: File, targeted: bool, target: Option<File>, intensity: real, m: Measurements, image: string)
    requires !targeted || target.Some?
    requires Measurable(m)
    ensures CloakFaceApi(FaceCloak.SubmitForm(file, targeted, target, intensity), FaceFound(m), image) ==
      Response(200, Envelope(image, Obj(MetricsOf(m, targeted))))
  {
    FaceFormAccepted(file, targeted, target, intensity);
  }

  /** A face cloak from the page comes back as the metrics the server computed: every one of
      them reaches the page's `metrics` cell, with no prediction lists. */
  lemma FaceRoundTrip(file: File, targeted: bool, target: Option<File>, intensity: real, m: Measurements, image: string)
    requires !targeted || target.Some?
    requires Measurable(m)
    ensures var body := Envelope(image, Obj(MetricsOf(m, targeted)));
      && CloakFaceApi(FaceCloak.SubmitForm(file, targeted, target, intensity), FaceFound(m), image) == Response(200, body)
      && Deliver(Response(200, body)) == Resolved(body)
      && FaceCloak.Interpret(body) ==
           Some(FaceCloak.Interpretation(PngDataUrl(Some(Str(image))), body, NoPredictions, Some(MetricsOf(m, targeted))))
  {
    FaceApiSuccess(file, targeted, target, intensity, m, image);
    MetricsReadable(m, targeted);
    InterpretEnvelope(image, MetricsOf(m, targeted));
  }

  /** When no face is found the page alerts with the server's reason. */
  lemma NoFaceReason(file: File, targeted: bool, target: Option<File>, intensity: real, image: string)
    requires !targeted || target.Some?
    ensures var o := Deliver(CloakFaceApi(FaceCloak.SubmitForm(file, targeted, target, intensity), NoFaceDetected, image));
      o.Rejected? && FailureReason(o.responseData, o.message) == Str("No face detected")
  {
    FaceFormAccepted(file, targeted, target, intensity);
  }

  /** A targeted form without a target, which the page never sends, is refused by the server
      as well, and the page would alert with the server's reason. */
  lemma TargetlessRefused(file: File, intensity: real, image: string, analysis: FaceAnalysis)
    ensures var r := CloakFaceApi(FaceCloak.SubmitForm(file, true, None, intensity), analysis, image);
      && r == Response(400, ErrorBody("Targeted attack requires target_image"))
      && FailureReason(Deliver(r).responseData, Deliver(r).message) == Str("Targeted attack requires target_image")
  {
    FaceFormOmits(file, true, None, intensity);
    FaceFormFields(file, true, None, intensity);
    LowerFlags();
  }

  /** An unhandled exception on the server, such as `float()` of a text intensity, reaches the
      page as a network error, and the alert shows axios's message. */
  lemma CrashReason(file: File, text: string)
    ensures var r := CloakFaceApi([("file", FileValue(file)), ("intensity", TextValue(text))], NoFaceDetected, "");
      && r == Crash
      && Deliver(r) == Rejected(None, NETWORK_ERROR)
      && FailureReason(Deliver(r).responseData, Deliver(r).message) == Str(NETWORK_ERROR)
  {
    var form := [("file", FileValue(file)), ("intensity", TextValue(text))];
    assert form[1..][1..] == [];
    assert form[0].0 != "image_base64" && form[1].0 != "image_base64" by {
      assert "file"[0] == 'f' && "intensity"[1] == 'n' && "image_base64"[1] == 'm';
    }
    LookupFirst(form, "image_base64");
    FlaskViews(form, "image_base64");
    assert FilesGet(form, "file") == Some(file);
    assert FormGet(form, "intensity") == Some(TextValue(text)) by { assert "intensity" != "file" by { assert "intensity"[0] == 'i'; } }
  }

  /** What Flask reads from the art page's form: the image, the intensity, and nothing else. */
  lemma ArtFormFields(file: File, intensity: real)
    ensures var form := ArtCloak.CloakForm(file, intensity);
      && FilesGet(form, "image") == Some(file)
      && FormGet(form, "intensity") == Some(NumberValue(intensity))
      && FormGet(form, "target_class").None? && FormGet(form, "mode").None?
  {
    var form := ArtCloak.CloakForm(file, intensity);
    assert "target_class" !in {"image", "intensity"} && "mode" !in {"image", "intensity"} by {
      assert "target_class"[0] == 't' && "mode"[0] == 'm';
    }
    LookupFirst(form, "target_class");
    LookupFirst(form, "mode");
    FlaskViews(form, "image");
    FlaskViews(form, "intensity");
    FlaskViews(form, "target_class");
    FlaskViews(form, "mode");
  }

  /** The art page's form asks for an untargeted cloak toward the classifier's first top class,
      and the page ends up with the server's two top-3 lists. */
  lemma ArtRoundTrip(file: File, intensity: real, classes: seq<string>, a: ArtAnalysis, image: string)
    requires Classified(classes, a)
    ensures var target := classes[ArgMax(a.probsBefore)];
      var body := Envelope(image, ArtBody("untargeted", target, classes, a));
      && ParseArtRequest(ArtCloak.CloakForm(file, intensity)) == Accepted(ArtRequest(file, None, intensity, "untargeted"))
      && CloakImage(ArtCloak.CloakForm(file, intensity), classes, a, image) == Response(200, body)
      && Deliver(Response(200, body)) == Resolved(body)
      && Get(body, "cloaked_image") == Some(Str(image))
      && ExtractPredictions(EffectiveRoot(Payload(body))) ==
           Predictions(TopPredictions(classes, a.probsBefore, a.topBefore), TopPredictions(classes, a.probsAfter, a.topAfter))
  {
    ArtFormFields(file, intensity);
    var target := classes[ArgMax(a.probsBefore)];
    var body := Envelope(image, ArtBody("untargeted", target, classes, a));
    assert Payload(body) == body;
    assert EffectiveRoot(body) == ArtBody("untargeted", target, classes, a);
  }
}
