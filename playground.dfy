/** The chat playground: the tag table, JavaScript's `trim`, the append-then-patch message
    log, the JSON body of a chat request, and the page class with one method per event. */
module Playground {
  import opened Json
  import opened Browser

  /** A row of the tag table: the id sent to the server, the button label, and the words the
      instruction sentence uses. */
  datatype Tag = Tag(id: string, buttonText: string, title: string)

  const TAGS: seq<Tag> := [
    Tag("face-cloak", "Face Cloak", "face cloak"),
    Tag("art-cloak", "Art Cloak", "art cloak"),
    Tag("face-cloak-test", "Face Cloak Testing", "face cloak testing"),
    Tag("art-cloak-test", "Art Cloak Testing", "art cloak testing")
  ]

  const NO_TAG_ALERT: string := "Please select a tag (Face Cloak, Art Cloak, etc.)"
  const ERROR_TEXT: string := "Error: Could not get response from server."

  /** `tags.find(tag => tag.id === id)`: the first row with that id. */
  function FindTag(tags: seq<Tag>, id: string): (r: Option<Tag>)
    ensures r.None? <==> forall i :: 0 <= i < |tags| ==> tags[i].id != id
    ensures r.Some? ==> r.value in tags && r.value.id == id
  {
    if tags == [] then None
    else if tags[0].id == id then Some(tags[0])
    else
      assert forall i :: 0 < i < |tags| ==> tags[i] == tags[1..][i - 1];
      FindTag(tags[1..], id)
  }

  /** The instruction sentence sent along with a message, empty for an unknown id. */
  function TagMessage(id: string): string
  {
    var t := FindTag(TAGS, id);
    if t.Some? then "I want to " + t.value.title + " this image." else ""
  }

  /** The ids of the table are distinct, so each row's id yields that row's sentence. */
  lemma TagMessages(i: nat)
    requires i < |TAGS|
    ensures TagMessage(TAGS[i].id) == "I want to " + TAGS[i].title + " this image."
  {
    assert TAGS[0].id[0] == 'f' && TAGS[1].id[0] == 'a' && TAGS[2].id[0] == 'f' && TAGS[3].id[0] == 'a';
    assert |TAGS[0].id| != |TAGS[2].id| && |TAGS[1].id| != |TAGS[3].id|;
  }

  /** An id outside the table yields the empty sentence. */
  lemma UnknownTagMessage(id: string)
    requires forall i :: 0 <= i < |TAGS| ==> TAGS[i].id != id
    ensures TagMessage(id) == ""
  {
  }

  /** The characters JavaScript's `String.prototype.trim` removes: white space and line
      terminators. */
  predicate IsJsSpace(c: char)
  {
    c == '\t' || c == '\n' || c == '\U{000B}' || c == '\U{000C}' || c == '\r' || c == ' ' ||
    c == '\U{00A0}' || c == '\U{1680}' || ('\U{2000}' <= c <= '\U{200A}') ||
    c == '\U{2028}' || c == '\U{2029}' || c == '\U{202F}' || c == '\U{205F}' ||
    c == '\U{3000}' || c == '\U{FEFF}'
  }

  predicate Blank(s: string)
  {
    forall i :: 0 <= i < |s| ==> IsJsSpace(s[i])
  }

  function TrimStart(s: string): string
  {
    if s != [] && IsJsSpace(s[0]) then TrimStart(s[1..]) else s
  }

  function TrimEnd(s: string): string
  {
    if s != [] && IsJsSpace(s[|s| - 1]) then TrimEnd(s[..|s| - 1]) else s
  }

  function Trim(s: string): string
  {
    TrimEnd(TrimStart(s))
  }

  lemma {:induction false} TrimStartEmpty(s: string)
    ensures TrimStart(s) == [] <==> Blank(s)
    ensures TrimStart(s) != [] ==> !IsJsSpace(TrimStart(s)[0])
  {
    if s != [] && IsJsSpace(s[0]) {
      TrimStartEmpty(s[1..]);
      assert forall i :: 0 < i < |s| ==> s[i] == s[1..][i - 1];
    }
  }

  lemma {:induction false} TrimEndEmpty(s: string)
    ensures TrimEnd(s) == [] <==> Blank(s)
  {
    if s != [] && IsJsSpace(s[|s| - 1]) {
      TrimEndEmpty(s[..|s| - 1]);
      assert forall i :: 0 <= i < |s| - 1 ==> s[i] == s[..|s| - 1][i];
    }
  }

  /** `input.trim()` is the empty (falsy) string exactly when the input is all white space. */
  lemma TrimEmptyIffBlank(s: string)
    ensures Trim(s) == "" <==> Blank(s)
  {
    TrimStartEmpty(s);
    TrimEndEmpty(TrimStart(s));
  }

  /** A chat-log entry: a user turn, the loading placeholder, or an assistant turn whose
      `content` and `image` (here `answer` and `attachment`) are whatever the reply carried,
      `None` standing for undefined. */
  datatype Message =
    | UserTurn(content: string, image: Option<string>, tag: string)
    | Placeholder
    | AssistantTurn(answer: Option<Value>, attachment: Option<Value>)

  /** The two log updates of one send: the user turn, then the placeholder. */
  function AppendTurn(log: seq<Message>, turn: Message): (r: seq<Message>)
    ensures |r| == |log| + 2 && r[..|log|] == log && r[|log|] == turn && r[|log| + 1] == Placeholder
  {
    log + [turn] + [Placeholder]
  }

  /** `[...prev.slice(0, -1), reply]`: the last entry is replaced, the rest kept. */
  function Settle(log: seq<Message>, reply: Message): (r: seq<Message>)
    requires |log| > 0
    ensures |r| == |log| && r[..|log| - 1] == log[..|log| - 1] && r[|log| - 1] == reply
  {
    log[..|log| - 1] + [reply]
  }

  /** A send and its settling together append the user turn and the reply, and nothing else. */
  lemma SendThenSettle(log: seq<Message>, turn: Message, reply: Message)
    ensures Settle(AppendTurn(log, turn), reply) == log + [turn, reply]
  {
    assert AppendTurn(log, turn)[..|log| + 1] == log + [turn];
  }

  /** The assistant turn a settled request produces: the reply's `response` and `image`
      fields on success, and the fixed error text when the request fails. The fields are read
      inside the state updater, so for a null body the read throws while React renders, not in
      the handler (see `RenderThrows`). */
  function Reply(outcome: HttpOutcome): (m: Message)
    ensures m.AssistantTurn?
    ensures outcome.Resolved? ==>
      m.answer == Get(outcome.data, "response") && m.attachment == Get(outcome.data, "image")
    ensures outcome.Rejected? ==> m == AssistantTurn(Some(Str(ERROR_TEXT)), None)
  {
    if outcome.Resolved? then
      AssistantTurn(Get(outcome.data, "response"), Get(outcome.data, "image"))
    else
      AssistantTurn(Some(Str(ERROR_TEXT)), None)
  }

  /** A value React refuses to render as a child: an object, or an array that holds one at
      any depth. Null, booleans, numbers and strings render (the first two as nothing). */
  predicate Unrenderable(v: Value)
  {
    match v
    case Obj(_) => true
    case Arr(items) => exists i :: 0 <= i < |items| && Unrenderable(items[i])
    case _ => false
  }

  /** Whether settling with `outcome` throws during the next render, outside the handler's
      `try`: the updater's read of `response.data.response` throws on a null body, and an
      unrenderable `response` throws when `{msg.content}` renders it. The `image` field only
      becomes an `src` attribute, which stringifies anything. */
  predicate RenderThrows(outcome: HttpOutcome)
  {
    && outcome.Resolved?
    && (|| outcome.data == Null
        || (var answer := Get(outcome.data, "response"); answer.Some? && Unrenderable(answer.value)))
  }

  /** The answers that tear the page down: a null body, an object `response`, or an array
      `response` holding an object however deep; a text answer, an array of texts, a missing
      `response` and every failed request render. */
  lemma RenderThrowsCases(text: string, inner: map<string, Value>)
    ensures RenderThrows(Resolved(Null))
    ensures RenderThrows(Resolved(Obj(map["response" := Obj(inner)])))
    ensures RenderThrows(Resolved(Obj(map["response" := Arr([Str(text), Arr([Obj(inner)])])])))
    ensures !RenderThrows(Resolved(Obj(map["response" := Str(text)])))
    ensures !RenderThrows(Resolved(Obj(map["response" := Arr([Str(text), Null])])))
    ensures !RenderThrows(Resolved(Obj(map[])))
    ensures forall body, reason :: !RenderThrows(Rejected(body, reason))
  {
    var nested := Arr([Str(text), Arr([Obj(inner)])]);
    assert Unrenderable(nested.items[1].items[0]);
    assert Unrenderable(nested.items[1]);
    var flat := Arr([Str(text), Null]);
    assert !Unrenderable(flat.items[0]) && !Unrenderable(flat.items[1]);
  }

  /** A chat answer carrying `response` and, optionally, `image` becomes the assistant turn that
      shows both, and a send that settles with it ends the log with the user's turn and that one. */
  lemma ReplyShowsAnswer(log: seq<Message>, turn: Message, answer: Value, image: Option<Value>)
    ensures var fields := if image.Some? then map["response" := answer, "image" := image.value] else map["response" := answer];
      && Reply(Resolved(Obj(fields))) == AssistantTurn(Some(answer), image)
      && Settle(AppendTurn(log, turn), Reply(Resolved(Obj(fields)))) == log + [turn, AssistantTurn(Some(answer), image)]
  {
    var fields := if image.Some? then map["response" := answer, "image" := image.value] else map["response" := answer];
    assert "image" != "response" by { assert "image"[0] == 'i'; }
    assert Reply(Resolved(Obj(fields))) == AssistantTurn(Some(answer), image);
    SendThenSettle(log, turn, AssistantTurn(Some(answer), image));
  }

  /** The JSON body of a chat request; the `image` field is added only for a truthy preview. */
  function ChatPayload(input: string, tag: string, preview: Option<string>): (v: Value)
    ensures v.Obj?
    ensures Get(v, "message") == Some(Str(input)) && Get(v, "tag") == Some(Str(tag))
    ensures Get(v, "tag_message") == Some(Str(TagMessage(tag)))
    ensures "image" in v.fields <==> preview.Some? && preview.value != ""
    ensures "image" in v.fields ==> v.fields["image"] == Str(preview.value)
    ensures v.fields.Keys <= {"message", "tag", "tag_message", "image"}
  {
    var base := map["message" := Str(input), "tag" := Str(tag), "tag_message" := Str(TagMessage(tag))];
    if preview.Some? && preview.value != "" then Obj(base["image" := Str(preview.value)]) else Obj(base)
  }

  predicate IsTagId(id: string)
  {
    exists i :: 0 <= i < |TAGS| && TAGS[i].id == id
  }

  class PlaygroundPage {
    var input: string
    var messages: seq<Message>
    var loading: bool
    var selectedImage: Option<File>
    var imagePreview: Option<string>
    var selectedTag: Option<string>

    // The page's effect on its surroundings.
    var pendingReads: nat         // `FileReader` reads whose `onloadend` has not fired
    var requests: seq<Value>      // every JSON body posted to `/chat`, in order
    var alerts: seq<string>
    var crashed: bool             // a render threw; with no error boundary React unmounted the page

    /** The placeholder is only ever the last entry, directly after the user turn it answers,
        and only while a request is out or in the log the page crashed with; every answer in
        the log renders; a selected tag is an id of the table. */
    ghost predicate Valid()
      reads this
    {
      && (forall i :: 0 <= i < |messages| && messages[i] == Placeholder ==> (loading || crashed) && i == |messages| - 1)
      && (forall i :: 0 <= i < |messages| && messages[i].AssistantTurn? && messages[i].answer.Some? ==>
            !Unrenderable(messages[i].answer.value))
      && (crashed ==> !loading)
      && (loading ==> |messages| >= 2 && messages[|messages| - 1] == Placeholder && messages[|messages| - 2].UserTurn?)
      && (selectedTag.Some? ==> IsTagId(selectedTag.value))
    }

    constructor ()
      ensures Valid()
      ensures input == "" && messages == [] && !loading && selectedImage.None? && imagePreview.None? && selectedTag.None?
      ensures pendingReads == 0 && requests == [] && alerts == [] && !crashed
    {
      input, messages, loading, crashed := "", [], false, false;
      selectedImage, imagePreview, selectedTag := None, None, None;
      pendingReads, requests, alerts := 0, [], [];
    }

    /** `handleImageSelect`: a chosen file is selected at once and a read of it starts; the
        preview arrives later. Choosing nothing changes nothing. The picker stays enabled
        while loading. */
    method SelectImage(files: seq<File>)
      requires Valid() && !crashed
      modifies this`selectedImage, this`pendingReads
      ensures Valid()
      ensures files == [] ==> selectedImage == old(selectedImage) && pendingReads == old(pendingReads)
      ensures files != [] ==> selectedImage == Some(files[0]) && pendingReads == old(pendingReads) + 1
    {
      if files != [] {
        selectedImage := Some(files[0]);
        pendingReads := pendingReads + 1;
      }
    }

    /** A read's `onloadend`: its result (a data URL, or null when the read failed) becomes the
        preview, whatever was selected or removed in the meantime; after a crash the update is
        dropped. */
    method ReaderLoaded(result: Option<string>)
      requires Valid() && pendingReads > 0
      modifies this`imagePreview, this`pendingReads
      ensures Valid() && pendingReads == old(pendingReads) - 1
      ensures imagePreview == if crashed then old(imagePreview) else result
    {
      if !crashed {
        imagePreview := result;
      }
      pendingReads := pendingReads - 1;
    }

    /** `removeImage`, behind the button shown over a truthy preview. */
    method RemoveImage()
      requires Valid() && !crashed && imagePreview.Some? && imagePreview.value != ""
      modifies this`selectedImage, this`imagePreview
      ensures Valid() && selectedImage.None? && imagePreview.None?
    {
      selectedImage, imagePreview := None, None;
    }

    /** A tag button; the buttons are disabled while loading. */
    method SelectTag(id: string)
      requires Valid() && !crashed && !loading && IsTagId(id)
      modifies this`selectedTag
      ensures Valid() && selectedTag == Some(id)
    {
      selectedTag := Some(id);
    }

    /** Typing in the input, which is disabled while loading. */
    method SetInput(text: string)
      requires Valid() && !crashed && !loading
      modifies this`input
      ensures Valid() && input == text
    {
      input := text;
    }

    /** The synchronous part of `sendMessage`; the send button is disabled while loading. A
        blank input with no selected image does nothing; without a tag the page alerts and the
        log is untouched; otherwise the user turn and the placeholder are appended and the
        request goes out. */
    method SendMessage()
      requires Valid() && !crashed && !loading
      modifies this`messages, this`loading, this`requests, this`alerts
      ensures Valid()
      ensures Blank(input) && selectedImage.None? ==>
        messages == old(messages) && !loading && requests == old(requests) && alerts == old(alerts)
      ensures !(Blank(input) && selectedImage.None?) && selectedTag.None? ==>
        messages == old(messages) && !loading && requests == old(requests) && alerts == old(alerts) + [NO_TAG_ALERT]
      ensures !(Blank(input) && selectedImage.None?) && selectedTag.Some? ==>
        && messages == AppendTurn(old(messages), UserTurn(input, imagePreview, selectedTag.value))
        && loading
        && requests == old(requests) + [ChatPayload(input, selectedTag.value, imagePreview)]
        && alerts == old(alerts)
    {
      TrimEmptyIffBlank(input);
      if Trim(input) == "" && selectedImage.None? {
        return;
      }
      if selectedTag.None? {
        alerts := alerts + [NO_TAG_ALERT];
        return;
      }
      var tag := selectedTag.value;
      messages := messages + [UserTurn(input, imagePreview, tag)];
      loading := true;
      messages := messages + [Placeholder];
      requests := requests + [ChatPayload(input, tag, imagePreview)];
    }

    /** The rest of `sendMessage`, when the request settles: the placeholder is replaced by the
        reply or the error text, and the `finally` block clears the input and the image. For an
        answer that `RenderThrows` the next render throws, outside the `try`; with no error
        boundary the page is torn down, the log last shown still ending in the placeholder. */
    method ResolveChat(outcome: HttpOutcome)
      requires Valid() && loading
      modifies this`messages, this`loading, this`input, this`selectedImage, this`imagePreview, this`crashed
      ensures Valid()
      ensures crashed <==> RenderThrows(outcome)
      ensures !crashed ==> messages == Settle(old(messages), Reply(outcome))
      ensures crashed ==> messages == old(messages)
      ensures !loading && input == "" && selectedImage.None? && imagePreview.None?
    {
      if RenderThrows(outcome) {
        crashed := true;
      } else {
        messages := messages[..|messages| - 1] + [Reply(outcome)];
      }
      loading := false;
      input := "";
      selectedImage, imagePreview := None, None;
    }
  }

  /** A send that settles leaves the earlier log intact and adds exactly the user turn and
      the reply, unless the answer crashes the page. */
  method SendAndSettle(page: PlaygroundPage, outcome: HttpOutcome)
    requires page.Valid() && !page.crashed && !page.loading && page.selectedTag.Some?
    requires !(Blank(page.input) && page.selectedImage.None?)
    modifies page
    ensures page.Valid() && !page.loading
    ensures page.crashed <==> RenderThrows(outcome)
    ensures !page.crashed ==>
      page.messages == old(page.messages) + [UserTurn(old(page.input), old(page.imagePreview), old(page.selectedTag).value), Reply(outcome)]
  {
    page.SendMessage();
    SendThenSettle(old(page.messages), UserTurn(old(page.input), old(page.imagePreview), old(page.selectedTag).value), Reply(outcome));
    page.ResolveChat(outcome);
  }
}
