/** The choice of the Telegram method a prompt is sent with, as a decision table
    over the message to edit and the media attached. */
module Endpoints {
  import opened Wrappers
  import opened JsValues

  /** One configured media item: its type (`photo`, `document`) and its source. */
  datatype Media = Media(kind: string, url: string)

  /** What the message the pressed button belongs to carries. */
  datatype CallbackMessage = CallbackMessage(hasPhoto: bool, hasDocument: bool)

  datatype Endpoint =
    | NoEndpoint
    | SendMessage
    | SendSingle(kind: string)
    | SendMediaGroup
    | EditMessageText
    | EditMessageCaption
    | EditMessageMedia

  predicate IsEdit(e: Endpoint) {
    e.EditMessageText? || e.EditMessageCaption? || e.EditMessageMedia?
  }

  /** Where the prompt's text goes. */
  datatype TextSlot =
    | NoText
    | BodyText          // body.text
    | BodyCaption       // body.caption
    | LastMediaCaption  // caption of the last element of the media group
    | MediaCaption      // caption of body.media

  /** The request plan: the method, the place of the text, and the names of the
      input binaries the media sources would be looked up under. */
  datatype Plan = Plan(endpoint: Endpoint, text: TextSlot, files: seq<string>)

  datatype Error =
    | UnknownResource(resource: string)  // the resource is not `message`
    | NoCallbackMessage                   // editing without a callback message to inspect

  const AttachScheme: string := "attach://"

  /** True when `pat` occurs in `s` at position `j`. */
  predicate OccursAt(s: string, pat: string, j: nat) {
    j + |pat| <= |s| && s[j..j + |pat|] == pat
  }

  /** `s.indexOf(pat)` for a string pattern. */
  function FindText(s: string, pat: string): (r: int)
    ensures -1 <= r
    ensures r >= 0 ==> OccursAt(s, pat, r)
    ensures r >= 0 ==> forall j :: 0 <= j < r ==> !OccursAt(s, pat, j)
    ensures r == -1 ==> forall j :: 0 <= j <= |s| ==> !OccursAt(s, pat, j)
    decreases |s|
  {
    if |s| < |pat| then -1
    else if s[..|pat|] == pat then 0
    else
      var k := FindText(s[1..], pat);
      assert forall j :: 1 <= j <= |s| && OccursAt(s, pat, j) ==> OccursAt(s[1..], pat, j - 1);
      if k == -1 then -1 else k + 1
  }

  /** `url.replace('attach://', '')`: the first occurrence is removed. */
  function FileName(url: string): (r: string)
    ensures FindText(url, AttachScheme) == -1 ==> r == url
    ensures FindText(url, AttachScheme) >= 0 ==> |r| == |url| - |AttachScheme|
    ensures var k := FindText(url, AttachScheme);
      k >= 0 ==> url == r[..k] + AttachScheme + r[k..]
  {
    var k := FindText(url, AttachScheme);
    if k == -1 then url else url[..k] + url[k + |AttachScheme|..]
  }

  /** `String.prototype.toUpperCase` on the letters a media type is made of. */
  function Upper(c: char): char {
    if 'a' <= c <= 'z' then (c as int - 32) as char else c
  }

  /** `s.charAt(0).toUpperCase() + s.slice(1)`. */
  function Capitalize(s: string): (r: string)
    ensures |r| == |s|
    ensures 0 < |s| ==> r[0] == Upper(s[0]) && r[1..] == s[1..]
  {
    if |s| == 0 then "" else [Upper(s[0])] + s[1..]
  }

  /** The method name sent to Telegram. */
  function EndpointName(e: Endpoint): string {
    match e
    case NoEndpoint => ""
    case SendMessage => "sendMessage"
    case SendSingle(kind) => "send" + Capitalize(kind)
    case SendMediaGroup => "sendMediaGroup"
    case EditMessageText => "editMessageText"
    case EditMessageCaption => "editMessageCaption"
    case EditMessageMedia => "editMessageMedia"
  }

  /** True when `Number(message_id)` is truthy; a missing id is NaN. */
  predicate EditsMessage(messageId: Option<int>) {
    messageId.Some? && messageId.value != 0
  }

  /** The decision table of the send branch for the `message` resource and the
      `sendMessage` operation. A new message is sent unless a message id is
      given: without media as text, with one item by the method named after its
      type, with more as a media group. An edit without media changes the
      caption of a message that has a photo or a document and the text of any
      other; an edit with media replaces the media by the first item alone. */
  function ChooseEndpoint(resource: string, operation: string, messageId: Option<int>,
                          media: Option<seq<Media>>, callback: Option<CallbackMessage>)
    : (r: Result<Plan, Error>)
    ensures r.Failure? <==>
      (resource != "message"
       || (operation == "sendMessage" && EditsMessage(messageId)
           && |Items(media)| == 0 && callback.None?))
    ensures r.Success? && operation != "sendMessage" ==> r.value.endpoint == NoEndpoint
    ensures r.Success? && operation == "sendMessage" ==>
      && (IsEdit(r.value.endpoint) <==> EditsMessage(messageId))
      && (r.value.endpoint.EditMessageMedia? <==> EditsMessage(messageId) && |Items(media)| != 0)
      && |r.value.files| <= |Items(media)|
      && (forall i :: 0 <= i < |r.value.files| ==> r.value.files[i] == FileName(Items(media)[i].url))
      && (!EditsMessage(messageId) && 1 < |Items(media)| ==> |r.value.files| == |Items(media)|)
      && (r.value.endpoint.EditMessageMedia? ==> |r.value.files| == 1)
    ensures r.Success? && operation == "sendMessage" && !EditsMessage(messageId) ==>
      && (|Items(media)| == 0 ==> r.value == Plan(SendMessage, BodyText, []))
      && (|Items(media)| == 1 ==>
            r.value == Plan(SendSingle(Items(media)[0].kind), BodyCaption, [FileName(Items(media)[0].url)]))
      && (1 < |Items(media)| ==> r.value.endpoint == SendMediaGroup && r.value.text == LastMediaCaption)
    ensures r.Success? && operation == "sendMessage" && EditsMessage(messageId) && |Items(media)| == 0 ==>
      && callback.Some?
      && (callback.value.hasPhoto || callback.value.hasDocument ==>
            r.value == Plan(EditMessageCaption, BodyCaption, []))
      && (!callback.value.hasPhoto && !callback.value.hasDocument ==>
            r.value == Plan(EditMessageText, BodyText, []))
    ensures r.Success? && r.value.endpoint.EditMessageMedia? ==> r.value.text == MediaCaption
  {
    if resource != "message" then Failure(UnknownResource(resource))
    else if operation != "sendMessage" then Success(Plan(NoEndpoint, NoText, []))
    else
      var items := Items(media);
      if !EditsMessage(messageId) then
        if |items| == 0 then Success(Plan(SendMessage, BodyText, []))
        else if |items| == 1 then Success(Plan(SendSingle(items[0].kind), BodyCaption, [FileName(items[0].url)]))
        else Success(Plan(SendMediaGroup, LastMediaCaption,
                          seq(|items|, i requires 0 <= i < |items| => FileName(items[i].url))))
      else if |items| == 0 then
        if callback.None? then Failure(NoCallbackMessage)
        else if callback.value.hasPhoto || callback.value.hasDocument then
          Success(Plan(EditMessageCaption, BodyCaption, []))
        else Success(Plan(EditMessageText, BodyText, []))
      else Success(Plan(EditMessageMedia, MediaCaption, [FileName(items[0].url)]))
  }

  /** Editing with media looks at the first item only: neither the items after
      it nor the callback message make a difference to the request. */
  lemma LemmaEditUsesFirstMediaOnly(resource: string, operation: string, messageId: Option<int>,
                                    first: Media, rest1: seq<Media>, rest2: seq<Media>,
                                    callback: Option<CallbackMessage>)
    requires EditsMessage(messageId)
    ensures ChooseEndpoint(resource, operation, messageId, Some([first] + rest1), callback)
         == ChooseEndpoint(resource, operation, messageId, Some([first] + rest2), Option.None)
  {
  }

  /** A new message with a single media item is sent with the method named after
      the item's type (`sendPhoto`, `sendDocument`), with the text as caption
      and the one file name of its source. */
  lemma LemmaSingleMediaNames(messageId: Option<int>, kind: string, url: string,
                              callback: Option<CallbackMessage>)
    requires !EditsMessage(messageId)
    ensures ChooseEndpoint("message", "sendMessage", messageId, Some([Media(kind, url)]), callback)
         == Success(Plan(SendSingle(kind), BodyCaption, [FileName(url)]))
    ensures kind == "photo" ==> EndpointName(SendSingle(kind)) == "sendPhoto"
    ensures kind == "document" ==> EndpointName(SendSingle(kind)) == "sendDocument"
  {
    assert Capitalize("photo") == "Photo";
    assert Capitalize("document") == "Document";
  }

  /** Where the text of a prompt goes follows from the method alone: `text` for
      the two text methods, `caption` of the body for a single item and for a
      caption edit, of the last element of a media group, and of the replacing
      media object for a media edit. */
  lemma LemmaTextSlotOfMethod(resource: string, messageId: Option<int>,
                              media: Option<seq<Media>>, callback: Option<CallbackMessage>)
    ensures var r := ChooseEndpoint(resource, "sendMessage", messageId, media, callback);
      r.Success? ==>
        && (r.value.text == BodyText <==> r.value.endpoint in {SendMessage, EditMessageText})
        && (r.value.text == BodyCaption <==> r.value.endpoint.SendSingle? || r.value.endpoint == EditMessageCaption)
        && (r.value.text == LastMediaCaption <==> r.value.endpoint == SendMediaGroup)
        && (r.value.text == MediaCaption <==> r.value.endpoint == EditMessageMedia)
  {
  }

  /** An `attach://` source names the binary after the scheme. */
  lemma {:induction false} LemmaFileNameOfAttachment(name: string)
    ensures FileName(AttachScheme + name) == name
  {
    var url := AttachScheme + name;
    assert url[..|AttachScheme|] == AttachScheme;
    assert FindText(url, AttachScheme) == 0;
    assert url[|AttachScheme|..] == name;
  }
}
