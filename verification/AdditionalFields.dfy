/** `addAdditionalFields`: completing a request body with the node's additional
    fields and the reply markup built from the configured keyboard. */
module AdditionalFields {
  import opened Wrappers
  import opened JsValues
  import opened Keyboard

  /** A JavaScript object with its own properties. */
  type Object = map<string, Value>

  const ParseModeKey: string := "parse_mode"
  const MediaKey: string := "media"
  const AttributionKey: string := "appendAttribution"
  const ReplyMarkupKey: string := "reply_markup"
  const TextKey: string := "text"
  const DefaultParseMode: Value := Str("Markdown")

  /** The body and the additional fields after the call (both are mutated). */
  datatype Merged = Merged(body: Object, fields: Object)

  /** The `parse_mode` in effect for `sendMessage`: the configured one when it is
      truthy, `Markdown` otherwise. */
  function EffectiveParseMode(fields: Object): (v: Value)
    ensures Truthy(Some(v))
    ensures Truthy(Get(fields, ParseModeKey)) ==> v == fields[ParseModeKey]
    ensures !Truthy(Get(fields, ParseModeKey)) ==> v == DefaultParseMode
  {
    if Truthy(Get(fields, ParseModeKey)) then fields[ParseModeKey] else DefaultParseMode
  }

  /** `(v as IDataObject).parse_mode = mode`, which changes objects only. */
  function WithParseMode(v: Value, mode: Value): (r: Value)
    ensures v.Obj? ==> r.Obj? && r.fields.Keys == v.fields.Keys + {ParseModeKey}
    ensures v.Obj? ==> r.fields[ParseModeKey] == mode
    ensures v.Obj? ==> forall k :: k in v.fields && k != ParseModeKey ==> r.fields[k] == v.fields[k]
    ensures !v.Obj? ==> r == v
  {
    if v.Obj? then Obj(v.fields[ParseModeKey := mode]) else v
  }

  /** The `parse_mode` propagation into `body.media`: every element of an array,
      or the object itself. */
  function SetParseMode(media: Value, mode: Value): (r: Value)
    ensures media.Arr? ==> r.Arr? && |r.items| == |media.items|
    ensures media.Arr? ==> forall i :: 0 <= i < |media.items| ==> r.items[i] == WithParseMode(media.items[i], mode)
    ensures !media.Arr? ==> r == WithParseMode(media, mode)
  {
    if media.Arr? then
      Arr(seq(|media.items|, i requires 0 <= i < |media.items| => WithParseMode(media.items[i], mode)))
    else WithParseMode(media, mode)
  }

  /** The preparation for `sendMessage`: `parse_mode` defaults to `Markdown`;
      when the body has media the mode moves into it and leaves the fields; and
      `appendAttribution` is dropped. Other operations leave both unchanged. */
  function NormalizeFields(operation: string, body: Object, fields: Object): (r: Merged)
    ensures operation != "sendMessage" ==> r == Merged(body, fields)
    ensures operation == "sendMessage" ==> AttributionKey !in r.fields
    ensures operation == "sendMessage" && !Truthy(Get(body, MediaKey)) ==>
      r.body == body && Get(r.fields, ParseModeKey) == Some(EffectiveParseMode(fields))
    ensures operation == "sendMessage" && Truthy(Get(body, MediaKey)) ==>
      && ParseModeKey !in r.fields
      && r.body == body[MediaKey := SetParseMode(body[MediaKey], EffectiveParseMode(fields))]
    ensures forall k :: k in r.fields ==> k in fields || k == ParseModeKey
    ensures forall k :: k in fields && k != ParseModeKey && k != AttributionKey ==>
      k in r.fields && r.fields[k] == fields[k]
  {
    if operation != "sendMessage" then Merged(body, fields)
    else
      var withMode := if !Truthy(Get(fields, ParseModeKey)) then fields[ParseModeKey := DefaultParseMode] else fields;
      var mode := withMode[ParseModeKey];
      if Truthy(Get(body, MediaKey)) then
        Merged(body[MediaKey := SetParseMode(body[MediaKey], mode)], withMode - {ParseModeKey} - {AttributionKey})
      else Merged(body, withMode - {AttributionKey})
  }

  /** A Telegram button: `{text}` with the button's additional fields laid over
      it, so a `text` among them wins. */
  function TelegramButton(b: Button): (r: Object)
    ensures r.Keys == b.fields.Keys + {TextKey}
    ensures TextKey !in b.fields ==> r[TextKey] == Str(b.text)
    ensures forall k :: k in b.fields ==> r[k] == b.fields[k]
  {
    map[TextKey := Str(b.text)] + b.fields
  }

  /** The rows that have a `buttons` list, in order. */
  function Filled(rows: seq<RowEntry>): (r: seq<RowEntry>)
    ensures |r| <= |rows|
    ensures forall i :: 0 <= i < |r| ==> HasButtons(r[i])
  {
    if |rows| == 0 then []
    else (if HasButtons(rows[0]) then [rows[0]] else []) + Filled(rows[1..])
  }

  /** Every row with buttons is kept, and nothing else. */
  lemma {:induction false} LemmaFilledMembers(rows: seq<RowEntry>, e: RowEntry)
    ensures e in Filled(rows) <==> e in rows && HasButtons(e)
  {
    if |rows| != 0 {
      LemmaFilledMembers(rows[1..], e);
      assert rows == [rows[0]] + rows[1..];
    }
  }

  /** The Telegram buttons of a list of configured buttons, in order. */
  function SendButtons(bs: seq<Button>): (r: seq<Object>)
    ensures |r| == |bs|
    ensures forall j :: 0 <= j < |r| ==> r[j] == TelegramButton(bs[j])
  {
    seq(|bs|, j requires 0 <= j < |bs| => TelegramButton(bs[j]))
  }

  /** The Telegram buttons of one configured row, in order. */
  function SendRow(e: RowEntry): seq<Object> {
    SendButtons(RowButtons(e))
  }

  /** The button rows sent to Telegram: one row per configured row that has a
      `buttons` list, in order, each holding that row's buttons in order. */
  function BuildRows(rows: seq<RowEntry>): (r: seq<seq<Object>>)
    ensures |r| == |Filled(rows)|
    ensures forall i :: 0 <= i < |r| ==> r[i] == SendRow(Filled(rows)[i])
  {
    if |rows| == 0 then []
    else if HasButtons(rows[0]) then
      var rest := BuildRows(rows[1..]);
      assert Filled(rows) == [rows[0]] + Filled(rows[1..]);
      [SendRow(rows[0])] + rest
    else
      assert Filled(rows) == Filled(rows[1..]);
      BuildRows(rows[1..])
  }

  /** The rows of a keyboard; a missing `rows` list gives none. */
  function KeyboardRows(keyboard: KeyboardParam): seq<RowEntry> {
    keyboard.rows.GetOr([])
  }

  /** All buttons of the built rows, row by row. */
  function Concat(rows: seq<seq<Object>>): seq<Object> {
    if |rows| == 0 then [] else rows[0] + Concat(rows[1..])
  }

  /** The built keyboard, flattened, holds the configured buttons in the order
      `execute` enumerates them, so the Telegram button at flattened position
      `p` is the one whose output is `p + 1`. */
  lemma {:induction false} LemmaBuiltRowsFlatten(rows: seq<RowEntry>)
    ensures |Concat(BuildRows(rows))| == |FlattenRows(rows)|
    ensures forall p :: 0 <= p < |FlattenRows(rows)| ==>
      Concat(BuildRows(rows))[p] == TelegramButton(FlattenRows(rows)[p])
  {
    LemmaBuiltRowsSend(rows);
  }

  /** Building the rows and flattening them is converting the flattened buttons. */
  lemma {:induction false} LemmaBuiltRowsSend(rows: seq<RowEntry>)
    ensures Concat(BuildRows(rows)) == SendButtons(FlattenRows(rows))
  {
    if |rows| != 0 {
      LemmaBuiltRowsSend(rows[1..]);
      LemmaBuiltRowsStep(rows);
      LemmaSendButtonsAppend(RowButtons(rows[0]), FlattenRows(rows[1..]));
    }
  }

  /** Converting two lists of buttons one after the other. */
  lemma LemmaSendButtonsAppend(a: seq<Button>, b: seq<Button>)
    ensures SendButtons(a + b) == SendButtons(a) + SendButtons(b)
  {
  }

  /** Building the rows one row at a time: the first row's buttons come first. */
  lemma LemmaBuiltRowsStep(rows: seq<RowEntry>)
    requires |rows| != 0
    ensures Concat(BuildRows(rows)) == SendRow(rows[0]) + Concat(BuildRows(rows[1..]))
  {
    var rest := BuildRows(rows[1..]);
    if HasButtons(rows[0]) {
      assert BuildRows(rows) == [SendRow(rows[0])] + rest;
      assert BuildRows(rows)[1..] == rest;
    } else {
      assert SendRow(rows[0]) == [];
    }
  }

  /** The nested array value of built rows. */
  function RowsValue(rows: seq<seq<Object>>): Value {
    Arr(seq(|rows|, i requires 0 <= i < |rows| =>
      Arr(seq(|rows[i]|, j requires 0 <= j < |rows[i]| => Obj(rows[i][j])))))
  }

  /** The property that holds the buttons: `inline_keyboard` for an inline
      keyboard, `keyboard` for a reply keyboard. */
  function KeyboardKey(option: string): (k: Option<string>)
    ensures option == "inlineKeyboard" ==> k == Some("inline_keyboard")
    ensures option == "replyKeyboard" ==> k == Some("keyboard")
    ensures option != "inlineKeyboard" && option != "replyKeyboard" ==> k == None
  {
    if option == "inlineKeyboard" then Some("inline_keyboard")
    else if option == "replyKeyboard" then Some("keyboard")
    else None
  }

  /** The reply markup, or none. There is none when the markup option is `none`
      (the option is not read for `sendMediaGroup`) or there is no keyboard.
      Otherwise the markup holds the built rows under the key of the option,
      and a reply keyboard also gets the reply-keyboard options. */
  function ReplyMarkup(operation: string, replyMarkup: string, keyboard: Option<KeyboardParam>,
                       replyKeyboardOptions: Object): (r: Option<Object>)
    ensures r.None? <==> (operation != "sendMediaGroup" && replyMarkup == "none") || keyboard.None?
    ensures r.Some? && operation != "sendMediaGroup" && replyMarkup == "inlineKeyboard" ==>
      r.value == map["inline_keyboard" := RowsValue(BuildRows(KeyboardRows(keyboard.value)))]
    ensures r.Some? && operation != "sendMediaGroup" && replyMarkup == "replyKeyboard" ==>
      && r.value.Keys == replyKeyboardOptions.Keys + {"keyboard"}
      && (forall k :: k in replyKeyboardOptions ==> r.value[k] == replyKeyboardOptions[k])
      && ("keyboard" !in replyKeyboardOptions ==>
            r.value["keyboard"] == RowsValue(BuildRows(KeyboardRows(keyboard.value))))
    ensures r.Some? && (operation == "sendMediaGroup"
                        || (replyMarkup != "inlineKeyboard" && replyMarkup != "replyKeyboard")) ==>
      r.value == map[]
  {
    var option := if operation != "sendMediaGroup" then replyMarkup else "";
    if operation != "sendMediaGroup" && option == "none" then None
    else if keyboard.None? then None
    else
      var key := KeyboardKey(option);
      var markup: Object :=
        if key.Some? then map[key.value := RowsValue(BuildRows(KeyboardRows(keyboard.value)))] else map[];
      Some(if option == "replyKeyboard" then markup + replyKeyboardOptions else markup)
  }

  /** `addAdditionalFields`: the prepared fields are copied into the body, over
      same-named properties, and the reply markup, when there is one, is set. */
  function AddAdditionalFields(operation: string, body: Object, fields: Object, keyboard: Option<KeyboardParam>,
                               replyMarkup: string, replyKeyboardOptions: Object): (r: Merged)
    ensures r.fields == NormalizeFields(operation, body, fields).fields
    ensures forall k :: k in r.body ==> k in body || k in r.fields || k == ReplyMarkupKey
    ensures forall k :: k in r.fields && k != ReplyMarkupKey ==> k in r.body && r.body[k] == r.fields[k]
    ensures forall k :: k in body && k !in r.fields && k != MediaKey && k != ReplyMarkupKey ==>
      k in r.body && r.body[k] == body[k]
    ensures var markup := ReplyMarkup(operation, replyMarkup, keyboard, replyKeyboardOptions);
      markup.Some? ==> ReplyMarkupKey in r.body && r.body[ReplyMarkupKey] == Obj(markup.value)
    ensures var markup := ReplyMarkup(operation, replyMarkup, keyboard, replyKeyboardOptions);
      markup.None? && ReplyMarkupKey !in body && ReplyMarkupKey !in fields ==> ReplyMarkupKey !in r.body
    ensures var markup := ReplyMarkup(operation, replyMarkup, keyboard, replyKeyboardOptions);
      markup.None? && ReplyMarkupKey !in r.fields ==> Get(r.body, ReplyMarkupKey) == Get(body, ReplyMarkupKey)
    ensures var markup := ReplyMarkup(operation, replyMarkup, keyboard, replyKeyboardOptions);
      markup.None? && ReplyMarkupKey in r.fields ==> Get(r.body, ReplyMarkupKey) == Some(r.fields[ReplyMarkupKey])
    ensures MediaKey !in r.fields ==>
      Get(r.body, MediaKey) == Get(NormalizeFields(operation, body, fields).body, MediaKey)
  {
    var prepared := NormalizeFields(operation, body, fields);
    var merged := prepared.body + prepared.fields;
    var markup := ReplyMarkup(operation, replyMarkup, keyboard, replyKeyboardOptions);
    Merged(if markup.Some? then merged[ReplyMarkupKey := Obj(markup.value)] else merged, prepared.fields)
  }
}
