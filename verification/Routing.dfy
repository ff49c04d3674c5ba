/** The stateless router of one node: the outputs it declares, the collapse of a
    revisited path, the lookup of the decision recorded for this node, and the
    per-item choice between forwarding the item and sending a new prompt. */
module Routing {
  import opened Wrappers
  import opened JsValues
  import opened CallbackCodec
  import opened Keyboard

  /** A declared output of the node. */
  datatype Output = Output(kind: string, displayName: string)

  const MainOutput: Output := Output("main", "main")

  const CallbackKey: string := "callback_data"

  /** The label of the output of the button at flattened position `p`: its text,
      or `p` itself when the text is empty (`text || index.toString()`). */
  function OutputLabel(b: Button, p: nat): string {
    if b.text != "" then b.text else IntText(p)
  }

  /** `configuredOutputs`: the `main` output, then one output per button in
      flattened order. */
  function ConfiguredOutputs(parameters: Option<KeyboardParam>): (outs: seq<Output>)
    ensures |outs| == 1 + |InlineButtons(parameters)|
    ensures outs[0] == MainOutput
    ensures forall p :: 0 <= p < |InlineButtons(parameters)| ==>
      outs[p + 1] == Output("main", OutputLabel(InlineButtons(parameters)[p], p))
  {
    var bs := InlineButtons(parameters);
    [MainOutput] + seq(|bs|, p requires 0 <= p < |bs| => Output("main", OutputLabel(bs[p], p)))
  }

  /** The button `b` with its `callback_data` set to `v`. */
  function WithCallback(b: Button, v: Value): (r: Button)
    ensures r.text == b.text
    ensures Get(r.fields, CallbackKey) == Some(v)
    ensures forall k :: k in b.fields && k != CallbackKey ==> k in r.fields && r.fields[k] == b.fields[k]
  {
    b.(fields := b.fields[CallbackKey := v])
  }

  /** The `callback_data` of a button, `undefined` when it has none. */
  function CallbackOf(b: Button): Option<Value> {
    Get(b.fields, CallbackKey)
  }

  /** The side effect of `configuredOutputs` on the keyboard parameter: the button
      at flattened position `p` gets `callback_data` `p + 1`, so the values are
      distinct, lie in `1..N`, and name the output of that button. */
  function NumberButtons(parameters: Option<KeyboardParam>): (r: Option<KeyboardParam>)
    ensures SameLayout(parameters, r)
    ensures |InlineButtons(r)| == |InlineButtons(parameters)|
    ensures forall p :: 0 <= p < |InlineButtons(r)| ==>
      InlineButtons(r)[p] == WithCallback(InlineButtons(parameters)[p], Int(p + 1))
    ensures forall p :: 0 <= p < |InlineButtons(r)| ==>
      CallbackOf(InlineButtons(r)[p]) == Some(Int(p + 1))
    ensures forall p, q :: 0 <= p < q < |InlineButtons(r)| ==>
      CallbackOf(InlineButtons(r)[p]) != CallbackOf(InlineButtons(r)[q])
  {
    MapButtons(parameters, (p, b) => WithCallback(b, Int(p + 1)))
  }

  /** The element at `i`, `undefined` when out of range. */
  function At(xs: seq<string>, i: nat): (r: Option<string>)
    ensures r.Some? <==> i < |xs|
    ensures r.Some? ==> r.value == xs[i]
  {
    if i < |xs| then Some(xs[i]) else None
  }

  /** `isCompletedNode`: `undefined` when the route is missing or empty, otherwise
      the number at the position given by the path's length (a missing path
      counts as empty), which is NaN when that position is out of range. */
  function IsCompletedNode(path: Option<seq<string>>, userMap: Option<seq<string>>): (r: Option<Num>)
    ensures r.None? <==> |Items(userMap)| == 0
    ensures r.Some? ==> r.value == ToNumber(At(Items(userMap), |Items(path)|))
    ensures r.Some? && |Items(userMap)| <= |Items(path)| ==> r.value == NaN
  {
    if userMap.None? || |userMap.value| == 0 then None
    else if path.None? || |path.value| == 0 then Some(ToNumber(Some(userMap.value[0])))
    else Some(ToNumber(At(userMap.value, |path.value|)))
  }

  /** `removeLooping`: when `name` is on the path, both the path and the route are
      cut just before its first occurrence; otherwise, or when either is
      missing, both are returned as they are. */
  function RemoveLooping(name: string, path: Option<seq<string>>, userMap: Option<seq<string>>)
    : (r: (Option<seq<string>>, Option<seq<string>>))
    ensures path.None? || userMap.None? || name !in path.value ==> r == (path, userMap)
    ensures path.Some? && userMap.Some? && name in path.value ==>
      && r.0.Some? && r.1.Some?
      && r.0.value < path.value
      && path.value[|r.0.value|] == name
      && name !in r.0.value
      && r.1.value == Slice(userMap.value, |r.0.value|)
  {
    // the cut length plus one; NaN without a path and 0 when the name is absent
    var i := if path.None? then NaN else Val(IndexOf(path.value, name) + 1);
    if path.None? || userMap.None? || !TruthyNum(Some(i)) then (path, userMap)
    else (Some(path.value[..i.n - 1]), Some(Slice(userMap.value, i.n - 1)))
  }

  /** A collapsed path no longer holds `name`, so collapsing again changes nothing. */
  lemma LemmaRemoveLoopingIdempotent(name: string, path: Option<seq<string>>, userMap: Option<seq<string>>)
    ensures var r := RemoveLooping(name, path, userMap);
      RemoveLooping(name, r.0, r.1) == r
  {
  }

  /** The path of a forwarded item: the node's name appended, or a fresh
      one-element path when the item had none. */
  function Append(path: Option<seq<string>>, name: string): seq<string> {
    if path.None? then [name] else path.value + [name]
  }

  /** The text that `(callback_data as string)` yields in a concatenation. */
  function CallbackText(b: Button): string {
    if CallbackKey in b.fields then ValueText(b.fields[CallbackKey]) else "undefined"
  }

  /** The callback stamping of a prompt: every button's `callback_data` becomes
      the route followed by its previous value; nothing else changes. */
  function StampButtons(route: Option<seq<string>>, keyboard: Option<KeyboardParam>): (r: Option<KeyboardParam>)
    ensures SameLayout(keyboard, r)
    ensures |InlineButtons(r)| == |InlineButtons(keyboard)|
    ensures forall p :: 0 <= p < |InlineButtons(keyboard)| ==>
      InlineButtons(r)[p] ==
        WithCallback(InlineButtons(keyboard)[p], Str(Stamp(route, CallbackText(InlineButtons(keyboard)[p]))))
  {
    MapButtons(keyboard, (p, b) => WithCallback(b, Str(Stamp(route, CallbackText(b)))))
  }

  /** What one run of the node does with one item. */
  datatype Decision =
    | Forward(output: int, path: seq<string>)
      // the item goes to `output` carrying `path`
    | Prompt(route: Option<seq<string>>, keyboard: Option<KeyboardParam>)
      // a new prompt is sent for the collapsed `route` with the stamped `keyboard`

  /** The keyboard `execute` works with: none when the reply markup is `none`. */
  function ActiveKeyboard(replyMarkup: string, parameter: Option<KeyboardParam>): (r: Option<KeyboardParam>)
    ensures replyMarkup == "none" ==> r == None
    ensures replyMarkup != "none" ==> r == parameter
  {
    if replyMarkup != "none" then parameter else None
  }

  /** The routing part of `execute` for one item. The route is collapsed, the
      decision recorded for this node is looked up, and a truthy decision
      forwards the item to that output with the node's name appended to its path;
      anything else sends a prompt whose buttons carry the collapsed route.
      `execute` pushes the name onto the collapsed array, which is the item's
      own array whenever the item is forwarded: forwarding never follows a cut. */
  function Decide(name: string, path: Option<seq<string>>, userMap: Option<seq<string>>, keyboard: Option<KeyboardParam>)
    : (d: Decision)
    ensures d.Forward? ==> 1 <= d.output && d.path == Items(path) + [name]
    ensures d.Forward? ==> RemoveLooping(name, path, userMap) == (path, userMap)
    ensures d.Forward? ==> IsCompletedNode(path, userMap) == Some(Val(d.output))
    ensures d.Prompt? ==>
      && d.route == RemoveLooping(name, path, userMap).1
      && d.keyboard == StampButtons(d.route, keyboard)
  {
    var collapsed := RemoveLooping(name, path, userMap);
    var index := IsCompletedNode(collapsed.0, collapsed.1);
    if TruthyNum(index) then Forward(index.value.n, Append(collapsed.0, name))
    else Prompt(collapsed.1, StampButtons(collapsed.1, keyboard))
  }

  /** One item of `execute`: the route is the split `callback_data` of the pressed
      button, and the keyboard is the parameter unless the markup is `none`.
      An item without callback data is always prompted, with no route; an item
      is only forwarded by a node that is not yet on its path, to the output
      the route records at the path's depth; and a prompt carries the
      configured keyboard's layout, or no keyboard at all under `none`. */
  function ExecuteItem(name: string, replyMarkup: string, parameter: Option<KeyboardParam>,
                       path: Option<seq<string>>, callbackData: Option<string>): (d: Decision)
    ensures callbackData.None? ==> d.Prompt? && d.route == None
    ensures d.Forward? ==>
      && callbackData.Some?
      && name !in Items(path)
      && |Items(path)| < |Split(callbackData.value)|
      && AllDigits(Split(callbackData.value)[|Items(path)|])
      && d.output == DigitsValue(Split(callbackData.value)[|Items(path)|])
      && 1 <= d.output
      && d.path == Items(path) + [name]
    ensures (&& callbackData.Some?
             && name !in Items(path)
             && |Items(path)| < |Split(callbackData.value)|
             && AllDigits(Split(callbackData.value)[|Items(path)|])
             && DigitsValue(Split(callbackData.value)[|Items(path)|]) != 0)
            ==> d.Forward?
    ensures d.Prompt? ==>
      && d.route == RemoveLooping(name, path, Decode(callbackData)).1
      && d.keyboard == StampButtons(d.route, ActiveKeyboard(replyMarkup, parameter))
    ensures d.Prompt? && replyMarkup == "none" ==> d.keyboard == None
    ensures d.Prompt? && replyMarkup != "none" ==> SameLayout(parameter, d.keyboard)
  {
    Decide(name, path, Decode(callbackData), ActiveKeyboard(replyMarkup, parameter))
  }
}
