/** Properties of whole conversations: a prompt answered by a button press brings
    the item back to that button's output, a revisit always prompts again, and
    the decision can be read directly off the route. */
module Conversation {
  import opened Wrappers
  import opened JsValues
  import opened CallbackCodec
  import opened Keyboard
  import opened Routing
  import AdditionalFields

  /** Decision of a step that is not on the path: forward exactly when the route
      holds, at the depth of the path, a non-zero decimal number, and then to
      the output with that number. A "0", an empty segment, a non-numeric one or
      a route too short for this depth all lead to a new prompt. */
  lemma {:induction false} LemmaForwardIff(name: string, path: Option<seq<string>>,
                                            userMap: Option<seq<string>>, keyboard: Option<KeyboardParam>)
    requires name !in Items(path)
    ensures var d := Decide(name, path, userMap, keyboard);
      var depth := |Items(path)|;
      && (d.Forward? <==>
           (depth < |Items(userMap)| && AllDigits(Items(userMap)[depth])
            && DigitsValue(Items(userMap)[depth]) != 0))
      && (d.Forward? ==> d.output == DigitsValue(Items(userMap)[depth]))
  {
    var collapsed := RemoveLooping(name, path, userMap);
    assert collapsed == (path, userMap);
  }

  /** A step already on the path never forwards: the path and the route are cut
      back to its first visit and a new prompt is sent from there. */
  lemma {:induction false} LemmaRevisitPrompts(name: string, path: Option<seq<string>>,
                                               userMap: Option<seq<string>>, keyboard: Option<KeyboardParam>)
    requires name in Items(path)
    ensures var d := Decide(name, path, userMap, keyboard);
      && d.Prompt?
      && |Items(d.route)| <= IndexOf(Items(path), name)
      && Items(d.route) <= Items(userMap)
  {
    var collapsed := RemoveLooping(name, path, userMap);
    if userMap.Some? {
      assert |collapsed.0.value| == IndexOf(path.value, name);
    }
  }

  /** The round trip of a prompt. A step that is not on the path, reached with a
      route holding one decision per step of the path, sends a prompt; pressing
      the button at flattened position `p` yields callback data that, on the
      replay, keeps the earlier decisions in place and brings the item to
      output `p + 1`, the output declared for that button
      (`LemmaCallbackNamesOutput`). */
  lemma {:induction false} LemmaAnswerReachesButtonOutput(name: string, path: Option<seq<string>>,
                                                          route: Option<seq<string>>,
                                                          parameter: Option<KeyboardParam>, p: nat)
    requires name !in Items(path)
    requires |Items(route)| == |Items(path)|
    requires AllCommaFree(Items(route))
    requires p < |InlineButtons(parameter)|
    ensures var d := Decide(name, path, route, NumberButtons(parameter));
      && d.Prompt?
      && p < |InlineButtons(d.keyboard)|
      && Decode(Some(CallbackText(InlineButtons(d.keyboard)[p]))) == Some(Items(route) + [DecimalText(p + 1)])
      && Decide(name, path, Decode(Some(CallbackText(InlineButtons(d.keyboard)[p]))), NumberButtons(parameter))
         == Forward(p + 1, Items(path) + [name])
  {
    var numbered := NumberButtons(parameter);
    var d := Decide(name, path, route, numbered);
    LemmaForwardIff(name, path, route, numbered);
    assert d.Prompt? && d.route == route;
    var data := CallbackText(InlineButtons(d.keyboard)[p]);
    LemmaStampedText(route, numbered, p);
    LemmaNumberedText(parameter, p);
    assert data == Stamp(route, DecimalText(p + 1));
    assert CommaFree(DecimalText(p + 1)) by {
      assert AllDigits(DecimalText(p + 1));
    }
    LemmaStampRoundTrip(route, DecimalText(p + 1));
    var replay := Decode(Some(data));
    assert replay == Some(Items(route) + [DecimalText(p + 1)]);
    LemmaReplayForwards(name, path, route, p, numbered);
    assert Decide(name, path, replay, numbered) == Forward(p + 1, Items(path) + [name]);
  }

  /** The replay of an answer: a route that holds one decision per step of the
      path followed by the text of `p + 1` forwards a step that is not on the
      path to output `p + 1`. */
  lemma LemmaReplayForwards(name: string, path: Option<seq<string>>, route: Option<seq<string>>,
                            p: nat, keyboard: Option<KeyboardParam>)
    requires name !in Items(path)
    requires |Items(route)| == |Items(path)|
    ensures Decide(name, path, Some(Items(route) + [DecimalText(p + 1)]), keyboard)
         == Forward(p + 1, Items(path) + [name])
  {
    var replay := Some(Items(route) + [DecimalText(p + 1)]);
    assert Items(replay)[|Items(path)|] == DecimalText(p + 1);
    LemmaNumberOfDecimal(p + 1);
    LemmaForwardIff(name, path, replay, keyboard);
  }

  /** The output an answer reaches is the one declared for the pressed button:
      the button numbered `k` labels output `k`. */
  lemma LemmaCallbackNamesOutput(parameter: Option<KeyboardParam>, p: nat)
    requires p < |InlineButtons(parameter)|
    ensures var k := p + 1;
      && CallbackOf(InlineButtons(NumberButtons(parameter))[p]) == Some(Int(k))
      && k < |ConfiguredOutputs(parameter)|
      && ConfiguredOutputs(parameter)[k] == Output("main", OutputLabel(InlineButtons(parameter)[p], p))
  {
  }

  /** After numbering, the button at position `p` reads `p + 1` as text. */
  lemma LemmaNumberedText(parameter: Option<KeyboardParam>, p: nat)
    requires p < |InlineButtons(parameter)|
    ensures CallbackText(InlineButtons(NumberButtons(parameter))[p]) == DecimalText(p + 1)
  {
    var b := InlineButtons(NumberButtons(parameter))[p];
    assert CallbackOf(b) == Some(Int(p + 1));
  }

  /** After stamping, the button at position `p` reads as its stamped text. */
  lemma LemmaStampedText(route: Option<seq<string>>, keyboard: Option<KeyboardParam>, p: nat)
    requires p < |InlineButtons(keyboard)|
    ensures CallbackText(InlineButtons(StampButtons(route, keyboard))[p])
         == Stamp(route, CallbackText(InlineButtons(keyboard)[p]))
  {
    var b := InlineButtons(StampButtons(route, keyboard))[p];
    assert CallbackOf(b) == Some(Str(Stamp(route, CallbackText(InlineButtons(keyboard)[p]))));
  }

  /** What Telegram receives: in the keyboard sent with a prompt, the button at
      flattened position `p` carries, as `callback_data`, the route stamped with
      `p + 1`, which is what the replay of an answer decodes. */
  lemma LemmaSentButtonCarriesRoute(route: Option<seq<string>>, rows: seq<RowEntry>, p: nat)
    requires p < |FlattenRows(rows)|
    ensures var sent := StampButtons(route, NumberButtons(Some(KeyboardParam(Some(rows)))));
      && sent.Some?
      && var built := AdditionalFields.BuildRows(AdditionalFields.KeyboardRows(sent.value));
         && |AdditionalFields.Concat(built)| == |FlattenRows(rows)|
         && CallbackKey in AdditionalFields.Concat(built)[p]
         && AdditionalFields.Concat(built)[p][CallbackKey] == Str(Stamp(route, DecimalText(p + 1)))
  {
    var parameter := Some(KeyboardParam(Some(rows)));
    var sent := StampButtons(route, NumberButtons(parameter));
    LemmaNumberedText(parameter, p);
    LemmaStampedText(route, NumberButtons(parameter), p);
    var b := InlineButtons(sent)[p];
    assert CallbackOf(b) == Some(Str(Stamp(route, DecimalText(p + 1))));
    assert sent.Some? && sent.value.rows.Some?;
    AdditionalFields.LemmaBuiltRowsFlatten(sent.value.rows.value);
  }
}
