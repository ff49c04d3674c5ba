# Conversation router of the TGBotConstructor n8n node

The TGBotConstructor node sends Telegram prompts whose inline buttons lead to the
node's outputs, and it routes the item that comes back when a user presses one of
those buttons. It keeps no state of its own. Each button's `callback_data` holds the
route taken so far, as a comma-separated list of output numbers. Each item carries
`path`, the names of the router nodes it has passed through. On every run, for every
item, the node does the following:

1. It splits the pressed button's `callback_data` into `userMap`.
2. It cuts `path` and `userMap` back to the first earlier visit of the node, if there
   was one (`removeLooping`).
3. It reads the decision recorded at position `len(path)` of `userMap`
   (`isCompletedNode`).
4. If that decision is a truthy number, the item goes to that output and the node's
   name is appended to its path.
5. Otherwise a new prompt is sent. Its buttons carry the route followed by their own
   output number.

The model is a set of pure Dafny functions over sequences of strings:

| module | what it holds |
|---|---|
| `Wrappers` | `Option` for JavaScript's `undefined`, and `Result` for a thrown error |
| `JsValues` | what the node relies on from JavaScript: numbers with NaN, `Number()` on digit strings, truthiness, JSON-like values, string conversion, `indexOf`, `slice` |
| `CallbackCodec` | `split(',')` and `join(',')` of the route, and the stamping of a button's callback value |
| `Keyboard` | the configured rows of buttons, and their row-then-button flattening |
| `Routing` | `configuredOutputs`, `isCompletedNode`, `removeLooping`, and the per-item decision of `execute` |
| `Conversation` | properties of whole exchanges: answer → output, revisit → new prompt, decision read off the route |
| `Endpoints` | the decision table that picks the Telegram method |
| `AdditionalFields` | `addAdditionalFields`: `parse_mode` handling, the field merge, and the building of the reply markup |

## Model

| member | source | states |
|---|---|---|
| Routing.ConfiguredOutputs | nodes/TGBotConstructor/TGBotConstructor.node.ts:27-41 | exactly one output per button plus the first output, `main`; the output after `main` at position p is labelled with the text of button p, or with p itself when that text is empty |
| Routing.NumberButtons | nodes/TGBotConstructor/TGBotConstructor.node.ts:32-34 | in flattened order, button p gets `callback_data` p+1 and nothing else about it changes; the values are pairwise distinct; the keyboard keeps its rows, each with as many buttons as before, and rows without buttons are untouched |
| Keyboard.LemmaFlattenMembers | nodes/TGBotConstructor/TGBotConstructor.node.ts:362 | a button is enumerated exactly when some row entry with a `buttons` list holds it; rows without one contribute nothing |
| Routing.IsCompletedNode | nodes/TGBotConstructor/TGBotConstructor.node.ts:43-47 | undefined exactly when `userMap` is missing or empty; otherwise `Number(userMap[len(path)])`, where a missing path counts as length 0, so the two lookups agree; NaN when the position is out of range |
| Routing.RemoveLooping | nodes/TGBotConstructor/TGBotConstructor.node.ts:49-53 | both inputs are returned unchanged when either is missing or the name is not on the path; otherwise the path is cut just before the first occurrence of the name, the result no longer holds the name, and `userMap` is cut to the same length, clamped |
| Routing.LemmaRemoveLoopingIdempotent | nodes/TGBotConstructor/TGBotConstructor.node.ts:49-53 | collapsing a collapsed pair changes nothing |
| Routing.Decide | nodes/TGBotConstructor/TGBotConstructor.node.ts:381-398 | a forwarded item goes to the output `isCompletedNode` reads for it, which is at least 1, with the node's name appended to its own path; forwarding never follows a cut, so the push at line 391 always lands on the item's array; a prompt carries the collapsed route and the keyboard stamped with it |
| Routing.StampButtons | nodes/TGBotConstructor/TGBotConstructor.node.ts:424-427 | every button, at its flattened position, gets the route followed by its previous callback value; every other field of the button is kept; the keyboard keeps its rows, each with as many buttons as before |
| Routing.ExecuteItem | nodes/TGBotConstructor/TGBotConstructor.node.ts:357-398 | an item without callback data is always prompted, with no route; an item is forwarded exactly when the node is not yet on its path and the split callback data holds a non-zero decimal number at the path's depth, and then to that output, with the name appended to its path; a prompt carries the collapsed route and the keyboard stamped with it; a prompt carries no keyboard under reply markup `none` and otherwise the configured keyboard's row layout |
| Keyboard.MapButtons | nodes/TGBotConstructor/TGBotConstructor.node.ts:34 | updating every button in flattened order keeps the keyboard's rows and the number of buttons in each, and changes button p exactly as the update says for position p |
| Conversation.LemmaForwardIff | nodes/TGBotConstructor/TGBotConstructor.node.ts:385-398 | for a node that is not on the path, the item is forwarded if and only if the route holds a non-zero decimal number at the depth of the path, and it then goes to the output with that number; "0", "", text that is not a number, and a route that is too short all lead to a prompt |
| Conversation.LemmaRevisitPrompts | nodes/TGBotConstructor/TGBotConstructor.node.ts:381-388 | a node already on the path never forwards; it sends a new prompt whose route is a prefix of the old one, no longer than the position of the first visit |
| Conversation.LemmaAnswerReachesButtonOutput | nodes/TGBotConstructor/TGBotConstructor.node.ts:376-427 | a node reached with one recorded decision per path step sends a prompt; the callback data of button p of that prompt splits into the old route followed by p+1, so earlier nodes read the same decisions; replaying it forwards the item to output p+1 and appends the node's name to the path |
| Conversation.LemmaReplayForwards | nodes/TGBotConstructor/TGBotConstructor.node.ts:381-397 | a route holding one decision per path step, followed by the text of p+1, forwards a node that is not on the path to output p+1 and appends the node's name to the path |
| Conversation.LemmaCallbackNamesOutput | nodes/TGBotConstructor/TGBotConstructor.node.ts:32-38 | the callback number p+1 given to button p is a declared output, and that output is labelled after button p |
| Conversation.LemmaSentButtonCarriesRoute | nodes/TGBotConstructor/GenericFunctions.ts:127-147 | in the keyboard sent to Telegram, the button at flattened position p carries, as `callback_data`, the route stamped with p+1 |
| CallbackCodec.Split | nodes/TGBotConstructor/TGBotConstructor.node.ts:378 | `split(',')` never returns an empty list, and no segment holds a comma |
| CallbackCodec.LemmaJoinSplit | nodes/TGBotConstructor/TGBotConstructor.node.ts:378 | joining the segments of a split with commas gives back the input |
| CallbackCodec.LemmaSplitJoin | nodes/TGBotConstructor/TGBotConstructor.node.ts:378 | splitting a comma-join of one or more comma-free segments returns exactly those segments |
| CallbackCodec.Decode | nodes/TGBotConstructor/TGBotConstructor.node.ts:377-378 | missing callback data gives no route; present data gives a non-empty route whose join is the data |
| CallbackCodec.Stamp | nodes/TGBotConstructor/TGBotConstructor.node.ts:426 | an empty or missing route leaves the previous value as it is; a non-empty route is joined with commas and put, with one more comma, in front of that value |
| CallbackCodec.LemmaStampRoundTrip | nodes/TGBotConstructor/TGBotConstructor.node.ts:378 | when the route segments and the previous value hold no comma, splitting a stamped value gives the route followed by the previous value |
| CallbackCodec.LemmaJoinSnoc | nodes/TGBotConstructor/TGBotConstructor.node.ts:426 | joining a route extended by one segment puts exactly one comma before that segment, or no comma when the route was empty |
| JsValues.ToNumber | nodes/TGBotConstructor/TGBotConstructor.node.ts:45-46 | `Number()` is a number exactly for a present string of decimal digits; that number is non-negative; "" gives 0 and a missing element gives NaN |
| JsValues.LemmaNumberOfDecimal | nodes/TGBotConstructor/TGBotConstructor.node.ts:34 | converting a callback number to text and back with `Number()` returns the same number |
| JsValues.DecimalText | nodes/TGBotConstructor/TGBotConstructor.node.ts:37 | the text of a number is a non-empty string of decimal digits with no leading zero |
| JsValues.IndexOf | nodes/TGBotConstructor/TGBotConstructor.node.ts:50 | `indexOf` gives -1 exactly when the element is absent; otherwise it gives the position of the element's first occurrence |
| Endpoints.ChooseEndpoint | nodes/TGBotConstructor/TGBotConstructor.node.ts:410-586 | an unknown resource fails, and so does an edit without media and without a callback message; without a truthy `message_id`, no media gives `sendMessage` with the text as `text`, one item gives the method named after its type with the text as `caption` and that item's file name, and more items give `sendMediaGroup` with the caption on the last element and every item's file name; with one, no media gives `editMessageCaption` when the pressed message has a photo or a document and `editMessageText` otherwise, and media gives `editMessageMedia` from the first item alone, with the caption in the media object |
| Endpoints.LemmaEditUsesFirstMediaOnly | nodes/TGBotConstructor/TGBotConstructor.node.ts:532-535 | in edit mode with media, the items after the first and the callback message do not change the request |
| Endpoints.LemmaSingleMediaNames | nodes/TGBotConstructor/TGBotConstructor.node.ts:435-438 | a new message with one media item is sent with the method named after the item's type, `caption` holding the text and the item's file name as the only file; for a photo that method is `sendPhoto`, for a document `sendDocument` |
| Endpoints.LemmaTextSlotOfMethod | nodes/TGBotConstructor/TGBotConstructor.node.ts:429-543 | the place of the text follows from the method alone: `text` exactly for `sendMessage` and `editMessageText`, the body's `caption` exactly for a single item and `editMessageCaption`, the last element's caption exactly for `sendMediaGroup`, the media object's caption exactly for `editMessageMedia` |
| Endpoints.Capitalize | nodes/TGBotConstructor/TGBotConstructor.node.ts:438 | only the first character is upper-cased; the rest and the length are kept |
| Endpoints.FileName | nodes/TGBotConstructor/TGBotConstructor.node.ts:439 | a source without `attach://` is its own file name; otherwise the file name is nine characters shorter and putting `attach://` back at the position of its first occurrence gives the source |
| Endpoints.LemmaFileNameOfAttachment | nodes/TGBotConstructor/TGBotConstructor.node.ts:439 | the file name of `attach://name` is `name` |
| AdditionalFields.EffectiveParseMode | nodes/TGBotConstructor/GenericFunctions.ts:81-83 | a truthy configured `parse_mode` is kept; otherwise `Markdown` is used; either way the mode is truthy |
| AdditionalFields.SetParseMode | nodes/TGBotConstructor/GenericFunctions.ts:85-92 | an array of media gets the mode on every object element and keeps its length; a media object gets the mode itself; every other property is kept |
| AdditionalFields.NormalizeFields | nodes/TGBotConstructor/GenericFunctions.ts:80-97 | for `sendMessage`, `appendAttribution` is removed and `parse_mode` is defaulted; with media in the body, the mode moves into the media and leaves the fields; other operations change nothing; no other field is added or changed |
| AdditionalFields.TelegramButton | nodes/TGBotConstructor/GenericFunctions.ts:133-139 | a Telegram button is `{text}` with the button's own fields laid over it, so a `text` among those fields wins |
| AdditionalFields.LemmaFilledMembers | nodes/TGBotConstructor/GenericFunctions.ts:127-132 | exactly the row entries with a `buttons` list take part in building the keyboard |
| AdditionalFields.BuildRows | nodes/TGBotConstructor/GenericFunctions.ts:127-147 | there is one output row per input row with buttons, in input order, and each holds that row's Telegram buttons in order |
| AdditionalFields.LemmaBuiltRowsFlatten | nodes/TGBotConstructor/GenericFunctions.ts:127-147 | flattening the built keyboard gives the Telegram forms of the buttons in the same order as the enumeration at TGBotConstructor.node.ts:362, so the button at position p is the one whose output is p+1 |
| AdditionalFields.ReplyMarkup | nodes/TGBotConstructor/GenericFunctions.ts:101-157 | there is no reply markup exactly when the option is `none` (the option is not read for `sendMediaGroup`) or when there is no keyboard; an inline keyboard holds only the built rows; a reply keyboard also holds the reply-keyboard options with their values, which win over a `keyboard` among them; any other option gives an empty markup |
| AdditionalFields.AddAdditionalFields | nodes/TGBotConstructor/GenericFunctions.ts:68-158 | the remaining fields are copied into the body, overwriting properties of the same name; body properties that are not overwritten keep their values, except `media` and `reply_markup`; no property appears that is neither in the body nor among the prepared fields (so `appendAttribution` never does), except `reply_markup`; without a markup, a `reply_markup` among the prepared fields is copied like any other field; the reply markup is set exactly when there is one, and otherwise a `reply_markup` already in the body is kept; `media` holds the media as prepared, with `parse_mode` propagated into it, unless a field of that name overrides it |

Behaviour of the code worth knowing, all of it modelled as the code does it:
- A missing or empty path leaves both inputs of `removeLooping` unchanged; they are
  not reset to an empty pair.
- Button outputs are numbered 1..N, and output 0 is `main`.
- A callback segment that is not a number gives NaN, so the item is prompted again;
  there is no separate decoding error.
- A recorded "0" is falsy, so it also prompts. The stamped values are never 0.

## Left out

- `apiRequest` (GenericFunctions.ts:164-200): a thin HTTP wrapper around n8n's request helper and credentials.
- The binary and media upload plumbing (TGBotConstructor.node.ts:446-468, 475-517, 546-574), and the `JSON.stringify` of media and `reply_markup`. This is stream I/O and serialisation done by libraries. `ChooseEndpoint` records only the method, the slot of the text, and the file names it would look up.
- The `description` UI schema (TGBotConstructor.node.ts:56-351): declarative editor metadata.
- The host helpers `getNodeParameter`, `constructExecutionMetaData` and `returnJsonArray`, and the `continueOnFail` path. Parameters are explicit arguments, and a thrown error is a `Failure`.
- The collection of output arrays. `returnData` is one array shared by every output that is hit (lines 393-397, 594-595), so every output that is hit ends up holding every item of the run. `Decide` models only the decision made for one item.
- Restamping across items. `inlineButtons` is stamped in place (line 425), so a second prompting item in the same run stamps on top of the first. `StampButtons` stamps one fresh copy for each item.
- The execution order of `execute` is not modelled. There, `addAdditionalFields` can run twice on the same body and fields (lines 454/554 and 580).
- JsValues.ToNumber: only decimal digit strings (including "") are numbers. Signs, whitespace, fractions, exponents and hex are treated as NaN, which is an abstraction of JavaScript's `Number()`.
- JsValues.Value: numbers are integers only; floating point is not modelled.
- Keyboard.Button: a button's `additionalFields` is always an object, which is the editor default `{}`. A missing one would throw at lines 34 and 425.
- Routing.ConfiguredOutputs: a row's `row` property is treated as one object with a `buttons` list, which is the shape the editor stores. The TypeScript cast to an array at line 32 is not followed.
- AdditionalFields.SetParseMode: an array element that is not an object is left as it is. In strict mode the assignment at GenericFunctions.ts:88 would throw on such an element. The node never puts one there.
- Endpoints.Upper: upper-casing covers ASCII letters only. The media types are `photo` and `document`.
- The item's `path` and the button's `callback_data` are assumed to be arrays of strings and strings. Other runtime types are not modelled.
- The values that `configuredOutputs` writes onto the parameter (line 34) are assumed to be the values `execute` reads at line 426, which is how the host hands the parameter over. The round-trip lemmas start from `NumberButtons` for this reason.
