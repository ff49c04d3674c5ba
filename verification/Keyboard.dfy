/** The configured keyboard: rows of buttons as the node's `inlineKeyboard`
    parameter holds them, and the row-then-button flattening that numbers them. */
module Keyboard {
  import opened Wrappers
  import opened JsValues

  /** One configured button: its label and its additional fields (such as
      `callback_data`), which are copied into the Telegram button. */
  datatype Button = Button(text: string, fields: map<string, Value>)

  /** The `row` object of a rows entry; its `buttons` list may be missing. */
  datatype ButtonRow = ButtonRow(buttons: Option<seq<Button>>)

  /** One entry of `rows`; its `row` object may be missing. */
  datatype RowEntry = RowEntry(row: Option<ButtonRow>)

  /** The keyboard parameter; its `rows` list may be missing. */
  datatype KeyboardParam = KeyboardParam(rows: Option<seq<RowEntry>>)

  /** True when `row?.buttons` is defined. */
  predicate HasButtons(e: RowEntry) {
    e.row.Some? && e.row.value.buttons.Some?
  }

  /** `row?.buttons ?? []`. */
  function RowButtons(e: RowEntry): (bs: seq<Button>)
    ensures !HasButtons(e) ==> bs == []
  {
    if HasButtons(e) then e.row.value.buttons.value else []
  }

  /** The buttons of all rows, row by row and in order within a row. */
  function FlattenRows(rows: seq<RowEntry>): seq<Button> {
    if |rows| == 0 then [] else RowButtons(rows[0]) + FlattenRows(rows[1..])
  }

  /** A button is flattened exactly when some row holds it. */
  lemma {:induction false} LemmaFlattenMembers(rows: seq<RowEntry>, b: Button)
    ensures b in FlattenRows(rows) <==> exists i :: 0 <= i < |rows| && b in RowButtons(rows[i])
  {
    if |rows| != 0 {
      LemmaFlattenMembers(rows[1..], b);
      if b in FlattenRows(rows[1..]) {
        var i :| 0 <= i < |rows[1..]| && b in RowButtons(rows[1..][i]);
        assert b in RowButtons(rows[i + 1]);
      }
      if exists i :: 0 <= i < |rows| && b in RowButtons(rows[i]) {
        var i :| 0 <= i < |rows| && b in RowButtons(rows[i]);
        if i != 0 {
          assert b in RowButtons(rows[1..][i - 1]);
        }
      }
    }
  }

  /** The flattened buttons of a keyboard that may be missing, with its rows
      that may be missing (`(keyboard?.rows ?? []).flatMap(...)`). */
  function InlineButtons(kb: Option<KeyboardParam>): seq<Button> {
    if kb.Some? && kb.value.rows.Some? then FlattenRows(kb.value.rows.value) else []
  }

  /** Applies `f` to every button, passing its flattened position; positions
      start at `offset`. The row structure is kept. */
  function MapRow(e: RowEntry, offset: nat, f: (nat, Button) -> Button): (r: RowEntry)
    ensures HasButtons(r) == HasButtons(e)
    ensures !HasButtons(e) ==> r == e
    ensures |RowButtons(r)| == |RowButtons(e)|
    ensures forall j :: 0 <= j < |RowButtons(e)| ==> RowButtons(r)[j] == f(offset + j, RowButtons(e)[j])
  {
    if !HasButtons(e) then e
    else
      var bs := RowButtons(e);
      RowEntry(Some(ButtonRow(Some(seq(|bs|, j requires 0 <= j < |bs| => f(offset + j, bs[j]))))))
  }

  /** Two lists of rows with the same shape: as many rows, a `buttons` list in the
      same rows and of the same length, and the rows without one identical. */
  predicate SameRows(xs: seq<RowEntry>, ys: seq<RowEntry>) {
    && |xs| == |ys|
    && (forall i :: 0 <= i < |xs| ==> HasButtons(ys[i]) == HasButtons(xs[i]))
    && (forall i :: 0 <= i < |xs| ==> |RowButtons(ys[i])| == |RowButtons(xs[i])|)
    && (forall i :: 0 <= i < |xs| && !HasButtons(xs[i]) ==> ys[i] == xs[i])
  }

  /** Two keyboards with the same shape: both present or both missing, their
      `rows` lists both present or both missing, and those of the same shape. */
  predicate SameLayout(a: Option<KeyboardParam>, b: Option<KeyboardParam>) {
    && a.Some? == b.Some?
    && (a.Some? ==>
          && a.value.rows.Some? == b.value.rows.Some?
          && (a.value.rows.Some? ==> SameRows(a.value.rows.value, b.value.rows.value)))
  }

  /** Applies `f` to every button of every row; positions start at `offset` and
      run on from row to row. */
  function MapRows(rows: seq<RowEntry>, offset: nat, f: (nat, Button) -> Button): (r: seq<RowEntry>)
    ensures SameRows(rows, r)
  {
    if |rows| == 0 then []
    else [MapRow(rows[0], offset, f)] + MapRows(rows[1..], offset + |RowButtons(rows[0])|, f)
  }

  /** Mapping the rows maps the flattened buttons, position by position. */
  lemma {:induction false} LemmaMapRowsFlatten(rows: seq<RowEntry>, offset: nat, f: (nat, Button) -> Button)
    ensures |FlattenRows(MapRows(rows, offset, f))| == |FlattenRows(rows)|
    ensures forall p :: 0 <= p < |FlattenRows(rows)| ==>
      FlattenRows(MapRows(rows, offset, f))[p] == f(offset + p, FlattenRows(rows)[p])
  {
    if |rows| != 0 {
      var head := MapRow(rows[0], offset, f);
      var n := |RowButtons(rows[0])|;
      var tail := MapRows(rows[1..], offset + n, f);
      var r := MapRows(rows, offset, f);
      assert r == [head] + tail;
      assert r[1..] == tail;
      LemmaMapRowsFlatten(rows[1..], offset + n, f);
      assert FlattenRows(r) == RowButtons(head) + FlattenRows(tail);
      forall p | 0 <= p < |FlattenRows(rows)|
        ensures FlattenRows(r)[p] == f(offset + p, FlattenRows(rows)[p])
      {
        if p >= n {
          assert FlattenRows(rows)[p] == FlattenRows(rows[1..])[p - n];
        }
      }
    }
  }

  /** The same keyboard with `f` applied to every button at its flattened position. */
  function MapButtons(kb: Option<KeyboardParam>, f: (nat, Button) -> Button): (r: Option<KeyboardParam>)
    ensures SameLayout(kb, r)
    ensures |InlineButtons(r)| == |InlineButtons(kb)|
    ensures forall p :: 0 <= p < |InlineButtons(kb)| ==>
      InlineButtons(r)[p] == f(p, InlineButtons(kb)[p])
  {
    match kb
    case None => None
    case Some(KeyboardParam(None)) => kb
    case Some(KeyboardParam(Some(rows))) =>
      LemmaMapRowsFlatten(rows, 0, f);
      Some(KeyboardParam(Some(MapRows(rows, 0, f))))
  }
}
