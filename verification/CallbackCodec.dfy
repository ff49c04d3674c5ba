/** The text codec of a button's `callback_data`: the comma-separated route that a
    prompt stamps onto its buttons and that the next run splits apart again. */
module CallbackCodec {
  import opened Wrappers
  import opened JsValues

  const Comma: char := ','

  /** A route segment that survives a round trip through the codec. */
  predicate CommaFree(s: string) {
    Comma !in s
  }

  predicate AllCommaFree(xs: seq<string>) {
    forall i :: 0 <= i < |xs| ==> CommaFree(xs[i])
  }

  /** `xs.join(',')`, which is also what `xs + ','` produces for an array. */
  function Join(xs: seq<string>): string {
    if |xs| == 0 then ""
    else if |xs| == 1 then xs[0]
    else xs[0] + [Comma] + Join(xs[1..])
  }

  /** `s.split(',')`: never empty (`"".split(',')` is `[""]`), and no segment
      holds a comma. */
  function Split(s: string): (r: seq<string>)
    ensures 1 <= |r|
    ensures AllCommaFree(r)
    decreases |s|
  {
    var k := IndexOf(s, Comma);
    if k == -1 then [s] else [s[..k]] + Split(s[k + 1..])
  }

  /** Joining the segments of a split gives the string back. */
  lemma {:induction false} LemmaJoinSplit(s: string)
    ensures Join(Split(s)) == s
    decreases |s|
  {
    var k := IndexOf(s, Comma);
    if k != -1 {
      var head, tail := s[..k], s[k + 1..];
      var rest := Split(tail);
      assert Split(s) == [head] + rest;
      LemmaJoinSplit(tail);
      LemmaJoinCons(head, rest);
      LemmaAroundComma(s, k);
    }
  }

  /** A string is the text before a comma, the comma, and the text after it. */
  lemma LemmaAroundComma(s: string, k: nat)
    requires k < |s| && s[k] == Comma
    ensures s == s[..k] + [Comma] + s[k + 1..]
  {
  }

  /** Joining a segment in front of a non-empty list puts a comma between them. */
  lemma LemmaJoinCons(head: string, rest: seq<string>)
    requires 1 <= |rest|
    ensures Join([head] + rest) == head + [Comma] + Join(rest)
  {
    assert ([head] + rest)[1..] == rest;
  }

  /** Splitting a join of comma-free segments recovers the segments. */
  lemma {:induction false} LemmaSplitJoin(xs: seq<string>)
    requires 1 <= |xs|
    requires AllCommaFree(xs)
    ensures Split(Join(xs)) == xs
  {
    if |xs| == 1 {
      assert IndexOf(xs[0], Comma) == -1;
    } else {
      var head, rest := xs[0], xs[1..];
      var tail := Join(rest);
      var s := head + [Comma] + tail;
      assert xs == [head] + rest;
      LemmaJoinCons(head, rest);
      LemmaFirstComma(head, tail);
      assert s[..|head|] == head;
      assert s[|head| + 1..] == tail;
      assert Split(s) == [head] + Split(tail);
      LemmaSplitJoin(rest);
    }
  }

  /** The first comma after a comma-free segment is the one that follows it. */
  lemma LemmaFirstComma(head: string, tail: string)
    requires CommaFree(head)
    ensures IndexOf(head + [Comma] + tail, Comma) == |head|
  {
    var s := head + [Comma] + tail;
    var k := IndexOf(s, Comma);
    assert s[|head|] == Comma;
    assert forall j :: 0 <= j < |head| ==> s[j] == head[j];
    assert k != -1;
  }

  /** `callback_query?.data?.split(',')`: a missing data string gives no route. */
  function Decode(data: Option<string>): (r: Option<seq<string>>)
    ensures r.Some? <==> data.Some?
    ensures r.Some? ==> 1 <= |r.value| && Join(r.value) == data.value
  {
    match data
    case None => None
    case Some(s) =>
      LemmaJoinSplit(s);
      Some(Split(s))
  }

  /** The new `callback_data` of a button whose prior value reads `prior`: the route
      joined by commas and a comma in front of `prior` when the route is non-empty,
      `prior` alone otherwise. */
  function Stamp(route: Option<seq<string>>, prior: string): (r: string)
    ensures |Items(route)| == 0 ==> r == prior
    ensures |Items(route)| != 0 ==>
      r == Join(Items(route)) + [Comma] + prior
  {
    (if route.Some? && |route.value| != 0 then Join(route.value) + [Comma] else "") + prior
  }

  /** Decoding a stamped value gives the route extended by the prior value, so the
      steps already on the route read back the same segments. */
  lemma {:induction false} LemmaStampRoundTrip(route: Option<seq<string>>, prior: string)
    requires AllCommaFree(Items(route))
    requires CommaFree(prior)
    ensures Decode(Some(Stamp(route, prior))) == Some(Items(route) + [prior])
  {
    var xs := Items(route) + [prior];
    assert AllCommaFree(xs);
    LemmaJoinSnoc(Items(route), prior);
    LemmaSplitJoin(xs);
  }

  /** Joining a route extended by one segment puts a comma before that segment. */
  lemma {:induction false} LemmaJoinSnoc(xs: seq<string>, last: string)
    ensures |xs| == 0 ==> Join(xs + [last]) == last
    ensures |xs| != 0 ==> Join(xs + [last]) == Join(xs) + [Comma] + last
  {
    if |xs| == 0 {
      assert xs + [last] == [last];
    } else if |xs| == 1 {
      assert (xs + [last])[1..] == [last];
    } else {
      assert (xs + [last])[1..] == xs[1..] + [last];
      LemmaJoinSnoc(xs[1..], last);
    }
  }
}
