/** What one round of `multiRequest` does to each entry of the batch, and the
    consequences: entries keep their index, non-object pages freeze an entry
    to null, object entries only grow by appending, and what re-sending the
    whole batch does to entries that have nothing left to follow. */
module TwitterRounds {
  import opened Values
  import opened Requests
  import opened TwitterPaging

  /** What a round leaves at one entry: a fetched entry holds the merge of
      its new page and counts as answered when that page is not null; any
      other entry is as it was and unanswered. */
  predicate EntryAfter(send: Transport, req: Req, fetched: bool, before: Value, after: Value, answered: bool) {
    if fetched then MergeEntry(before, send(req)) == Ok(after) && answered == (send(req) != Null)
    else after == before && !answered
  }

  /** Every entry of a round's batch, after the second loop has reached index k. */
  predicate RoundLeaves(send: Transport, reqs: seq<Req>, pend: seq<bool>, refetch: Refetch, results: seq<Value>, b: Batch, k: nat)
    requires |pend| == |reqs| == |results| == |b.results| == |b.answered|
  {
    forall i :: 0 <= i < |reqs| ==>
      EntryAfter(send, reqs[i], i < k && Fetched(refetch, pend[i]), results[i], b.results[i], b.answered[i])
  }

  /** The second loop, entry by entry: up to index k, the fetched entries
      hold their merged pages and the others are untouched. */
  lemma {:induction false} RoundEntries(send: Transport, reqs: seq<Req>, pend: seq<bool>, refetch: Refetch, results: seq<Value>, k: nat)
    requires |pend| == |reqs| == |results| && k <= |reqs|
    requires RoundUpTo(send, reqs, pend, refetch, results, k).Ok?
    ensures RoundLeaves(send, reqs, pend, refetch, results, RoundUpTo(send, reqs, pend, refetch, results, k).value, k)
    decreases k
  {
    if k > 0 {
      RoundEntries(send, reqs, pend, refetch, results, k - 1);
      var prev := RoundUpTo(send, reqs, pend, refetch, results, k - 1).value;
      var b := RoundUpTo(send, reqs, pend, refetch, results, k).value;
      RoundUpToLast(send, reqs, pend, refetch, results, k, prev, b);
      RoundEntriesStep(send, reqs, pend, refetch, results, k, prev, b);
    }
  }

  lemma RoundEntriesStep(send: Transport, reqs: seq<Req>, pend: seq<bool>, refetch: Refetch, results: seq<Value>, k: nat, prev: Batch, b: Batch)
    requires |pend| == |reqs| == |results| && 0 < k <= |reqs|
    requires |b.results| == |prev.results| == |reqs| && |b.answered| == |prev.answered| == |reqs|
    requires RoundLeaves(send, reqs, pend, refetch, results, prev, k - 1)
    requires Fetched(refetch, pend[k - 1]) ==>
      EntryAfter(send, reqs[k - 1], true, prev.results[k - 1], b.results[k - 1], b.answered[k - 1])
    requires forall i :: 0 <= i < |reqs| && (i != k - 1 || !Fetched(refetch, pend[k - 1])) ==>
      b.results[i] == prev.results[i] && b.answered[i] == prev.answered[i]
    ensures RoundLeaves(send, reqs, pend, refetch, results, b, k)
  {
    var j := k - 1;
    assert EntryAfter(send, reqs[j], false, results[j], prev.results[j], prev.answered[j]);
    forall i | 0 <= i < |reqs|
      ensures EntryAfter(send, reqs[i], i < k && Fetched(refetch, pend[i]), results[i], b.results[i], b.answered[i])
    {
      if i != j {
        assert EntryAfter(send, reqs[i], i < j && Fetched(refetch, pend[i]), results[i], prev.results[i], prev.answered[i]);
      }
    }
  }

  /** The second loop at index k - 1: that entry is merged when it is
      fetched, and no other entry changes. */
  lemma RoundUpToLast(send: Transport, reqs: seq<Req>, pend: seq<bool>, refetch: Refetch, results: seq<Value>, k: nat, prev: Batch, b: Batch)
    requires |pend| == |reqs| == |results| && 0 < k <= |reqs|
    requires RoundUpTo(send, reqs, pend, refetch, results, k - 1) == Ok(prev)
    requires RoundUpTo(send, reqs, pend, refetch, results, k) == Ok(b)
    ensures |b.results| == |prev.results| == |reqs| && |b.answered| == |prev.answered| == |reqs|
    ensures Fetched(refetch, pend[k - 1]) ==>
      EntryAfter(send, reqs[k - 1], true, prev.results[k - 1], b.results[k - 1], b.answered[k - 1])
    ensures forall i :: 0 <= i < |reqs| && (i != k - 1 || !Fetched(refetch, pend[k - 1])) ==> b.results[i] == prev.results[i] && b.answered[i] == prev.answered[i]
  {
    var j := k - 1;
    if Fetched(refetch, pend[j]) {
      var page := send(reqs[j]);
      var v := MergeEntry(prev.results[j], page).value;
      assert b == Batch(prev.results[j := v], prev.answered[j := page != Null]);
    } else {
      assert b == prev;
    }
  }

  /** An entry the round does not fetch keeps its data and is not answered. */
  lemma RoundKeeps(send: Transport, reqs: seq<Req>, pend: seq<bool>, refetch: Refetch, results: seq<Value>, i: nat)
    requires |pend| == |reqs| == |results| && i < |reqs|
    requires RoundUpTo(send, reqs, pend, refetch, results, |reqs|).Ok?
    requires !Fetched(refetch, pend[i])
    ensures RoundUpTo(send, reqs, pend, refetch, results, |reqs|).value.results[i] == results[i]
    ensures !RoundUpTo(send, reqs, pend, refetch, results, |reqs|).value.answered[i]
  {
    RoundEntries(send, reqs, pend, refetch, results, |reqs|);
    var b := RoundUpTo(send, reqs, pend, refetch, results, |reqs|).value;
    assert EntryAfter(send, reqs[i], i < |reqs| && Fetched(refetch, pend[i]), results[i], b.results[i], b.answered[i]);
  }

  /** A fetched entry whose new page is not an object is frozen to null and
      not answered when the page is null. */
  lemma RoundFreezes(send: Transport, reqs: seq<Req>, pend: seq<bool>, refetch: Refetch, results: seq<Value>, i: nat)
    requires |pend| == |reqs| == |results| && i < |reqs|
    requires RoundUpTo(send, reqs, pend, refetch, results, |reqs|).Ok?
    requires Fetched(refetch, pend[i]) && !send(reqs[i]).Obj?
    ensures RoundUpTo(send, reqs, pend, refetch, results, |reqs|).value.results[i] == Null
    ensures RoundUpTo(send, reqs, pend, refetch, results, |reqs|).value.answered[i] == (send(reqs[i]) != Null)
  {
    RoundEntries(send, reqs, pend, refetch, results, |reqs|);
    var b := RoundUpTo(send, reqs, pend, refetch, results, |reqs|).value;
    assert EntryAfter(send, reqs[i], i < |reqs| && Fetched(refetch, pend[i]), results[i], b.results[i], b.answered[i]);
  }

  /** A fetched object entry whose content is an array only grows: the new
      page's content is appended to it and it stays an object. */
  lemma RoundAppends(send: Transport, reqs: seq<Req>, pend: seq<bool>, refetch: Refetch, results: seq<Value>, i: nat, key: string)
    requires |pend| == |reqs| == |results| && i < |reqs|
    requires RoundUpTo(send, reqs, pend, refetch, results, |reqs|).Ok?
    requires Fetched(refetch, pend[i]) && send(reqs[i]).Obj?
    requires results[i].Obj? && key == ContentKey(results[i].fields) && Lookup(results[i].fields, key).Arr?
    ensures RoundUpTo(send, reqs, pend, refetch, results, |reqs|).value.results[i].Obj?
    ensures Lookup(RoundUpTo(send, reqs, pend, refetch, results, |reqs|).value.results[i].fields, key) ==
      Arr(Lookup(results[i].fields, key).items + PageContent(send(reqs[i]), key))
  {
    RoundEntries(send, reqs, pend, refetch, results, |reqs|);
    var b := RoundUpTo(send, reqs, pend, refetch, results, |reqs|).value;
    assert EntryAfter(send, reqs[i], i < |reqs| && Fetched(refetch, pend[i]), results[i], b.results[i], b.answered[i]);
  }

  /** Re-sending the whole batch re-fetches a frozen entry too: when its
      request now answers with an object, the merge reads the properties of
      null, so the round fails if it has not failed earlier. */
  lemma WholeBatchFrozenFails(send: Transport, reqs: seq<Req>, pend: seq<bool>, results: seq<Value>, i: nat)
    requires |pend| == |reqs| == |results| && i < |reqs|
    requires results[i] == Null && send(reqs[i]).Obj?
    ensures RoundUpTo(send, reqs, pend, WholeBatch, results, |reqs|).Err?
    ensures RoundUpTo(send, reqs, pend, WholeBatch, results, i).Ok? ==>
      RoundUpTo(send, reqs, pend, WholeBatch, results, |reqs|) == Err(PropertiesOfNonObject)
  {
    if RoundUpTo(send, reqs, pend, WholeBatch, results, i).Ok? {
      RoundEntries(send, reqs, pend, WholeBatch, results, i);
      var prev := RoundUpTo(send, reqs, pend, WholeBatch, results, i).value;
      assert EntryAfter(send, reqs[i], false, results[i], prev.results[i], prev.answered[i]);
      RoundErrSticks(send, reqs, pend, WholeBatch, results, i + 1, |reqs|);
    } else {
      RoundErrSticks(send, reqs, pend, WholeBatch, results, i, |reqs|);
    }
  }

  /** The first round of a batch in which some entry has a cursor to follow
      (`Rounds` runs a round exactly then): the answers of the initial
      batch request, nothing answered yet, the pending flags and the batch
      after the first loop. */
  predicate FirstRound(send: Transport, reqs: seq<Req>, results: seq<Value>, answered: seq<bool>, pend: seq<bool>, marked: seq<Req>) {
    results == SendAll(send, reqs) && answered == seq(|reqs|, _ => false) &&
    pend == PendingFlags(reqs, results, answered) && marked == Mark(reqs, results, answered) &&
    true in pend
  }

  /** Re-sending the whole batch, as the source does, repeats an entry that
      has no cursor to follow: its request is unchanged, so the provider
      answers with the same page and its content array is appended to
      itself. */
  lemma WholeBatchRepeatsSettled(send: Transport, reqs: seq<Req>, results: seq<Value>, answered: seq<bool>,
                                 pend: seq<bool>, marked: seq<Req>, i: nat, key: string, c: seq<Value>)
    requires FirstRound(send, reqs, results, answered, pend, marked)
    requires i < |reqs| && !pend[i]
    requires results[i].Obj? && key == ContentKey(results[i].fields) && Lookup(results[i].fields, key) == Arr(c) && c != []
    requires RoundUpTo(send, marked, pend, WholeBatch, results, |reqs|).Ok?
    ensures RoundUpTo(send, marked, pend, WholeBatch, results, |reqs|).value.results[i].Obj?
    ensures Lookup(RoundUpTo(send, marked, pend, WholeBatch, results, |reqs|).value.results[i].fields, key) == Arr(c + c)
  {
    assert marked[i] == reqs[i];
    assert send(marked[i]) == results[i];
    assert PageContent(results[i], key) == c;
    RoundAppends(send, marked, pend, WholeBatch, results, i, key);
  }

  /** Sending only the pending entries leaves an entry with no cursor to
      follow exactly as it was, in every round. */
  lemma PendingOnlyKeepsSettled(send: Transport, reqs: seq<Req>, results: seq<Value>, answered: seq<bool>,
                                pend: seq<bool>, marked: seq<Req>, i: nat)
    requires |reqs| == |results| == |answered| && i < |reqs|
    requires pend == PendingFlags(reqs, results, answered) && marked == Mark(reqs, results, answered) && !pend[i]
    requires RoundUpTo(send, marked, pend, PendingOnly, results, |reqs|).Ok?
    ensures marked[i] == reqs[i]
    ensures RoundUpTo(send, marked, pend, PendingOnly, results, |reqs|).value.results[i] == results[i]
  {
    RoundKeeps(send, marked, pend, PendingOnly, results, i);
  }

  /** An assignment keeps the first property's name. */
  lemma PutKeepsFirst(fs: seq<Field>, name: string, v: Value)
    requires fs != []
    ensures Put(fs, name, v) != [] && Put(fs, name, v)[0].name == fs[0].name
  {
  }

  /** The second loop recomputes the content key from the entry in every
      round; a merge never changes it, so every page of an entry is merged
      under the key of its first page. */
  lemma MergeKeepsContentKey(data: seq<Field>, page: Value)
    requires MergePage(data, ContentKey(data), page).Ok?
    ensures ContentKey(MergePage(data, ContentKey(data), page).value) == ContentKey(data)
  {
    var key := ContentKey(data);
    var add := Prop(page, key);
    var merged := if Truthy(add) then Put(data, key, Arr(Lookup(data, key).items + add.items)) else data;
    var withNext := Put(merged, "next_cursor", Prop(page, "next_cursor"));
    var r := Put(withNext, "next_cursor_str", Prop(page, "next_cursor_str"));
    assert MergePage(data, key, page).value == r;
    if data != [] {
      if Truthy(add) {
        PutKeepsFirst(data, key, Arr(Lookup(data, key).items + add.items));
      }
      PutKeepsFirst(merged, "next_cursor", Prop(page, "next_cursor"));
      PutKeepsFirst(withNext, "next_cursor_str", Prop(page, "next_cursor_str"));
    } else {
      // an empty response has no array to merge into, so the page added nothing
      assert !Truthy(add);
      assert withNext == [Field("next_cursor", Prop(page, "next_cursor"))];
      PutKeepsFirst(withNext, "next_cursor_str", Prop(page, "next_cursor_str"));
    }
  }
}
