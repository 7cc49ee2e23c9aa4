/**
 * The bookkeeping of the `fetch` command around the Telegram library: the
 * `--since` expression is resolved before anything is fetched, a running
 * minimum of the ids of the messages delivered to the message processor is
 * kept, and a summary line is produced when both `--since` and `--verbose`
 * are given.
 */
module FetchCommand {
  import opened Wrappers
  import opened Calendar
  import opened Tokenizer
  import opened RelativeTime

  // ---------------------------------------------------------------------
  // The running minimum.

  /**
   * The value of `found_min_id` after the messages `ids` were processed, in
   * order: unset before the first message, then replaced whenever a smaller
   * id arrives.
   */
  function MinSoFar(ids: seq<int>): (r: Option<int>)
    ensures r.None? <==> ids == []
    ensures r.Some? ==> r.value in ids
    ensures r.Some? ==> forall i :: 0 <= i < |ids| ==> r.value <= ids[i]
    decreases |ids|
  {
    if ids == [] then None
    else
      var before := MinSoFar(ids[..|ids| - 1]);
      var id := ids[|ids| - 1];
      assert forall i :: 0 <= i < |ids| - 1 ==> ids[..|ids| - 1][i] == ids[i];
      if before.None? || id < before.value then Some(id) else before
  }

  /** The cell `found_min_id` and the message processor's update of it. */
  class MinIdTracker {
    var found: Option<int>
    /** The ids processed so far, in order. */
    ghost var processed: seq<int>

    ghost predicate Valid()
      reads this
    {
      found == MinSoFar(processed)
    }

    /** `found_min_id = [None]`. */
    constructor()
      ensures Valid() && processed == [] && found == None
    {
      found := None;
      processed := [];
    }

    /** The update made for each message handed to the message processor. */
    method Observe(id: int)
      requires Valid()
      modifies this
      ensures Valid() && processed == old(processed) + [id]
      ensures found.Some? && found.value <= id
      ensures old(found).Some? ==> found.value <= old(found).value
    {
      if found.None? || id < found.value {
        found := Some(id);
      }
      processed := processed + [id];
      assert processed[..|processed| - 1] == old(processed);
    }
  }

  /** Processing more messages never raises the minimum, and never unsets it. */
  lemma MinSoFarNeverIncreases(ids: seq<int>, more: seq<int>)
    requires MinSoFar(ids).Some?
    ensures MinSoFar(ids + more).Some? && MinSoFar(ids + more).value <= MinSoFar(ids).value
  {
    var m := MinSoFar(ids).value;
    var k :| 0 <= k < |ids| && ids[k] == m;
    assert (ids + more)[k] == m;
  }

  /** The minimum does not depend on the order the messages arrive in. */
  lemma MinSoFarOrderFree(a: seq<int>, b: seq<int>)
    requires multiset(a) == multiset(b)
    ensures MinSoFar(a) == MinSoFar(b)
  {
    assert |a| == |multiset(a)| == |multiset(b)| == |b|;
    if a != [] {
      var x, y := MinSoFar(a).value, MinSoFar(b).value;
      assert x in multiset(b) && y in multiset(a);
      var i :| 0 <= i < |b| && b[i] == x;
      var j :| 0 <= j < |a| && a[j] == y;
      assert y <= b[i] && x <= a[j];
    }
  }

  /** Ids 50, 48, 52 leave 48. */
  lemma MinSoFarExample()
    ensures MinSoFar([50, 48, 52]) == Some(48)
  {
    assert [50, 48, 52][..2] == [50, 48];
    assert [50, 48][..1] == [50];
  }

  // ---------------------------------------------------------------------
  // The command.

  /** The "Invalid --since value" parameter error, naming the offending value. */
  datatype ParamError = InvalidSince(value: string)

  /** The summary line: the resolved start and the smallest id fetched. */
  datatype Summary = Summary(sinceDate: DateTime, minId: Option<int>)

  /** What a successful `fetch` computed. */
  datatype FetchRun = FetchRun(sinceDate: Option<DateTime>, minId: Option<int>, summary: Option<Summary>)

  /** Python's truth value of the `--since` option: given and not empty. */
  predicate SinceGiven(since: Option<string>) {
    since.Some? && since.value != ""
  }

  /**
   * `fetch`, with the Telegram library abstracted: `delivered` is the
   * sequence of ids of the messages the library hands to the message
   * processor, in order, and `now` the clock reading the parser takes.
   */
  method Fetch(since: Option<string>, verbose: bool, now: DateTime, delivered: seq<int>)
    returns (r: Result<FetchRun, ParamError>)
    requires now.Valid()
    ensures r.Failure? <==> SinceGiven(since) && ApplyTokens(now, Tokenize(since.value)).None?
    ensures r.Failure? ==> r.error == InvalidSince(since.value)
    ensures r.Success? ==> r.value.sinceDate == (if SinceGiven(since) then ApplyTokens(now, Tokenize(since.value)) else None)
    ensures r.Success? ==> r.value.minId == MinSoFar(delivered)
    ensures r.Success? ==> (r.value.summary.Some? <==> SinceGiven(since) && verbose)
    ensures r.Success? && r.value.summary.Some? ==>
      r.value.sinceDate.Some? && r.value.summary.value == Summary(r.value.sinceDate.value, r.value.minId)
  {
    var sinceDate: Option<DateTime> := None;
    if since.Some? && since.value != "" {
      sinceDate := ParseRelativeTimeString(since.value, now);
      if sinceDate.None? {
        return Failure(InvalidSince(since.value));
      }
    }
    var tracker := new MinIdTracker();
    for i := 0 to |delivered|
      invariant tracker.Valid() && tracker.processed == delivered[..i]
    {
      tracker.Observe(delivered[i]);
    }
    assert delivered[..|delivered|] == delivered;
    var summary: Option<Summary> := None;
    if since.Some? && since.value != "" && verbose {
      summary := Some(Summary(sinceDate.value, tracker.found));
    }
    return Success(FetchRun(sinceDate, tracker.found, summary));
  }
}
