/**
 The outdoor AQI kept from the IQAir poll: a fetch replaces the value only
 when the response's status is "success".
 */
module Outdoor {

  import opened Wrappers

  /**
   One poll. `Failed`: the request, the decoding, or a lookup before the AQI
   is assigned raised (no `status`, or a "success" without `aqius`).
   `Response`: a decoded response with its status and AQI, and whether the
   pollution record also carries the `ts` field printed after the assignment.
   */
  datatype Fetch = Failed | Response(status: string, aqius: nat, stamped: bool)

  predicate Succeeded(f: Fetch) {
    f.Response? && f.status == "success"
  }

  /**
   The poll raises: before the AQI is assigned, or after it, when a
   successful response lacks `ts`; the AQI is then already replaced.
   */
  predicate Raises(f: Fetch) {
    f.Failed? || (Succeeded(f) && !f.stamped)
  }

  /**
   The AQI after one poll, whether or not the poll goes on to raise: a
   successful response without `ts` has already replaced the AQI when it raises.
   */
  function Update(current: Option<nat>, f: Fetch): (r: Option<nat>)
    ensures Succeeded(f) ==> r == Some(f.aqius)
    ensures !Succeeded(f) ==> r == current
  {
    if Succeeded(f) then Some(f.aqius) else current
  }

  /** The value after a series of polls, applied oldest first. */
  function Poll(current: Option<nat>, fs: seq<Fetch>): Option<nat>
    decreases |fs|
  {
    if fs == [] then current else Poll(Update(current, fs[0]), fs[1..])
  }

  /** The AQI of the most recent successful poll, searching from the newest. */
  function LastSuccess(fs: seq<Fetch>): (r: Option<nat>)
    ensures r.Some? <==> exists i :: 0 <= i < |fs| && Succeeded(fs[i])
  {
    if fs == [] then None
    else if Succeeded(fs[|fs| - 1]) then Some(fs[|fs| - 1].aqius)
    else
      var r := LastSuccess(fs[..|fs| - 1]);
      assert forall i :: 0 <= i < |fs| - 1 ==> fs[..|fs| - 1][i] == fs[i];
      r
  }

  /** After any series of polls the value is the last successful one, or the old one if none succeeded. */
  lemma {:induction false} PollKeepsLastSuccess(current: Option<nat>, fs: seq<Fetch>)
    ensures Poll(current, fs) == (if LastSuccess(fs).Some? then LastSuccess(fs) else current)
    decreases |fs|
  {
    if fs != [] {
      var first := Update(current, fs[0]);
      PollKeepsLastSuccess(first, fs[1..]);
      if |fs| > 1 {
        LastSuccessDropFirst(fs);
      }
    }
  }

  /** Searching from the newest end, the first poll only matters when no later one succeeded. */
  lemma {:induction false} LastSuccessDropFirst(fs: seq<Fetch>)
    requires |fs| > 1
    ensures LastSuccess(fs) == (if LastSuccess(fs[1..]).Some? then LastSuccess(fs[1..]) else LastSuccess([fs[0]]))
    decreases |fs|
  {
    var last := fs[|fs| - 1];
    assert fs[1..][|fs[1..]| - 1] == last;
    if !Succeeded(last) {
      var init := fs[..|fs| - 1];
      assert fs[1..][..|fs[1..]| - 1] == init[1..];
      if |init| > 1 {
        LastSuccessDropFirst(init);
      } else {
        assert init == [fs[0]];
        assert fs[1..] == [last];
      }
    }
  }

  /** Once an AQI is known it is never lost again. */
  lemma NeverForgotten(current: Option<nat>, fs: seq<Fetch>)
    requires current.Some?
    ensures Poll(current, fs).Some?
  {
    PollKeepsLastSuccess(current, fs);
  }
}
