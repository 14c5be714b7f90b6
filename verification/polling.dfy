/** The key-collection loop of one trial (experiment.py:168-176): poll the
    keyboard, extend the accumulated key list with what the poll returned, and
    stop as soon as the submit key is anywhere in the accumulated list.

    A poll is modelled as the next element of a finite sequence of batches.
    The source blocks for ever when no submit key ever arrives, so the model
    only runs on batch sequences in which some batch holds the submit key. */
module Polling {
  import opened Seqs
  import opened Keys

  /** Some poll eventually delivers the submit key, so the loop ends. */
  predicate Terminates(polls: seq<Batch>) {
    exists j :: 0 <= j < |polls| && Return in polls[j]
  }

  /** Index of the first poll that delivers the submit key. */
  function FirstReturnPoll(polls: seq<Batch>): (j: nat)
    requires Terminates(polls)
    ensures j < |polls| && Return in polls[j]
    ensures forall i :: 0 <= i < j ==> Return !in polls[i]
  {
    if Return in polls[0] then 0
    else
      assert Terminates(polls[1..]) by {
        var j :| 0 <= j < |polls| && Return in polls[j];
        assert polls[1..][j - 1] == polls[j];
      }
      1 + FirstReturnPoll(polls[1..])
  }

  /** Reference definition of the accumulated key list when the loop ends: the
      concatenation of every batch up to and including the first one that
      delivers the submit key. */
  function Accumulated(polls: seq<Batch>): seq<Key>
    requires Terminates(polls)
  {
    Concat(polls[..FirstReturnPoll(polls) + 1])
  }

  /** The polling loop. `count` is the number of polls made. */
  method CollectKeys(polls: seq<Batch>) returns (keyList: seq<Key>, count: nat)
    requires Terminates(polls)
    ensures 1 <= count <= |polls|
    ensures keyList == Concat(polls[..count])
    ensures Return in keyList && Return in polls[count - 1]
    ensures forall i :: 0 <= i < count - 1 ==> Return !in polls[i]
    ensures keyList == Accumulated(polls)
  {
    ghost var first := FirstReturnPoll(polls);
    keyList := [];
    count := 0;
    while Return !in keyList
      invariant count <= first + 1
      invariant keyList == Concat(polls[..count])
      invariant Return !in keyList ==> count <= first
      decreases |polls| - count
    {
      assert polls[..count + 1] == polls[..count] + [polls[count]];
      ConcatAppend(polls[..count], [polls[count]]);
      ConcatSingle(polls[count]);
      keyList := keyList + polls[count];
      count := count + 1;
    }
    ConcatMember(polls[..count], Return);
    var j :| 0 <= j < count && Return in polls[..count][j];
    assert j >= first;
  }
}
