/** The rebuild itself: the paging loop, and the index that takes or refuses each batch as a whole. */
module ReindexJob {
  import opened Prelude
  import opened Reindex

  /** How adding a batch ends. A lost answer is an error after the batch was taken. */
  datatype Answer = Accepted | Refused | AnswerLost

  datatype IndexReport = IndexReport(indexed: nat, failed: nat)

  function ReportFor(batch: seq<Id>, answer: Answer): IndexReport {
    if answer == Accepted then IndexReport(|batch|, 0) else IndexReport(0, |batch|)
  }

  /** What the reports of the batches add up to, the n-th batch getting the n-th answer. */
  function Totals(batches: seq<seq<Id>>, answers: nat -> Answer): IndexReport {
    if batches == [] then IndexReport(0, 0)
    else
      var n := |batches| - 1;
      var before := Totals(batches[..n], answers);
      var report := ReportFor(batches[n], answers(n));
      IndexReport(before.indexed + report.indexed, before.failed + report.failed)
  }

  /** The documents of every batch the index took. */
  function Taken(batches: seq<seq<Id>>, answers: nat -> Answer): set<Id> {
    if batches == [] then {}
    else
      var n := |batches| - 1;
      Taken(batches[..n], answers) + if answers(n) == Refused then {} else set id | id in batches[n]
  }

  lemma TakeFirst(batches: seq<seq<Id>>, batch: seq<Id>, others: seq<seq<Id>>)
    ensures batches + [batch] + others == batches + ([batch] + others) && [batch] + [] == [batch]
  {
  }

  lemma ViewValid(view: nat -> Table, k: nat)
    requires Views(view)
    ensures Reindex.Valid(view(k))
  {
  }

  lemma OneMoreBatch(batches: seq<seq<Id>>, batch: seq<Id>, answers: nat -> Answer)
    ensures var answer := answers(|batches|);
      var before, after, report := Totals(batches, answers), Totals(batches + [batch], answers), ReportFor(batch, answer);
      && after == IndexReport(before.indexed + report.indexed, before.failed + report.failed)
      && Taken(batches + [batch], answers) == Taken(batches, answers) + (if answer == Refused then {} else set id | id in batch)
    ensures Totals([], answers) == IndexReport(0, 0) && Taken([], answers) == {}
  {
    assert (batches + [batch])[..|batches|] == batches;
  }

  class SearchIndex {
    var docs: set<Id>
    var failures: nat

    method IndexDocs(batch: seq<Id>, answer: Answer) returns (report: IndexReport)
      modifies this
      ensures report == ReportFor(batch, answer)
      ensures docs == old(docs) + if answer == Refused then {} else set id | id in batch
      ensures failures == old(failures) + report.failed
    {
      if |batch| == 0 { return IndexReport(0, 0); }
      if answer != Refused {
        docs := docs + set id | id in batch;
      }
      if answer == Accepted { return IndexReport(|batch|, 0); }
      failures := failures + |batch|;
      return IndexReport(0, |batch|);
    }

    method DocumentCount(answers: bool) returns (count: Option<nat>)
      ensures count == if answers then Some(|docs|) else None
    {
      return if answers then Some(|docs|) else None;
    }
  }

  function BatchSize(requested: Option<int>): (size: nat)
    ensures 1 <= size <= 500
    ensures requested == None ==> size == 200
    ensures requested.Some? && 1 <= requested.value <= 500 ==> size == requested.value
    ensures requested.Some? ==> (requested.value > 500 ==> size == 500) && (requested.value < 1 ==> size == 1)
  {
    var size := if requested.Some? then requested.value else 200;
    if size < 1 then 1 else if size > 500 then 500 else size
  }

  datatype Forbidden = Forbidden

  datatype Summary = Summary(total: nat, indexed: nat, failed: nat, documentsInIndex: Option<nat>)

  /** The first query counts; every later one reads a page. */
  method ReindexSearch(
      index: SearchIndex, isPlatformAdmin: bool, requested: Option<int>,
      view: nat -> Table, answers: nat -> Answer, statsAnswer: bool)
      returns (result: Result<Summary, Forbidden>, ghost batches: seq<seq<Id>>)
    requires Views(view)
    modifies index
    ensures !isPlatformAdmin ==> result == Failure(Forbidden) && index.docs == old(index.docs)
    ensures isPlatformAdmin ==>
      && batches == Batches(view, 1, None, BatchSize(requested))
      && index.docs == old(index.docs) + Taken(batches, answers)
      && var totals := Totals(batches, answers);
      result == Success(Summary(|view(0).live|, totals.indexed, totals.failed, if statsAnswer then Some(|index.docs|) else None))
      && index.failures == old(index.failures) + totals.failed
  {
    hide Page;
    hide Batches;
    hide Totals;
    hide Taken;
    hide Views;
    hide Room;
    hide Ahead;
    batches := [];
    OneMoreBatch([], [], answers);
    if !isPlatformAdmin { return Failure(Forbidden), batches; }
    var size := BatchSize(requested);
    var total := |view(0).live|;
    var indexed: nat, failed: nat := 0, 0;
    var cursor: Option<Id> := None;
    var queries := 1;
    var more := true;
    ghost var rest := Batches(view, 1, None, size);
    while more
      invariant queries == |batches| + 1
      invariant batches + rest == Batches(view, 1, None, size)
      invariant rest == if more then Batches(view, queries, cursor, size) else []
      invariant IndexReport(indexed, failed) == Totals(batches, answers)
      invariant index.docs == old(index.docs) + Taken(batches, answers)
      invariant index.failures == old(index.failures) + failed
      decreases more, Room(cursor)
    {
      BatchesUnfold(view, queries, cursor, size);
      PageOrder(view, queries, cursor, size);
      ViewValid(view, queries);
      var batch := Page(view(queries), cursor, size);
      if |batch| == 0 {
        more := false;
      } else {
        var report := index.IndexDocs(batch, answers(queries - 1));
        indexed, failed := indexed + report.indexed, failed + report.failed;
        OneMoreBatch(batches, batch, answers);
        rest := if |batch| < size then [] else Batches(view, queries + 1, Some(batch[size - 1]), size);
        TakeFirst(batches, batch, rest);
        batches := batches + [batch];
        cursor := Some(batch[|batch| - 1]);
        queries := queries + 1;
        more := |batch| == size;
      }
    }
    var inIndex := index.DocumentCount(statsAnswer);
    return Success(Summary(total, indexed, failed, inIndex)), batches;
  }

  // -------------------------------------------------------- what is reported

  lemma {:induction false} ConcatLast(batches: seq<seq<Id>>)
    requires batches != []
    ensures Concat(batches) == Concat(batches[..|batches| - 1]) + batches[|batches| - 1]
  {
    var n := |batches| - 1;
    if n > 0 {
      ConcatLast(batches[1..]);
      assert batches[1..][..n - 1] == batches[..n][1..];
      assert batches[..n][0] == batches[0];
    } else {
      assert Concat(batches[1..]) == [] && Concat(batches[..0]) == [];
    }
  }

  /** Every document sent is reported once, as indexed or as failed. */
  lemma {:induction false} EveryDocumentIsReported(batches: seq<seq<Id>>, answers: nat -> Answer)
    ensures Totals(batches, answers).indexed + Totals(batches, answers).failed == |Concat(batches)|
  {
    if batches != [] {
      EveryDocumentIsReported(batches[..|batches| - 1], answers);
      ConcatLast(batches);
    }
  }

  /** The index takes nothing but what is sent, and with no failure reported it takes all of it. */
  lemma {:induction false} NoneFailedMeansAllTaken(batches: seq<seq<Id>>, answers: nat -> Answer, id: Id)
    ensures id in Taken(batches, answers) ==> id in Concat(batches)
    ensures Totals(batches, answers).failed == 0 && id in Concat(batches) ==> id in Taken(batches, answers)
  {
    if batches != [] {
      NoneFailedMeansAllTaken(batches[..|batches| - 1], answers, id);
      ConcatLast(batches);
    }
  }

  /**
   On a table that does not change, the report accounts for the total, and no failure means that the
   index has every live document.
   */
  lemma UnchangedRebuildIsComplete(view: nat -> Table, answers: nat -> Answer, size: nat)
    requires Views(view) && size > 0 && forall n :: view(n) == view(0)
    ensures var batches := Batches(view, 1, None, size);
      var totals := Totals(batches, answers);
      && totals.indexed + totals.failed == |view(0).live|
      && (totals.failed == 0 ==> forall id :: id in view(0).live <==> id in Taken(batches, answers))
  {
    hide Batches;
    UnchangedTableIsSent(view, 1, size);
    var batches := Batches(view, 1, None, size);
    EveryDocumentIsReported(batches, answers);
    forall id ensures Totals(batches, answers).failed == 0 ==> (id in view(0).live <==> id in Taken(batches, answers)) {
      NoneFailedMeansAllTaken(batches, answers, id);
    }
  }

  /** While documents are only added, no failure still means that every document there at the start is in the index. */
  lemma GrowingRebuildCoversTheStart(view: nat -> Table, answers: nat -> Answer, size: nat, id: Id)
    requires Views(view) && size > 0 && OnlyInserts(view) && id in view(0).live
    requires Totals(Batches(view, 1, None, size), answers).failed == 0
    ensures id in Taken(Batches(view, 1, None, size), answers)
  {
    hide Batches;
    assert id in view(1).live;
    StartIsCoveredExactlyOnce(view, 1, size, id);
    assert id in Sent(view, 1, None, size);
    NoneFailedMeansAllTaken(Batches(view, 1, None, size), answers, id);
  }
}
