/**
 Rebuilding the search index page by page while documents come and go.

 Document ids are 128-bit numbers. A query does not see the table change; between two queries it
 may change in any way, so a run is described by `view`, the table each query sees.
 */
module Reindex {
  import opened Prelude

  const ID_LIMIT: nat := 0x1_0000_0000_0000_0000_0000_0000_0000_0000

  type Id = x: nat | x < ID_LIMIT

  predicate Ascending(ids: seq<Id>) {
    forall j, k :: 0 <= j < k < |ids| ==> ids[j] < ids[k]
  }

  /** The documents a rebuild is to index, by id, and the deleted ones whose rows are still there. */
  datatype Table = Table(live: seq<Id>, gone: set<Id>)

  predicate Valid(table: Table) {
    Ascending(table.live) && forall id :: id in table.live ==> id !in table.gone
  }

  ghost predicate Views(view: nat -> Table) {
    forall k :: Valid(view(k))
  }

  // ----------------------------------------------------------------- a page

  /** How many live documents come before `id`. */
  function Below(live: seq<Id>, id: Id): (n: nat)
    requires Ascending(live)
    ensures n <= |live|
    ensures forall k :: 0 <= k < n ==> live[k] < id
    ensures forall k :: n <= k < |live| ==> id <= live[k]
  {
    if live == [] || live[|live| - 1] < id then |live| else Below(live[..|live| - 1], id)
  }

  /** Still to come after `cursor`, in order. */
  predicate Ahead(cursor: Option<Id>, id: Id) {
    cursor.Some? ==> cursor.value < id
  }

  /**
   Where the page after `cursor` starts: the rows from the cursor's row on, less one. The first
   row is the cursor's own only if that document is still live; a cursor without a row finds none.
   */
  function PageStart(table: Table, cursor: Option<Id>): (start: nat)
    requires Valid(table)
    ensures start <= |table.live|
    ensures forall k :: start <= k < |table.live| ==> Ahead(cursor, table.live[k])
  {
    if cursor.None? then 0
    else if cursor.value !in table.live && cursor.value !in table.gone then |table.live|
    else
      var from := Below(table.live, cursor.value);
      assert forall k :: from < k < |table.live| ==> table.live[from] < table.live[k];
      if from < |table.live| then from + 1 else |table.live|
  }

  function Page(table: Table, cursor: Option<Id>, size: nat): (page: seq<Id>)
    requires Valid(table)
    ensures |page| <= size && Ascending(page)
    ensures forall id :: id in page ==> id in table.live && Ahead(cursor, id)
  {
    var start := PageStart(table, cursor);
    var end := if start + size < |table.live| then start + size else |table.live|;
    var page := table.live[start..end];
    assert forall j :: 0 <= j < |page| ==> page[j] == table.live[start + j] && Ahead(cursor, page[j]);
    page
  }

  /** No live document after the cursor is left behind by this page. */
  ghost predicate PageComplete(table: Table, cursor: Option<Id>, size: nat)
    requires Valid(table) && size > 0
  {
    var page := Page(table, cursor, size);
    forall id :: id in table.live && Ahead(cursor, id) ==> id in page || (|page| == size && page[size - 1] < id)
  }

  lemma PageAt(table: Table, cursor: Option<Id>, size: nat)
    requires Valid(table)
    ensures var page := Page(table, cursor, size);
      var start := PageStart(table, cursor);
      && |page| == (if start + size < |table.live| then size else |table.live| - start)
      && forall j :: 0 <= j < |page| ==> page[j] == table.live[start + j]
  {
    hide PageStart;
    hide Ascending;
  }

  lemma StartAfterLive(table: Table, cursor: Option<Id>, k: nat)
    requires Valid(table) && (cursor.Some? ==> cursor.value in table.live)
    requires k < |table.live| && Ahead(cursor, table.live[k])
    ensures PageStart(table, cursor) <= k
  {
  }

  lemma LiveCursorCompletes(table: Table, cursor: Option<Id>, size: nat)
    requires Valid(table) && size > 0 && (cursor.Some? ==> cursor.value in table.live)
    ensures PageComplete(table, cursor, size)
  {
    hide Page;
    hide PageStart;
    var page := Page(table, cursor, size);
    var start := PageStart(table, cursor);
    PageAt(table, cursor, size);
    forall k | 0 <= k < |table.live| && Ahead(cursor, table.live[k])
      ensures table.live[k] in page || (|page| == size && page[size - 1] < table.live[k])
    {
      StartAfterLive(table, cursor, k);
      if k < start + size {
        assert page[k - start] == table.live[k];
      } else {
        assert page[size - 1] == table.live[start + size - 1];
      }
    }
  }

  /** Without the cursor's document the first live one after it is skipped, or all are. */
  lemma DeadCursorSkips(table: Table, cursor: Id, size: nat, k: nat)
    requires Valid(table) && size > 0 && cursor !in table.live && k < |table.live| && cursor < table.live[k]
    ensures var first := table.live[Below(table.live, cursor)];
      Ahead(Some(cursor), first) && forall id :: id in Page(table, Some(cursor), size) ==> first < id
  {
    hide Page;
    var from := Below(table.live, cursor);
    var page := Page(table, Some(cursor), size);
    var start := PageStart(table, Some(cursor));
    PageAt(table, Some(cursor), size);
    assert table.live[from] in table.live;
    forall j | 0 <= j < |page| ensures table.live[from] < page[j] {
      assert page[j] == table.live[start + j];
    }
  }

  /** A page leaves nothing behind exactly when the cursor's document is still live, or nothing live comes after it. */
  lemma PageCompleteIff(table: Table, cursor: Option<Id>, size: nat)
    requires Valid(table) && size > 0
    ensures PageComplete(table, cursor, size)
      <==> cursor.None? || cursor.value in table.live || (forall id :: id in table.live ==> id <= cursor.value)
  {
    hide Page;
    if cursor.None? || cursor.value in table.live {
      LiveCursorCompletes(table, cursor, size);
    } else if k: nat :| k < |table.live| && cursor.value < table.live[k] {
      DeadCursorSkips(table, cursor.value, size, k);
      var first := table.live[Below(table.live, cursor.value)];
      assert first in table.live && Ahead(cursor, first) && first !in Page(table, cursor, size);
      if |Page(table, cursor, size)| == size {
        assert Page(table, cursor, size)[size - 1] in Page(table, cursor, size);
      }
    }
  }

  // ------------------------------------------------------------------ a run

  function Room(cursor: Option<Id>): nat {
    if cursor.None? then ID_LIMIT else ID_LIMIT - 1 - cursor.value
  }

  /** The batches handed to the index from the k-th query on; a short page is the last one. */
  function Batches(view: nat -> Table, k: nat, cursor: Option<Id>, size: nat): seq<seq<Id>>
    requires Views(view) && size > 0
    decreases Room(cursor)
  {
    var page := Page(view(k), cursor, size);
    if page == [] then []
    else
      assert page[|page| - 1] in page;
      [page] + if |page| < size then [] else Batches(view, k + 1, Some(page[|page| - 1]), size)
  }

  function Concat(batches: seq<seq<Id>>): seq<Id> {
    if batches == [] then [] else batches[0] + Concat(batches[1..])
  }

  function Sent(view: nat -> Table, k: nat, cursor: Option<Id>, size: nat): seq<Id>
    requires Views(view) && size > 0
  {
    Concat(Batches(view, k, cursor, size))
  }

  lemma BatchesUnfold(view: nat -> Table, k: nat, cursor: Option<Id>, size: nat)
    requires Views(view) && size > 0
    ensures var page := Page(view(k), cursor, size);
      Batches(view, k, cursor, size)
      == if page == [] then []
         else if |page| < size then [page]
         else [page] + Batches(view, k + 1, Some(page[size - 1]), size)
  {
    hide Page;
  }

  lemma ConcatCons(page: seq<Id>, rest: seq<seq<Id>>)
    ensures Concat([page] + rest) == page + Concat(rest) && Concat([page]) == page && Concat([]) == []
  {
    assert ([page] + rest)[1..] == rest;
    assert [page][1..] == [];
  }

  /** What is sent from a query on: its page and, after a full page, the rest. */
  lemma SentUnfolds(view: nat -> Table, k: nat, cursor: Option<Id>, size: nat)
    requires Views(view) && size > 0
    ensures var page := Page(view(k), cursor, size);
      Sent(view, k, cursor, size) == page + if |page| < size then [] else Sent(view, k + 1, Some(page[size - 1]), size)
  {
    hide Page;
    hide Batches;
    hide Concat;
    BatchesUnfold(view, k, cursor, size);
    var page := Page(view(k), cursor, size);
    ConcatCons(page, if |page| < size then [] else Batches(view, k + 1, Some(page[size - 1]), size));
  }

  lemma PageOrder(view: nat -> Table, k: nat, cursor: Option<Id>, size: nat)
    requires Views(view) && size > 0
    ensures var page := Page(view(k), cursor, size);
      |page| == size ==> Room(Some(page[size - 1])) < Room(cursor) && Ahead(cursor, page[size - 1])
  {
    var page := Page(view(k), cursor, size);
    if |page| == size { assert page[size - 1] in page; }
  }

  /** No document is sent twice, whatever happens to the table: what is sent only ever goes up. */
  lemma {:induction false} SentAscends(view: nat -> Table, k: nat, cursor: Option<Id>, size: nat)
    requires Views(view) && size > 0
    ensures Ascending(Sent(view, k, cursor, size))
    ensures forall id :: id in Sent(view, k, cursor, size) ==> Ahead(cursor, id)
    decreases Room(cursor)
  {
    hide Sent;
    hide Page;
    SentUnfolds(view, k, cursor, size);
    PageOrder(view, k, cursor, size);
    var page := Page(view(k), cursor, size);
    if |page| == size {
      var last := Some(page[size - 1]);
      SentAscends(view, k + 1, last, size);
      var rest := Sent(view, k + 1, last, size);
      forall i, j | 0 <= i < j < |page + rest| ensures (page + rest)[i] < (page + rest)[j] {
        if j >= size {
          assert rest[j - size] in rest;
        }
      }
    }
  }

  /** Nothing is sent that was not live when its page was read. */
  lemma {:induction false} SentWasLive(view: nat -> Table, k: nat, cursor: Option<Id>, size: nat, id: Id)
    requires Views(view) && size > 0 && id in Sent(view, k, cursor, size)
    ensures exists n :: k <= n && id in view(n).live
    decreases Room(cursor)
  {
    hide Sent;
    hide Page;
    SentUnfolds(view, k, cursor, size);
    PageOrder(view, k, cursor, size);
    var page := Page(view(k), cursor, size);
    if id in page {
      assert id in view(k).live;
    } else {
      SentWasLive(view, k + 1, Some(page[size - 1]), size, id);
    }
  }

  /** Every page is read with a cursor whose document is still live. */
  ghost predicate CursorsLive(view: nat -> Table, k: nat, cursor: Option<Id>, size: nat)
    requires Views(view) && size > 0
    decreases Room(cursor)
  {
    var page := Page(view(k), cursor, size);
    && (cursor.Some? ==> cursor.value in view(k).live)
    && (|page| == size ==> assert page[size - 1] in page; CursorsLive(view, k + 1, Some(page[size - 1]), size))
  }

  /** A document that stays live is sent, if no cursor is deleted under the rebuild. */
  lemma {:induction false} KeptDocumentIsSent(view: nat -> Table, k: nat, cursor: Option<Id>, size: nat, id: Id)
    requires Views(view) && size > 0 && CursorsLive(view, k, cursor, size)
    requires Ahead(cursor, id) && forall n :: k <= n ==> id in view(n).live
    ensures id in Sent(view, k, cursor, size)
    decreases Room(cursor)
  {
    hide Sent;
    hide Page;
    SentUnfolds(view, k, cursor, size);
    PageOrder(view, k, cursor, size);
    PageCompleteIff(view(k), cursor, size);
    var page := Page(view(k), cursor, size);
    assert id in view(k).live;
    if id !in page {
      KeptDocumentIsSent(view, k + 1, Some(page[size - 1]), size, id);
    }
  }

  /** The cursor that the n-th page from query `k` on is read with, if the run reads that many. */
  function CursorAt(view: nat -> Table, k: nat, cursor: Option<Id>, size: nat, n: nat): Option<Option<Id>>
    requires Views(view) && size > 0
    decreases n
  {
    if n == 0 then Some(cursor)
    else
      var page := Page(view(k), cursor, size);
      if |page| < size then None else CursorAt(view, k + 1, Some(page[size - 1]), size, n - 1)
  }

  /**
   The query skips a live document still ahead: its cursor is no longer live, and either has no row
   left or has this document as the first live one after it.
   */
  predicate Skips(table: Table, cursor: Option<Id>, id: Id)
    requires Valid(table)
  {
    && cursor.Some? && cursor.value !in table.live && Ahead(cursor, id)
    && (cursor.value !in table.gone
        || (Below(table.live, cursor.value) < |table.live| && table.live[Below(table.live, cursor.value)] == id))
  }

  /** A live document ahead is skipped, or in the page, or still ahead after a full page; and only one of them. */
  lemma PageCases(table: Table, cursor: Option<Id>, size: nat, id: Id)
    requires Valid(table) && size > 0 && id in table.live && Ahead(cursor, id)
    ensures var page := Page(table, cursor, size);
      && (Skips(table, cursor, id) ==> id !in page && (|page| == size ==> id < page[size - 1]))
      && (!Skips(table, cursor, id) ==> id in page || (|page| == size && page[size - 1] < id))
  {
    hide Page;
    hide PageStart;
    var k :| 0 <= k < |table.live| && table.live[k] == id;
    var page, start := Page(table, cursor, size), PageStart(table, cursor);
    PageAt(table, cursor, size);
    StartCases(table, cursor, k);
    if k < start {
      assert forall j :: 0 <= j < |page| ==> page[j] == table.live[start + j] && table.live[k] < page[j];
    } else if k < start + size {
      assert page[k - start] == id;
    } else {
      assert page[size - 1] == table.live[start + size - 1];
    }
  }

  lemma BelowOfLive(live: seq<Id>, c: nat)
    requires Ascending(live) && c < |live|
    ensures Below(live, live[c]) == c
  {
    var n := Below(live, live[c]);
    if n < |live| { assert live[c] <= live[n]; }
  }

  lemma StartCases(table: Table, cursor: Option<Id>, k: nat)
    requires Valid(table) && k < |table.live| && Ahead(cursor, table.live[k])
    ensures k < PageStart(table, cursor) <==> Skips(table, cursor, table.live[k])
  {
    if cursor.Some? {
      var from := Below(table.live, cursor.value);
      assert from <= k;
      if cursor.value in table.live {
        var c :| 0 <= c < |table.live| && table.live[c] == cursor.value;
        BelowOfLive(table.live, c);
      }
    }
  }

  /**
   Over a whole run: a document that is live throughout is left out if and only if some page of the
   run is read with a cursor that skips it.
   */
  lemma {:induction false} LeftOutIff(view: nat -> Table, k: nat, cursor: Option<Id>, size: nat, id: Id)
    requires Views(view) && size > 0
    requires Ahead(cursor, id) && forall n :: k <= n ==> id in view(n).live
    ensures id !in Sent(view, k, cursor, size) <==> SomePageSkips(view, k, cursor, size, id)
    decreases Room(cursor)
  {
    hide Sent;
    hide Page;
    hide Skips;
    hide SomePageSkips;
    SentUnfolds(view, k, cursor, size);
    PageOrder(view, k, cursor, size);
    PageCases(view(k), cursor, size, id);
    SkippedLater(view, k, cursor, size, id);
    var page := Page(view(k), cursor, size);
    if |page| == size {
      var last := Some(page[size - 1]);
      if page[size - 1] < id {
        LeftOutIff(view, k + 1, last, size, id);
      } else {
        SentAscends(view, k + 1, last, size);
        NoLongerAhead(view, k + 1, last, size, id);
      }
    }
  }

  /** The n-th page from query `k` on is read, with a cursor that skips the document. */
  ghost predicate SkippedAt(view: nat -> Table, k: nat, cursor: Option<Id>, size: nat, n: nat, id: Id)
    requires Views(view) && size > 0
  {
    CursorAt(view, k, cursor, size, n).Some? && Skips(view(k + n), CursorAt(view, k, cursor, size, n).value, id)
  }

  ghost predicate SomePageSkips(view: nat -> Table, k: nat, cursor: Option<Id>, size: nat, id: Id)
    requires Views(view) && size > 0
  {
    exists n: nat :: SkippedAt(view, k, cursor, size, n, id)
  }

  lemma NextPageSkips(view: nat -> Table, k: nat, next: nat, cursor: Option<Id>, size: nat, n: nat, id: Id)
    requires Views(view) && size > 0 && next == k + 1
    ensures var page := Page(view(k), cursor, size);
      SkippedAt(view, k, cursor, size, n + 1, id)
      <==> |page| == size && SkippedAt(view, next, Some(page[size - 1]), size, n, id)
  {
    hide Page;
    hide Skips;
    assert k + (n + 1) == next + n;
  }

  lemma SkippedLater(view: nat -> Table, k: nat, cursor: Option<Id>, size: nat, id: Id)
    requires Views(view) && size > 0
    ensures var page := Page(view(k), cursor, size);
      SomePageSkips(view, k, cursor, size, id) <==>
      Skips(view(k), cursor, id) || (|page| == size && SomePageSkips(view, k + 1, Some(page[size - 1]), size, id))
  {
    hide Page;
    hide Skips;
    var page, next := Page(view(k), cursor, size), k + 1;
    assert SkippedAt(view, k, cursor, size, 0, id) == Skips(view(k), cursor, id);
    if n: nat :| SkippedAt(view, k, cursor, size, n, id) && n > 0 {
      NextPageSkips(view, k, next, cursor, size, n - 1, id);
    }
    if |page| == size {
      var last := Some(page[size - 1]);
      if n: nat :| SkippedAt(view, next, last, size, n, id) {
        NextPageSkips(view, k, next, cursor, size, n, id);
      }
    }
  }

  /** Once the cursor has passed a document, no later query skips it. */
  lemma {:induction false} NoLongerAhead(view: nat -> Table, k: nat, cursor: Option<Id>, size: nat, id: Id)
    requires Views(view) && size > 0 && !Ahead(cursor, id)
    ensures !SomePageSkips(view, k, cursor, size, id)
    decreases Room(cursor)
  {
    hide Page;
    hide SomePageSkips;
    PageOrder(view, k, cursor, size);
    SkippedLater(view, k, cursor, size, id);
    var page := Page(view(k), cursor, size);
    if |page| == size { NoLongerAhead(view, k + 1, Some(page[size - 1]), size, id); }
  }

  /** Documents are only ever added. */
  ghost predicate OnlyInserts(view: nat -> Table) {
    forall k, n, id {:trigger id in view(k).live, view(n)} :: k <= n && id in view(k).live ==> id in view(n).live
  }

  lemma {:induction false} InsertsKeepCursors(view: nat -> Table, k: nat, cursor: Option<Id>, size: nat)
    requires Views(view) && size > 0 && OnlyInserts(view)
    requires cursor.Some? ==> cursor.value in view(k).live
    ensures CursorsLive(view, k, cursor, size)
    decreases Room(cursor)
  {
    hide Page;
    PageOrder(view, k, cursor, size);
    var page := Page(view(k), cursor, size);
    if |page| == size {
      assert page[size - 1] in page;
      assert page[size - 1] in view(k).live;
      InsertsKeepCursors(view, k + 1, Some(page[size - 1]), size);
    }
  }

  /** With arbitrary inserts while the rebuild runs, every document live at its start is sent exactly once. */
  lemma StartIsCoveredExactlyOnce(view: nat -> Table, k: nat, size: nat, id: Id)
    requires Views(view) && size > 0 && OnlyInserts(view) && id in view(k).live
    ensures multiset(Sent(view, k, None, size))[id] == 1
  {
    hide Sent;
    hide CursorsLive;
    InsertsKeepCursors(view, k, None, size);
    KeptDocumentIsSent(view, k, None, size, id);
    SentAscends(view, k, None, size);
    OnceIn(Sent(view, k, None, size), id);
  }

  lemma {:induction false} OnceIn(ids: seq<Id>, id: Id)
    requires Ascending(ids) && id in ids
    ensures multiset(ids)[id] == 1
  {
    var n := |ids| - 1;
    assert ids == ids[..n] + [ids[n]];
    if id == ids[n] {
      assert id !in ids[..n];
    } else {
      OnceIn(ids[..n], id);
    }
  }

  /** On a table that does not change, exactly its live documents are sent, in order. */
  lemma UnchangedTableIsSent(view: nat -> Table, k: nat, size: nat)
    requires Views(view) && size > 0 && forall n :: view(n) == view(k)
    ensures Sent(view, k, None, size) == view(k).live
  {
    hide Sent;
    hide CursorsLive;
    var sent := Sent(view, k, None, size);
    SentAscends(view, k, None, size);
    InsertsKeepCursors(view, k, None, size);
    forall id ensures id in sent <==> id in view(k).live {
      if id in view(k).live {
        KeptDocumentIsSent(view, k, None, size, id);
      } else if id in sent {
        SentWasLive(view, k, None, size, id);
      }
    }
    SameAscending(sent, view(k).live);
  }

  lemma NothingIn(ids: seq<Id>)
    ensures (forall id :: id !in ids) ==> ids == []
  {
    assert ids != [] ==> ids[0] in ids;
  }

  lemma {:induction false} SameAscending(a: seq<Id>, b: seq<Id>)
    requires Ascending(a) && Ascending(b) && forall id :: id in a <==> id in b
    ensures a == b
  {
    if a == [] {
      NothingIn(b);
    } else if b == [] {
      NothingIn(a);
    } else {
      var m, n := |a| - 1, |b| - 1;
      assert a[m] in b && b[n] in a;
      assert a[m] == b[n];
      forall id ensures id in a[..m] <==> id in b[..n] {
        assert id in a[..m] <==> id in a && id != a[m];
        assert id in b[..n] <==> id in b && id != b[n];
      }
      SameAscending(a[..m], b[..n]);
    }
  }

  /** Deleting a page's last document at the wrong moment hides a document that was live all along. */
  function DeletedUnderTheCursor(k: nat): Table {
    if k == 0 then Table([1, 2], {}) else Table([2], {1})
  }

  lemma PageOfTheRest()
    ensures Page(Table([1, 2], {}), None, 1) == [1] && Page(Table([2], {1}), Some(1), 1) == []
  {
    assert Below([2], 1) == 0;
  }

  lemma DeletionHidesALiveDocument()
    ensures Views(DeletedUnderTheCursor) && (forall k :: 2 in DeletedUnderTheCursor(k).live)
    ensures 2 !in Sent(DeletedUnderTheCursor, 0, None, 1)
  {
    hide Sent;
    hide Page;
    var view := DeletedUnderTheCursor;
    assert Views(view);
    PageOfTheRest();
    SentUnfolds(view, 0, None, 1);
    SentUnfolds(view, 1, Some(1), 1);
    assert view(0) == Table([1, 2], {}) && view(1) == Table([2], {1});
  }
}
