/**
 Cursor pagination of one escrow's audit log. The cursor is the creation time of the last
 entry of a page, while the rows are ordered by sequence number.
 */
module AuditPaging {
  import opened Sequences
  import opened AuditLog
  import opened Wrappers

  datatype Row = Row(entry: AuditEntry, createdAt: int)

  datatype Page = Page(rows: seq<Row>, nextCursor: Option<int>)

  predicate IsAfter(r: Row, cursor: Option<int>) {
    cursor.Some? ==> r.createdAt > cursor.value
  }

  /** The rows of `log`, which is in sequence-number order, created after the cursor. */
  function After(log: seq<Row>, cursor: Option<int>): seq<Row> {
    if log == [] then []
    else if IsAfter(log[0], cursor) then [log[0]] + After(log[1..], cursor)
    else After(log[1..], cursor)
  }

  function Take(s: seq<Row>, n: nat): seq<Row> {
    if |s| <= n then s else s[..n]
  }

  function ListEntries(log: seq<Row>, cursor: Option<int>, limit: nat): seq<Row> {
    Take(After(log, cursor), limit)
  }

  function GetAuditLog(log: seq<Row>, cursor: Option<int>, limit: nat): Page {
    var entries := ListEntries(log, cursor, limit + 1);
    var hasMore := |entries| > limit;
    var page := Take(entries, limit);
    Page(page, if hasMore && page != [] then Some(page[|page| - 1].createdAt) else None)
  }

  /** The router's clamp of the requested page size. */
  function PageSize(requested: int): nat {
    var atLeastOne := if requested < 1 then 1 else requested;
    if atLeastOne > 100 then 100 else atLeastOne
  }

  lemma {:induction false} AfterMember(log: seq<Row>, cursor: Option<int>, i: nat)
    requires i < |After(log, cursor)|
    ensures IsAfter(After(log, cursor)[i], cursor) && After(log, cursor)[i] in log
  {
    if IsAfter(log[0], cursor) {
      if i > 0 { AfterMember(log[1..], cursor, i - 1); }
    } else {
      AfterMember(log[1..], cursor, i);
    }
  }

  lemma {:induction false} AfterShrinks(log: seq<Row>, cursor: Option<int>, t: int)
    requires cursor.Some? ==> cursor.value <= t
    ensures |After(log, Some(t))| <= |After(log, cursor)|
    ensures forall r :: r in After(log, cursor) && r.createdAt <= t ==> |After(log, Some(t))| < |After(log, cursor)|
  {
    if log != [] {
      AfterShrinks(log[1..], cursor, t);
    }
  }

  /**
   The client loop: fetch a page, follow its cursor, concatenate. That the function is defined
   at all says that the loop ends, whatever the creation times.
   */
  function Follow(log: seq<Row>, cursor: Option<int>, limit: nat): seq<Row>
    requires limit >= 1
    decreases |After(log, cursor)|
  {
    var page := GetAuditLog(log, cursor, limit);
    if page.nextCursor.None? then page.rows
    else
      (AfterMember(log, cursor, limit - 1);
       AfterShrinks(log, cursor, page.nextCursor.value);
       page.rows + Follow(log, page.nextCursor, limit))
  }

  ghost predicate StrictlyIncreasing(log: seq<Row>) {
    forall i, j :: 0 <= i < j < |log| ==> log[i].createdAt < log[j].createdAt
  }

  function CursorAt(log: seq<Row>, k: nat): Option<int>
    requires k <= |log|
  {
    if k == 0 then None else Some(log[k - 1].createdAt)
  }

  lemma {:induction false} AfterAll(log: seq<Row>, cursor: Option<int>)
    requires forall i :: 0 <= i < |log| ==> IsAfter(log[i], cursor)
    ensures After(log, cursor) == log
  {
    if log != [] {
      AfterAll(log[1..], cursor);
    }
  }

  lemma {:induction false} AfterPrefix(log: seq<Row>, cursor: Option<int>, k: nat)
    requires k <= |log|
    requires forall i :: 0 <= i < k ==> !IsAfter(log[i], cursor)
    requires forall i :: k <= i < |log| ==> IsAfter(log[i], cursor)
    ensures After(log, cursor) == log[k..]
  {
    if k == 0 {
      AfterAll(log, cursor);
    } else {
      AfterPrefix(log[1..], cursor, k - 1);
      assert log[1..][k - 1..] == log[k..];
    }
  }

  lemma PageFrom(log: seq<Row>, k: nat, limit: nat)
    requires limit >= 1 && k <= |log| && StrictlyIncreasing(log)
    ensures GetAuditLog(log, CursorAt(log, k), limit) ==
            if |log| - k > limit then Page(log[k..k + limit], CursorAt(log, k + limit)) else Page(log[k..], None)
  {
    AfterPrefix(log, CursorAt(log, k), k);
    var rest := log[k..];
    if |rest| > limit {
      assert Take(rest, limit + 1) == rest[..limit + 1];
      assert rest[..limit + 1][..limit] == log[k..k + limit];
    }
  }

  lemma FollowMore(log: seq<Row>, k: nat, limit: nat)
    requires limit >= 1 && k + limit < |log| && StrictlyIncreasing(log)
    requires Follow(log, CursorAt(log, k + limit), limit) == log[k + limit..]
    ensures Follow(log, CursorAt(log, k), limit) == log[k..]
  {
    PageFrom(log, k, limit);
    SliceSplit(log, k, k + limit);
  }

  lemma {:induction false} FollowFrom(log: seq<Row>, k: nat, limit: nat)
    requires limit >= 1 && k <= |log| && StrictlyIncreasing(log)
    ensures Follow(log, CursorAt(log, k), limit) == log[k..]
    decreases |log| - k
  {
    if |log| - k > limit {
      FollowFrom(log, k + limit, limit);
      FollowMore(log, k, limit);
    } else {
      PageFrom(log, k, limit);
    }
  }

  /** One-row pages that deliver the rest of the log in order force the times to increase. */
  lemma {:induction false} SinglesForceOrder(log: seq<Row>, k: nat)
    requires k < |log| && Follow(log, CursorAt(log, k), 1) == log[k..]
    ensures forall i :: k <= i < |log| && i > 0 ==> log[i - 1].createdAt < log[i].createdAt
    decreases |log| - k
  {
    var cursor := CursorAt(log, k);
    var a := After(log, cursor);
    assert a != [] && a[0] == log[k];
    AfterMember(log, cursor, 0);
    if k + 1 < |log| {
      var page := GetAuditLog(log, cursor, 1);
      assert page.nextCursor == CursorAt(log, k + 1);
      assert page.rows == [log[k]];
      assert log[k..] == [log[k]] + log[k + 1..];
      assert Follow(log, cursor, 1)[1..] == Follow(log, CursorAt(log, k + 1), 1);
      SinglesForceOrder(log, k + 1);
    }
  }

  lemma {:induction false} AdjacentToStrict(log: seq<Row>, i: nat, j: nat)
    requires forall k :: 0 < k < |log| ==> log[k - 1].createdAt < log[k].createdAt
    requires i < j < |log|
    ensures log[i].createdAt < log[j].createdAt
  {
    if i + 1 < j {
      AdjacentToStrict(log, i, j - 1);
    }
  }

  ghost predicate PagesExactly(log: seq<Row>, limit: nat) {
    limit >= 1 ==> Follow(log, None, limit) == log
  }

  lemma SinglesGiveStrict(log: seq<Row>)
    requires PagesExactly(log, 1)
    ensures StrictlyIncreasing(log)
  {
    if log != [] {
      SinglesForceOrder(log, 0);
      forall i, j | 0 <= i < j < |log| ensures log[i].createdAt < log[j].createdAt {
        AdjacentToStrict(log, i, j);
      }
    }
  }

  /**
   Following cursors yields the whole log exactly once and in order, for every page size,
   exactly when creation times strictly increase with the sequence number.
   */
  lemma PagingExactIff(log: seq<Row>)
    ensures (forall limit: nat :: PagesExactly(log, limit)) <==> StrictlyIncreasing(log)
  {
    if StrictlyIncreasing(log) {
      forall limit: nat | limit >= 1 ensures Follow(log, None, limit) == log {
        FollowFrom(log, 0, limit);
      }
    }
    if PagesExactly(log, 1) {
      SinglesGiveStrict(log);
    }
  }

  /** The same for the sizes the router lets through, 1 to 100, whatever was requested. */
  lemma RoutedPagingExact(log: seq<Row>)
    ensures forall requested: int :: 1 <= PageSize(requested) <= 100 && (1 <= requested <= 100 ==> PageSize(requested) == requested)
    ensures (forall requested: int :: PagesExactly(log, PageSize(requested))) <==> StrictlyIncreasing(log)
  {
    PagingExactIff(log);
    assert PageSize(1) == 1;
    if PagesExactly(log, PageSize(1)) {
      SinglesGiveStrict(log);
    }
  }
}
