/**
 * Collecting a report's rows page by page with an id cursor, the row cap, and the grouped counts of
 * a summary.
 */
module ReportRows {
  import opened Prelude

  const BATCH_SIZE: nat := 1_000
  const MAX_REPORT_ROWS: nat := 200_000

  datatype Subject = Tickets | Customers

  /** A stored row, with the columns the filters look at and the selected fields. */
  datatype Row = Row(
    tenantId: string,
    assignedAgentId: Option<string>,
    status: string,
    createdAt: int,
    fields: map<string, string>)

  /** A row id, as its place in the database's ordering of ids. */
  datatype RowId = RowId(rank: int)

  type Table = map<RowId, Row>

  datatype Query = Query(
    tenantId: string,
    subject: Subject,
    requesterId: string,
    requesterRole: string,
    status: Option<string>,
    dateFrom: Option<int>,
    dateTo: Option<int>)

  predicate Matches(row: Row, q: Query) {
    && row.tenantId == q.tenantId
    // agents only see tickets assigned to them
    && (q.subject.Tickets? && q.requesterRole == "AGENT" ==> row.assignedAgentId == Some(q.requesterId))
    && (q.status.Some? && q.status.value != "" ==> row.status == q.status.value)
    && (q.dateFrom.Some? ==> q.dateFrom.value <= row.createdAt)
    && (q.dateTo.Some? ==> row.createdAt <= q.dateTo.value)
  }

  /** Ids of matching rows behind the cursor. */
  function Matching(table: Table, q: Query, cursor: Option<RowId>): set<RowId> {
    set id | id in table && Matches(table[id], q) && (cursor.Some? ==> cursor.value.rank < id.rank)
  }

  /** The row belongs in the report, column by column: what is absent or empty in the query restricts nothing. */
  ghost predicate InScope(table: Table, q: Query, id: RowId) {
    && id in table && table[id].tenantId == q.tenantId
    && (q.subject == Customers || q.requesterRole != "AGENT" || table[id].assignedAgentId == Some(q.requesterId))
    && (q.status in {None, Some("")} || Some(table[id].status) == q.status)
    && (q.dateFrom == None || q.dateFrom.value <= table[id].createdAt)
    && (q.dateTo == None || table[id].createdAt <= q.dateTo.value)
  }

  predicate Ascending(ids: seq<RowId>) {
    forall i, j :: 0 <= i < j < |ids| ==> ids[i].rank < ids[j].rank
  }

  function Elements(ids: seq<RowId>): set<RowId> { set id | id in ids }

  /** `page` is ORDER BY id LIMIT take over `from`. */
  predicate IsPage(from: set<RowId>, take: nat, page: seq<RowId>) {
    && Ascending(page) && |page| <= take
    && (forall id :: id in page ==> id in from)
    && (forall id, other :: id in page && other in from && other !in page ==> id.rank < other.rank)
    && (|page| < take ==> forall id :: id in from ==> id in page)
  }

  method Smallest(from: set<RowId>) returns (least: RowId)
    requires from != {}
    ensures least in from && forall id :: id in from ==> least.rank <= id.rank
  {
    least :| least in from;
    var rest := from - {least};
    while rest != {}
      invariant least in from && rest <= from
      invariant forall id :: id in from && id !in rest ==> least.rank <= id.rank
      decreases |rest|
    {
      var id :| id in rest;
      if id.rank < least.rank {
        least := id;
      }
      rest := rest - {id};
    }
  }

  /** The page query: matching rows behind the cursor, in id order. */
  method FindPage(table: Table, q: Query, cursor: Option<RowId>, take: nat) returns (page: seq<RowId>)
    ensures IsPage(Matching(table, q, cursor), take, page)
    ensures forall id :: id in page ==> InScope(table, q, id) && (cursor.Some? ==> cursor.value.rank < id.rank)
    ensures forall id :: InScope(table, q, id) && (cursor.Some? ==> cursor.value.rank < id.rank) && id !in page ==>
              |page| == take && forall read :: read in page ==> read.rank < id.rank
  {
    page := [];
    var from := Matching(table, q, cursor);
    var rest := from;
    while |page| < take && rest != {}
      invariant rest <= from && |page| <= take && Ascending(page)
      invariant forall id :: id in from ==> (id in page <==> id !in rest)
      invariant forall id :: id in page ==> id in from
      invariant forall id, other :: id in page && other in rest ==> id.rank < other.rank
      decreases |rest|
    {
      var least := Smallest(rest);
      page, rest := page + [least], rest - {least};
    }
    PageInScope(table, q, cursor, take, page);
  }

  lemma PageInScope(table: Table, q: Query, cursor: Option<RowId>, take: nat, page: seq<RowId>)
    requires IsPage(Matching(table, q, cursor), take, page)
    ensures forall id :: id in page ==> InScope(table, q, id) && (cursor.Some? ==> cursor.value.rank < id.rank)
    ensures forall id :: InScope(table, q, id) && (cursor.Some? ==> cursor.value.rank < id.rank) && id !in page ==>
              |page| == take && forall read :: read in page ==> read.rank < id.rank
  {
  }

  datatype CollectError = TooManyRows | RunCancelled

  /**
   * The reader loop and its consumer: pages are appended until a short page, the cap is checked and
   * the job re-checked after each. `stillRunning(k)` is what the re-check after page k finds.
   */
  method CollectRows(table: Table, q: Query, batchSize: nat := BATCH_SIZE, stillRunning: nat -> bool)
    returns (r: Result<seq<RowId>, CollectError>)
    requires batchSize > 0
    // a collected report is exactly the matching rows, in id order, each once
    ensures r.Ok? ==> Ascending(r.value) && Elements(r.value) == Matching(table, q, None)
    ensures r.Ok? ==> forall id :: id in r.value <==> InScope(table, q, id)
    ensures r.Ok? ==> |r.value| <= MAX_REPORT_ROWS
    ensures r == Err(TooManyRows) ==> |Matching(table, q, None)| > MAX_REPORT_ROWS
    // the job is re-checked after every page, and only a failed re-check stops the reading
    ensures r.Ok? ==> EveryPageChecked(stillRunning, batchSize, |Matching(table, q, None)|)
    ensures r == Err(RunCancelled) ==> !EveryPageChecked(stillRunning, batchSize, |Matching(table, q, None)|)
  {
    var records: seq<RowId> := [];
    var cursor: Option<RowId> := None;
    var pages := 0;
    while true
      invariant Collected(table, q, cursor, records) && |records| <= MAX_REPORT_ROWS
      invariant |records| == RowsBefore(pages, batchSize) && Rechecked(stillRunning, pages)
      decreases |Matching(table, q, cursor)|
    {
      var found, last;
      records, cursor, found, last := NextBatch(table, q, cursor, records, batchSize);
      if !found {
        AllRead(table, q, cursor, records, batchSize, pages, stillRunning);
        return Ok(records);
      }
      if |records| > MAX_REPORT_ROWS {
        return Err(TooManyRows);
      }
      if !stillRunning(pages) {
        assert PageExists(pages, batchSize, |Matching(table, q, None)|);
        return Err(RunCancelled);
      }
      pages := pages + 1;
      if last {
        AllRead(table, q, cursor, records, batchSize, pages, stillRunning);
        return Ok(records);
      }
    }
  }

  /** The next page, appended: `found` tells whether there was one, `last` whether it was short. */
  method NextBatch(table: Table, q: Query, cursor: Option<RowId>, records: seq<RowId>, batchSize: nat)
    returns (records': seq<RowId>, cursor': Option<RowId>, found: bool, last: bool)
    requires Collected(table, q, cursor, records) && batchSize > 0
    ensures Collected(table, q, cursor', records') && |records'| <= |Matching(table, q, None)|
    ensures !found ==> records' == records && Matching(table, q, cursor') == {}
    ensures found ==> |records| < |records'| && |Matching(table, q, cursor')| < |Matching(table, q, cursor)|
    ensures found ==> if last then |records'| < |records| + batchSize && Matching(table, q, cursor') == {}
                      else |records'| == |records| + batchSize
  {
    var page := FindPage(table, q, cursor, batchSize);
    found, last := |page| > 0, |page| < batchSize;
    if !found {
      LastPage(table, q, cursor, page, batchSize);
      CollectedSize(table, q, cursor, records);
      return records, cursor, found, last;
    }
    AppendPage(table, q, cursor, records, page, batchSize);
    PageShrinksRest(table, q, cursor, page, batchSize);
    records', cursor' := records + page, Some(page[|page| - 1]);
    CollectedSize(table, q, cursor', records');
  }

  ghost predicate Rechecked(stillRunning: nat -> bool, pages: nat) {
    forall k: nat :: k < pages ==> stillRunning(k)
  }

  /** The re-check succeeds after every page of `n` rows. */
  ghost predicate EveryPageChecked(stillRunning: nat -> bool, batchSize: nat, n: nat) {
    forall k: nat :: PageExists(k, batchSize, n) ==> stillRunning(k)
  }

  lemma AllRead(table: Table, q: Query, cursor: Option<RowId>, records: seq<RowId>, batchSize: nat, pages: nat,
                stillRunning: nat -> bool)
    requires Collected(table, q, cursor, records) && Matching(table, q, cursor) == {}
    requires |records| <= RowsBefore(pages, batchSize) && Rechecked(stillRunning, pages)
    ensures Elements(records) == Matching(table, q, None)
    ensures forall id :: id in records <==> InScope(table, q, id)
    ensures EveryPageChecked(stillRunning, batchSize, |Matching(table, q, None)|)
  {
    assert forall id :: id in records <==> id in Elements(records);
    DistinctCount(records);
    PagesBelow(pages, batchSize, |records|);
  }

  /** Rows on the full pages before page `k`. */
  function RowsBefore(k: nat, batchSize: nat): nat {
    if k == 0 then 0 else RowsBefore(k - 1, batchSize) + batchSize
  }

  /** Page `k` of `n` rows is not empty. */
  predicate PageExists(k: nat, batchSize: nat, n: nat) { RowsBefore(k, batchSize) < n }

  lemma {:induction false} RowsBeforeMonotone(j: nat, k: nat, batchSize: nat)
    requires j <= k
    ensures RowsBefore(j, batchSize) <= RowsBefore(k, batchSize)
  {
    if j < k {
      RowsBeforeMonotone(j, k - 1, batchSize);
    }
  }

  lemma PagesBelow(pages: nat, batchSize: nat, n: nat)
    requires n <= RowsBefore(pages, batchSize)
    ensures forall k: nat :: PageExists(k, batchSize, n) ==> k < pages
  {
    forall k: nat
      ensures PageExists(k, batchSize, n) ==> k < pages
    {
      if pages <= k {
        RowsBeforeMonotone(pages, k, batchSize);
      }
    }
  }

  /** The rows read so far: all matching rows up to the cursor, in order. */
  ghost predicate Collected(table: Table, q: Query, cursor: Option<RowId>, records: seq<RowId>) {
    && Ascending(records)
    && Elements(records) == Matching(table, q, None) - Matching(table, q, cursor)
    && (forall id :: id in records ==> cursor.Some? && id.rank <= cursor.value.rank)
  }

  /** A short page ends the table. */
  lemma LastPage(table: Table, q: Query, cursor: Option<RowId>, page: seq<RowId>, take: nat)
    requires IsPage(Matching(table, q, cursor), take, page) && page == [] && take > 0
    ensures Matching(table, q, cursor) == {}
  {
  }

  /** Each full page leaves less to read; a short one leaves nothing. */
  lemma PageShrinksRest(table: Table, q: Query, cursor: Option<RowId>, page: seq<RowId>, take: nat)
    requires IsPage(Matching(table, q, cursor), take, page) && |page| > 0
    ensures var rest := Matching(table, q, Some(page[|page| - 1]));
            |rest| < |Matching(table, q, cursor)| && (|page| < take ==> rest == {})
  {
    var last := page[|page| - 1];
    PageAdvances(table, q, cursor, page, take);
    SubsetSize(Matching(table, q, Some(last)), Matching(table, q, cursor) - {last});
  }

  lemma AppendPage(table: Table, q: Query, cursor: Option<RowId>, records: seq<RowId>, page: seq<RowId>, take: nat)
    requires Collected(table, q, cursor, records)
    requires IsPage(Matching(table, q, cursor), take, page) && |page| > 0
    ensures Collected(table, q, Some(page[|page| - 1]), records + page)
  {
    var last := page[|page| - 1];
    var all, rest := Matching(table, q, None), Matching(table, q, cursor);
    PageAdvances(table, q, cursor, page, take);
    AscendingConcat(table, q, cursor, records, page);
    ElementsConcat(records, page);
    assert (all - rest) + Elements(page) == all - (rest - Elements(page)) by {
      assert Elements(page) <= rest <= all;
    }
    forall id | id in records + page
      ensures id.rank <= last.rank
    {
      if id in records {
        assert page[|page| - 1] in rest;
      }
    }
  }

  lemma ElementsConcat(a: seq<RowId>, b: seq<RowId>)
    ensures Elements(a + b) == Elements(a) + Elements(b)
  {
  }

  lemma AscendingConcat(table: Table, q: Query, cursor: Option<RowId>, records: seq<RowId>, page: seq<RowId>)
    requires Ascending(records) && Ascending(page)
    requires forall id :: id in records ==> cursor.Some? && id.rank <= cursor.value.rank
    requires forall id :: id in page ==> id in Matching(table, q, cursor)
    ensures Ascending(records + page)
  {
    forall i, j | 0 <= i < |records| && 0 <= j < |page|
      ensures records[i].rank < page[j].rank
    {
      assert page[j] in Matching(table, q, cursor);
      assert records[i] in records;
    }
  }

  lemma CollectedSize(table: Table, q: Query, cursor: Option<RowId>, records: seq<RowId>)
    requires Collected(table, q, cursor, records)
    ensures |records| <= |Matching(table, q, None)|
  {
    DistinctCount(records);
    SubsetSize(Elements(records), Matching(table, q, None));
  }

  /** Behind the last id of a page lie exactly the matching rows that are not on it. */
  lemma PageAdvances(table: Table, q: Query, cursor: Option<RowId>, page: seq<RowId>, take: nat)
    requires IsPage(Matching(table, q, cursor), take, page) && |page| > 0
    ensures var last := page[|page| - 1];
            && Matching(table, q, Some(last)) == Matching(table, q, cursor) - Elements(page)
            && last in Matching(table, q, cursor)
            && forall id :: id in page ==> id.rank <= last.rank
  {
    var last := page[|page| - 1];
    assert forall id :: id in page ==> id.rank <= last.rank;
    forall id | id in Matching(table, q, cursor) && id !in page
      ensures last.rank < id.rank
    {
      assert last in page;
    }
  }

  lemma SubsetSize(a: set<RowId>, b: set<RowId>)
    requires a <= b
    ensures |a| <= |b|
  {
    if a != {} {
      var x :| x in a;
      SubsetSize(a - {x}, b - {x});
    }
  }

  lemma {:induction false} DistinctCount(ids: seq<RowId>)
    requires Ascending(ids)
    ensures |Elements(ids)| == |ids|
  {
    if ids != [] {
      var init := ids[..|ids| - 1];
      DistinctCount(init);
      assert Elements(ids) == Elements(init) + {ids[|ids| - 1]};
    } else {
      assert Elements(ids) == {};
    }
  }

  /** Two collections of one unchanging table are the same sequence: page boundaries do not show. */
  lemma {:induction false} AscendingUnique(a: seq<RowId>, b: seq<RowId>)
    requires Ascending(a) && Ascending(b) && Elements(a) == Elements(b)
    ensures a == b
  {
    DistinctCount(a);
    DistinctCount(b);
    if a != [] {
      var x, y := a[|a| - 1], b[|b| - 1];
      assert x in Elements(b) && y in Elements(a);
      assert x == y;
      assert Elements(a[..|a| - 1]) == Elements(a) - {x};
      assert Elements(b[..|b| - 1]) == Elements(b) - {y};
      AscendingUnique(a[..|a| - 1], b[..|b| - 1]);
      assert a == a[..|a| - 1] + [x] && b == b[..|b| - 1] + [y];
    }
  }

  // -------------------------------------------------------------------------- summaries

  function LabelOf(record: map<string, string>, field: string): string {
    if field in record then record[field] else "NONE"
  }

  function Labels(records: seq<map<string, string>>, field: string): (labels: seq<string>)
    ensures |labels| == |records|
  {
    seq(|records|, i requires 0 <= i < |records| => LabelOf(records[i], field))
  }

  function Increment(counts: map<string, nat>, group: string): map<string, nat> {
    counts[group := (if group in counts then counts[group] else 0) + 1]
  }

  /** How many of these labels fall into each group. */
  function Counts(labels: seq<string>): map<string, nat> {
    if labels == [] then map[]
    else Increment(Counts(labels[..|labels| - 1]), labels[|labels| - 1])
  }

  /** Counts records by a field; records without it count under NONE. */
  method CountBy(records: seq<map<string, string>>, field: string)
    returns (result: map<string, nat>, ghost labels: seq<string>)
    ensures result == Counts(Labels(records, field))
    ensures |labels| == |records|
    ensures forall k :: 0 <= k < |records| ==>
              labels[k] == if field in records[k] then records[k][field] else "NONE"
    ensures forall group :: group in result <==> group in labels
    ensures forall group :: group in result ==> result[group] == multiset(labels)[group]
  {
    result := map[];
    for k := 0 to |records|
      invariant result == Counts(Labels(records[..k], field))
    {
      var group := LabelOf(records[k], field);
      assert Labels(records[..k + 1], field)[..k] == Labels(records[..k], field);
      var n := if group in result then result[group] else 0;
      result := result[group := n + 1];
    }
    assert records[..|records|] == records;
    labels := Labels(records, field);
    forall group
      ensures group in result <==> group in labels
      ensures group in labels ==> result[group] == multiset(labels)[group]
    {
      CountsAreOccurrences(labels, group);
    }
  }

  /** The groups are exactly the labels that occur, each with its number of occurrences. */
  lemma {:induction false} CountsAreOccurrences(labels: seq<string>, group: string)
    ensures group in Counts(labels) <==> group in labels
    ensures group in labels ==> Counts(labels)[group] == multiset(labels)[group]
  {
    if labels != [] {
      var init, last := labels[..|labels| - 1], labels[|labels| - 1];
      assert labels == init + [last];
      CountsAreOccurrences(init, group);
    }
  }

  /** Whatever a summary is broken down by, its counts add up to the number of records. */
  lemma {:induction false} CountsAddUp(labels: seq<string>)
    ensures Total(Counts(labels)) == |labels|
  {
    if labels != [] {
      var init, last := labels[..|labels| - 1], labels[|labels| - 1];
      CountsAddUp(init);
      TotalUpdate(Counts(init), last, (if last in Counts(init) then Counts(init)[last] else 0) + 1);
    }
  }

  ghost function Total(counts: map<string, nat>): nat
    decreases |counts|
  {
    if counts == map[] then 0
    else
      var group :| group in counts;
      counts[group] + Total(counts - {group})
  }

  lemma {:induction false} TotalWithout(counts: map<string, nat>, group: string)
    requires group in counts
    ensures Total(counts) == counts[group] + Total(counts - {group})
    decreases |counts|
  {
    var first :| first in counts && Total(counts) == counts[first] + Total(counts - {first});
    if first != group {
      TotalWithout(counts - {first}, group);
      TotalWithout(counts - {group}, first);
      assert counts - {first} - {group} == counts - {group} - {first};
    }
  }

  lemma TotalUpdate(counts: map<string, nat>, group: string, n: nat)
    ensures Total(counts[group := n]) == Total(counts) - (if group in counts then counts[group] else 0) + n
  {
    var counts' := counts[group := n];
    TotalWithout(counts', group);
    assert counts' - {group} == counts - {group};
    if group in counts {
      TotalWithout(counts, group);
    } else {
      assert counts - {group} == counts;
    }
  }
}
