/** Manifest paging: the server's page arithmetic and the client's cursor loop. */
module Paging {
  import opened Options
  import opened Manifest

  /** A query parameter after strconv.Atoi: missing, not a number, or a number. */
  datatype Param = Absent | Garbage | Num(value: int)

  const MAX_PAGE_SIZE := 20000

  function PageSize(configured: nat, q: Param): (size: nat)
    ensures configured > 0 ==> size > 0
  {
    if q.Num? && 0 < q.value <= MAX_PAGE_SIZE then q.value else configured
  }

  function Cursor(total: nat, q: Param): nat
  {
    var i := if q.Num? && q.value >= 0 then q.value else 0;
    if i > total then total else i
  }

  lemma SliceOfRest(entries: seq<Entry>, from: nat, end: nat)
    requires from <= end <= |entries|
    ensures entries[from..end] <= entries[from..] && entries[from..][..end - from] == entries[from..end]
  {
    assert entries[from..] == entries[from..end] + entries[end..];
  }

  /** handleManifest: entries from the cursor on, and the next cursor unless the end is reached. */
  method ServePage(entries: seq<Entry>, configured: nat, pageSize: Param, cursor: Param)
      returns (page: seq<Entry>, next: Param)
    ensures var from, size := Cursor(|entries|, cursor), PageSize(configured, pageSize);
            && page <= entries[from..] && |page| <= size
            && (next == Absent ==> from + |page| == |entries|)
            && (next != Absent ==> |page| == size && next == Num(from + size) && from + size < |entries|)
    ensures !(cursor.Num? && cursor.value >= 0) ==> page == entries[..|page|]
    ensures cursor.Num? && 0 <= cursor.value <= |entries| ==>
              cursor.value + |page| <= |entries| && page == entries[cursor.value..cursor.value + |page|]
    ensures cursor.Num? && cursor.value > |entries| ==> page == [] && next == Absent
    ensures pageSize.Num? && 1 <= pageSize.value <= 20000 ==> |page| == pageSize.value || next == Absent
    ensures pageSize.Num? && 1 <= pageSize.value <= 20000 ==> |page| <= pageSize.value
    ensures !(pageSize.Num? && 1 <= pageSize.value <= 20000) ==> |page| <= configured
    ensures !(pageSize.Num? && 1 <= pageSize.value <= 20000) ==> |page| == configured || next == Absent
  {
    var size := PageSize(configured, pageSize);
    var from := Cursor(|entries|, cursor);
    var end := from + size;
    if end > |entries| {
      end := |entries|;
    }
    next := if end < |entries| then Num(end) else Absent;
    page := entries[from..end];
    SliceOfRest(entries, from, end);
  }

  /** One request as the client's loop uses it. */
  method FetchPage(entries: seq<Entry>, configured: nat, pageSize: Param, cursor: Param)
      returns (page: seq<Entry>, next: Param)
    ensures var from, size := Cursor(|entries|, cursor), PageSize(configured, pageSize);
            && page <= entries[from..] && |page| <= size
            && (next == Absent ==> from + |page| == |entries|)
            && (next != Absent ==> |page| == size && next == Num(from + size) && from + size < |entries|)
  {
    page, next := ServePage(entries, configured, pageSize, cursor);
  }

  /** Requests still needed when the k-th one asks from `from` on and `ask` names the page sizes. */
  function Requests(total: nat, configured: nat, ask: nat -> Param, k: nat, from: nat): nat
    requires configured > 0
    decreases total - from
  {
    var size := PageSize(configured, ask(k));
    if from + size < total then 1 + Requests(total, configured, ask, k + 1, from + size) else 1
  }

  function Concat(pages: seq<seq<Entry>>): seq<Entry>
  {
    if pages == [] then [] else Concat(pages[..|pages| - 1]) + pages[|pages| - 1]
  }

  lemma NextPage(entries: seq<Entry>, from: nat, page: seq<Entry>)
    requires from <= |entries| && page <= entries[from..]
    ensures entries[..from] + page == entries[..from + |page|]
  {
    assert entries[from..][..|page|] == page;
  }

  /** Those after the last one, whose answer named the next cursor or none. */
  function Left(total: nat, configured: nat, ask: nat -> Param, k: nat, from: nat, next: Param): nat
    requires configured > 0
  {
    if next == Absent then 0 else Requests(total, configured, ask, k, from)
  }

  lemma AfterPage(total: nat, configured: nat, ask: nat -> Param, k: nat, from: nat, got: nat, next: Param)
    requires configured > 0 && from + got <= total && got <= PageSize(configured, ask(k))
    requires next == Absent ==> from + got == total
    requires next != Absent ==> got == PageSize(configured, ask(k)) && next == Num(from + got) && from + got < total
    ensures Requests(total, configured, ask, k, from) == 1 + Left(total, configured, ask, k + 1, from + got, next)
    ensures next != Absent ==> Cursor(total, next) == from + got
  {
  }

  /** fetchManifest: `ask(k)` is the page size the k-th request names, `served(k)` whether it is answered at all. */
  method FetchManifest(entries: seq<Entry>, configured: nat, ask: nat -> Param, served: nat -> bool)
      returns (r: Result<map<string, Entry>, nat>, requests: nat, ghost pages: seq<seq<Entry>>)
    requires configured > 0
    ensures r.Ok? ==> r.value == ByPath(entries) && Concat(pages) == entries
    ensures r.Ok? ==> |pages| == requests == Requests(|entries|, configured, ask, 0, 0)
    ensures r.Ok? ==> forall k | 0 <= k < requests :: served(k)
    ensures r.Err? ==> !served(r.error) && r.error < Requests(|entries|, configured, ask, 0, 0)
  {
    ghost var total := Requests(|entries|, configured, ask, 0, 0);
    var out: map<string, Entry> := map[];
    var cursor := Absent;
    requests := 0;
    pages := [];
    ghost var from: nat := 0;
    ghost var left := total;
    var done := false;
    while !done
      invariant from <= |entries|
      invariant !done ==> Cursor(|entries|, cursor) == from
      invariant out == ByPath(entries[..from])
      invariant Concat(pages) == entries[..from] && |pages| == requests
      invariant forall k | 0 <= k < requests :: served(k)
      invariant left == if done then 0 else Requests(|entries|, configured, ask, requests, from)
      invariant requests + left == total && (done ==> from == |entries|)
      decreases if done then 0 else 1, |entries| - from
    {
      assert left > 0;
      if !served(requests) {
        return Err(requests), requests, pages;
      }
      var page, next := FetchPage(entries, configured, ask(requests), cursor);
      AfterPage(|entries|, configured, ask, requests, from, |page|, next);
      left := Left(|entries|, configured, ask, requests + 1, from + |page|, next);
      out := Merge(out, entries, from, page);
      pages := Append(pages, entries, from, page);
      requests, from := requests + 1, from + |page|;
      done, cursor := next == Absent, next;
    }
    assert entries[..|entries|] == entries;
    r := Ok(out);
  }

  lemma ByPathNext(es: seq<Entry>, e: Entry)
    ensures ByPath(es + [e]) == ByPath(es)[e.path := e]
  {
    assert (es + [e])[..|es|] == es;
  }

  /** The client's inner loop over one page. */
  method Merge(out0: map<string, Entry>, ghost entries: seq<Entry>, ghost from: nat, page: seq<Entry>)
      returns (out: map<string, Entry>)
    requires from <= |entries| && page <= entries[from..] && out0 == ByPath(entries[..from])
    ensures out == ByPath(entries[..from + |page|])
  {
    out := out0;
    for j := 0 to |page|
      invariant out == ByPath(entries[..from + j])
    {
      assert page[j] == entries[from..][j] == entries[from + j];
      assert entries[..from + j + 1] == entries[..from + j] + [page[j]];
      ByPathNext(entries[..from + j], page[j]);
      out := out[page[j].path := page[j]];
    }
  }

  ghost function Append(pages: seq<seq<Entry>>, entries: seq<Entry>, from: nat,
                        page: seq<Entry>): (r: seq<seq<Entry>>)
    requires from <= |entries| && page <= entries[from..] && Concat(pages) == entries[..from]
    ensures Concat(r) == entries[..from + |page|] && |r| == |pages| + 1
  {
    assert (pages + [page])[..|pages|] == pages;
    NextPage(entries, from, page);
    pages + [page]
  }

  /** With one page size throughout, the loop takes max(1, ceil(n / size)) requests: r of them, where
      (r - 1) * size < n <= r * size. */
  lemma {:induction false} ConstantSizeRequests(total: nat, configured: nat, ask: nat -> Param, size: nat, k: nat,
                                                from: nat)
    requires configured > 0 && forall i :: PageSize(configured, ask(i)) == size
    requires from <= total
    ensures var r := Requests(total, configured, ask, k, from);
            if total == from then r == 1 else (r - 1) * size < total - from <= r * size
    decreases total - from
  {
    assert PageSize(configured, ask(k)) == size;
    if from + size < total {
      ConstantSizeRequests(total, configured, ask, size, k + 1, from + size);
      var r := Requests(total, configured, ask, k + 1, from + size);
      Distribute(r, size);
    }
  }

  lemma Distribute(r: nat, size: nat)
    ensures (r + 1) * size == r * size + size
  {
  }
}
