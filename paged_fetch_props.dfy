/** What the paged GET promises: the merge does not depend on the order in which
    pages arrive, a failed page never lets the merge through, and a truncated later
    page is counted without being stored. The callbacks as the code has them make
    the same calls with every error of pages 2..N dropped. */
module PagedFetchProps {
  import opened Wrappers
  import opened PagedFetch

  lemma {:induction false} MergeFilled<T>(slots: seq<Option<seq<T>>>, pages: seq<seq<T>>, u: T)
    requires |slots| == |pages|
    requires forall q :: 0 <= q < |slots| ==> slots[q] == Some(pages[q])
    ensures Merge(slots, u) == Concat(pages)
    decreases |slots|
  {
    if slots != [] {
      MergeFilled(slots[1..], pages[1..], u);
    }
  }

  predicate InRange(order: seq<int>, n: int)
  {
    forall i :: 0 <= i < |order| ==> 2 <= order[i] <= n
  }

  /** The complete, untruncated responses to the requests `order`, in that order. */
  function Responses<T>(pages: seq<seq<T>>, order: seq<int>): (r: seq<Arrival<T>>)
    requires InRange(order, |pages|)
    ensures |r| == |order| && PagesFrom2(r)
    ensures forall i :: 0 <= i < |r| ==> r[i] == Arrival(order[i], Done(pages[order[i] - 1], false))
  {
    seq(|order|, i requires 0 <= i < |order| => Arrival(order[i], Done(pages[order[i] - 1], false)))
  }

  /** `data_arr` holds page 1 and every page of `seen`, and holes elsewhere. */
  ghost predicate SlotsHold<T>(slots: seq<Option<seq<T>>>, pages: seq<seq<T>>, seen: seq<int>)
  {
    1 <= |slots| <= |pages| && slots[0] == Some(pages[0])
    && (forall q :: 1 <= q < |slots| ==> slots[q] == if q + 1 in seen then Some(pages[q]) else None)
    && (forall p :: p in seen ==> 2 <= p <= |slots|)
  }

  /** Storing page `p` keeps `data_arr` in step with the pages seen. */
  lemma StoreSeen<T>(slots: seq<Option<seq<T>>>, pages: seq<seq<T>>, seen: seq<int>, p: int)
    requires SlotsHold(slots, pages, seen) && 2 <= p <= |pages|
    ensures SlotsHold(Store(slots, p - 1, pages[p - 1]), pages, seen + [p])
  {
    var r := Store(slots, p - 1, pages[p - 1]);
    assert forall x :: x in seen + [p] <==> x in seen || x == p;
    forall q | 1 <= q < |r|
      ensures r[q] == if q + 1 in seen + [p] then Some(pages[q]) else None
    {
      if q != p - 1 && q >= |slots| {
        assert q + 1 !in seen;
      }
    }
  }

  /** One more complete page arrives while the count is still short of N. */
  lemma ArriveComplete<T>(cfg: Config<T>, pages: seq<seq<T>>, prev: Loader<T>, seen: seq<int>, p: int)
    requires cfg.totalPages == |pages| && 1 + |seen| < |pages| && 2 <= p <= |pages|
    requires prev.count == 1 + |seen| && SlotsHold(prev.slots, pages, seen) && prev.outputs == []
    ensures var s := Arrive(cfg, prev, Arrival(p, Done(pages[p - 1], false)));
      s.count == 2 + |seen| && SlotsHold(s.slots, pages, seen + [p])
      && s.outputs == if 2 + |seen| == |pages| then [Delivered(Merge(s.slots, cfg.undefined))] else []
  {
    StoreSeen(prev.slots, pages, seen, p);
  }

  lemma {:induction false} RunWithoutTruncation<T>(cfg: Config<T>, pages: seq<seq<T>>, order: seq<int>)
    requires cfg.totalPages == |pages| >= 2
    requires InRange(order, |pages|) && |order| <= |pages| - 1
    ensures var s := Run(cfg, Start(pages[0]), Responses(pages, order));
      s.count == 1 + |order| && SlotsHold(s.slots, pages, order)
      && s.outputs == if 1 + |order| == |pages| then [Delivered(Merge(s.slots, cfg.undefined))] else []
    decreases |order|
  {
    if order == [] {
      assert SlotsHold([Some(pages[0])], pages, order);
    } else {
      var init := order[..|order| - 1];
      var p := order[|order| - 1];
      assert order == init + [p];
      var rs := Responses(pages, order);
      assert rs[..|order| - 1] == Responses(pages, init);
      assert rs[|order| - 1] == Arrival(p, Done(pages[p - 1], false));
      RunWithoutTruncation(cfg, pages, init);
      ArriveComplete(cfg, pages, Run(cfg, Start(pages[0]), Responses(pages, init)), init, p);
    }
  }

  lemma AllPagesMerged<T>(cfg: Config<T>, pages: seq<seq<T>>, order: seq<int>)
    requires cfg.totalPages == |pages| >= 2
    requires |order| == |pages| - 1 && InRange(order, |pages|)
    requires forall p :: 2 <= p <= |pages| ==> p in order
    ensures Run(cfg, Start(pages[0]), Responses(pages, order)).outputs == [Delivered(Concat(pages))]
  {
    RunWithoutTruncation(cfg, pages, order);
    var s := Run(cfg, Start(pages[0]), Responses(pages, order));
    assert |pages| in order;
    forall q | 1 <= q < |s.slots|
      ensures s.slots[q] == Some(pages[q])
    {
      assert q + 1 in order;
    }
    MergeFilled(s.slots, pages, cfg.undefined);
  }

  lemma InRangePrefix(order: seq<int>, n: int, k: int)
    requires InRange(order, n) && 0 <= k <= |order|
    ensures InRange(order[..k], n)
  {
    forall i | 0 <= i < k
      ensures 2 <= order[..k][i] <= n
    {
      assert order[..k][i] == order[i];
    }
  }

  /** Until the last of pages 2..N has arrived, nothing reaches the caller. */
  lemma PrefixesSilent<T>(cfg: Config<T>, pages: seq<seq<T>>, order: seq<int>)
    requires cfg.totalPages == |pages| >= 2
    requires |order| == |pages| - 1 && InRange(order, |pages|)
    ensures forall k :: 0 <= k < |order| ==>
              Run(cfg, Start(pages[0]), Responses(pages, order[..k])).outputs == []
  {
    forall k | 0 <= k < |order|
      ensures Run(cfg, Start(pages[0]), Responses(pages, order[..k])).outputs == []
    {
      InRangePrefix(order, |pages|, k);
      RunWithoutTruncation(cfg, pages, order[..k]);
    }
  }

  /** Pages 2..N, each complete, arriving in any order: the caller gets exactly one
      callback, after the last of them, with all pages concatenated in page order. */
  lemma MergeInAnyOrder<T>(path: Option<string>, pages: seq<seq<T>>, order: seq<int>, u: T)
    requires |pages| >= 2
    requires |order| == |pages| - 1 && InRange(order, |pages|)
    requires forall p :: 2 <= p <= |pages| ==> p in order
    ensures GetOutcomes(path, Done(pages[0], false), Some(|pages|), Responses(pages, order), u)
            == [Delivered(Concat(pages))]
    ensures forall k :: 0 <= k < |order| ==>
              Run(Config(IsTreesPath(path), |pages|, u), Start(pages[0]), Responses(pages, order[..k])).outputs == []
  {
    var cfg := Config(IsTreesPath(path), |pages|, u);
    AllPagesMerged(cfg, pages, order);
    assert GetOutcomes(path, Done(pages[0], false), Some(|pages|), Responses(pages, order), u)
           == Run(cfg, Start(pages[0]), Responses(pages, order)).outputs;
    PrefixesSilent(cfg, pages, order);
  }

  /** The code as written merges in any order too: with no error to drop, its one
      callback is the concatenation of all pages. */
  lemma MergeInAnyOrderAsWritten<T>(path: Option<string>, pages: seq<seq<T>>, order: seq<int>, u: T)
    requires |pages| >= 2
    requires |order| == |pages| - 1 && InRange(order, |pages|)
    requires forall p :: 2 <= p <= |pages| ==> p in order
    ensures GetOutcomesAsWritten(path, Done(pages[0], false), Some(|pages|), Responses(pages, order), u)
            == [Delivered(Concat(pages))]
  {
    MergeInAnyOrder(path, pages, order, u);
    PagedAsWritten(path, pages[0], |pages|, Responses(pages, order), u);
    OnlyDeliveredAppend([], Delivered(Concat(pages)));
  }

  /** How many of the arrivals are `.done` callbacks. */
  function DoneCount<T>(arrivals: seq<Arrival<T>>): nat
    decreases |arrivals|
  {
    if arrivals == [] then 0
    else DoneCount(arrivals[..|arrivals| - 1]) + (if arrivals[|arrivals| - 1].response.Done? then 1 else 0)
  }

  lemma {:induction false} DoneCountAtMost<T>(arrivals: seq<Arrival<T>>)
    ensures DoneCount(arrivals) <= |arrivals|
    decreases |arrivals|
  {
    if arrivals != [] {
      DoneCountAtMost(arrivals[..|arrivals| - 1]);
    }
  }

  lemma {:induction false} DoneCountWithFailure<T>(arrivals: seq<Arrival<T>>, i: int)
    requires 0 <= i < |arrivals| && arrivals[i].response.Failed?
    ensures DoneCount(arrivals) < |arrivals|
    decreases |arrivals|
  {
    var init := arrivals[..|arrivals| - 1];
    if i == |arrivals| - 1 {
      DoneCountAtMost(init);
    } else {
      assert init[i] == arrivals[i];
      DoneCountWithFailure(init, i);
    }
  }

  /** Only `.done` callbacks move `count`; while it stays below N nothing is merged. */
  lemma {:induction false} ShortRunNeverMerges<T>(cfg: Config<T>, d0: seq<T>, arrivals: seq<Arrival<T>>)
    requires PagesFrom2(arrivals)
    requires DoneCount(arrivals) < cfg.totalPages - 1
    ensures Run(cfg, Start(d0), arrivals).count == 1 + DoneCount(arrivals)
    ensures forall o :: o in Run(cfg, Start(d0), arrivals).outputs ==> o.Error?
    decreases |arrivals|
  {
    if arrivals != [] {
      ShortRunNeverMerges(cfg, d0, arrivals[..|arrivals| - 1]);
    }
  }

  lemma {:induction false} OutputsOnlyGrow<T>(cfg: Config<T>, s: Loader<T>, arrivals: seq<Arrival<T>>, k: int)
    requires PagesFrom2(arrivals) && 0 <= k <= |arrivals|
    ensures Run(cfg, s, arrivals[..k]).outputs <= Run(cfg, s, arrivals).outputs
    decreases |arrivals|
  {
    if k < |arrivals| {
      var init := arrivals[..|arrivals| - 1];
      assert arrivals[..k] == init[..k];
      OutputsOnlyGrow(cfg, s, init, k);
    } else {
      assert arrivals[..k] == arrivals;
    }
  }

  /** The callbacks of pages 2..N with one failed page among them. */
  lemma {:induction false} FailedPageReported<T>(cfg: Config<T>, d0: seq<T>, arrivals: seq<Arrival<T>>, i: int)
    requires PagesFrom2(arrivals) && |arrivals| <= cfg.totalPages - 1
    requires 0 <= i < |arrivals| && arrivals[i].response.Failed?
    ensures Error(arrivals[i].response.status) in Run(cfg, Start(d0), arrivals).outputs
    ensures forall o :: o in Run(cfg, Start(d0), arrivals).outputs ==> o.Error?
  {
    DoneCountWithFailure(arrivals, i);
    ShortRunNeverMerges(cfg, d0, arrivals);
    OutputsOnlyGrow(cfg, Start(d0), arrivals, i + 1);
    assert arrivals[..i + 1][..i] == arrivals[..i];
    var before := Run(cfg, Start(d0), arrivals[..i + 1]).outputs;
    assert before[|before| - 1] == Error(arrivals[i].response.status);
  }

  /** A page whose request fails: its status is reported and no merged result is
      ever delivered, whatever the other pages do. */
  lemma FailedPageNeverMerges<T>(path: Option<string>, d0: seq<T>, n: int, arrivals: seq<Arrival<T>>,
                                 i: int, u: T)
    requires n >= 2 && |arrivals| <= n - 1
    requires forall j :: 0 <= j < |arrivals| ==> 2 <= arrivals[j].page <= n
    requires 0 <= i < |arrivals| && arrivals[i].response.Failed?
    ensures Error(arrivals[i].response.status) in GetOutcomes(path, Done(d0, false), Some(n), arrivals, u)
    ensures forall o :: o in GetOutcomes(path, Done(d0, false), Some(n), arrivals, u) ==> o.Error?
  {
    var cfg := Config(IsTreesPath(path), n, u);
    FailedPageReported(cfg, d0, arrivals, i);
    assert GetOutcomes(path, Done(d0, false), Some(n), arrivals, u) == Run(cfg, Start(d0), arrivals).outputs;
  }

  predicate HasDelivery<T>(outputs: seq<Outcome<T>>)
  {
    exists k :: 0 <= k < |outputs| && outputs[k].Delivered?
  }

  predicate AtMostOneDelivery<T>(outputs: seq<Outcome<T>>)
  {
    forall i, j :: 0 <= i < |outputs| && 0 <= j < |outputs| && outputs[i].Delivered? && outputs[j].Delivered?
      ==> i == j
  }

  lemma {:induction false} DeliveryOnlyAtN<T>(cfg: Config<T>, d0: seq<T>, arrivals: seq<Arrival<T>>)
    requires PagesFrom2(arrivals)
    ensures var s := Run(cfg, Start(d0), arrivals);
      s.count >= 1 && (HasDelivery(s.outputs) ==> s.count >= cfg.totalPages) && AtMostOneDelivery(s.outputs)
    decreases |arrivals|
  {
    if arrivals != [] {
      var init := arrivals[..|arrivals| - 1];
      DeliveryOnlyAtN(cfg, d0, init);
      var prev := Run(cfg, Start(d0), init);
      var s := Run(cfg, Start(d0), arrivals);
      if s.outputs != prev.outputs {
        var extra := s.outputs[|s.outputs| - 1];
        assert s.outputs == prev.outputs + [extra];
        if extra.Delivered? {
          assert !HasDelivery(prev.outputs);
        }
      }
    }
  }

  /** However the responses arrive, the caller is handed at most one merged result. */
  lemma AtMostOneMergedResult<T>(path: Option<string>, first: Response<T>, totalPages: Option<int>,
                                 arrivals: seq<Arrival<T>>, u: T)
    requires ArrivalsRequested(path, first, totalPages, arrivals)
    ensures AtMostOneDelivery(GetOutcomes(path, first, totalPages, arrivals, u))
  {
    if first.Done? && !(IsTreesPath(path) && first.truncated) && IsPaged(totalPages) {
      DeliveryOnlyAtN(Config(IsTreesPath(path), totalPages.value, u), first.data, arrivals);
    }
  }

  /** A single page, or a first page without `X-Total-Pages > 1`, is handed over as is;
      a truncated first tree page and a failed first request are reported. */
  lemma FirstResponseDecides<T>(path: Option<string>, first: Response<T>, totalPages: Option<int>, u: T)
    ensures first.Failed? ==> GetOutcomes(path, first, totalPages, [], u) == [Error(first.status)]
    ensures first.Done? && IsTreesPath(path) && first.truncated ==>
              GetOutcomes(path, first, totalPages, [], u) == [Error(TruncatedStatus)]
    ensures first.Done? && !(IsTreesPath(path) && first.truncated) && !IsPaged(totalPages) ==>
              GetOutcomes(path, first, totalPages, [], u) == [Delivered(first.data)]
    ensures !first.Done? || (IsTreesPath(path) && first.truncated) || !IsPaged(totalPages) ==>
              |GetOutcomes(path, first, totalPages, [], u)| == 1
  {
  }

  const TreesPath: Option<string> := Some("/git/trees/main")

  lemma MergeOfThree<T>(p1: seq<T>, p2: seq<T>, p3: seq<T>, u: T)
    ensures Merge([Some(p1), None, Some(p3)], u) == p1 + [u] + p3
    ensures Merge([Some(p1), Some(p2)], u) == p1 + p2
  {
    var h: seq<Option<seq<T>>> := [Some(p1), None, Some(p3)];
    assert h[1..] == [None, Some(p3)] && h[1..][1..] == [Some(p3)] && [Some(p3)][1..] == [];
    calc {
      Merge(h, u);
      p1 + Merge(h[1..], u);
      p1 + ([u] + Merge(h[1..][1..], u));
      p1 + ([u] + (p3 + Merge([], u)));
      p1 + [u] + p3;
    }
    var g: seq<Option<seq<T>>> := [Some(p1), Some(p2)];
    assert g[1..] == [Some(p2)] && [Some(p2)][1..] == [];
    calc {
      Merge(g, u);
      p1 + Merge(g[1..], u);
      p1 + (p2 + Merge([], u));
      p1 + p2;
    }
  }

  /** A truncated page other than the first is reported, and yet counted: three pages,
      page 2 truncated. Arriving before page 3 it leaves a hole that is merged as
      `undefined`; arriving after page 3 it leaves the merge unreached. */
  lemma TruncatedMiddlePage<T>(p1: seq<T>, p2: seq<T>, p3: seq<T>, u: T)
    ensures GetOutcomes(TreesPath, Done(p1, false), Some(3),
                        [Arrival(2, Done(p2, true)), Arrival(3, Done(p3, false))], u)
            == [Error(TruncatedStatus), Delivered(p1 + [u] + p3)]
    ensures GetOutcomes(TreesPath, Done(p1, false), Some(3),
                        [Arrival(3, Done(p3, false)), Arrival(2, Done(p2, true))], u)
            == [Error(TruncatedStatus)]
  {
    assert TreesPath.value[..|TreesPrefix|] == TreesPrefix;
    var cfg := Config(true, 3, u);
    var s0 := Start(p1);
    var a2 := Arrival(2, Done(p2, true));
    var a3 := Arrival(3, Done(p3, false));
    assert [a2, a3][..1] == [a2] && [a3, a2][..1] == [a3] && [a2][..0] == [] && [a3][..0] == [];
    var s1 := Arrive(cfg, s0, a2);
    assert s1 == Loader([Some(p1)], 2, [Error(TruncatedStatus)]);
    assert Run(cfg, s0, [a2]) == s1;
    assert Store(s1.slots, 2, p3) == [Some(p1), None, Some(p3)];
    MergeOfThree(p1, p2, p3, u);
    var t1 := Arrive(cfg, s0, a3);
    assert Run(cfg, s0, [a3]) == t1;
    assert t1.outputs == [] && t1.count == 2;
  }

  /** Page 3 of three truncated and arriving first: the later page 2 completes the
      count, and the merge drops page 3 without a trace. */
  lemma TruncatedLastPage<T>(p1: seq<T>, p2: seq<T>, p3: seq<T>, u: T)
    ensures GetOutcomes(TreesPath, Done(p1, false), Some(3),
                        [Arrival(3, Done(p3, true)), Arrival(2, Done(p2, false))], u)
            == [Error(TruncatedStatus), Delivered(p1 + p2)]
  {
    assert TreesPath.value[..|TreesPrefix|] == TreesPrefix;
    var cfg := Config(true, 3, u);
    var s0 := Start(p1);
    var a3 := Arrival(3, Done(p3, true));
    var a2 := Arrival(2, Done(p2, false));
    assert [a3, a2][..1] == [a3] && [a3][..0] == [];
    var s1 := Arrive(cfg, s0, a3);
    assert s1 == Loader([Some(p1)], 2, [Error(TruncatedStatus)]);
    assert Run(cfg, s0, [a3]) == s1;
    assert Store(s1.slots, 1, p2) == [Some(p1), Some(p2)];
    MergeOfThree(p1, p2, p3, u);
  }

  /** The callbacks made once those that report an error are dropped. */
  function OnlyDelivered<T>(os: seq<Outcome<T>>): (ds: seq<Outcome<T>>)
    ensures |ds| <= |os|
    ensures forall k :: 0 <= k < |ds| ==> ds[k].Delivered?
    decreases |os|
  {
    if os == [] then []
    else OnlyDelivered(os[..|os| - 1]) + (if os[|os| - 1].Delivered? then [os[|os| - 1]] else [])
  }

  lemma OnlyDeliveredAppend<T>(os: seq<Outcome<T>>, o: Outcome<T>)
    ensures OnlyDelivered(os + [o]) == OnlyDelivered(os) + (if o.Delivered? then [o] else [])
  {
    assert (os + [o])[..|os|] == os;
  }

  lemma {:induction false} OnlyDeliveredOfErrors<T>(os: seq<Outcome<T>>)
    requires forall o :: o in os ==> o.Error?
    ensures OnlyDelivered(os) == []
    decreases |os|
  {
    if os != [] {
      assert os[|os| - 1] in os;
      assert forall o :: o in os[..|os| - 1] ==> o in os;
      OnlyDeliveredOfErrors(os[..|os| - 1]);
    }
  }

  function Silenced<T>(s: Loader<T>): Loader<T>
  {
    s.(outputs := OnlyDelivered(s.outputs))
  }

  /** One callback as written keeps the same buffer and count as the reporting one,
      and makes the same call unless that call reports an error. */
  lemma ArriveSilenced<T>(cfg: Config<T>, s: Loader<T>, a: Arrival<T>)
    requires a.page >= 2
    ensures ArriveAsWritten(cfg, Silenced(s), a) == Silenced(Arrive(cfg, s, a))
  {
    match a.response
    case Failed(status) =>
      OnlyDeliveredAppend(s.outputs, Error(status));
    case Done(data, truncated) =>
      if cfg.treesPath && truncated {
        OnlyDeliveredAppend(s.outputs, Error(TruncatedStatus));
      } else {
        OnlyDeliveredAppend(s.outputs, Delivered(Merge(Store(s.slots, a.page - 1, data), cfg.undefined)));
      }
  }

  /** The callbacks as written keep the same buffer and count as the reporting ones,
      and make the same calls except the errors. */
  lemma {:induction false} AsWrittenDropsErrors<T>(cfg: Config<T>, s: Loader<T>, arrivals: seq<Arrival<T>>)
    requires PagesFrom2(arrivals)
    ensures RunAsWritten(cfg, Silenced(s), arrivals) == Silenced(Run(cfg, s, arrivals))
    decreases |arrivals|
  {
    if arrivals != [] {
      var n := |arrivals| - 1;
      var init := arrivals[..n];
      assert PagesFrom2(init) by {
        forall i | 0 <= i < |init|
          ensures init[i].page >= 2
        {
          assert init[i] == arrivals[i];
        }
      }
      AsWrittenDropsErrors(cfg, s, init);
      ArriveSilenced(cfg, Run(cfg, s, init), arrivals[n]);
    }
  }

  /** A whole `_get` as written: the first page's outcomes are unchanged, and a paged
      exchange makes the reporting exchange's calls without its errors. */
  lemma GetAsWrittenDropsErrors<T>(path: Option<string>, first: Response<T>, totalPages: Option<int>,
                                   arrivals: seq<Arrival<T>>, u: T)
    requires ArrivalsRequested(path, first, totalPages, arrivals)
    ensures GetOutcomesAsWritten(path, first, totalPages, arrivals, u)
            == if first.Done? && !(IsTreesPath(path) && first.truncated) && IsPaged(totalPages)
               then OnlyDelivered(GetOutcomes(path, first, totalPages, arrivals, u))
               else GetOutcomes(path, first, totalPages, arrivals, u)
  {
    if first.Done? && !(IsTreesPath(path) && first.truncated) && IsPaged(totalPages) {
      var cfg := Config(IsTreesPath(path), totalPages.value, u);
      AsWrittenDropsErrors(cfg, Start(first.data), arrivals);
      assert Silenced(Start(first.data)) == Start(first.data);
    }
  }

  /** As written, a paged `_get` with a failed page never calls back at all: the
      failure is not reported, and the count never reaches N. */
  lemma FailedPageSilent<T>(path: Option<string>, d0: seq<T>, n: int, arrivals: seq<Arrival<T>>,
                            i: int, u: T)
    requires n >= 2 && |arrivals| <= n - 1
    requires forall j :: 0 <= j < |arrivals| ==> 2 <= arrivals[j].page <= n
    requires 0 <= i < |arrivals| && arrivals[i].response.Failed?
    ensures GetOutcomesAsWritten(path, Done(d0, false), Some(n), arrivals, u) == []
  {
    FailedPageNeverMerges(path, d0, n, arrivals, i, u);
    GetAsWrittenDropsErrors(path, Done(d0, false), Some(n), arrivals, u);
    OnlyDeliveredOfErrors(GetOutcomes(path, Done(d0, false), Some(n), arrivals, u));
  }

  lemma OnlyDeliveredOfTwo<T>(x: seq<T>)
    ensures OnlyDelivered([Error(TruncatedStatus), Delivered(x)]) == [Delivered(x)]
    ensures OnlyDelivered<T>([Error(TruncatedStatus)]) == []
  {
    var e: Outcome<T> := Error(TruncatedStatus);
    var none: seq<Outcome<T>> := [];
    OnlyDeliveredAppend([e], Delivered(x));
    OnlyDeliveredAppend(none, e);
    assert [e] == none + [e];
  }

  /** An untruncated first page announcing `n` pages: as written, the callbacks are the
      reporting ones with the errors dropped. */
  lemma PagedAsWritten<T>(path: Option<string>, d0: seq<T>, n: int, arrivals: seq<Arrival<T>>, u: T)
    requires n >= 2
    requires forall j :: 0 <= j < |arrivals| ==> 2 <= arrivals[j].page <= n
    ensures GetOutcomesAsWritten(path, Done(d0, false), Some(n), arrivals, u)
            == OnlyDelivered(GetOutcomes(path, Done(d0, false), Some(n), arrivals, u))
  {
    GetAsWrittenDropsErrors(path, Done(d0, false), Some(n), arrivals, u);
  }

  /** As written, the truncated middle page of three is not reported: arriving first it
      still leaves a hole merged as `undefined`, arriving last it leaves no call at all. */
  lemma TruncatedMiddlePageAsWritten<T>(p1: seq<T>, p2: seq<T>, p3: seq<T>, u: T)
    ensures GetOutcomesAsWritten(TreesPath, Done(p1, false), Some(3),
                                 [Arrival(2, Done(p2, true)), Arrival(3, Done(p3, false))], u)
            == [Delivered(p1 + [u] + p3)]
    ensures GetOutcomesAsWritten(TreesPath, Done(p1, false), Some(3),
                                 [Arrival(3, Done(p3, false)), Arrival(2, Done(p2, true))], u)
            == []
  {
    var early := [Arrival(2, Done(p2, true)), Arrival(3, Done(p3, false))];
    var late := [Arrival(3, Done(p3, false)), Arrival(2, Done(p2, true))];
    TruncatedMiddlePage(p1, p2, p3, u);
    PagedAsWritten(TreesPath, p1, 3, early, u);
    PagedAsWritten(TreesPath, p1, 3, late, u);
    OnlyDeliveredOfTwo(p1 + [u] + p3);
  }

  /** As written, a truncated last page arriving first is dropped without a word. */
  lemma TruncatedLastPageAsWritten<T>(p1: seq<T>, p2: seq<T>, p3: seq<T>, u: T)
    ensures GetOutcomesAsWritten(TreesPath, Done(p1, false), Some(3),
                                 [Arrival(3, Done(p3, true)), Arrival(2, Done(p2, false))], u)
            == [Delivered(p1 + p2)]
  {
    var arrivals := [Arrival(3, Done(p3, true)), Arrival(2, Done(p2, false))];
    TruncatedLastPage(p1, p2, p3, u);
    PagedAsWritten(TreesPath, p1, 3, arrivals, u);
    OnlyDeliveredOfTwo(p1 + p2);
  }
}
