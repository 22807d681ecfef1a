/** The paged GET of the adapter (`_get` and its inner `loadAll`): the first page,
    the requests for pages 2..N, and the slot buffer that merges their responses. */
module PagedFetch {
  import opened Wrappers

  /** What one request's callbacks receive: the page's data, or the failed request. */
  datatype Response<T> = Done(data: seq<T>, truncated: bool) | Failed(status: int)

  /** One call of the caller's callback: the data, or an error with a status. */
  datatype Outcome<T> = Delivered(items: seq<T>) | Error(status: int)

  /** The response to the request for page `page`. */
  datatype Arrival<T> = Arrival(page: int, response: Response<T>)

  /** The status reported for a truncated tree listing. */
  const TruncatedStatus := 206

  const TreesPrefix := "/git/trees"

  /** The path is given and begins with the tree-listing prefix. */
  predicate IsTreesPath(path: Option<string>): (b: bool)
    ensures b <==> path.Some? && TreesPrefix <= path.value
  {
    path.Some? && |path.value| >= |TreesPrefix| && path.value[..|TreesPrefix|] == TreesPrefix
  }

  /** The header announces more than one page; an absent header compares as `null`,
      which never does. */
  predicate IsPaged(totalPages: Option<int>): (b: bool)
    ensures b ==> totalPages.Some? && totalPages.value >= 2
    ensures totalPages.None? ==> !b
  {
    totalPages.Some? && totalPages.value > 1
  }

  /** What every callback of one `loadAll` shares. */
  datatype Config<T> = Config(treesPath: bool, totalPages: int, undefined: T)

  /** A store into slot `k` of a JavaScript array: writing past the end leaves holes. */
  function Store<T>(slots: seq<Option<seq<T>>>, k: nat, v: seq<T>): (r: seq<Option<seq<T>>>)
    ensures |r| == if k < |slots| then |slots| else k + 1
    ensures r[k] == Some(v)
    ensures forall q :: 0 <= q < |r| && q != k ==> r[q] == if q < |slots| then slots[q] else None
  {
    if k < |slots| then slots[k := Some(v)]
    else slots + seq(k - |slots|, _ => None) + [Some(v)]
  }

  /** The flattening of `data_arr`: the pages in slot order, a hole read as `undefined`. */
  function Merge<T>(slots: seq<Option<seq<T>>>, undefined: T): (r: seq<T>)
    ensures slots != [] && slots[0].Some? ==> slots[0].value <= r
    ensures forall q :: 0 <= q < |slots| && slots[q].None? ==> undefined in r
    decreases |slots|
  {
    if slots == [] then []
    else (if slots[0].Some? then slots[0].value else [undefined]) + Merge(slots[1..], undefined)
  }

  /** All pages one after the other, in page order. */
  function Concat<T>(pages: seq<seq<T>>): seq<T>
    decreases |pages|
  {
    if pages == [] then [] else pages[0] + Concat(pages[1..])
  }

  /** The state `loadAll`'s callbacks share: `data_arr`, `count`, and the callbacks made. */
  datatype Loader<T> = Loader(slots: seq<Option<seq<T>>>, count: int, outputs: seq<Outcome<T>>)

  /** The buffer holds the first page only, and one page has been counted. */
  function Start<T>(data0: seq<T>): Loader<T>
  {
    Loader([Some(data0)], 1, [])
  }

  /** One page's `.done` or `.fail` callback, with its errors reported through the
      adapter's error handler as the first page's callbacks report theirs. `count`
      grows before the truncation check; a failed page leaves it alone. */
  function Arrive<T>(cfg: Config<T>, s: Loader<T>, a: Arrival<T>): (r: Loader<T>)
    requires a.page >= 2
    ensures s.outputs <= r.outputs && |r.outputs| <= |s.outputs| + 1
    ensures r.count == if a.response.Done? then s.count + 1 else s.count
  {
    match a.response
    case Failed(status) => s.(outputs := s.outputs + [Error(status)])
    case Done(data, truncated) =>
      var count := s.count + 1;
      if cfg.treesPath && truncated then Loader(s.slots, count, s.outputs + [Error(TruncatedStatus)])
      else
        var slots := Store(s.slots, a.page - 1, data);
        Loader(slots, count,
               if count == cfg.totalPages then s.outputs + [Delivered(Merge(slots, cfg.undefined))]
               else s.outputs)
  }

  predicate PagesFrom2<T>(arrivals: seq<Arrival<T>>)
  {
    forall i :: 0 <= i < |arrivals| ==> arrivals[i].page >= 2
  }

  /** The callbacks run one after the other, in arrival order. */
  function Run<T>(cfg: Config<T>, s: Loader<T>, arrivals: seq<Arrival<T>>): (r: Loader<T>)
    requires PagesFrom2(arrivals)
    ensures s.outputs <= r.outputs && |r.outputs| <= |s.outputs| + |arrivals|
    decreases |arrivals|
  {
    if arrivals == [] then s
    else Arrive(cfg, Run(cfg, s, arrivals[..|arrivals| - 1]), arrivals[|arrivals| - 1])
  }

  /** One page's callbacks as the code has them. `loadAll` is called as a plain
      function, so inside its callbacks `this` is not the adapter, and the call of
      `this._handleError` throws a `TypeError` before anything reaches the caller: a
      failed page changes nothing, and a truncated page is counted but neither
      stored nor reported. */
  function ArriveAsWritten<T>(cfg: Config<T>, s: Loader<T>, a: Arrival<T>): (r: Loader<T>)
    requires a.page >= 2
    ensures s.outputs <= r.outputs && |r.outputs| <= |s.outputs| + 1
    ensures forall k :: |s.outputs| <= k < |r.outputs| ==> r.outputs[k].Delivered?
  {
    match a.response
    case Failed(_) => s
    case Done(data, truncated) =>
      var count := s.count + 1;
      if cfg.treesPath && truncated then s.(count := count)
      else
        var slots := Store(s.slots, a.page - 1, data);
        Loader(slots, count,
               if count == cfg.totalPages then s.outputs + [Delivered(Merge(slots, cfg.undefined))]
               else s.outputs)
  }

  /** The callbacks as written, one after the other, in arrival order. */
  function RunAsWritten<T>(cfg: Config<T>, s: Loader<T>, arrivals: seq<Arrival<T>>): (r: Loader<T>)
    requires PagesFrom2(arrivals)
    ensures s.outputs <= r.outputs
    ensures forall k :: |s.outputs| <= k < |r.outputs| ==> r.outputs[k].Delivered?
    decreases |arrivals|
  {
    if arrivals == [] then s
    else ArriveAsWritten(cfg, RunAsWritten(cfg, s, arrivals[..|arrivals| - 1]), arrivals[|arrivals| - 1])
  }

  /** The largest page number requested after the first response. */
  function PagesRequested<T>(path: Option<string>, first: Response<T>, totalPages: Option<int>): (n: int)
    ensures n >= 1
    ensures n >= 2 <==> first.Done? && !(IsTreesPath(path) && first.truncated) && IsPaged(totalPages)
    ensures n >= 2 ==> totalPages == Some(n)
  {
    if first.Done? && !(IsTreesPath(path) && first.truncated) && IsPaged(totalPages)
    then totalPages.value else 1
  }

  /** The `for` loop of `loadAll` requests pages 2..N, one request each; every
      arrival answers one of those requests. */
  predicate ArrivalsRequested<T>(path: Option<string>, first: Response<T>, totalPages: Option<int>,
                                 arrivals: seq<Arrival<T>>): (b: bool)
    ensures b ==> PagesFrom2(arrivals)
    ensures b && arrivals != [] ==>
              first.Done? && !(IsTreesPath(path) && first.truncated) && IsPaged(totalPages)
    ensures b ==> forall i :: 0 <= i < |arrivals| ==> arrivals[i].page <= PagesRequested(path, first, totalPages)
  {
    var within := forall i :: 0 <= i < |arrivals| ==> 2 <= arrivals[i].page <= PagesRequested(path, first, totalPages);
    assert within && arrivals != [] ==> 2 <= arrivals[0].page <= PagesRequested(path, first, totalPages);
    within
  }

  /** The callbacks one `_get` makes, given the first response, the `X-Total-Pages`
      header and the responses to pages 2..N in the order they arrive. */
  function GetOutcomes<T>(path: Option<string>, first: Response<T>, totalPages: Option<int>,
                          arrivals: seq<Arrival<T>>, undefined: T): (r: seq<Outcome<T>>)
    requires ArrivalsRequested(path, first, totalPages, arrivals)
    ensures |r| <= 1 + |arrivals|
    ensures first.Failed? || (IsTreesPath(path) && first.truncated) || !IsPaged(totalPages) ==> |r| == 1
  {
    match first
    case Failed(status) => [Error(status)]
    case Done(data, truncated) =>
      if IsTreesPath(path) && truncated then [Error(TruncatedStatus)]
      else if IsPaged(totalPages) then
        Run(Config(IsTreesPath(path), totalPages.value, undefined), Start(data), arrivals).outputs
      else [Delivered(data)]
  }

  /** The callbacks one `_get` makes as the code has them: the first page's callbacks
      see the adapter, those of pages 2..N do not. */
  function GetOutcomesAsWritten<T>(path: Option<string>, first: Response<T>, totalPages: Option<int>,
                                   arrivals: seq<Arrival<T>>, undefined: T): (r: seq<Outcome<T>>)
    requires ArrivalsRequested(path, first, totalPages, arrivals)
    ensures first.Done? && !(IsTreesPath(path) && first.truncated) && IsPaged(totalPages) ==>
              forall k :: 0 <= k < |r| ==> r[k].Delivered?
  {
    match first
    case Failed(status) => [Error(status)]
    case Done(data, truncated) =>
      if IsTreesPath(path) && truncated then [Error(TruncatedStatus)]
      else if IsPaged(totalPages) then
        RunAsWritten(Config(IsTreesPath(path), totalPages.value, undefined), Start(data), arrivals).outputs
      else [Delivered(data)]
  }

  /** The closure state of one `loadAll` call. */
  class PageLoader<T> {
    const config: Config<T>
    var slots: seq<Option<seq<T>>>
    var count: int
    var outputs: seq<Outcome<T>>

    function State(): Loader<T>
      reads this
    {
      Loader(slots, count, outputs)
    }

    constructor (treesPath: bool, data0: seq<T>, xTotalPages: int, undefined: T)
      requires xTotalPages > 1
      ensures config == Config(treesPath, xTotalPages, undefined)
      ensures State() == Start(data0)
    {
      config := Config(treesPath, xTotalPages, undefined);
      slots := [Some(data0)];
      count := 1;
      outputs := [];
    }

    /** The `.done`/`.fail` callbacks of the request for `arrival.page`. */
    method Receive(arrival: Arrival<T>)
      requires 2 <= arrival.page <= config.totalPages
      modifies this
      ensures State() == Arrive(config, old(State()), arrival)
    {
      match arrival.response
      case Failed(status) =>
        outputs := outputs + [Error(status)];
      case Done(data, truncated) =>
        count := count + 1;
        if config.treesPath && truncated {
          outputs := outputs + [Error(TruncatedStatus)];
        } else {
          slots := Store(slots, arrival.page - 1, data);
          if count == config.totalPages {
            outputs := outputs + [Delivered(Merge(slots, config.undefined))];
          }
        }
    }
  }

  /** `_get`: the first request, then, when paged, a loader fed with the other pages'
      responses in the order they arrive. */
  method Get<T>(path: Option<string>, first: Response<T>, totalPages: Option<int>,
                arrivals: seq<Arrival<T>>, undefined: T) returns (outcomes: seq<Outcome<T>>)
    requires ArrivalsRequested(path, first, totalPages, arrivals)
    ensures outcomes == GetOutcomes(path, first, totalPages, arrivals, undefined)
  {
    match first
    case Failed(status) =>
      outcomes := [Error(status)];
    case Done(data, truncated) =>
      if IsTreesPath(path) && truncated {
        outcomes := [Error(TruncatedStatus)];
      } else if IsPaged(totalPages) {
        var loader := new PageLoader(IsTreesPath(path), data, totalPages.value, undefined);
        var i := 0;
        while i < |arrivals|
          invariant 0 <= i <= |arrivals|
          invariant loader.config == Config(IsTreesPath(path), totalPages.value, undefined)
          invariant loader.State() == Run(loader.config, Start(data), arrivals[..i])
        {
          assert arrivals[..i + 1][..i] == arrivals[..i];
          loader.Receive(arrivals[i]);
          i := i + 1;
        }
        assert arrivals[..i] == arrivals;
        outcomes := loader.outputs;
      } else {
        outcomes := [Delivered(data)];
      }
  }
}
