/** The QAT context lifecycle (he_qat_context.c): the round-robin instance
    selector, bringing the devices up, and tearing them down. Every driver
    call (qaeMemInit, icp_sal_userStartMultiProcess, cpaCyGetNumInstances,
    cpaCyGetInstances) and every pthread result the code inspects is an
    input; mutexes, condition variables, CPU affinity and the worker and
    buffer-manager threads themselves are not modelled. */
module QatContext {
  import opened Outcomes
  import opened Modular

  /** NUM_ACTIVE_INSTANCES: the number of instance configs and worker threads. */
  const NumActiveInstances: nat := 8

  /** MAX_INSTANCES: 1024 in a user-space build, 1 otherwise. */
  function MaxInstances(userSpace: bool): (m: nat)
    ensures m >= 1
    ensures userSpace <==> m > NumActiveInstances
    ensures !userSpace ==> m == 1
  {
    if userSpace then 1024 else 1
  }

  datatype CpaStatus = CpaSuccess | CpaFail

  datatype HeQatStatus = HeQatSuccess | HeQatFail

  /** An instance handle; `None` is NULL. */
  type Handle = Option<nat>

  /** What the driver answers when asked for crypto instances: the status
      and count of cpaCyGetNumInstances, then the status and handles of
      cpaCyGetInstances. */
  datatype Driver = Driver(numStatus: CpaStatus, reported: nat, instStatus: CpaStatus, instances: seq<nat>)

  /** The static state of get_qat_instance: the handle table (MAX_INSTANCES
      entries), the number of instances in use, and the last index handed out. */
  datatype Selector = Selector(slots: seq<Handle>, num: nat, next: nat)

  function Min(a: nat, b: nat): nat
  {
    if a <= b then a else b
  }

  /** A reported count limited to the table size and then to the number of
      active instances. */
  function ClampCount(reported: nat, tableSize: nat): (c: nat)
    ensures c == Min(Min(reported, tableSize), NumActiveInstances)
  {
    var c1 := if reported >= tableSize then tableSize else reported;
    if c1 >= NumActiveInstances then NumActiveInstances else c1
  }

  /** A driver answer that fits the code's types: the count is a Cpa16U,
      and a successful cpaCyGetInstances fills every requested entry. */
  predicate DriverReply(d: Driver, tableSize: nat)
  {
    d.reported < 0x1_0000
    && (d.instStatus == CpaSuccess ==> |d.instances| >= ClampCount(d.reported, tableSize))
  }

  /** The zero-initialised static state before the first call. */
  function InitialSelector(userSpace: bool): (s: Selector)
    ensures SelectorInv(s)
    ensures s.num == 0 && s.next == 0
    ensures |s.slots| == MaxInstances(userSpace)
    ensures forall j :: 0 <= j < |s.slots| ==> s.slots[j].None?
  {
    Selector(seq(MaxInstances(userSpace), _ => None), 0, 0)
  }

  /** Indices stay in range: the count is clamped, and the next index is 0
      while no instance is known and below the count afterwards. */
  predicate SelectorInv(s: Selector)
  {
    && s.num <= |s.slots|
    && s.num <= NumActiveInstances
    && (s.num == 0 ==> s.next == 0)
    && (s.num > 0 ==> s.next < s.num)
  }

  datatype Selected = Selected(sel: Selector, handle: Handle)

  /** get_qat_instance. While no instance is known the driver is queried:
      a successful query returns the handle at the current index (0)
      without advancing; a failed one returns NULL. Once instances are
      known, every call advances the index round-robin and returns that
      handle. */
  function GetInstance(s: Selector, d: Driver): (r: Selected)
    requires SelectorInv(s) && DriverReply(d, |s.slots|)
    ensures SelectorInv(r.sel) && |r.sel.slots| == |s.slots|
    ensures s.num == 0 ==> r.sel.num == ClampCount(d.reported, |s.slots|) && r.sel.next == 0
    ensures s.num == 0 && r.sel.num == 0 ==> r.handle.None? && r.sel == s
    ensures s.num == 0 && d.numStatus == CpaSuccess && d.instStatus == CpaSuccess && r.sel.num > 0 ==>
              r.handle == Some(d.instances[0])
              && forall j :: 0 <= j < r.sel.num ==> r.sel.slots[j] == Some(d.instances[j])
    ensures s.num == 0 && (d.numStatus != CpaSuccess || d.instStatus != CpaSuccess) ==> r.handle.None?
    ensures s.num > 0 ==> r.sel.num == s.num && r.sel.slots == s.slots
                          && r.sel.next == (s.next + 1) % s.num
                          && r.handle == s.slots[r.sel.next]
  {
    if s.num == 0 then
      var count := ClampCount(d.reported, |s.slots|);
      if d.numStatus == CpaSuccess && count > 0 then
        if d.instStatus == CpaSuccess then
          var slots := seq(count, j requires 0 <= j < count => Some(d.instances[j])) + s.slots[count..];
          Selected(s.(slots := slots, num := count), slots[s.next])
        else
          Selected(s.(num := count), None)
      else
        Selected(s.(num := count), None)
    else
      var nx := (s.next + 1) % s.num;
      Selected(s.(next := nx), s.slots[nx])
  }

  datatype Lookup = Lookup(sel: Selector, handles: Option<seq<nat>>)

  /** The lookup loop of acquire_qat_devices: one get_qat_instance call per
      active instance, giving up at the first NULL. `found` holds the
      handles collected so far. */
  function LookupInstances(s: Selector, d: Driver, found: seq<nat>): (r: Lookup)
    requires SelectorInv(s) && DriverReply(d, |s.slots|)
    requires |found| <= NumActiveInstances
    ensures SelectorInv(r.sel) && |r.sel.slots| == |s.slots|
    ensures r.handles.Some? ==> |r.handles.value| == NumActiveInstances && found <= r.handles.value
    decreases NumActiveInstances - |found|
  {
    if |found| == NumActiveInstances then Lookup(s, Some(found))
    else
      var g := GetInstance(s, d);
      if g.handle.None? then Lookup(g.sel, None)
      else LookupInstances(g.sel, d, found + [g.handle.value])
  }

  /** Once `k` instances are known, the lookup loop keeps handing them out
      round-robin: the handle collected at step `j` is instance `j mod k`. */
  lemma {:induction false} LookupRoundRobin(s: Selector, d: Driver, found: seq<nat>, k: nat)
    requires SelectorInv(s) && DriverReply(d, |s.slots|)
    requires 1 <= |found| <= NumActiveInstances
    requires s.num == k && k > 0 && |d.instances| >= k
    requires forall j :: 0 <= j < k ==> s.slots[j] == Some(d.instances[j])
    requires s.next == (|found| - 1) % k
    requires forall j :: 0 <= j < |found| ==> found[j] == d.instances[j % k]
    ensures LookupInstances(s, d, found).handles.Some?
    ensures forall j :: 0 <= j < NumActiveInstances ==>
              LookupInstances(s, d, found).handles.value[j] == d.instances[j % k]
    decreases NumActiveInstances - |found|
  {
    if |found| < NumActiveInstances {
      var g := GetInstance(s, d);
      NextIndex(|found|, k);
      var found' := found + [g.handle.value];
      LookupRoundRobin(g.sel, d, found', k);
    }
  }

  /** From a selector that has never found an instance, with a driver that
      answers successfully with `k > 0` instances, the lookup loop succeeds
      and hands out instance `i mod k` for active instance `i`. */
  lemma LookupFromFresh(s: Selector, d: Driver)
    requires SelectorInv(s) && DriverReply(d, |s.slots|) && s.num == 0
    requires d.numStatus == CpaSuccess && d.instStatus == CpaSuccess
    requires ClampCount(d.reported, |s.slots|) > 0
    ensures LookupInstances(s, d, []).handles.Some?
    ensures var k := ClampCount(d.reported, |s.slots|);
            forall j :: 0 <= j < NumActiveInstances ==>
              LookupInstances(s, d, []).handles.value[j] == d.instances[j % k]
  {
    var k := ClampCount(d.reported, |s.slots|);
    var g := GetInstance(s, d);
    assert g.handle == Some(d.instances[0]);
    assert [] + [g.handle.value] == [g.handle.value];
    assert LookupInstances(s, d, []) == LookupInstances(g.sel, d, [g.handle.value]);
    LookupRoundRobin(g.sel, d, [g.handle.value], k);
  }

  /** When the driver reports no instance, the lookup fails on its first call
      and the selector is left as it was, so the next call queries again. */
  lemma LookupNoInstances(s: Selector, d: Driver)
    requires SelectorInv(s) && DriverReply(d, |s.slots|) && s.num == 0
    requires ClampCount(d.reported, |s.slots|) == 0
    ensures LookupInstances(s, d, []) == Lookup(s, None)
  {
  }

  /** he_qat_buffer: the request staging buffer. */
  datatype RequestBuffer = RequestBuffer(count: nat, nextFreeSlot: nat, nextDataSlot: nat, data: seq<Option<nat>>)

  /** One outstanding buffer: its cursors and its request slots. */
  datatype Buffer = Buffer(count: nat, nextFreeSlot: nat, nextDataSlot: nat, nextDataOut: nat, data: seq<Option<nat>>)

  /** The outstanding buffer pool: counters, per-buffer free and ready
      flags, and the buffers. */
  datatype Outstanding = Outstanding(
    busyCount: nat, nextFreeBuffer: nat, nextReadyBuffer: nat,
    freeBuffer: seq<int>, readyBuffer: seq<int>, buffers: seq<Buffer>)

  /** One instance's configuration record. */
  datatype InstConfig = InstConfig(active: int, polling: int, running: int, status: CpaStatus, handle: Handle, instId: int)

  /** HE_QAT_BUFFER_SIZE and HE_QAT_BUFFER_COUNT. */
  datatype Dims = Dims(bufferSize: nat, bufferCount: nat)

  /** The process-wide QAT state. `memReady` and `salStarted` record whether
      the memory driver and the SAL service are up; `workersRunning` records
      that the instance threads were launched and not yet told to stop. */
  datatype Context = Context(
    state: int, memReady: bool, salStarted: bool, workersRunning: bool,
    selector: Selector, requests: RequestBuffer, outstanding: Outstanding, configs: seq<InstConfig>)

  /** The results of the driver and pthread calls acquire_qat_devices checks. */
  datatype Environment = Environment(
    memInit: CpaStatus, salStart: CpaStatus, driver: Driver, managerCreated: bool, managerDetached: bool)

  datatype Outcome = Outcome(status: HeQatStatus, ctx: Context)

  /** The zero-initialised globals before the first acquire. */
  function InitialContext(userSpace: bool, dims: Dims): (c: Context)
    ensures Quiescent(c)
    ensures c.selector == InitialSelector(userSpace)
    ensures |c.outstanding.freeBuffer| == dims.bufferCount && |c.outstanding.readyBuffer| == dims.bufferCount
    ensures forall i :: 0 <= i < dims.bufferCount ==>
              c.outstanding.freeBuffer[i] == 0 && c.outstanding.readyBuffer[i] == 0
    ensures |c.configs| == NumActiveInstances
    ensures forall i :: 0 <= i < NumActiveInstances ==> c.configs[i].handle.None? && c.configs[i].instId == 0
  {
    var emptyBuffer := Buffer(0, 0, 0, 0, seq(dims.bufferSize, _ => None));
    Context(0, false, false, false, InitialSelector(userSpace),
      RequestBuffer(0, 0, 0, seq(dims.bufferSize, _ => None)),
      Outstanding(0, 0, 0, seq(dims.bufferCount, _ => 0), seq(dims.bufferCount, _ => 0),
        seq(dims.bufferCount, _ => emptyBuffer)),
      seq(NumActiveInstances, _ => InstConfig(0, 0, 0, CpaSuccess, None, 0)))
  }

  /** A buffer with no requests: every cursor at 0 and every slot NULL. */
  predicate BufferEmpty(b: Buffer, size: nat)
  {
    b.count == 0 && b.nextFreeSlot == 0 && b.nextDataSlot == 0 && b.nextDataOut == 0
    && |b.data| == size && forall j :: 0 <= j < size ==> b.data[j].None?
  }

  /** The buffers as initialisation leaves them: nothing staged, every
      outstanding buffer free and none ready, all counters and cursors 0. */
  predicate PoolReady(c: Context, dims: Dims)
  {
    && c.requests.count == 0 && c.requests.nextFreeSlot == 0 && c.requests.nextDataSlot == 0
    && |c.requests.data| == dims.bufferSize
    && (forall j :: 0 <= j < dims.bufferSize ==> c.requests.data[j].None?)
    && c.outstanding.busyCount == 0
    && c.outstanding.nextFreeBuffer == 0 && c.outstanding.nextReadyBuffer == 0
    && |c.outstanding.freeBuffer| == dims.bufferCount
    && |c.outstanding.readyBuffer| == dims.bufferCount
    && |c.outstanding.buffers| == dims.bufferCount
    && forall i :: 0 <= i < dims.bufferCount ==>
         c.outstanding.freeBuffer[i] == 1 && c.outstanding.readyBuffer[i] == 0
         && BufferEmpty(c.outstanding.buffers[i], dims.bufferSize)
  }

  /** Instance config `i` carries id `i` and handle `handles[i]`, and is
      inactive, not polling and not running. */
  predicate ConfigsReady(c: Context, handles: seq<nat>)
  {
    |handles| == NumActiveInstances && |c.configs| == NumActiveInstances
    && forall i :: 0 <= i < NumActiveInstances ==>
         c.configs[i].instId == i && c.configs[i].handle == Some(handles[i])
         && c.configs[i].active == 0 && c.configs[i].polling == 0 && c.configs[i].running == 0
         && c.configs[i].status == CpaFail
  }

  /** Fresh staging and outstanding buffers (lines 137-166). */
  function InitBuffers(c: Context, dims: Dims): (r: Context)
    ensures PoolReady(r, dims)
    ensures r.state == c.state && r.memReady == c.memReady && r.salStarted == c.salStarted
    ensures r.workersRunning == c.workersRunning && r.selector == c.selector && r.configs == c.configs
  {
    var emptyBuffer := Buffer(0, 0, 0, 0, seq(dims.bufferSize, _ => None));
    c.(requests := RequestBuffer(0, 0, 0, seq(dims.bufferSize, _ => None)),
       outstanding := Outstanding(0, 0, 0, seq(dims.bufferCount, _ => 1), seq(dims.bufferCount, _ => 0),
                                  seq(dims.bufferCount, _ => emptyBuffer)))
  }

  /** Fresh instance configs, one per looked-up handle (lines 172-196). */
  function InitConfigs(handles: seq<nat>): (r: seq<InstConfig>)
    requires |handles| == NumActiveInstances
    ensures |r| == NumActiveInstances
    ensures forall i :: 0 <= i < NumActiveInstances ==>
              r[i].instId == i && r[i].handle == Some(handles[i])
              && r[i].active == 0 && r[i].polling == 0 && r[i].running == 0 && r[i].status == CpaFail
  {
    seq(NumActiveInstances, i requires 0 <= i < NumActiveInstances => InstConfig(0, 0, 0, CpaFail, Some(handles[i]), i))
  }

  /** How far the bring-up sequence of acquire_qat_devices gets before the
      buffer-manager thread is launched, with the context at that point. */
  datatype Progress =
    | MemInitFailed(ctx: Context)
    | SalStartFailed(ctx: Context)
    | LookupFailed(ctx: Context)
    | Launched(ctx: Context, handles: seq<nat>)

  /** Lines 94-211: initialise the memory driver, start the SAL service
      (undoing the memory initialisation if that fails), look up the
      instances, initialise the buffers and the instance configs, launch the
      workers and mark the context active. */
  function BringUp(c: Context, env: Environment, dims: Dims): (p: Progress)
    requires SelectorInv(c.selector) && DriverReply(env.driver, |c.selector.slots|)
    ensures SelectorInv(p.ctx.selector) && |p.ctx.selector.slots| == |c.selector.slots|
    ensures p.MemInitFailed? <==> env.memInit != CpaSuccess
    ensures p.MemInitFailed? ==> p.ctx == c
    ensures p.SalStartFailed? ==> p.ctx == c.(memReady := false)
    ensures p.LookupFailed? ==> p.ctx.state == c.state && p.ctx.memReady && p.ctx.salStarted
                                && p.ctx.workersRunning == c.workersRunning
    ensures p.Launched? ==> p.ctx.state == 1 && p.ctx.memReady && p.ctx.salStarted && p.ctx.workersRunning
                            && PoolReady(p.ctx, dims) && ConfigsReady(p.ctx, p.handles)
  {
    if env.memInit != CpaSuccess then MemInitFailed(c)
    else
      var c1 := c.(memReady := true);
      if env.salStart != CpaSuccess then SalStartFailed(c1.(memReady := false))
      else
        var c2 := c1.(salStarted := true);
        var lk := LookupInstances(c2.selector, env.driver, []);
        var c3 := c2.(selector := lk.sel);
        if lk.handles.None? then LookupFailed(c3)
        else
          var c4 := InitBuffers(c3, dims).(configs := InitConfigs(lk.handles.value), workersRunning := true);
          Launched(c4.(state := 1), lk.handles.value)
  }

  /** release_qat_devices: nothing to do while inactive; otherwise stop the
      instance workers, mark the context inactive (which ends the buffer
      manager), stop the SAL service and release the driver memory. */
  function Release(c: Context): (r: Outcome)
    ensures r.status == HeQatSuccess
    ensures r.ctx.state == 0
    ensures c.state == 0 ==> r.ctx == c
    ensures c.state != 0 ==> !r.ctx.memReady && !r.ctx.salStarted && !r.ctx.workersRunning
    ensures r.ctx.selector == c.selector && r.ctx.configs == c.configs
  {
    if c.state == 0 then Outcome(HeQatSuccess, c)
    else Outcome(HeQatSuccess, c.(workersRunning := false, state := 0, salStarted := false, memReady := false))
  }

  /** Releasing twice is releasing once. */
  lemma ReleaseIdempotent(c: Context)
    ensures Release(Release(c).ctx) == Release(c)
  {
  }

  /** acquire_qat_devices as written: after the bring-up, a failure to create
      or detach the buffer-manager thread releases everything again. */
  function Acquire(c: Context, env: Environment, dims: Dims): (r: Outcome)
    requires SelectorInv(c.selector) && DriverReply(env.driver, |c.selector.slots|)
    ensures SelectorInv(r.ctx.selector) && |r.ctx.selector.slots| == |c.selector.slots|
    ensures r.status == HeQatSuccess <==>
              env.memInit == CpaSuccess && env.salStart == CpaSuccess
              && LookupInstances(c.selector, env.driver, []).handles.Some?
              && env.managerCreated && env.managerDetached
    ensures r.status == HeQatSuccess ==>
              r.ctx.state == 1 && r.ctx.memReady && r.ctx.salStarted && r.ctx.workersRunning
              && PoolReady(r.ctx, dims)
              && ConfigsReady(r.ctx, LookupInstances(c.selector, env.driver, []).handles.value)
    ensures r.status == HeQatFail && c.state == 0 ==> r.ctx.state == 0
    ensures env.memInit == CpaSuccess && env.salStart != CpaSuccess ==>
              r.status == HeQatFail && r.ctx == c.(memReady := false)
    ensures env.memInit == CpaSuccess && env.salStart == CpaSuccess
            && LookupInstances(c.selector, env.driver, []).handles.None? ==>
              r.status == HeQatFail && r.ctx.memReady && r.ctx.salStarted
  {
    match BringUp(c, env, dims)
    case MemInitFailed(c') => Outcome(HeQatFail, c')
    case SalStartFailed(c') => Outcome(HeQatFail, c')
    case LookupFailed(c') => Outcome(HeQatFail, c')
    case Launched(c', _) =>
      if !env.managerCreated || !env.managerDetached then Outcome(HeQatFail, Release(c').ctx)
      else Outcome(HeQatSuccess, c')
  }

  /** A context with nothing running and nothing held from the driver. */
  predicate Quiescent(c: Context)
  {
    c.state == 0 && !c.memReady && !c.salStarted && !c.workersRunning
  }

  /** As written, an instance lookup that fails on its first query returns with the memory driver
      and the SAL service still up while the context stays inactive, and
      release_qat_devices then returns at once, so nothing can undo it. */
  lemma LookupFailureStrandsDriver(c: Context, env: Environment, dims: Dims)
    requires SelectorInv(c.selector) && DriverReply(env.driver, |c.selector.slots|)
    requires Quiescent(c) && c.selector.num == 0
    requires env.memInit == CpaSuccess && env.salStart == CpaSuccess
    requires env.driver.numStatus != CpaSuccess || env.driver.instStatus != CpaSuccess
             || ClampCount(env.driver.reported, |c.selector.slots|) == 0
    ensures Acquire(c, env, dims).status == HeQatFail
    ensures !Quiescent(Acquire(c, env, dims).ctx)
    ensures Release(Acquire(c, env, dims).ctx).ctx == Acquire(c, env, dims).ctx
  {
  }

  /** A concrete run: a user-space build whose driver reports no instance. */
  lemma NoInstanceStrandsDriver()
    ensures var c := InitialContext(true, Dims(4, 2));
            var env := Environment(CpaSuccess, CpaSuccess, Driver(CpaSuccess, 0, CpaSuccess, []), true, true);
            var r := Acquire(c, env, Dims(4, 2));
            r.status == HeQatFail && r.ctx.memReady && r.ctx.salStarted && r.ctx.state == 0
  {
  }

  /** acquire_qat_devices with the cleanup the SAL-start failure path already
      performs extended to the lookup failure: stop the SAL service and
      release the driver memory before returning FAIL. */
  function AcquireWithCleanup(c: Context, env: Environment, dims: Dims): (r: Outcome)
    requires SelectorInv(c.selector) && DriverReply(env.driver, |c.selector.slots|)
    ensures r.status == Acquire(c, env, dims).status
    ensures r.status == HeQatSuccess ==> r.ctx == Acquire(c, env, dims).ctx
    ensures r.status == HeQatFail && Quiescent(c) ==> Quiescent(r.ctx)
  {
    match BringUp(c, env, dims)
    case MemInitFailed(c') => Outcome(HeQatFail, c')
    case SalStartFailed(c') => Outcome(HeQatFail, c')
    case LookupFailed(c') => Outcome(HeQatFail, c'.(salStarted := false, memReady := false))
    case Launched(c', _) =>
      if !env.managerCreated || !env.managerDetached then Outcome(HeQatFail, Release(c').ctx)
      else Outcome(HeQatSuccess, c')
  }

  /** A fresh acquire whose driver answers with `k > 0` instances binds
      instance config `i` to instance `i mod k`. */
  lemma AcquireRoundRobin(c: Context, env: Environment, dims: Dims)
    requires SelectorInv(c.selector) && DriverReply(env.driver, |c.selector.slots|) && c.selector.num == 0
    requires env.memInit == CpaSuccess && env.salStart == CpaSuccess
    requires env.driver.numStatus == CpaSuccess && env.driver.instStatus == CpaSuccess
    requires env.managerCreated && env.managerDetached
    requires ClampCount(env.driver.reported, |c.selector.slots|) > 0
    ensures Acquire(c, env, dims).status == HeQatSuccess
    ensures var k := ClampCount(env.driver.reported, |c.selector.slots|);
            forall i :: 0 <= i < NumActiveInstances ==>
              Acquire(c, env, dims).ctx.configs[i].handle == Some(env.driver.instances[i % k])
  {
    LookupFromFresh(c.selector, env.driver);
  }
}
