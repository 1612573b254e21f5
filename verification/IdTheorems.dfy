/** When the maps of the ID manager stay paired, and when ids run out. */
module IdTheorems {
  import opened Throttle
  import opened IdManager

  // ---------------------------------------------------------------------
  // One operation
  // ---------------------------------------------------------------------

  lemma InverseAdd(byId: map<uint16, string>, ids: map<string, uint16>, lo: uint16, hi: uint16, key: string, id: uint16)
    requires Inverse(byId, ids, lo, hi) && lo <= id <= hi
    requires (key in ids ==> ids[key] == id) && (id in byId ==> byId[id] == key)
    ensures Inverse(byId[id := key], ids[key := id], lo, hi)
  {
  }

  lemma InverseRemove(byId: map<uint16, string>, ids: map<string, uint16>, lo: uint16, hi: uint16, key: string)
    requires Inverse(byId, ids, lo, hi) && key in ids
    ensures Inverse(byId - {ids[key]}, ids - {key}, lo, hi)
  {
  }

  lemma InverseOutside(byId: map<uint16, string>, ids: map<string, uint16>, lo: uint16, hi: uint16, key: string, id: uint16)
    requires Inverse(byId, ids, lo, hi) && !(lo <= id <= hi)
    ensures Inverse(byId[id := key], ids, lo, hi)
  {
  }

  /** InsertPodInfo keeps the pod maps paired exactly when the id is a pod id and
      neither the container nor the id is already paired with something else. */
  lemma InsertPodExactly(s: Ids, containerId: string, info: PodInfo)
    requires PodsPaired(s)
    ensures PodsPaired(InsertPod(s, containerId, info)) <==>
      && MIN_POD_ID <= info.localId <= MAX_POD_ID
      && (containerId in s.container ==> s.container[containerId].localId == info.localId)
      && (info.localId in s.podId ==> s.podId[info.localId] == containerId)
  {
    var ids, n := PodIds(s.container), InsertPod(s, containerId, info);
    assert PodIds(n.container) == ids[containerId := info.localId];
    if PodsPaired(n) {
      assert containerId in PodIds(n.container);
      if containerId in s.container {
        assert containerId in ids && n.podId[ids[containerId]] == containerId;
        assert PodIds(n.container)[containerId] == ids[containerId];
      }
      if info.localId in s.podId {
        var c := s.podId[info.localId];
        assert c in ids && c in PodIds(n.container);
        assert n.podId[PodIds(n.container)[c]] == c;
      }
    } else if MIN_POD_ID <= info.localId <= MAX_POD_ID
        && (containerId in s.container ==> s.container[containerId].localId == info.localId)
        && (info.localId in s.podId ==> s.podId[info.localId] == containerId) {
      InverseAdd(s.podId, ids, MIN_POD_ID, MAX_POD_ID, containerId, info.localId);
    }
  }

  /** InsertProcessInfo never writes flowIdMap, so it keeps the flow maps paired
      exactly when the flow is registered already, under the same id. */
  lemma InsertProcessExactly(s: Ids, processId: string, info: ProcessInfo)
    requires FlowsPaired(s)
    ensures FlowsPaired(InsertProcess(s, processId, info)) <==>
      processId in s.process && s.process[processId].localId == info.localId
  {
    var ids, n := FlowIds(s.process), InsertProcess(s, processId, info);
    assert FlowIds(n.process) == ids[processId := info.localId];
    if FlowsPaired(n) {
      assert processId in FlowIds(n.process) && s.flowId[info.localId] == processId;
      assert processId in ids && ids[processId] == info.localId;
    }
    assert processId in ids && ids[processId] == info.localId ==> ids[processId := info.localId] == ids;
  }

  lemma AllocatePodKeeps(s: Ids, info: PodInfo)
    requires PodsPaired(s)
    ensures var n := AllocatePod(s, info);
      && PodsPaired(n)
      && (PodChosen(s, info.containerId).Some? ==>
            info.containerId in n.container && n.container[info.containerId].localId == PodChosen(s, info.containerId).value)
      && PodChosen(n, info.containerId) == PodChosen(s, info.containerId)
      && (forall c :: c in s.container ==> c in n.container && n.container[c] == s.container[c])
  {
    var id := PodChosen(s, info.containerId);
    if info.containerId !in s.container && id.Some? {
      assert info.containerId !in PodIds(s.container);
      assert PodIds(AllocatePod(s, info).container) == PodIds(s.container)[info.containerId := id.value];
      InverseAdd(s.podId, PodIds(s.container), MIN_POD_ID, MAX_POD_ID, info.containerId, id.value);
    }
  }

  lemma AllocateProcessKeeps(s: Ids, info: ProcessInfo)
    requires FlowsPaired(s)
    ensures var n := AllocateProcess(s, info);
      && FlowsPaired(n)
      && (FlowChosen(s, info.processId).Some? ==>
            info.processId in n.process && n.process[info.processId].localId == FlowChosen(s, info.processId).value)
      && FlowChosen(n, info.processId) == FlowChosen(s, info.processId)
      && (forall p :: p in s.process ==> p in n.process && n.process[p] == s.process[p])
  {
    var id := FlowChosen(s, info.processId);
    if info.processId !in s.process && id.Some? {
      assert info.processId !in FlowIds(s.process);
      assert FlowIds(AllocateProcess(s, info).process) == FlowIds(s.process)[info.processId := id.value];
      InverseAdd(s.flowId, FlowIds(s.process), MIN_FLOW_ID, MAX_FLOW_ID, info.processId, id.value);
    }
  }

  lemma ReleasePodKeeps(s: Ids, containerId: string)
    requires PodsPaired(s)
    ensures PodsPaired(ReleasePodByContainer(s, containerId))
  {
    if containerId in s.container {
      assert containerId in PodIds(s.container);
      InverseRemove(s.podId, PodIds(s.container), MIN_POD_ID, MAX_POD_ID, containerId);
      assert PodIds(s.container - {containerId}) == PodIds(s.container) - {containerId};
    }
  }

  lemma ReleaseProcessKeeps(s: Ids, processId: string)
    requires FlowsPaired(s)
    ensures FlowsPaired(ReleaseProcess(s, processId))
  {
    if processId in s.process {
      assert processId in FlowIds(s.process);
      InverseRemove(s.flowId, FlowIds(s.process), MIN_FLOW_ID, MAX_FLOW_ID, processId);
      assert FlowIds(s.process - {processId}) == FlowIds(s.process) - {processId};
    }
  }

  /** ReleaseByPodId is safe for pod ids; given the id of a flow, which
      InsertProcessInfo left in podIdMap, it is safe exactly when no container bears
      that flow's name. */
  lemma ReleaseByPodIdExactly(s: Ids, podId: uint16)
    requires PodsPaired(s)
    ensures PodsPaired(ReleasePodById(s, podId)) <==>
      (MIN_POD_ID <= podId <= MAX_POD_ID || podId !in s.podId || s.podId[podId] !in s.container)
  {
    if podId in s.podId {
      var c, n := s.podId[podId], ReleasePodById(s, podId);
      var ids := PodIds(s.container);
      assert PodIds(n.container) == ids - {c};
      if MIN_POD_ID <= podId <= MAX_POD_ID {
        assert c in ids && ids[c] == podId;
        InverseRemove(s.podId, ids, MIN_POD_ID, MAX_POD_ID, c);
      } else if c in s.container {
        assert c in ids && ids[c] in n.podId && n.podId[ids[c]] == c;
      } else {
        assert ids - {c} == ids;
      }
    }
  }

  // ---------------------------------------------------------------------
  // Exhaustion
  // ---------------------------------------------------------------------

  ghost function Taken(byId: map<uint16, string>, lo: uint16, hi: uint16): set<uint16> {
    set id | id in byId && lo <= id <= hi
  }

  /** Paired maps hold as many keys as ids. */
  lemma {:induction false} AsManyKeysAsIds(byId: map<uint16, string>, ids: map<string, uint16>, lo: uint16, hi: uint16)
    requires Inverse(byId, ids, lo, hi)
    ensures |ids| == |Taken(byId, lo, hi)|
    decreases |ids|
  {
    if ids == map[] {
      assert Taken(byId, lo, hi) == {};
    } else {
      var k :| k in ids;
      InverseRemove(byId, ids, lo, hi, k);
      assert |(ids - {k}).Keys| == |ids.Keys - {k}| == |ids| - 1;
      AsManyKeysAsIds(byId - {ids[k]}, ids - {k}, lo, hi);
      assert Taken(byId - {ids[k]}, lo, hi) == Taken(byId, lo, hi) - {ids[k]};
    }
  }

  predicate InRange(id: uint16, lo: uint16, hi: uint16) {
    lo <= id <= hi
  }

  ghost function Range(lo: uint16, hi: uint16): set<uint16> {
    set id: uint16 | InRange(id, lo, hi)
  }

  lemma {:induction false} RangeSize(lo: uint16, hi: uint16)
    requires lo <= hi + 1 && hi < 0xffff
    ensures |Range(lo, hi)| == hi + 1 - lo
    decreases hi + 1 - lo
  {
    if lo > hi {
      assert Range(lo, hi) == {};
    } else {
      RangeSize(lo + 1, hi);
      assert Range(lo, hi) == Range(lo + 1, hi) + {lo};
    }
  }

  lemma SubsetOfSameSize<T>(a: set<T>, b: set<T>)
    requires a <= b && |a| == |b|
    ensures a == b
  {
    assert b == a + (b - a);
    assert |b - a| == 0;
  }

  lemma NoneFreeExactly(byId: map<uint16, string>, ids: map<string, uint16>, lo: uint16, hi: uint16)
    requires Inverse(byId, ids, lo, hi) && lo <= hi < 0xffff
    ensures LeastFree(byId, lo, hi).None? <==> |ids| == hi + 1 - lo
  {
    AsManyKeysAsIds(byId, ids, lo, hi);
    RangeSize(lo, hi);
    if LeastFree(byId, lo, hi).None? {
      assert Taken(byId, lo, hi) == Range(lo, hi);
    } else {
      var id := LeastFree(byId, lo, hi).value;
      assert id in Range(lo, hi) && id !in Taken(byId, lo, hi);
      if |ids| == hi + 1 - lo {
        SubsetOfSameSize(Taken(byId, lo, hi), Range(lo, hi));
      }
    }
  }

  /** Allocation for a new container fails exactly when 5000 pods are live. */
  lemma PodIdsRunOutExactly(s: Ids, containerId: string)
    requires PodsPaired(s) && containerId !in s.container
    ensures PodChosen(s, containerId).None? <==> |s.container| == 5000
  {
    NoneFreeExactly(s.podId, PodIds(s.container), MIN_POD_ID, MAX_POD_ID);
    assert PodIds(s.container).Keys == s.container.Keys;
    assert containerId !in PodIds(s.container);
  }

  /** Allocation for a new flow fails exactly when 900 flows are live. */
  lemma FlowIdsRunOutExactly(s: Ids, processId: string)
    requires FlowsPaired(s) && processId !in s.process
    ensures FlowChosen(s, processId).None? <==> |s.process| == 900
  {
    NoneFreeExactly(s.flowId, FlowIds(s.process), MIN_FLOW_ID, MAX_FLOW_ID);
    assert FlowIds(s.process).Keys == s.process.Keys;
    assert processId !in FlowIds(s.process);
  }

  /** A new pod gets an id outside the kernel maps, which leaves it unthrottled,
      exactly when every id inside them is taken and some id above is not. */
  lemma PodIdMissesMapsExactly(s: Ids, containerId: string)
    requires PodsPaired(s) && containerId !in s.container && |s.container| < 5000
    ensures PodChosen(s, containerId).Some?
    ensures PodChosen(s, containerId).value >= MAX_MAP_SIZE <==>
      forall id: uint16 :: MIN_POD_ID <= id < MAX_MAP_SIZE ==> id in s.podId
  {
    PodIdsRunOutExactly(s, containerId);
    assert containerId !in PodIds(s.container);
    var id := PodChosen(s, containerId).value;
    if id < MAX_MAP_SIZE {
      assert id !in s.podId;
    }
  }

  // ---------------------------------------------------------------------
  // Recovery, then requests that interleave
  // ---------------------------------------------------------------------

  /** The daemon's recovery of pods from the cluster's cache. */
  function Recovered(pods: seq<PodInfo>): Ids {
    if pods == [] then NO_IDS
    else InsertPod(Recovered(pods[..|pods| - 1]), pods[|pods| - 1].containerId, pods[|pods| - 1])
  }

  ghost predicate Distinct(pods: seq<PodInfo>) {
    && (forall p :: p in pods ==> MIN_POD_ID <= p.localId <= MAX_POD_ID)
    && (forall i, j :: 0 <= i < j < |pods| ==>
          pods[i].localId != pods[j].localId && pods[i].containerId != pods[j].containerId)
  }

  lemma {:induction false} RecoveryIsPaired(pods: seq<PodInfo>)
    requires Distinct(pods)
    ensures PodsPaired(Recovered(pods))
    ensures forall c :: c in Recovered(pods).container ==> exists i :: 0 <= i < |pods| && pods[i].containerId == c
    ensures forall id :: id in Recovered(pods).podId ==> exists i :: 0 <= i < |pods| && pods[i].localId == id
    ensures Recovered(pods).flowId == map[] && Recovered(pods).process == map[]
  {
    if pods != [] {
      var n := |pods| - 1;
      RecoveryIsPaired(pods[..n]);
      InsertPodExactly(Recovered(pods[..n]), pods[n].containerId, pods[n]);
    }
  }

  /** The record of a pod, under its container and its id. */
  predicate Files(s: Ids, p: PodInfo) {
    && p.containerId in s.container && s.container[p.containerId] == p
    && p.localId in s.podId && s.podId[p.localId] == p.containerId
  }

  lemma {:induction false} RecoveryFilesAll(pods: seq<PodInfo>)
    requires Distinct(pods)
    ensures forall i :: 0 <= i < |pods| ==> Files(Recovered(pods), pods[i])
  {
    if pods != [] {
      var n := |pods| - 1;
      RecoveryFilesAll(pods[..n]);
      forall i | 0 <= i < |pods| ensures Files(Recovered(pods), pods[i]) {
        assert i < n ==> Files(Recovered(pods[..n]), pods[..n][i]);
      }
    }
  }

  /** The order in which pods are recovered does not matter. */
  lemma RecoveryInAnyOrder(a: seq<PodInfo>, b: seq<PodInfo>)
    requires Distinct(a) && Distinct(b) && forall p :: p in a <==> p in b
    ensures Recovered(a) == Recovered(b)
  {
    RecoveryHolds(a, b);
    RecoveryHolds(b, a);
    RecoveryIsPaired(a);
    RecoveryIsPaired(b);
    var s, t := Recovered(a), Recovered(b);
    assert s.container == t.container && s.podId == t.podId;
  }

  lemma RecoveryHolds(a: seq<PodInfo>, b: seq<PodInfo>)
    requires Distinct(a) && Distinct(b) && forall p :: p in a ==> p in b
    ensures forall c :: c in Recovered(a).container ==>
      c in Recovered(b).container && Recovered(b).container[c] == Recovered(a).container[c]
    ensures forall id :: id in Recovered(a).podId ==>
      id in Recovered(b).podId && Recovered(b).podId[id] == Recovered(a).podId[id]
  {
    RecoveryIsPaired(a);
    RecoveryFilesAll(a);
    RecoveryFilesAll(b);
    forall c | c in Recovered(a).container
      ensures c in Recovered(b).container && Recovered(b).container[c] == Recovered(a).container[c]
    {
      var i :| 0 <= i < |a| && a[i].containerId == c;
      assert Files(Recovered(a), a[i]) && a[i] in b;
      var j :| 0 <= j < |b| && b[j] == a[i];
      assert Files(Recovered(b), b[j]);
    }
    forall id | id in Recovered(a).podId
      ensures id in Recovered(b).podId && Recovered(b).podId[id] == Recovered(a).podId[id]
    {
      var i :| 0 <= i < |a| && a[i].localId == id;
      assert Files(Recovered(a), a[i]) && a[i] in b;
      var j :| 0 <= j < |b| && b[j] == a[i];
      assert Files(Recovered(b), b[j]);
    }
  }

  /** Concurrent SetQos calls hold records between AllocatePodId and InsertPodInfo, and
      SetFlow calls between AllocateProcessId and InsertProcessInfo. */
  datatype Running = Running(ids: Ids, inFlight: multiset<PodInfo>, flows: multiset<ProcessInfo>)

  datatype Op =
    | Begin(pod: PodInfo)                 // AllocatePodId, by a new call
    | Finish(pod: PodInfo)                // InsertPodInfo, by a call that allocated
    | Abandon(pod: PodInfo)               // a call that fails in between
    | Release(containerId: string)        // ReleasePodIdByContainerId
    | ReleaseId(podId: uint16)            // ReleaseByPodId
    | BeginFlow(flow: ProcessInfo)        // AllocateProcessId, by a new call
    | FinishFlow(flow: ProcessInfo)       // InsertProcessInfo, by a call that allocated
    | ReleaseFlow(processId: string)      // ReleaseProcessInfo

  predicate Held(r: Running, containerId: string) {
    exists p :: p in r.inFlight && p.containerId == containerId
  }

  predicate HeldFlow(r: Running, processId: string) {
    exists f :: f in r.flows && f.processId == processId
  }

  /** A call finishes only what it began, and no container or flow is released while
      a call holds it. */
  predicate Enabled(r: Running, op: Op) {
    match op
    case Begin(_) => true
    case Finish(p) => p in r.inFlight
    case Abandon(p) => p in r.inFlight
    case Release(c) => !Held(r, c)
    case ReleaseId(id) => MIN_POD_ID <= id <= MAX_POD_ID && (id in r.ids.podId ==> !Held(r, r.ids.podId[id]))
    case BeginFlow(_) => true
    case FinishFlow(f) => f in r.flows
    case ReleaseFlow(p) => !HeldFlow(r, p)
  }

  function Next(r: Running, op: Op): Running {
    if !Enabled(r, op) then r else
    match op
    case Begin(p) =>
      var id := PodChosen(r.ids, p.containerId);
      r.(ids := AllocatePod(r.ids, p),
         inFlight := if id.Some? then r.inFlight + multiset{p.(localId := id.value)} else r.inFlight)
    case Finish(p) => r.(ids := InsertPod(r.ids, p.containerId, p), inFlight := r.inFlight - multiset{p})
    case Abandon(p) => r.(inFlight := r.inFlight - multiset{p})
    case Release(c) => r.(ids := ReleasePodByContainer(r.ids, c))
    case ReleaseId(id) => r.(ids := ReleasePodById(r.ids, id))
    case BeginFlow(f) =>
      var id := FlowChosen(r.ids, f.processId);
      r.(ids := AllocateProcess(r.ids, f),
         flows := if id.Some? then r.flows + multiset{f.(localId := id.value)} else r.flows)
    case FinishFlow(f) => r.(ids := InsertProcess(r.ids, f.processId, f), flows := r.flows - multiset{f})
    case ReleaseFlow(p) => r.(ids := ReleaseProcess(r.ids, p))
  }

  function Run(r: Running, ops: seq<Op>): Running {
    if ops == [] then r else Next(Run(r, ops[..|ops| - 1]), ops[|ops| - 1])
  }

  ghost predicate Inv(r: Running) {
    && PodsPaired(r.ids) && FlowsPaired(r.ids)
    && (forall p :: p in r.inFlight ==> OwnsPodId(r.ids, p))
    && (forall f :: f in r.flows ==> OwnsFlowId(r.ids, f))
  }

  predicate OwnsPodId(s: Ids, p: PodInfo) {
    p.containerId in s.container && s.container[p.containerId].localId == p.localId
  }

  predicate OwnsFlowId(s: Ids, f: ProcessInfo) {
    f.processId in s.process && s.process[f.processId].localId == f.localId
  }

  lemma FinishKeepsInv(r: Running, p: PodInfo)
    requires Inv(r) && p in r.inFlight
    ensures Inv(Next(r, Finish(p)))
  {
    var ids := PodIds(r.ids.container);
    assert OwnsPodId(r.ids, p);
    assert p.containerId in ids && ids[p.containerId] == p.localId;
    InsertPodExactly(r.ids, p.containerId, p);
  }

  lemma BeginKeepsInv(r: Running, p: PodInfo)
    requires Inv(r)
    ensures Inv(Next(r, Begin(p)))
  {
    AllocatePodKeeps(r.ids, p);
  }

  lemma ReleaseKeepsInv(r: Running, c: string)
    requires Inv(r)
    ensures Inv(Next(r, Release(c)))
  {
    ReleasePodKeeps(r.ids, c);
  }

  lemma ReleaseIdKeepsInv(r: Running, id: uint16)
    requires Inv(r)
    ensures Inv(Next(r, ReleaseId(id)))
  {
    ReleaseByPodIdExactly(r.ids, id);
  }

  lemma BeginFlowKeepsInv(r: Running, f: ProcessInfo)
    requires Inv(r)
    ensures Inv(Next(r, BeginFlow(f)))
  {
    AllocateProcessKeeps(r.ids, f);
  }

  lemma FinishFlowKeepsInv(r: Running, f: ProcessInfo)
    requires Inv(r)
    ensures Inv(Next(r, FinishFlow(f)))
  {
    if f in r.flows {
      assert OwnsFlowId(r.ids, f);
      assert f.processId in FlowIds(r.ids.process) && FlowIds(r.ids.process)[f.processId] == f.localId;
      InsertProcessExactly(r.ids, f.processId, f);
      InverseOutside(r.ids.podId, PodIds(r.ids.container), MIN_POD_ID, MAX_POD_ID, f.processId, f.localId);
    }
  }

  lemma ReleaseFlowKeepsInv(r: Running, p: string)
    requires Inv(r)
    ensures Inv(Next(r, ReleaseFlow(p)))
  {
    ReleaseProcessKeeps(r.ids, p);
  }

  lemma AbandonKeepsInv(r: Running, p: PodInfo)
    requires Inv(r)
    ensures Inv(Next(r, Abandon(p)))
  {
  }

  /** That is exactly when a release is safe: nobody holds the container, */
  lemma ReleaseExactly(r: Running, c: string)
    requires Inv(r)
    ensures Inv(r.(ids := ReleasePodByContainer(r.ids, c))) <==> !Held(r, c)
  {
    if Held(r, c) {
      var p :| p in r.inFlight && p.containerId == c;
      assert !OwnsPodId(ReleasePodByContainer(r.ids, c), p);
    } else {
      ReleaseKeepsInv(r, c);
      assert Next(r, Release(c)) == r.(ids := ReleasePodByContainer(r.ids, c));
    }
  }

  /** or the flow. */
  lemma ReleaseFlowExactly(r: Running, p: string)
    requires Inv(r)
    ensures Inv(r.(ids := ReleaseProcess(r.ids, p))) <==> !HeldFlow(r, p)
  {
    if HeldFlow(r, p) {
      var f :| f in r.flows && f.processId == p;
      assert !OwnsFlowId(ReleaseProcess(r.ids, p), f);
    } else {
      ReleaseFlowKeepsInv(r, p);
      assert Next(r, ReleaseFlow(p)) == r.(ids := ReleaseProcess(r.ids, p));
    }
  }

  lemma NextKeepsInv(r: Running, op: Op)
    requires Inv(r)
    ensures Inv(Next(r, op))
  {
    match op
    case Begin(p) => BeginKeepsInv(r, p);
    case Finish(p) => if p in r.inFlight { FinishKeepsInv(r, p); }
    case Abandon(p) => AbandonKeepsInv(r, p);
    case Release(c) => ReleaseKeepsInv(r, c);
    case ReleaseId(id) => ReleaseIdKeepsInv(r, id);
    case BeginFlow(f) => BeginFlowKeepsInv(r, f);
    case FinishFlow(f) => FinishFlowKeepsInv(r, f);
    case ReleaseFlow(p) => ReleaseFlowKeepsInv(r, p);
  }

  lemma {:induction false} RunKeepsInv(r: Running, ops: seq<Op>)
    requires Inv(r)
    ensures Inv(Run(r, ops))
  {
    if ops != [] {
      RunKeepsInv(r, ops[..|ops| - 1]);
      NextKeepsInv(Run(r, ops[..|ops| - 1]), ops[|ops| - 1]);
    }
  }

  /** From any recovery with distinct pods, whatever calls interleave, pod ids and
      containers stay in one-to-one correspondence, so do flow ids and flows, and every
      call in flight still owns the id it was given. */
  lemma IdsStayBijective(pods: seq<PodInfo>, ops: seq<Op>)
    requires Distinct(pods)
    ensures Inv(Run(Running(Recovered(pods), multiset{}, multiset{}), ops))
  {
    RecoveryIsPaired(pods);
    RunKeepsInv(Running(Recovered(pods), multiset{}, multiset{}), ops);
  }

  /** Releasing a container between allocation and insertion does break it: the id
      goes to another container, and both then claim it. */
  lemma ReleaseInBetweenBreaks(a: PodInfo, b: PodInfo)
    requires a.containerId != b.containerId
    ensures var s := AllocatePod(NO_IDS, a);
      var p := s.container[a.containerId];
      var t := AllocatePod(ReleasePodByContainer(s, a.containerId), b);
      PodsPaired(t) && !PodsPaired(InsertPod(t, a.containerId, p))
  {
    var s := AllocatePod(NO_IDS, a);
    AllocatePodKeeps(NO_IDS, a);
    ReleasePodKeeps(s, a.containerId);
    var u := ReleasePodByContainer(s, a.containerId);
    AllocatePodKeeps(u, b);
    var t := AllocatePod(u, b);
    InsertPodExactly(t, a.containerId, s.container[a.containerId]);
  }

  /** So does releasing a flow between its allocation and insertion: the record comes
      back without an id that names it. */
  lemma FlowReleaseInBetweenBreaks(s: Ids, f: ProcessInfo)
    requires FlowsPaired(s) && FlowChosen(s, f.processId).Some?
    ensures var n := AllocateProcess(s, f);
      && f.processId in n.process && FlowsPaired(ReleaseProcess(n, f.processId))
      && !FlowsPaired(InsertProcess(ReleaseProcess(n, f.processId), f.processId, n.process[f.processId]))
  {
    var n := AllocateProcess(s, f);
    AllocateProcessKeeps(s, f);
    ReleaseProcessKeeps(n, f.processId);
    InsertProcessExactly(ReleaseProcess(n, f.processId), f.processId, n.process[f.processId]);
  }
}
