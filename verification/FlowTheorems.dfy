/** The kernel maps agree with the registered flows after every sequence of RPCs. */
module FlowTheorems {
  import opened Throttle
  import opened Names
  import opened IdManager
  import opened IdTheorems
  import opened Flows
  import Edt

  function NameOf(tag: string, key: IdKey): string {
    ProcessId(tag, key.ip, key.port)
  }

  function QosOf(tag: string, info: ProcessInfo): QosConfig {
    if tag == "egress" then info.qos.egress else info.qos.ingress
  }

  /** Every record is filed under the name it carries, made from its own address. */
  ghost predicate Filed(ids: Ids) {
    forall p :: p in ids.process ==> p == ids.process[p].processId && NamesItself(p, ids.process[p])
  }

  ghost predicate NamesItself(p: string, info: ProcessInfo) {
    exists direct :: p == ProcessId(direct, info.ip, info.port)
  }

  predicate FlowOf(tag: string, info: ProcessInfo) {
    info.processId == ProcessId(tag, info.ip, info.port)
  }

  /** The id map on nonzero ports is exactly the live flows of this direction, each
      with the word made of its id and priority. */
  ghost predicate IdsAgree(tag: string, m: Maps, ids: Ids) {
    forall key: IdKey {:trigger key in m.ids} {:trigger NameOf(tag, key)} :: key.port != 0 ==>
      && (key in m.ids <==> NameOf(tag, key) in ids.process)
      && (key in m.ids ==> var info := ids.process[NameOf(tag, key)];
            m.ids[key] == GenerateClassId(QosOf(tag, info).priority, info.localId))
  }

  /** What the cfg map holds under a flow id: the configuration of the live flow of
      this direction that owns the id, or zero. */
  function Expected(tag: string, ids: Ids, id: uint16): ThrottleCfg {
    if id in ids.flowId && ids.flowId[id] in ids.process && FlowOf(tag, ids.process[ids.flowId[id]])
    then CfgOf(QosOf(tag, ids.process[ids.flowId[id]]))
    else ZERO_CFG
  }

  ghost predicate CfgsAgree(tag: string, m: Maps, ids: Ids) {
    m.Sized() && forall id: uint16 :: MIN_FLOW_ID <= id <= MAX_FLOW_ID ==> m.cfg[id] == Expected(tag, ids, id)
  }

  ghost predicate Inv(s: Service) {
    && PodsPaired(s.ids) && FlowsPaired(s.ids) && Filed(s.ids)
    && IdsAgree("egress", s.egress, s.ids) && CfgsAgree("egress", s.egress, s.ids)
    && IdsAgree("ingress", s.ingress, s.ids) && CfgsAgree("ingress", s.ingress, s.ids)
  }

  lemma NameIsOnly(tag: string, key: IdKey, direct: string, ip: uint32, port: uint32)
    ensures NameOf(tag, key) == ProcessId(direct, ip, port) <==> tag == direct && key == IdKey(ip, port)
  {
    if NameOf(tag, key) == ProcessId(direct, ip, port) {
      ProcessIdInjective(tag, key.ip, key.port, direct, ip, port);
    }
  }

  /** A found record bears the address by which it was looked up. */
  lemma FoundIsAsked(ids: Ids, direct: string, ip: uint32, port: uint32)
    requires Filed(ids) && ProcessId(direct, ip, port) in ids.process
    ensures var info := ids.process[ProcessId(direct, ip, port)];
      info.ip == ip && info.port == port && info.processId == ProcessId(direct, ip, port)
  {
    var p := ProcessId(direct, ip, port);
    var info := ids.process[p];
    assert NamesItself(p, info);
    var d :| p == ProcessId(d, info.ip, info.port);
    ProcessIdInjective(d, info.ip, info.port, direct, ip, port);
  }

  // ---------------------------------------------------------------------
  // Registering a flow
  // ---------------------------------------------------------------------

  /** The ID manager's part of SetFlow: a record replaced under the id it has, or
      filed under a fresh one. */
  ghost predicate Recorded(ids: Ids, n: Ids, direct: string, info: ProcessInfo) {
    && info.processId == ProcessId(direct, info.ip, info.port)
    && MIN_FLOW_ID <= info.localId <= MAX_FLOW_ID
    && n.process == ids.process[info.processId := info]
    && (if info.processId in ids.process
        then ids.process[info.processId].localId == info.localId && n.flowId == ids.flowId
        else info.localId !in ids.flowId && n.flowId == ids.flowId[info.localId := info.processId])
  }

  lemma RecordedIdsAgree(tag: string, m: Maps, ids: Ids, n: Ids, direct: string, info: ProcessInfo)
    requires IdsAgree(tag, m, ids) && Recorded(ids, n, direct, info) && info.port != 0
    ensures IdsAgree(tag,
      if direct == tag then Register(m, IdKey(info.ip, info.port), info.localId, QosOf(tag, info)) else m, n)
  {
    var own := IdKey(info.ip, info.port);
    var m' := if direct == tag then Register(m, own, info.localId, QosOf(tag, info)) else m;
    forall key: IdKey | key.port != 0
      ensures key in m'.ids <==> NameOf(tag, key) in n.process
      ensures key in m'.ids ==>
        m'.ids[key] == GenerateClassId(QosOf(tag, n.process[NameOf(tag, key)]).priority, n.process[NameOf(tag, key)].localId)
    {
      NameIsOnly(tag, key, direct, info.ip, info.port);
      assert key in m.ids <==> NameOf(tag, key) in ids.process;
    }
  }

  lemma RecordedExpected(tag: string, ids: Ids, n: Ids, direct: string, info: ProcessInfo, id: uint16)
    requires Recorded(ids, n, direct, info) && FlowsPaired(ids) && Filed(ids)
    requires MIN_FLOW_ID <= id <= MAX_FLOW_ID
    ensures Expected(tag, n, id) ==
      if id == info.localId && direct == tag then CfgOf(QosOf(tag, info)) else Expected(tag, ids, id)
  {
    NameIsOnly(tag, IdKey(info.ip, info.port), direct, info.ip, info.port);
    if info.processId in ids.process {
      FoundIsAsked(ids, direct, info.ip, info.port);
      assert info.processId in FlowIds(ids.process);
    }
    if id in ids.flowId {
      assert ids.flowId[id] in FlowIds(ids.process) && FlowIds(ids.process)[ids.flowId[id]] == id;
    }
  }

  lemma RecordedCfgsAgree(tag: string, m: Maps, ids: Ids, n: Ids, direct: string, info: ProcessInfo)
    requires CfgsAgree(tag, m, ids) && Recorded(ids, n, direct, info)
    requires FlowsPaired(ids) && Filed(ids)
    ensures CfgsAgree(tag,
      if direct == tag then Register(m, IdKey(info.ip, info.port), info.localId, QosOf(tag, info)) else m, n)
  {
    var m' := if direct == tag then Register(m, IdKey(info.ip, info.port), info.localId, QosOf(tag, info)) else m;
    forall id: uint16 | MIN_FLOW_ID <= id <= MAX_FLOW_ID ensures m'.cfg[id] == Expected(tag, n, id) {
      assert m.cfg[id] == Expected(tag, ids, id);
      RecordedExpected(tag, ids, n, direct, info, id);
    }
  }

  lemma RecordedStaysFiled(ids: Ids, n: Ids, direct: string, info: ProcessInfo)
    requires Filed(ids) && Recorded(ids, n, direct, info)
    ensures Filed(n)
  {
    assert NamesItself(info.processId, info);
  }

  lemma SetFlowRecords(s: Service, r: QosFlow)
    requires FlowsPaired(s.ids) && FlowChosen(s.ids, FlowId(r)).Some?
    ensures var info := NewProcess(r).(localId := FlowChosen(s.ids, FlowId(r)).value, qos := FlowQos(r));
      Recorded(s.ids, SetFlow(s, r).ids, r.direct, info)
  {
    assert FlowId(r) in s.ids.process <==> FlowId(r) in FlowIds(s.ids.process);
  }

  lemma SetFlowPairs(s: Service, r: QosFlow)
    requires PodsPaired(s.ids) && FlowsPaired(s.ids) && FlowChosen(s.ids, FlowId(r)).Some?
    ensures PodsPaired(SetFlow(s, r).ids) && FlowsPaired(SetFlow(s, r).ids)
  {
    var p, id := FlowId(r), FlowChosen(s.ids, FlowId(r)).value;
    var a := AllocateProcess(s.ids, NewProcess(r));
    AllocateProcessKeeps(s.ids, NewProcess(r));
    InsertProcessExactly(a, p, NewProcess(r).(localId := id, qos := FlowQos(r)));
    assert p in FlowIds(a.process) && FlowIds(a.process)[p] == id;
    InverseOutside(a.podId, PodIds(a.container), MIN_POD_ID, MAX_POD_ID, p, id);
  }

  lemma SetFlowKeepsInv(s: Service, r: QosFlow)
    requires Inv(s) && r.port != 0
    ensures Inv(SetFlow(s, r))
  {
    var id := FlowChosen(s.ids, FlowId(r));
    if id.Some? {
      var n := SetFlow(s, r);
      var info := NewProcess(r).(localId := id.value, qos := FlowQos(r));
      SetFlowRecords(s, r);
      SetFlowPairs(s, r);
      RecordedStaysFiled(s.ids, n.ids, r.direct, info);
      RecordedIdsAgree("egress", s.egress, s.ids, n.ids, r.direct, info);
      RecordedCfgsAgree("egress", s.egress, s.ids, n.ids, r.direct, info);
      RecordedIdsAgree("ingress", s.ingress, s.ids, n.ids, r.direct, info);
      RecordedCfgsAgree("ingress", s.ingress, s.ids, n.ids, r.direct, info);
    }
  }

  // ---------------------------------------------------------------------
  // Unregistering a flow
  // ---------------------------------------------------------------------

  lemma RemovedIdsAgree(tag: string, m: Maps, ids: Ids, direct: string, info: ProcessInfo)
    requires IdsAgree(tag, m, ids) && info.processId == ProcessId(direct, info.ip, info.port)
    requires info.processId in ids.process
    ensures IdsAgree(tag, if direct == tag then Unregister(m, IdKey(info.ip, info.port), info.localId) else m,
      ReleaseProcess(ids, info.processId))
  {
    var own, n := IdKey(info.ip, info.port), ReleaseProcess(ids, info.processId);
    var m' := if direct == tag then Unregister(m, own, info.localId) else m;
    forall key: IdKey | key.port != 0
      ensures key in m'.ids <==> NameOf(tag, key) in n.process
      ensures key in m'.ids ==>
        m'.ids[key] == GenerateClassId(QosOf(tag, n.process[NameOf(tag, key)]).priority, n.process[NameOf(tag, key)].localId)
    {
      NameIsOnly(tag, key, direct, info.ip, info.port);
      assert key in m.ids <==> NameOf(tag, key) in ids.process;
    }
  }

  lemma RemovedCfgsAgree(tag: string, m: Maps, ids: Ids, direct: string, info: ProcessInfo)
    requires CfgsAgree(tag, m, ids) && info.processId == ProcessId(direct, info.ip, info.port)
    requires FlowsPaired(ids) && info.processId in ids.process && ids.process[info.processId] == info
    ensures CfgsAgree(tag, if direct == tag then Unregister(m, IdKey(info.ip, info.port), info.localId) else m,
      ReleaseProcess(ids, info.processId))
  {
    var n := ReleaseProcess(ids, info.processId);
    var m' := if direct == tag then Unregister(m, IdKey(info.ip, info.port), info.localId) else m;
    NameIsOnly(tag, IdKey(info.ip, info.port), direct, info.ip, info.port);
    assert info.processId in FlowIds(ids.process);
    forall id: uint16 | MIN_FLOW_ID <= id <= MAX_FLOW_ID ensures m'.cfg[id] == Expected(tag, n, id) {
      assert m.cfg[id] == Expected(tag, ids, id);
      if id != info.localId && id in ids.flowId {
        assert FlowIds(ids.process)[ids.flowId[id]] == id;
        assert ids.flowId[id] != info.processId;
      }
    }
  }

  lemma UnSetFlowKeepsInv(s: Service, r: QosFlow)
    requires Inv(s)
    ensures Inv(UnSetFlow(s, r))
  {
    if FlowId(r) in s.ids.process {
      var info := s.ids.process[FlowId(r)];
      FoundIsAsked(s.ids, r.direct, r.ip, r.port);
      ReleaseProcessKeeps(s.ids, FlowId(r));
      RemovedIdsAgree("egress", s.egress, s.ids, r.direct, info);
      RemovedCfgsAgree("egress", s.egress, s.ids, r.direct, info);
      RemovedIdsAgree("ingress", s.ingress, s.ids, r.direct, info);
      RemovedCfgsAgree("ingress", s.ingress, s.ids, r.direct, info);
    }
  }

  // ---------------------------------------------------------------------
  // Pods
  // ---------------------------------------------------------------------

  /** Writes under port 0 and a pod id do not touch what flows rely on. */
  lemma PodWritesApart(tag: string, m: Maps, n: Maps, ids: Ids, nids: Ids)
    requires IdsAgree(tag, m, ids) && CfgsAgree(tag, m, ids)
    requires nids.flowId == ids.flowId && nids.process == ids.process && n.Sized()
    requires forall key: IdKey :: key.port != 0 ==>
      (key in n.ids <==> key in m.ids) && (key in n.ids ==> n.ids[key] == m.ids[key])
    requires forall id: uint16 :: id <= MAX_FLOW_ID ==> n.cfg[id] == m.cfg[id]
    ensures IdsAgree(tag, n, nids) && CfgsAgree(tag, n, nids)
  {
    forall key: IdKey | key.port != 0
      ensures key in n.ids <==> NameOf(tag, key) in nids.process
    {
      assert key in m.ids <==> NameOf(tag, key) in ids.process;
    }
  }

  lemma SetQosPairs(s: Service, r: SetQosRequest, qos: Option<NetQosReq>, patched: bool)
    requires PodsPaired(s.ids)
    ensures var n := SetQos(s, r, qos, patched);
      PodsPaired(n.ids) && n.ids.flowId == s.ids.flowId && n.ids.process == s.ids.process
    ensures PodChosen(s.ids, r.containerId).Some? ==> PodChosen(s.ids, r.containerId).value >= MIN_POD_ID
  {
    if PodChosen(s.ids, r.containerId).Some? {
      var id := PodChosen(s.ids, r.containerId).value;
      if qos.Some? {
        var ids := AllocatePod(s.ids, NewPod(r, qos.value));
        AllocatePodKeeps(s.ids, NewPod(r, qos.value));
        assert r.containerId in PodIds(ids.container) && PodIds(ids.container)[r.containerId] == id;
        InsertPodExactly(ids, r.containerId, NewPod(r, qos.value).(localId := id));
      }
    }
  }

  lemma SetQosKeepsInv(s: Service, r: SetQosRequest, qos: Option<NetQosReq>, patched: bool)
    requires Inv(s)
    ensures Inv(SetQos(s, r, qos, patched))
  {
    var n := SetQos(s, r, qos, patched);
    SetQosPairs(s, r, qos, patched);
    PodWritesApart("egress", s.egress, n.egress, s.ids, n.ids);
    PodWritesApart("ingress", s.ingress, n.ingress, s.ids, n.ids);
  }

  /** A SetQos that cannot annotate its pod changes nothing exactly when the container
      had an id already, none is free, or the pod was not found. Otherwise it leaves the
      new id allocated, though the kernel maps are untouched. */
  lemma FailedPatchExactly(s: Service, r: SetQosRequest, qos: Option<NetQosReq>)
    requires PodsPaired(s.ids)
    ensures var n := SetQos(s, r, qos, false);
      && n.egress == s.egress && n.ingress == s.ingress
      && (n == s <==> qos.None? || r.containerId in s.ids.container || |s.ids.container| == 5000)
      && (n != s ==> n.ids.container.Keys == s.ids.container.Keys + {r.containerId})
  {
    if r.containerId !in s.ids.container && qos.Some? {
      PodIdsRunOutExactly(s.ids, r.containerId);
      if PodChosen(s.ids, r.containerId).Some? {
        NewPodIsFiled(s.ids, NewPod(r, qos.value));
      }
    }
  }

  lemma NewPodIsFiled(ids: Ids, pod: PodInfo)
    requires pod.containerId !in ids.container && PodChosen(ids, pod.containerId).Some?
    ensures AllocatePod(ids, pod).container.Keys == ids.container.Keys + {pod.containerId}
    ensures AllocatePod(ids, pod) != ids
  {
    assert pod.containerId in AllocatePod(ids, pod).container;
  }

  /** Calling again puts that right: the outcome is that of one successful call. */
  lemma RetryMakesGood(s: Service, r: SetQosRequest, qos: Option<NetQosReq>)
    requires PodsPaired(s.ids)
    ensures SetQos(SetQos(s, r, qos, false), r, qos, true) == SetQos(s, r, qos, true)
  {
    if qos.Some? && PodChosen(s.ids, r.containerId).Some? {
      var ids := AllocatePod(s.ids, NewPod(r, qos.value));
      AllocatePodKeeps(s.ids, NewPod(r, qos.value));
      assert AllocatePod(ids, NewPod(r, qos.value)) == ids;
    }
  }

  lemma UnSetQosKeepsInv(s: Service, containerId: string)
    requires Inv(s)
    ensures Inv(UnSetQos(s, containerId))
  {
    if containerId in s.ids.container {
      assert containerId in PodIds(s.ids.container);
      ReleasePodKeeps(s.ids, containerId);
      var n := UnSetQos(s, containerId);
      PodWritesApart("egress", s.egress, n.egress, s.ids, n.ids);
      PodWritesApart("ingress", s.ingress, n.ingress, s.ids, n.ids);
    }
  }

  // ---------------------------------------------------------------------
  // Sequences of calls
  // ---------------------------------------------------------------------

  datatype Call =
    | Set(flow: QosFlow) | UnSet(flow: QosFlow)
    | SetPod(req: SetQosRequest, qos: Option<NetQosReq>, patched: bool) | UnSetPod(containerId: string)

  function Serve(s: Service, c: Call): Service {
    match c
    case Set(r) => SetFlow(s, r)
    case UnSet(r) => UnSetFlow(s, r)
    case SetPod(r, qos, patched) => SetQos(s, r, qos, patched)
    case UnSetPod(id) => UnSetQos(s, id)
  }

  function ServeAll(s: Service, calls: seq<Call>): Service {
    if calls == [] then s else Serve(ServeAll(s, calls[..|calls| - 1]), calls[|calls| - 1])
  }

  lemma {:induction false} ServeAllKeepsInv(s: Service, calls: seq<Call>)
    requires Inv(s) && forall c :: c in calls && c.Set? ==> c.flow.port != 0
    ensures Inv(ServeAll(s, calls))
  {
    if calls != [] {
      var t := ServeAll(s, calls[..|calls| - 1]);
      ServeAllKeepsInv(s, calls[..|calls| - 1]);
      match calls[|calls| - 1]
      case Set(r) => SetFlowKeepsInv(t, r);
      case UnSet(r) => UnSetFlowKeepsInv(t, r);
      case SetPod(r, qos, patched) => SetQosKeepsInv(t, r, qos, patched);
      case UnSetPod(id) => UnSetQosKeepsInv(t, id);
    }
  }

  /** Index agreement: after any sequence of calls on flows with nonzero ports and on
      pods, in either direction the id map holds exactly the live flows and the cfg
      map their configurations; and both pairs of maps of the ID manager are inverse. */
  lemma IndexAgreement(calls: seq<Call>)
    requires forall c :: c in calls && c.Set? ==> c.flow.port != 0
    ensures Inv(ServeAll(EMPTY_SERVICE, calls))
  {
    ServeAllKeepsInv(EMPTY_SERVICE, calls);
  }

  /** A registered flow decides how its packets are paced: outgoing traffic from its
      address, unless the address is a pod's, is handled under the flow's id, and
      the cfg map holds under that id what was last set for the flow. */
  lemma EgressTrafficIsFlows(s: Service, h: Edt.Headers, source: uint32)
    requires Inv(s) && source != 0 && IdKey(h.saddr, 0) !in s.egress.ids
    requires h.ports.Some? && h.ports.value.source == source
    requires ProcessId("egress", h.saddr, source) in s.ids.process
    requires s.ids.process[ProcessId("egress", h.saddr, source)].qos.egress.priority < 0x1_0000
    ensures var info := s.ids.process[ProcessId("egress", h.saddr, source)];
      var word := Edt.FirstHit(s.egress.ids, Edt.EgressKeys(h));
      && Edt.SplitId(word) == info.localId && Edt.SplitPriority(word) == info.qos.egress.priority
      && info.localId <= MAX_FLOW_ID && s.egress.cfg[info.localId] == CfgOf(info.qos.egress)
  {
    var key := IdKey(h.saddr, source);
    var info := s.ids.process[NameOf("egress", key)];
    LiveFlowIsMapped("egress", s.egress, s.ids, key);
    ServerKeyDecides(s.egress.ids, h, key);
    ClassIdRoundTrip(info.qos.egress.priority, info.localId);
    LiveFlowIsConfigured("egress", s.egress, s.ids, key);
  }

  /** Incoming traffic to a registered flow's address and port likewise. */
  lemma IngressTrafficIsFlows(s: Service, h: Edt.Headers, dest: uint32)
    requires Inv(s) && dest != 0 && IdKey(h.daddr, 0) !in s.ingress.ids
    requires h.ports.Some? && h.ports.value.dest == dest
    requires ProcessId("ingress", h.daddr, dest) in s.ids.process
    requires s.ids.process[ProcessId("ingress", h.daddr, dest)].qos.ingress.priority < 0x1_0000
    ensures var info := s.ids.process[ProcessId("ingress", h.daddr, dest)];
      var word := Edt.FirstHit(s.ingress.ids, Edt.IngressKeys(h));
      && Edt.SplitId(word) == info.localId && Edt.SplitPriority(word) == info.qos.ingress.priority
      && info.localId <= MAX_FLOW_ID && s.ingress.cfg[info.localId] == CfgOf(info.qos.ingress)
  {
    var key := IdKey(h.daddr, dest);
    var info := s.ids.process[NameOf("ingress", key)];
    LiveFlowIsMapped("ingress", s.ingress, s.ids, key);
    LocalKeyDecides(s.ingress.ids, h, key);
    ClassIdRoundTrip(info.qos.ingress.priority, info.localId);
    LiveFlowIsConfigured("ingress", s.ingress, s.ids, key);
  }

  lemma LocalKeyDecides(ids: map<IdKey, uint32>, h: Edt.Headers, key: IdKey)
    requires h.ports.Some? && key == IdKey(h.daddr, h.ports.value.dest)
    requires IdKey(h.daddr, 0) !in ids && key in ids
    ensures Edt.FirstHit(ids, Edt.IngressKeys(h)) == ids[key]
  {
    Edt.FirstHitIsFirst(ids, Edt.IngressKeys(h), 1);
  }

  /** A client's flow is found by the remote address and port, when neither a pod nor
      a flow is registered under its own. */
  lemma EgressClientIsFlows(s: Service, h: Edt.Headers)
    requires Inv(s) && h.ports.Some? && h.ports.value.dest != 0
    requires IdKey(h.saddr, 0) !in s.egress.ids && IdKey(h.saddr, h.ports.value.source) !in s.egress.ids
    requires ProcessId("egress", h.daddr, h.ports.value.dest) in s.ids.process
    requires s.ids.process[ProcessId("egress", h.daddr, h.ports.value.dest)].qos.egress.priority < 0x1_0000
    ensures var info := s.ids.process[ProcessId("egress", h.daddr, h.ports.value.dest)];
      var word := Edt.FirstHit(s.egress.ids, Edt.EgressKeys(h));
      && Edt.SplitId(word) == info.localId && Edt.SplitPriority(word) == info.qos.egress.priority
      && info.localId <= MAX_FLOW_ID && s.egress.cfg[info.localId] == CfgOf(info.qos.egress)
  {
    var key := IdKey(h.daddr, h.ports.value.dest);
    var info := s.ids.process[NameOf("egress", key)];
    LiveFlowIsMapped("egress", s.egress, s.ids, key);
    Edt.FirstHitIsFirst(s.egress.ids, Edt.EgressKeys(h), 2);
    ClassIdRoundTrip(info.qos.egress.priority, info.localId);
    LiveFlowIsConfigured("egress", s.egress, s.ids, key);
  }

  lemma IngressClientIsFlows(s: Service, h: Edt.Headers)
    requires Inv(s) && h.ports.Some? && h.ports.value.source != 0
    requires IdKey(h.daddr, 0) !in s.ingress.ids && IdKey(h.daddr, h.ports.value.dest) !in s.ingress.ids
    requires ProcessId("ingress", h.saddr, h.ports.value.source) in s.ids.process
    requires s.ids.process[ProcessId("ingress", h.saddr, h.ports.value.source)].qos.ingress.priority < 0x1_0000
    ensures var info := s.ids.process[ProcessId("ingress", h.saddr, h.ports.value.source)];
      var word := Edt.FirstHit(s.ingress.ids, Edt.IngressKeys(h));
      && Edt.SplitId(word) == info.localId && Edt.SplitPriority(word) == info.qos.ingress.priority
      && info.localId <= MAX_FLOW_ID && s.ingress.cfg[info.localId] == CfgOf(info.qos.ingress)
  {
    var key := IdKey(h.saddr, h.ports.value.source);
    var info := s.ids.process[NameOf("ingress", key)];
    LiveFlowIsMapped("ingress", s.ingress, s.ids, key);
    Edt.FirstHitIsFirst(s.ingress.ids, Edt.IngressKeys(h), 2);
    ClassIdRoundTrip(info.qos.ingress.priority, info.localId);
    LiveFlowIsConfigured("ingress", s.ingress, s.ids, key);
  }

  /** Traffic between addresses and ports of which none is registered is the default stream's. */
  lemma UnregisteredIsDefault(ids: map<IdKey, uint32>, h: Edt.Headers)
    requires IdKey(h.saddr, 0) !in ids && IdKey(h.daddr, 0) !in ids
    requires h.ports.Some? ==>
      && IdKey(h.saddr, h.ports.value.source) !in ids && IdKey(h.daddr, h.ports.value.dest) !in ids
    ensures Edt.FirstHit(ids, Edt.EgressKeys(h)) == 0 && Edt.FirstHit(ids, Edt.IngressKeys(h)) == 0
  {
    Edt.FirstHitIsFirst(ids, Edt.EgressKeys(h), |Edt.EgressKeys(h)|);
    Edt.FirstHitIsFirst(ids, Edt.IngressKeys(h), |Edt.IngressKeys(h)|);
  }

  // ---------------------------------------------------------------------
  // What a call asks for is what the maps get
  // ---------------------------------------------------------------------

  /** The configuration holds what was asked for: the priority, a period of 10 ms, the
      request, 10 Mb if none was given, and the limit, in bytes per second. */
  predicate Carries(c: ThrottleCfg, q: QosConfig) {
    && c.priority == q.priority && c.interval == 10_000_000
    && c.lowRate == (if q.bandWidthRequestM == 0 then 10 else q.bandWidthRequestM) * 131072 % 0x1_0000_0000_0000_0000
    && c.highRate == q.bandWidthLimitM * 131072 % 0x1_0000_0000_0000_0000
  }

  lemma CfgCarries(q: QosConfig)
    ensures Carries(CfgOf(q), q) && CfgOf(q).reqRate == CfgOf(q).lowRate && CfgOf(q) != ZERO_CFG
  {
  }

  /** The word and the configuration of one direction serve this id as was asked for. */
  predicate Serves(m: Maps, key: IdKey, id: uint16, q: QosConfig) {
    && key in m.ids
    && (q.priority < 0x1_0000 ==> Edt.SplitId(m.ids[key]) == id && Edt.SplitPriority(m.ids[key]) == q.priority)
    && (id < |m.cfg| ==> Carries(m.cfg[id], q) && m.cfg[id].reqRate == m.cfg[id].lowRate)
  }

  /** Nothing else is written: no other key, and no entry of another id. */
  ghost predicate OnlyAt(m: Maps, n: Maps, key: IdKey, id: uint16) {
    && n.ids - {key} == m.ids - {key}
    && |n.cfg| == |m.cfg| && |n.stat| == |m.stat|
    && (forall k :: 0 <= k < |m.cfg| && k != id ==> n.cfg[k] == m.cfg[k])
    && (forall k :: 0 <= k < |m.stat| && k != id ==> n.stat[k] == m.stat[k])
  }

  lemma RegisterServes(m: Maps, key: IdKey, id: uint16, q: QosConfig)
    ensures Serves(Register(m, key, id, q), key, id, q) && OnlyAt(m, Register(m, key, id, q), key, id)
    ensures Register(m, key, id, q).stat == m.stat
  {
    CfgCarries(q);
    ClassIdRoundTrip(q.priority, id);
  }

  /** SetFlow serves the flow in the direction it names as that direction was asked for,
      files the request with it, and leaves all else alone. */
  lemma SetFlowTakesEffect(s: Service, r: QosFlow)
    requires FlowChosen(s.ids, FlowId(r)).Some?
    ensures var id, n, key := FlowChosen(s.ids, FlowId(r)).value, SetFlow(s, r), IdKey(r.ip, r.port);
      && FlowId(r) in n.ids.process
      && var info := n.ids.process[FlowId(r)];
         && info.localId == id && info.ip == r.ip && info.port == r.port
         && (if r.direct == "egress" then
               Serves(n.egress, key, id, r.send) && OnlyAt(s.egress, n.egress, key, id)
               && n.egress.stat == s.egress.stat && info.qos.egress == r.send
             else n.egress == s.egress)
         && (if r.direct == "ingress" then
               Serves(n.ingress, key, id, r.recv) && OnlyAt(s.ingress, n.ingress, key, id)
               && n.ingress.stat == s.ingress.stat && info.qos.ingress == r.recv
             else n.ingress == s.ingress)
  {
    var id := FlowChosen(s.ids, FlowId(r)).value;
    RegisterServes(s.egress, IdKey(r.ip, r.port), id, r.send);
    RegisterServes(s.ingress, IdKey(r.ip, r.port), id, r.recv);
  }

  /** SetQos serves the pod in both directions as the cluster asks, under its address. */
  lemma SetQosTakesEffect(s: Service, r: SetQosRequest, qos: NetQosReq)
    requires PodChosen(s.ids, r.containerId).Some?
    ensures var id, n, key := PodChosen(s.ids, r.containerId).value, SetQos(s, r, Some(qos), true), IdKey(r.vethIpv4, 0);
      && r.containerId in n.ids.container
      && var pod := n.ids.container[r.containerId];
         && pod.localId == id && pod.qos == qos && pod.vethIpv4 == r.vethIpv4 && pod.containerId == r.containerId
         && Serves(n.egress, key, id, qos.egress) && OnlyAt(s.egress, n.egress, key, id)
         && Serves(n.ingress, key, id, qos.ingress) && OnlyAt(s.ingress, n.ingress, key, id)
         && n.egress.stat == s.egress.stat && n.ingress.stat == s.ingress.stat
  {
    var id := PodChosen(s.ids, r.containerId).value;
    RegisterServes(s.egress, IdKey(r.vethIpv4, 0), id, qos.egress);
    RegisterServes(s.ingress, IdKey(r.vethIpv4, 0), id, qos.ingress);
  }

  /** The slot is as zeroed maps have it, and its key is gone. */
  predicate Cleared(m: Maps, key: IdKey, id: uint16) {
    && key !in m.ids && (id < |m.cfg| ==> m.cfg[id] == ZERO_CFG) && (id < |m.stat| ==> m.stat[id] == ZERO_STAT)
  }

  lemma UnregisterClears(m: Maps, key: IdKey, id: uint16)
    ensures Cleared(Unregister(m, key, id), key, id) && OnlyAt(m, Unregister(m, key, id), key, id)
  {
  }

  /** UnSetFlow clears key, configuration and statistics of the flow in the direction it
      names, and nothing else. */
  lemma UnSetFlowClears(s: Service, r: QosFlow)
    requires Filed(s.ids) && FlowId(r) in s.ids.process
    ensures var id, n, key := s.ids.process[FlowId(r)].localId, UnSetFlow(s, r), IdKey(r.ip, r.port);
      && FlowId(r) !in n.ids.process
      && (if r.direct == "egress" then Cleared(n.egress, key, id) && OnlyAt(s.egress, n.egress, key, id)
          else n.egress == s.egress)
      && (if r.direct == "ingress" then Cleared(n.ingress, key, id) && OnlyAt(s.ingress, n.ingress, key, id)
          else n.ingress == s.ingress)
  {
    FoundIsAsked(s.ids, r.direct, r.ip, r.port);
    UnregisterClears(s.egress, IdKey(r.ip, r.port), s.ids.process[FlowId(r)].localId);
    UnregisterClears(s.ingress, IdKey(r.ip, r.port), s.ids.process[FlowId(r)].localId);
  }

  /** UnSetQos does so for the pod, in both directions. */
  lemma UnSetQosClears(s: Service, c: string)
    requires c in s.ids.container
    ensures var pod, n := s.ids.container[c], UnSetQos(s, c);
      var key := IdKey(pod.vethIpv4, 0);
      && c !in n.ids.container
      && Cleared(n.egress, key, pod.localId) && OnlyAt(s.egress, n.egress, key, pod.localId)
      && Cleared(n.ingress, key, pod.localId) && OnlyAt(s.ingress, n.ingress, key, pod.localId)
  {
    var pod := s.ids.container[c];
    UnregisterClears(s.egress, IdKey(pod.vethIpv4, 0), pod.localId);
    UnregisterClears(s.ingress, IdKey(pod.vethIpv4, 0), pod.localId);
  }

  /** A record changes only by calls on its own flow. */
  lemma OtherCallsKeepRecord(s: Service, c: Call, p: string)
    requires p in s.ids.process
    requires c.Set? ==> FlowId(c.flow) != p
    requires c.UnSet? ==> FlowId(c.flow) != p
    ensures p in Serve(s, c).ids.process && Serve(s, c).ids.process[p] == s.ids.process[p]
  {
    match c
    case Set(r) => case UnSet(r) => case SetPod(r, qos, patched) => case UnSetPod(id) =>
  }

  /** The id of a flow enters the pod map with its insertion and stays there when the
      flow is released. */
  lemma FlowIdStaysInPodMap(s: Service, r: QosFlow)
    requires FlowsPaired(s.ids) && FlowChosen(s.ids, FlowId(r)).Some?
    ensures var id, n := FlowChosen(s.ids, FlowId(r)).value, UnSetFlow(SetFlow(s, r), r).ids;
      && FlowId(r) !in n.process && id !in n.flowId
      && id in n.podId && n.podId[id] == FlowId(r)
  {
  }

  lemma LiveFlowIsMapped(tag: string, m: Maps, ids: Ids, key: IdKey)
    requires IdsAgree(tag, m, ids) && key.port != 0 && NameOf(tag, key) in ids.process
    ensures key in m.ids
    ensures var info := ids.process[NameOf(tag, key)];
      m.ids[key] == GenerateClassId(QosOf(tag, info).priority, info.localId)
  {
  }

  lemma ServerKeyDecides(ids: map<IdKey, uint32>, h: Edt.Headers, key: IdKey)
    requires h.ports.Some? && key == IdKey(h.saddr, h.ports.value.source)
    requires IdKey(h.saddr, 0) !in ids && key in ids
    ensures Edt.FirstHit(ids, Edt.EgressKeys(h)) == ids[key]
  {
    Edt.FirstHitIsFirst(ids, Edt.EgressKeys(h), 1);
  }

  lemma LiveFlowIsConfigured(tag: string, m: Maps, ids: Ids, key: IdKey)
    requires FlowsPaired(ids) && Filed(ids) && CfgsAgree(tag, m, ids) && NameOf(tag, key) in ids.process
    ensures var info := ids.process[NameOf(tag, key)];
      MIN_FLOW_ID <= info.localId <= MAX_FLOW_ID && m.cfg[info.localId] == CfgOf(QosOf(tag, info))
  {
    var info := ids.process[NameOf(tag, key)];
    FoundIsAsked(ids, tag, key.ip, key.port);
    assert NameOf(tag, key) in FlowIds(ids.process);
    assert m.cfg[info.localId] == Expected(tag, ids, info.localId);
  }

  lemma RegisterThenUnregister(m: Maps, key: IdKey, id: uint16, q: QosConfig)
    requires m.Sized() && key !in m.ids && id < MAX_MAP_SIZE && m.cfg[id] == ZERO_CFG
    ensures var n := Unregister(Register(m, key, id, q), key, id);
      n.ids == m.ids && n.cfg == m.cfg
  {
  }

  lemma FreshFlowUnmapped(tag: string, m: Maps, s: Service, r: QosFlow)
    requires Inv(s) && IdsAgree(tag, m, s.ids) && CfgsAgree(tag, m, s.ids)
    requires r.port != 0 && r.direct == tag && FlowId(r) !in s.ids.process && FlowChosen(s.ids, FlowId(r)).Some?
    ensures IdKey(r.ip, r.port) !in m.ids && m.cfg[FlowChosen(s.ids, FlowId(r)).value] == ZERO_CFG
  {
    assert NameOf(tag, IdKey(r.ip, r.port)) !in s.ids.process;
    assert FlowId(r) !in FlowIds(s.ids.process);
    assert m.cfg[FlowChosen(s.ids, FlowId(r)).value] == Expected(tag, s.ids, FlowChosen(s.ids, FlowId(r)).value);
  }

  lemma SetFlowFiles(s: Service, r: QosFlow)
    requires Inv(s) && FlowId(r) !in s.ids.process && FlowChosen(s.ids, FlowId(r)).Some?
    ensures var id, n := FlowChosen(s.ids, FlowId(r)).value, SetFlow(s, r).ids;
      && n.process == s.ids.process[FlowId(r) := NewProcess(r).(localId := id, qos := FlowQos(r))]
      && id !in s.ids.flowId && n.flowId == s.ids.flowId[id := FlowId(r)]
      && n.container == s.ids.container
  {
    assert FlowId(r) !in FlowIds(s.ids.process);
  }

  lemma UnSetForgetsRecord(s: Service, r: QosFlow)
    requires Inv(s) && FlowId(r) !in s.ids.process && FlowChosen(s.ids, FlowId(r)).Some?
    ensures var n := UnSetFlow(SetFlow(s, r), r).ids;
      n.process == s.ids.process && n.flowId == s.ids.flowId && n.container == s.ids.container
  {
    SetFlowFiles(s, r);
  }

  /** UnSetFlow undoes SetFlow of a new flow: records, flow ids, id maps and
      configurations are as before. (podIdMap keeps the id, and the statistics of the
      slot have been cleared.) */
  lemma UnSetUndoesSet(s: Service, r: QosFlow)
    requires Inv(s) && r.port != 0 && FlowId(r) !in s.ids.process
    ensures var n := UnSetFlow(SetFlow(s, r), r);
      && n.ids.process == s.ids.process && n.ids.flowId == s.ids.flowId && n.ids.container == s.ids.container
      && n.egress.ids == s.egress.ids && n.egress.cfg == s.egress.cfg
      && n.ingress.ids == s.ingress.ids && n.ingress.cfg == s.ingress.cfg
  {
    var key, id := IdKey(r.ip, r.port), FlowChosen(s.ids, FlowId(r));
    if id.Some? {
      SetFlowFiles(s, r);
      UnSetForgetsRecord(s, r);
      if r.direct == "egress" {
        FreshFlowUnmapped("egress", s.egress, s, r);
        RegisterThenUnregister(s.egress, key, id.value, r.send);
      } else if r.direct == "ingress" {
        FreshFlowUnmapped("ingress", s.ingress, s, r);
        RegisterThenUnregister(s.ingress, key, id.value, r.recv);
      }
    }
  }
}
