/** The pod half of the kernel maps: port 0 keys and configurations of pod ids agree
    with the live pods, exactly as long as calls respect the pods' addresses. */
module PodTheorems {
  import opened Throttle
  import opened Names
  import opened IdManager
  import opened IdTheorems
  import opened Flows
  import opened FlowTheorems
  import Edt

  function PodQos(tag: string, pod: PodInfo): QosConfig {
    if tag == "egress" then pod.qos.egress else pod.qos.ingress
  }

  function PodKey(pod: PodInfo): IdKey {
    IdKey(pod.vethIpv4, 0)
  }

  predicate Mapped(tag: string, m: Maps, pod: PodInfo) {
    PodKey(pod) in m.ids && m.ids[PodKey(pod)] == GenerateClassId(PodQos(tag, pod).priority, pod.localId)
  }

  ghost predicate LivesAt(ids: Ids, ip: uint32) {
    exists c :: c in ids.container && ids.container[c].vethIpv4 == ip
  }

  /** Every live pod is mapped, and nothing else is on port 0. */
  ghost predicate PodKeysAgree(tag: string, m: Maps, ids: Ids) {
    && (forall c :: c in ids.container ==> Mapped(tag, m, ids.container[c]))
    && (forall key: IdKey :: key in m.ids && key.port == 0 ==> LivesAt(ids, key.ip))
  }

  /** What the cfg map holds under a pod id. */
  function ExpectedPod(tag: string, ids: Ids, id: uint16): ThrottleCfg {
    if id in ids.podId && ids.podId[id] in ids.container
    then CfgOf(PodQos(tag, ids.container[ids.podId[id]])) else ZERO_CFG
  }

  /** The ids that the kernel maps have room for. */
  ghost predicate PodCfgsAgree(tag: string, m: Maps, ids: Ids) {
    m.Sized() && forall id: uint16 :: MIN_POD_ID <= id < MAX_MAP_SIZE ==> m.cfg[id] == ExpectedPod(tag, ids, id)
  }

  ghost predicate AddressesDistinct(ids: Ids) {
    forall c, d :: c in ids.container && d in ids.container && c != d ==>
      ids.container[c].vethIpv4 != ids.container[d].vethIpv4
  }

  ghost predicate PortsNonzero(ids: Ids) {
    forall p :: p in ids.process ==> ids.process[p].port != 0
  }

  ghost predicate PodsAgree(tag: string, m: Maps, ids: Ids) {
    PodKeysAgree(tag, m, ids) && PodCfgsAgree(tag, m, ids)
  }

  ghost predicate PodInv(s: Service) {
    && FlowTheorems.Inv(s) && PortsNonzero(s.ids) && AddressesDistinct(s.ids)
    && PodsAgree("egress", s.egress, s.ids) && PodsAgree("ingress", s.ingress, s.ids)
  }

  // ---------------------------------------------------------------------
  // Registering a pod
  // ---------------------------------------------------------------------

  /** The ID manager's part of SetQos: a record replaced under the id it has, or filed
      under a fresh one. */
  ghost predicate PodRecorded(ids: Ids, n: Ids, c: string, pod: PodInfo) {
    && MIN_POD_ID <= pod.localId <= MAX_POD_ID
    && n.container == ids.container[c := pod] && n.podId == ids.podId[pod.localId := c]
    && (c in ids.container ==> ids.container[c].localId == pod.localId)
    && (pod.localId in ids.podId ==> ids.podId[pod.localId] == c)
  }

  lemma SetQosRecords(s: Service, r: SetQosRequest, qos: NetQosReq)
    requires PodsPaired(s.ids) && PodChosen(s.ids, r.containerId).Some?
    ensures var pod := NewPod(r, qos).(localId := PodChosen(s.ids, r.containerId).value);
      PodRecorded(s.ids, SetQos(s, r, Some(qos), true).ids, r.containerId, pod)
  {
    assert r.containerId in s.ids.container <==> r.containerId in PodIds(s.ids.container);
  }

  lemma RegisterKeepsKeys(tag: string, m: Maps, ids: Ids, n: Ids, c: string, pod: PodInfo)
    requires PodKeysAgree(tag, m, ids) && PodRecorded(ids, n, c, pod)
    requires c in ids.container ==> ids.container[c].vethIpv4 == pod.vethIpv4
    requires AddressesDistinct(n)
    ensures PodKeysAgree(tag, Register(m, PodKey(pod), pod.localId, PodQos(tag, pod)), n)
  {
    var m' := Register(m, PodKey(pod), pod.localId, PodQos(tag, pod));
    forall d | d in n.container ensures Mapped(tag, m', n.container[d]) {
      if d != c {
        assert Mapped(tag, m, ids.container[d]);
        assert PodKey(n.container[d]) != PodKey(n.container[c]);
      }
    }
    forall key: IdKey | key in m'.ids && key.port == 0 ensures LivesAt(n, key.ip) {
      if key == PodKey(pod) {
        assert c in n.container && n.container[c].vethIpv4 == key.ip;
      } else {
        assert LivesAt(ids, key.ip);
        var d :| d in ids.container && ids.container[d].vethIpv4 == key.ip;
        assert d != c && d in n.container && n.container[d].vethIpv4 == key.ip;
      }
    }
  }

  lemma RegisterKeepsCfgs(tag: string, m: Maps, ids: Ids, n: Ids, c: string, pod: PodInfo)
    requires PodCfgsAgree(tag, m, ids) && PodRecorded(ids, n, c, pod) && PodsPaired(ids)
    ensures PodCfgsAgree(tag, Register(m, PodKey(pod), pod.localId, PodQos(tag, pod)), n)
  {
    var m' := Register(m, PodKey(pod), pod.localId, PodQos(tag, pod));
    forall id: uint16 | MIN_POD_ID <= id < MAX_MAP_SIZE ensures m'.cfg[id] == ExpectedPod(tag, n, id) {
      assert m.cfg[id] == ExpectedPod(tag, ids, id);
      if id != pod.localId && id in ids.podId {
        assert ids.podId[id] in PodIds(ids.container) && PodIds(ids.container)[ids.podId[id]] == id;
        assert ids.podId[id] != c;
      }
    }
  }

  /** Whether a SetQos changes anything. */
  predicate Effective(s: Service, r: SetQosRequest, qos: Option<NetQosReq>, patched: bool) {
    && qos.Some? && PodChosen(s.ids, r.containerId).Some?
    && (patched || r.containerId !in s.ids.container)
  }

  /** The pod can be annotated, it keeps its address if it has one, and no other live
      pod has that address. */
  ghost predicate Settles(s: Service, r: SetQosRequest, patched: bool) {
    && patched
    && (r.containerId in s.ids.container ==> s.ids.container[r.containerId].vethIpv4 == r.vethIpv4)
    && (forall c :: c in s.ids.container && c != r.containerId ==> s.ids.container[c].vethIpv4 != r.vethIpv4)
  }

  lemma SettlingKeeps(s: Service, r: SetQosRequest, qos: NetQosReq)
    requires PodInv(s) && PodChosen(s.ids, r.containerId).Some? && Settles(s, r, true)
    ensures PodInv(SetQos(s, r, Some(qos), true))
  {
    var n := SetQos(s, r, Some(qos), true);
    var pod := NewPod(r, qos).(localId := PodChosen(s.ids, r.containerId).value);
    SetQosKeepsInv(s, r, Some(qos), true);
    SetQosPairs(s, r, Some(qos), true);
    SetQosRecords(s, r, qos);
    RegisterKeepsKeys("egress", s.egress, s.ids, n.ids, r.containerId, pod);
    RegisterKeepsCfgs("egress", s.egress, s.ids, n.ids, r.containerId, pod);
    RegisterKeepsKeys("ingress", s.ingress, s.ids, n.ids, r.containerId, pod);
    RegisterKeepsCfgs("ingress", s.ingress, s.ids, n.ids, r.containerId, pod);
  }

  /** One record is filed under the requested address; the others stay. */
  lemma SetQosFiles(s: Service, r: SetQosRequest, qos: NetQosReq, patched: bool)
    requires PodsPaired(s.ids) && Effective(s, r, Some(qos), patched)
    ensures var c, n := r.containerId, SetQos(s, r, Some(qos), patched).ids;
      && c in n.container && n.container[c].vethIpv4 == r.vethIpv4
      && n.container == s.ids.container[c := n.container[c]]
  {
    assert r.containerId in s.ids.container <==> r.containerId in PodIds(s.ids.container);
  }

  lemma SharedAddressBreaks(ids: Ids, n: Ids, c: string, d: string)
    requires c in n.container && n.container == ids.container[c := n.container[c]]
    requires d in ids.container && d != c && ids.container[d].vethIpv4 == n.container[c].vethIpv4
    ensures !AddressesDistinct(n)
  {
    assert n.container[d] == ids.container[d];
  }

  lemma MissingKeyBreaks(tag: string, m: Maps, ids: Ids, n: Ids, c: string)
    requires PodKeysAgree(tag, m, ids) && c in n.container && !LivesAt(ids, n.container[c].vethIpv4)
    ensures !PodKeysAgree(tag, m, n)
  {
    assert PodKey(n.container[c]) !in m.ids;
    assert !Mapped(tag, m, n.container[c]);
  }

  lemma OldKeyBreaks(tag: string, m: Maps, ids: Ids, n: Ids, c: string)
    requires AddressesDistinct(ids) && c in ids.container && c in n.container
    requires n.container == ids.container[c := n.container[c]]
    requires n.container[c].vethIpv4 != ids.container[c].vethIpv4
    requires PodKey(ids.container[c]) in m.ids
    ensures !PodKeysAgree(tag, m, n)
  {
    forall d | d in n.container ensures n.container[d].vethIpv4 != ids.container[c].vethIpv4 {
      assert d == c || n.container[d] == ids.container[d];
    }
    assert !LivesAt(n, PodKey(ids.container[c]).ip);
  }

  /** A record without its key, or a key without its record, or a key of two. */
  lemma UnsettlingBreaks(s: Service, r: SetQosRequest, qos: NetQosReq, patched: bool)
    requires PodInv(s) && Effective(s, r, Some(qos), patched) && !Settles(s, r, patched)
    ensures !PodInv(SetQos(s, r, Some(qos), patched))
  {
    var n, c := SetQos(s, r, Some(qos), patched), r.containerId;
    SetQosFiles(s, r, qos, patched);
    if d :| d in s.ids.container && d != c && s.ids.container[d].vethIpv4 == r.vethIpv4 {
      SharedAddressBreaks(s.ids, n.ids, c, d);
    } else if !patched {
      MissingKeyBreaks("egress", s.egress, s.ids, n.ids, c);
    } else {
      assert Mapped("egress", s.egress, s.ids.container[c]);
      OldKeyBreaks("egress", n.egress, s.ids, n.ids, c);
    }
  }

  /** SetQos keeps the pod half of the maps in agreement exactly when it changes
      nothing, or annotates the pod and finds its address its own and unchanged. */
  lemma SetQosExactly(s: Service, r: SetQosRequest, qos: Option<NetQosReq>, patched: bool)
    requires PodInv(s)
    ensures PodInv(SetQos(s, r, qos, patched)) <==> (!Effective(s, r, qos, patched) || Settles(s, r, patched))
  {
    if !Effective(s, r, qos, patched) {
      assert SetQos(s, r, qos, patched) == s;
    } else if Settles(s, r, patched) {
      SettlingKeeps(s, r, qos.value);
    } else {
      UnsettlingBreaks(s, r, qos.value, patched);
    }
  }

  /** A pod that is set again under another address leaves its old key behind, which
      then outlives the pod. */
  lemma MovedPodLeavesKey(s: Service, r: SetQosRequest, q: SetQosRequest, qos: NetQosReq)
    requires PodChosen(s.ids, r.containerId).Some?
    requires q.containerId == r.containerId && q.vethIpv4 != r.vethIpv4
    ensures var n := UnSetQos(SetQos(SetQos(s, r, Some(qos), true), q, Some(qos), true), r.containerId);
      r.containerId !in n.ids.container && IdKey(r.vethIpv4, 0) in n.egress.ids && IdKey(r.vethIpv4, 0) in n.ingress.ids
  {
    var a := SetQos(s, r, Some(qos), true);
    assert r.containerId in PodIds(a.ids.container);
    var b := SetQos(a, q, Some(qos), true);
    assert b.ids.container[r.containerId].vethIpv4 == q.vethIpv4;
  }

  // ---------------------------------------------------------------------
  // Unregistering a pod
  // ---------------------------------------------------------------------

  lemma UnregisterKeepsKeys(tag: string, m: Maps, ids: Ids, c: string)
    requires PodKeysAgree(tag, m, ids) && AddressesDistinct(ids) && c in ids.container
    ensures var pod := ids.container[c];
      PodKeysAgree(tag, Unregister(m, PodKey(pod), pod.localId), ReleasePodByContainer(ids, c))
  {
    var pod, n := ids.container[c], ReleasePodByContainer(ids, c);
    var m' := Unregister(m, PodKey(pod), pod.localId);
    forall d | d in n.container ensures Mapped(tag, m', n.container[d]) {
      assert Mapped(tag, m, ids.container[d]);
    }
    forall key: IdKey | key in m'.ids && key.port == 0 ensures LivesAt(n, key.ip) {
      assert LivesAt(ids, key.ip);
      var d :| d in ids.container && ids.container[d].vethIpv4 == key.ip;
      assert d in n.container && n.container[d].vethIpv4 == key.ip;
    }
  }

  lemma UnregisterKeepsCfgs(tag: string, m: Maps, ids: Ids, c: string)
    requires PodCfgsAgree(tag, m, ids) && PodsPaired(ids) && c in ids.container
    ensures var pod := ids.container[c];
      PodCfgsAgree(tag, Unregister(m, PodKey(pod), pod.localId), ReleasePodByContainer(ids, c))
  {
    var pod, n := ids.container[c], ReleasePodByContainer(ids, c);
    var m' := Unregister(m, PodKey(pod), pod.localId);
    assert c in PodIds(ids.container);
    forall id: uint16 | MIN_POD_ID <= id < MAX_MAP_SIZE ensures m'.cfg[id] == ExpectedPod(tag, n, id) {
      assert m.cfg[id] == ExpectedPod(tag, ids, id);
      if id != pod.localId && id in ids.podId {
        assert ids.podId[id] in PodIds(ids.container) && PodIds(ids.container)[ids.podId[id]] == id;
        assert ids.podId[id] != c;
      }
    }
  }

  lemma UnSetQosKeepsPods(s: Service, c: string)
    requires PodInv(s)
    ensures PodInv(UnSetQos(s, c))
  {
    UnSetQosKeepsInv(s, c);
    if c in s.ids.container {
      UnregisterKeepsKeys("egress", s.egress, s.ids, c);
      UnregisterKeepsCfgs("egress", s.egress, s.ids, c);
      UnregisterKeepsKeys("ingress", s.ingress, s.ids, c);
      UnregisterKeepsCfgs("ingress", s.ingress, s.ids, c);
    }
  }

  // ---------------------------------------------------------------------
  // Flows do not touch pods
  // ---------------------------------------------------------------------

  /** Containers and pod ids are as before. */
  ghost predicate SamePods(ids: Ids, n: Ids) {
    && n.container == ids.container
    && forall id: uint16 :: MIN_POD_ID <= id ==> SamePodAt(ids, n, id)
  }

  predicate SamePodAt(ids: Ids, n: Ids, id: uint16) {
    (id in n.podId <==> id in ids.podId) && (id in n.podId ==> n.podId[id] == ids.podId[id])
  }

  lemma FlowWritesApart(tag: string, m: Maps, n: Maps, ids: Ids, nids: Ids)
    requires PodsAgree(tag, m, ids) && n.Sized() && SamePods(ids, nids)
    requires forall key: IdKey :: key.port == 0 ==> (key in n.ids <==> key in m.ids)
    requires forall key: IdKey :: key.port == 0 && key in m.ids ==> n.ids[key] == m.ids[key]
    requires forall id: uint16 :: MIN_POD_ID <= id < MAX_MAP_SIZE ==> n.cfg[id] == m.cfg[id]
    ensures PodsAgree(tag, n, nids)
  {
    forall c | c in nids.container ensures Mapped(tag, n, nids.container[c]) {
      assert Mapped(tag, m, ids.container[c]);
    }
    forall key: IdKey | key in n.ids && key.port == 0 ensures LivesAt(nids, key.ip) {
      assert LivesAt(ids, key.ip);
    }
    forall id: uint16 | MIN_POD_ID <= id < MAX_MAP_SIZE ensures n.cfg[id] == ExpectedPod(tag, nids, id) {
      assert m.cfg[id] == ExpectedPod(tag, ids, id) && SamePodAt(ids, nids, id);
    }
  }

  lemma FlowRegisterApart(tag: string, m: Maps, ids: Ids, n: Ids, key: IdKey, id: uint16, q: QosConfig)
    requires PodsAgree(tag, m, ids) && SamePods(ids, n) && key.port != 0 && id <= MAX_FLOW_ID
    ensures PodsAgree(tag, Register(m, key, id, q), n) && PodsAgree(tag, m, n)
  {
    FlowWritesApart(tag, m, Register(m, key, id, q), ids, n);
    FlowWritesApart(tag, m, m, ids, n);
  }

  lemma FlowUnregisterApart(tag: string, m: Maps, ids: Ids, n: Ids, key: IdKey, id: uint16)
    requires PodsAgree(tag, m, ids) && SamePods(ids, n) && key.port != 0 && id <= MAX_FLOW_ID
    ensures PodsAgree(tag, Unregister(m, key, id), n) && PodsAgree(tag, m, n)
  {
    FlowWritesApart(tag, m, Unregister(m, key, id), ids, n);
    FlowWritesApart(tag, m, m, ids, n);
  }

  lemma FlowChosenInRange(ids: Ids, p: string)
    requires FlowsPaired(ids) && FlowChosen(ids, p).Some?
    ensures MIN_FLOW_ID <= FlowChosen(ids, p).value <= MAX_FLOW_ID
  {
    assert p in ids.process ==> p in FlowIds(ids.process);
  }

  lemma SetFlowSamePods(s: Service, r: QosFlow)
    requires FlowsPaired(s.ids) && r.port != 0 && PortsNonzero(s.ids)
    ensures SamePods(s.ids, SetFlow(s, r).ids) && PortsNonzero(SetFlow(s, r).ids)
    ensures FlowChosen(s.ids, FlowId(r)).Some? ==> FlowChosen(s.ids, FlowId(r)).value <= MAX_FLOW_ID
  {
    if FlowChosen(s.ids, FlowId(r)).Some? {
      FlowChosenInRange(s.ids, FlowId(r));
      AllocateLeavesPods(s.ids, NewProcess(r));
    }
  }

  lemma AllocateLeavesPods(ids: Ids, info: ProcessInfo)
    ensures var n := AllocateProcess(ids, info);
      && n.container == ids.container && n.podId == ids.podId
      && (forall p :: p in n.process && p != info.processId ==> p in ids.process && n.process[p] == ids.process[p])
  {
  }

  lemma SetFlowKeepsPods(s: Service, r: QosFlow)
    requires PodInv(s) && r.port != 0
    ensures PodInv(SetFlow(s, r))
  {
    var n, id := SetFlow(s, r), FlowChosen(s.ids, FlowId(r));
    SetFlowKeepsInv(s, r);
    SetFlowSamePods(s, r);
    if id.Some? {
      FlowRegisterApart("egress", s.egress, s.ids, n.ids, IdKey(r.ip, r.port), id.value, r.send);
      FlowRegisterApart("ingress", s.ingress, s.ids, n.ids, IdKey(r.ip, r.port), id.value, r.recv);
    }
  }

  lemma UnSetFlowKeepsPods(s: Service, r: QosFlow)
    requires PodInv(s)
    ensures PodInv(UnSetFlow(s, r))
  {
    UnSetFlowKeepsInv(s, r);
    if FlowId(r) in s.ids.process {
      var n, info := UnSetFlow(s, r), s.ids.process[FlowId(r)];
      assert FlowId(r) in FlowIds(s.ids.process);
      assert SamePods(s.ids, n.ids) && PortsNonzero(n.ids);
      FlowUnregisterApart("egress", s.egress, s.ids, n.ids, IdKey(info.ip, info.port), info.localId);
      FlowUnregisterApart("ingress", s.ingress, s.ids, n.ids, IdKey(info.ip, info.port), info.localId);
    }
  }

  // ---------------------------------------------------------------------
  // Sequences of calls
  // ---------------------------------------------------------------------

  /** The calls that keep everything in agreement. */
  ghost predicate Orderly(s: Service, call: Call) {
    match call
    case Set(r) => r.port != 0
    case UnSet(_) => true
    case SetPod(r, qos, patched) => Effective(s, r, qos, patched) ==> Settles(s, r, patched)
    case UnSetPod(_) => true
  }

  ghost predicate AllOrderly(s: Service, calls: seq<Call>) {
    forall k :: 0 <= k < |calls| ==> Orderly(ServeAll(s, calls[..k]), calls[k])
  }

  lemma ServeKeepsPods(s: Service, call: Call)
    requires PodInv(s) && Orderly(s, call)
    ensures PodInv(Serve(s, call))
  {
    match call
    case Set(r) => SetFlowKeepsPods(s, r);
    case UnSet(r) => UnSetFlowKeepsPods(s, r);
    case SetPod(r, qos, patched) => SetQosExactly(s, r, qos, patched);
    case UnSetPod(c) => UnSetQosKeepsPods(s, c);
  }

  lemma {:induction false} ServeAllKeepsPods(s: Service, calls: seq<Call>)
    requires PodInv(s) && AllOrderly(s, calls)
    ensures PodInv(ServeAll(s, calls))
  {
    if calls != [] {
      var n := |calls| - 1;
      forall k | 0 <= k < n ensures Orderly(ServeAll(s, calls[..n][..k]), calls[..n][k]) {
        assert calls[..n][..k] == calls[..k];
      }
      ServeAllKeepsPods(s, calls[..n]);
      assert Orderly(ServeAll(s, calls[..n]), calls[n]);
      ServeKeepsPods(ServeAll(s, calls[..n]), calls[n]);
    }
  }

  /** After any sequence of such calls, port 0 maps exactly the live pods, each to its
      id and priority, and the cfg maps hold exactly their configurations. */
  lemma PodAgreement(calls: seq<Call>)
    requires AllOrderly(EMPTY_SERVICE, calls)
    ensures PodInv(ServeAll(EMPTY_SERVICE, calls))
  {
    ServeAllKeepsPods(EMPTY_SERVICE, calls);
  }

  // ---------------------------------------------------------------------
  // Pod traffic
  // ---------------------------------------------------------------------

  /** Whatever its ports, and whatever flows are registered, what a mapped pod sends is
      handled under its id and priority. */
  lemma EgressTrafficIsPods(m: Maps, pod: PodInfo, h: Edt.Headers)
    requires Mapped("egress", m, pod) && h.saddr == pod.vethIpv4 && pod.qos.egress.priority < 0x1_0000
    ensures var word := Edt.FirstHit(m.ids, Edt.EgressKeys(h));
      Edt.SplitId(word) == pod.localId && Edt.SplitPriority(word) == pod.qos.egress.priority
  {
    Edt.FirstHitIsFirst(m.ids, Edt.EgressKeys(h), 0);
    ClassIdRoundTrip(pod.qos.egress.priority, pod.localId);
  }

  /** So is what it receives. */
  lemma IngressTrafficIsPods(m: Maps, pod: PodInfo, h: Edt.Headers)
    requires Mapped("ingress", m, pod) && h.daddr == pod.vethIpv4 && pod.qos.ingress.priority < 0x1_0000
    ensures var word := Edt.FirstHit(m.ids, Edt.IngressKeys(h));
      Edt.SplitId(word) == pod.localId && Edt.SplitPriority(word) == pod.qos.ingress.priority
  {
    Edt.FirstHitIsFirst(m.ids, Edt.IngressKeys(h), 0);
    ClassIdRoundTrip(pod.qos.ingress.priority, pod.localId);
  }
}
