/** The RPC handlers SetFlow, UnSetFlow, SetQos and UnSetQos as transitions on the
    ID manager and the kernel maps, and the service object that performs them. */
module Flows {
  import opened Throttle
  import opened Names
  import opened IdManager

  const PER_MB: nat := 1024 * 1024 / 8
  const PERIOD_INTERVAL: nat := 10_000_000
  const TWO_64: nat := 0x1_0000_0000_0000_0000

  /** The id, cfg and stat maps of one direction. */
  datatype Maps = Maps(ids: map<IdKey, uint32>, cfg: seq<ThrottleCfg>, stat: seq<ThrottleStat>) {
    predicate Sized() {
      |cfg| == |stat| == MAX_MAP_SIZE
    }
  }

  datatype Service = Service(ids: Ids, egress: Maps, ingress: Maps) {
    predicate Sized() {
      egress.Sized() && ingress.Sized()
    }
  }

  /** A request of 0 Mb is taken as 10; products are formed in 64 bits and wrap. */
  function CfgOf(q: QosConfig): ThrottleCfg {
    var req := if q.bandWidthRequestM == 0 then 10 else q.bandWidthRequestM;
    ThrottleCfg(q.priority, PERIOD_INTERVAL,
      req * PER_MB % TWO_64, q.bandWidthLimitM * PER_MB % TWO_64, req * PER_MB % TWO_64)
  }

  /** A configuration carries a positive rate, as pacing needs, exactly unless the
      requested megabits are a nonzero multiple of 2^47, which wraps to zero. */
  lemma RateIsPositiveExactly(q: QosConfig)
    ensures CfgOf(q).lowRate == CfgOf(q).reqRate
    ensures q.bandWidthRequestM < 0x8000_0000_0000 ==>
      CfgOf(q).reqRate == 131072 * if q.bandWidthRequestM == 0 then 10 else q.bandWidthRequestM
    ensures CfgOf(q).reqRate > 0 <==> (q.bandWidthRequestM == 0 || q.bandWidthRequestM % 0x8000_0000_0000 != 0)
  {
    var m := q.bandWidthRequestM;
    assert m * 0x2_0000 % TWO_64 == 0x2_0000 * (m % 0x8000_0000_0000) by {
      var k := m / 0x8000_0000_0000;
      assert m * 0x2_0000 == k * TWO_64 + 0x2_0000 * (m % 0x8000_0000_0000);
    }
  }

  // Writes to the kernel maps. The array maps ignore an index out of range.
  function WriteCfg(m: Maps, id: nat, c: ThrottleCfg): Maps {
    if id < |m.cfg| then m.(cfg := m.cfg[id := c]) else m
  }

  function WriteStat(m: Maps, id: nat, c: ThrottleStat): Maps {
    if id < |m.stat| then m.(stat := m.stat[id := c]) else m
  }

  function Register(m: Maps, key: IdKey, id: uint16, q: QosConfig): Maps {
    WriteCfg(m.(ids := m.ids[key := GenerateClassId(q.priority, id)]), id, CfgOf(q))
  }

  function Unregister(m: Maps, key: IdKey, id: uint16): Maps {
    var n := WriteCfg(WriteStat(m, id, ZERO_STAT), id, ZERO_CFG);
    n.(ids := n.ids - {key})
  }

  /** The IP stands for its canonical dotted quad, the port for the 32-bit field. */
  datatype QosFlow = QosFlow(direct: string, ip: uint32, port: uint32, send: QosConfig, recv: QosConfig)

  datatype SetQosRequest = SetQosRequest(
    containerId: string, vethIpv4: uint32, k8sPodName: string, k8sPodNamespace: string,
    netns: string, vethHostName: string, vethLXCName: string, vethIpv6: string)

  function FlowId(r: QosFlow): string {
    ProcessId(r.direct, r.ip, r.port)
  }

  function NewProcess(r: QosFlow): ProcessInfo {
    ProcessInfo(NO_QOS, FlowId(r), 0, r.ip, r.port)
  }

  function FlowQos(r: QosFlow): NetQosReq {
    if r.direct == "egress" then NO_QOS.(egress := r.send)
    else if r.direct == "ingress" then NO_QOS.(ingress := r.recv)
    else NO_QOS
  }

  function SetFlow(s: Service, r: QosFlow): Service {
    var id := FlowChosen(s.ids, FlowId(r));
    if id.None? then s else
    var info := NewProcess(r).(localId := id.value, qos := FlowQos(r));
    var key := IdKey(r.ip, r.port);
    Service(InsertProcess(AllocateProcess(s.ids, NewProcess(r)), FlowId(r), info),
      if r.direct == "egress" then Register(s.egress, key, id.value, r.send) else s.egress,
      if r.direct == "ingress" then Register(s.ingress, key, id.value, r.recv) else s.ingress)
  }

  function UnSetFlow(s: Service, r: QosFlow): Service {
    if FlowId(r) !in s.ids.process then s else
    var info := s.ids.process[FlowId(r)];
    var key := IdKey(info.ip, info.port);
    Service(ReleaseProcess(s.ids, FlowId(r)),
      if r.direct == "egress" then Unregister(s.egress, key, info.localId) else s.egress,
      if r.direct == "ingress" then Unregister(s.ingress, key, info.localId) else s.ingress)
  }

  function NewPod(r: SetQosRequest, q: NetQosReq): PodInfo {
    PodInfo(q, 0, r.k8sPodName, r.k8sPodNamespace, r.containerId,
      r.netns, r.vethHostName, r.vethLXCName, r.vethIpv4, r.vethIpv6)
  }

  /** `qos` is what the cluster says of the pod, None where it cannot be read, and
      `patched` whether the pod could be annotated. A failed patch leaves the id allocated. */
  function SetQos(s: Service, r: SetQosRequest, qos: Option<NetQosReq>, patched: bool): Service {
    if qos.None? then s else
    var id := PodChosen(s.ids, r.containerId);
    if id.None? then s else
    var ids := AllocatePod(s.ids, NewPod(r, qos.value));
    if !patched then s.(ids := ids) else
    var key := IdKey(r.vethIpv4, 0);
    Service(InsertPod(ids, r.containerId, NewPod(r, qos.value).(localId := id.value)),
      Register(s.egress, key, id.value, qos.value.egress), Register(s.ingress, key, id.value, qos.value.ingress))
  }

  function UnSetQos(s: Service, containerId: string): Service {
    if containerId !in s.ids.container then s else
    var pod := s.ids.container[containerId];
    var key := IdKey(pod.vethIpv4, 0);
    Service(ReleasePodByContainer(s.ids, containerId),
      Unregister(s.egress, key, pod.localId), Unregister(s.ingress, key, pod.localId))
  }

  // ---------------------------------------------------------------------
  // The service object
  // ---------------------------------------------------------------------

  class RpcService {
    const idManager: IDManager
    var egress: Maps
    var ingress: Maps

    constructor ()
      ensures View() == EMPTY_SERVICE && fresh(idManager)
    {
      idManager := new IDManager();
      egress, ingress := EMPTY_MAPS, EMPTY_MAPS;
    }

    function View(): Service
      reads this, idManager
    {
      Service(idManager.View(), egress, ingress)
    }

    method HandleSetFlow(r: QosFlow) returns (localId: Option<uint16>)
      modifies this, idManager
      ensures View() == SetFlow(old(View()), r)
      ensures localId == FlowChosen(old(View()).ids, FlowId(r))
    {
      var processInfo := NewProcess(r);
      localId, processInfo := idManager.AllocateProcessId(processInfo);
      if localId.None? {
        return;
      }
      var id := localId.value;
      var idKey := IdKey(r.ip, r.port);
      if r.direct == "egress" {
        processInfo := processInfo.(qos := processInfo.qos.(egress := r.send));
        egress := egress.(ids := egress.ids[idKey := GenerateClassId(r.send.priority, id)]);
        egress := WriteCfg(egress, id, CfgOf(processInfo.qos.egress));
      } else if r.direct == "ingress" {
        processInfo := processInfo.(qos := processInfo.qos.(ingress := r.recv));
        ingress := ingress.(ids := ingress.ids[idKey := GenerateClassId(r.recv.priority, id)]);
        ingress := WriteCfg(ingress, id, CfgOf(processInfo.qos.ingress));
      }
      idManager.InsertProcessInfo(processInfo.processId, processInfo);
    }

    method HandleUnSetFlow(r: QosFlow)
      modifies this, idManager
      ensures View() == UnSetFlow(old(View()), r)
    {
      var processId := ProcessId(r.direct, r.ip, r.port);
      var found := idManager.LookupProcessInfo(processId);
      if found.Some? {
        var idKey := IdKey(found.value.ip, found.value.port);
        if r.direct == "egress" {
          egress := WriteStat(egress, found.value.localId, ZERO_STAT);
          egress := WriteCfg(egress, found.value.localId, ZERO_CFG);
          egress := egress.(ids := egress.ids - {idKey});
        } else if r.direct == "ingress" {
          ingress := WriteStat(ingress, found.value.localId, ZERO_STAT);
          ingress := WriteCfg(ingress, found.value.localId, ZERO_CFG);
          ingress := ingress.(ids := ingress.ids - {idKey});
        }
      }
      idManager.ReleaseProcessInfo(processId);
    }

    method HandleSetQos(r: SetQosRequest, qos: Option<NetQosReq>, patched: bool) returns (localId: Option<uint16>)
      modifies this, idManager
      ensures View() == SetQos(old(View()), r, qos, patched)
      ensures localId == if qos.Some? && patched then PodChosen(old(View()).ids, r.containerId) else None
    {
      if qos.None? {
        return None;
      }
      var podInfo := NewPod(r, qos.value);
      var id: Option<uint16>;
      id, podInfo := idManager.AllocatePodId(podInfo);
      if id.None? || !patched {
        return None;
      }
      var idKey := IdKey(r.vethIpv4, 0);
      egress := egress.(ids := egress.ids[idKey := GenerateClassId(podInfo.qos.egress.priority, podInfo.localId)]);
      ingress := ingress.(ids := ingress.ids[idKey := GenerateClassId(podInfo.qos.ingress.priority, podInfo.localId)]);
      egress := WriteCfg(egress, id.value, CfgOf(qos.value.egress));
      ingress := WriteCfg(ingress, id.value, CfgOf(qos.value.ingress));
      idManager.InsertPodInfo(r.containerId, podInfo);
      return id;
    }

    method HandleUnSetQos(containerId: string)
      modifies this, idManager
      ensures View() == UnSetQos(old(View()), containerId)
    {
      var found := idManager.LookupPodInfoByContainId(containerId);
      if found.Some? {
        var pod := found.value;
        egress := WriteStat(egress, pod.localId, ZERO_STAT);
        egress := WriteCfg(egress, pod.localId, ZERO_CFG);
        ingress := WriteStat(ingress, pod.localId, ZERO_STAT);
        ingress := WriteCfg(ingress, pod.localId, ZERO_CFG);
        var idKey := IdKey(pod.vethIpv4, 0);
        egress := egress.(ids := egress.ids - {idKey});
        ingress := ingress.(ids := ingress.ids - {idKey});
      }
      idManager.ReleasePodIdByContainerId(containerId);
    }
  }

  const EMPTY_MAPS := Maps(map[], seq(MAX_MAP_SIZE, _ => ZERO_CFG), seq(MAX_MAP_SIZE, _ => ZERO_STAT))

  const EMPTY_SERVICE := Service(NO_IDS, EMPTY_MAPS, EMPTY_MAPS)
}
