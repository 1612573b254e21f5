/** idmanager.go: two pairs of maps, ids of pods and containers, ids and names of
    flows, as functions on their values and as a class that mutates them. */
module IdManager {
  import opened Throttle

  const MIN_FLOW_ID: uint16 := 100
  const MAX_FLOW_ID: uint16 := 999
  const MIN_POD_ID: uint16 := 1000
  const MAX_POD_ID: uint16 := 5999

  datatype QosConfig = QosConfig(bandWidthRequestM: nat, bandWidthLimitM: nat, priority: uint32)

  datatype NetQosReq = NetQosReq(egress: QosConfig, ingress: QosConfig)

  const NO_QOS := NetQosReq(QosConfig(0, 0, 0), QosConfig(0, 0, 0))

  datatype PodInfo = PodInfo(
    qos: NetQosReq, localId: uint16, k8sPodName: string, k8sPodNamespace: string, containerId: string,
    netns: string, vethHostName: string, vethLXCName: string, vethIpv4: uint32, vethIpv6: string)

  datatype ProcessInfo = ProcessInfo(qos: NetQosReq, processId: string, localId: uint16, ip: uint32, port: uint32)

  datatype Ids = Ids(
    podId: map<uint16, string>, container: map<string, PodInfo>,
    flowId: map<uint16, string>, process: map<string, ProcessInfo>)

  const NO_IDS := Ids(map[], map[], map[], map[])

  function PodIds(m: map<string, PodInfo>): map<string, uint16> {
    map c | c in m :: m[c].localId
  }

  function FlowIds(m: map<string, ProcessInfo>): map<string, uint16> {
    map p | p in m :: m[p].localId
  }

  /** The least id in lo..hi that is not taken. */
  function LeastFree(byId: map<uint16, string>, lo: uint16, hi: uint16): (r: Option<uint16>)
    requires hi < 0xffff
    ensures r.Some? ==> lo <= r.value <= hi && r.value !in byId && forall j :: lo <= j < r.value ==> j in byId
    ensures r.None? ==> forall j :: lo <= j <= hi ==> j in byId
    decreases hi + 1 - lo
  {
    if lo > hi then None else if lo !in byId then Some(lo) else LeastFree(byId, lo + 1, hi)
  }

  /** The id a container or flow keeps if it has one, else the least free one. */
  function Chosen(byId: map<uint16, string>, ids: map<string, uint16>, key: string, lo: uint16, hi: uint16): Option<uint16>
    requires hi < 0xffff
  {
    if key in ids then Some(ids[key]) else LeastFree(byId, lo, hi)
  }

  function PodChosen(s: Ids, containerId: string): Option<uint16> {
    Chosen(s.podId, PodIds(s.container), containerId, MIN_POD_ID, MAX_POD_ID)
  }

  function FlowChosen(s: Ids, processId: string): Option<uint16> {
    Chosen(s.flowId, FlowIds(s.process), processId, MIN_FLOW_ID, MAX_FLOW_ID)
  }

  function AllocatePod(s: Ids, info: PodInfo): Ids {
    var id := PodChosen(s, info.containerId);
    if info.containerId in s.container || id.None? then s
    else s.(podId := s.podId[id.value := info.containerId],
            container := s.container[info.containerId := info.(localId := id.value)])
  }

  function AllocateProcess(s: Ids, info: ProcessInfo): Ids {
    var id := FlowChosen(s, info.processId);
    if info.processId in s.process || id.None? then s
    else s.(flowId := s.flowId[id.value := info.processId],
            process := s.process[info.processId := info.(localId := id.value)])
  }

  function InsertPod(s: Ids, containerId: string, info: PodInfo): Ids {
    s.(podId := s.podId[info.localId := containerId], container := s.container[containerId := info])
  }

  /** The id goes to podIdMap here too, although it is a flow's. */
  function InsertProcess(s: Ids, processId: string, info: ProcessInfo): Ids {
    s.(podId := s.podId[info.localId := processId], process := s.process[processId := info])
  }

  function ReleasePodById(s: Ids, podId: uint16): Ids {
    if podId in s.podId then s.(podId := s.podId - {podId}, container := s.container - {s.podId[podId]}) else s
  }

  function ReleasePodByContainer(s: Ids, containerId: string): Ids {
    if containerId in s.container
    then s.(podId := s.podId - {s.container[containerId].localId}, container := s.container - {containerId})
    else s
  }

  function ReleaseProcess(s: Ids, processId: string): Ids {
    if processId in s.process
    then s.(flowId := s.flowId - {s.process[processId].localId}, process := s.process - {processId})
    else s
  }

  class IDManager {
    var podIdMap: map<uint16, string>
    var containerIdMap: map<string, PodInfo>
    var flowIdMap: map<uint16, string>
    var processIdMap: map<string, ProcessInfo>

    constructor ()
      ensures View() == NO_IDS
    {
      podIdMap, containerIdMap, flowIdMap, processIdMap := map[], map[], map[], map[];
    }

    function View(): Ids
      reads this
    {
      Ids(podIdMap, containerIdMap, flowIdMap, processIdMap)
    }

    /** Also returns the record with its id filled in, as the caller's pointer sees it. */
    method AllocatePodId(podInfo: PodInfo) returns (id: Option<uint16>, podInfo': PodInfo)
      modifies this
      ensures id == PodChosen(old(View()), podInfo.containerId)
      ensures View() == AllocatePod(old(View()), podInfo)
      ensures podInfo' == if id.Some? then podInfo.(localId := id.value) else podInfo
    {
      podInfo' := podInfo;
      if podInfo.containerId in containerIdMap {
        podInfo' := podInfo'.(localId := containerIdMap[podInfo.containerId].localId);
        return Some(podInfo'.localId), podInfo';
      }
      var next: uint16 := MIN_POD_ID;
      while next <= MAX_POD_ID
        invariant MIN_POD_ID <= next <= MAX_POD_ID + 1 && View() == old(View()) && podInfo' == podInfo
        invariant LeastFree(podIdMap, MIN_POD_ID, MAX_POD_ID) == LeastFree(podIdMap, next, MAX_POD_ID)
      {
        if next !in podIdMap {
          podIdMap := podIdMap[next := podInfo.containerId];
          podInfo' := podInfo'.(localId := next);
          containerIdMap := containerIdMap[podInfo.containerId := podInfo'];
          return Some(next), podInfo';
        }
        next := next + 1;
      }
      return None, podInfo';
    }

    method ReleaseByPodId(podId: uint16)
      modifies this
      ensures View() == ReleasePodById(old(View()), podId)
    {
      if podId in podIdMap {
        var containerId := podIdMap[podId];
        containerIdMap := containerIdMap - {containerId};
        podIdMap := podIdMap - {podId};
      }
    }

    method ReleasePodIdByContainerId(containerId: string)
      modifies this
      ensures View() == ReleasePodByContainer(old(View()), containerId)
    {
      if containerId in containerIdMap {
        podIdMap := podIdMap - {containerIdMap[containerId].localId};
        containerIdMap := containerIdMap - {containerId};
      }
    }

    method InsertPodInfo(containerId: string, podInfo: PodInfo)
      modifies this
      ensures View() == InsertPod(old(View()), containerId, podInfo)
    {
      podIdMap := podIdMap[podInfo.localId := containerId];
      containerIdMap := containerIdMap[containerId := podInfo];
    }

    method LookupPodInfoByContainId(containerId: string) returns (r: Option<PodInfo>)
      ensures r == if containerId in containerIdMap then Some(containerIdMap[containerId]) else None
    {
      if containerId in containerIdMap {
        return Some(containerIdMap[containerId]);
      }
      return None;
    }

    /** On paired maps the answer is the one pod with that id. */
    method LookupPodInfoByLocalId(localId: uint16) returns (r: Option<PodInfo>)
      ensures PodsPaired(View()) && MIN_POD_ID <= localId <= MAX_POD_ID ==>
        (r.Some? <==> localId in podIdMap) &&
        (r.Some? ==> r.value.localId == localId && r.value in containerIdMap.Values)
    {
      if localId in podIdMap {
        var containerId := podIdMap[localId];
        if containerId in containerIdMap {
          assert containerId in PodIds(containerIdMap);
          return Some(containerIdMap[containerId]);
        }
        assert PodsPaired(View()) && MIN_POD_ID <= localId <= MAX_POD_ID ==> containerId in PodIds(containerIdMap);
      }
      return None;
    }

    method AllocateProcessId(processInfo: ProcessInfo) returns (id: Option<uint16>, processInfo': ProcessInfo)
      modifies this
      ensures id == FlowChosen(old(View()), processInfo.processId)
      ensures View() == AllocateProcess(old(View()), processInfo)
      ensures processInfo' == if id.Some? then processInfo.(localId := id.value) else processInfo
    {
      processInfo' := processInfo;
      if processInfo.processId in processIdMap {
        processInfo' := processInfo'.(localId := processIdMap[processInfo.processId].localId);
        return Some(processInfo'.localId), processInfo';
      }
      var next: uint16 := MIN_FLOW_ID;
      while next <= MAX_FLOW_ID
        invariant MIN_FLOW_ID <= next <= MAX_FLOW_ID + 1 && View() == old(View()) && processInfo' == processInfo
        invariant LeastFree(flowIdMap, MIN_FLOW_ID, MAX_FLOW_ID) == LeastFree(flowIdMap, next, MAX_FLOW_ID)
      {
        if next !in flowIdMap {
          flowIdMap := flowIdMap[next := processInfo.processId];
          processInfo' := processInfo'.(localId := next);
          processIdMap := processIdMap[processInfo.processId := processInfo'];
          return Some(next), processInfo';
        }
        next := next + 1;
      }
      return None, processInfo';
    }

    method ReleaseProcessInfo(processId: string)
      modifies this
      ensures View() == ReleaseProcess(old(View()), processId)
    {
      if processId in processIdMap {
        flowIdMap := flowIdMap - {processIdMap[processId].localId};
        processIdMap := processIdMap - {processId};
      }
    }

    method InsertProcessInfo(processId: string, processInfo: ProcessInfo)
      modifies this
      ensures View() == InsertProcess(old(View()), processId, processInfo)
    {
      podIdMap := podIdMap[processInfo.localId := processId];
      processIdMap := processIdMap[processId := processInfo];
    }

    method LookupProcessInfo(processId: string) returns (r: Option<ProcessInfo>)
      ensures r == if processId in processIdMap then Some(processIdMap[processId]) else None
    {
      if processId in processIdMap {
        return Some(processIdMap[processId]);
      }
      return None;
    }
  }

  // ---------------------------------------------------------------------
  // Paired maps
  // ---------------------------------------------------------------------

  /** On the ids lo..hi the two maps are inverses of each other. */
  ghost predicate Inverse(byId: map<uint16, string>, ids: map<string, uint16>, lo: uint16, hi: uint16) {
    && (forall k :: k in ids ==> lo <= ids[k] <= hi && ids[k] in byId && byId[ids[k]] == k)
    && (forall id :: id in byId && lo <= id <= hi ==> byId[id] in ids && ids[byId[id]] == id)
  }

  ghost predicate PodsPaired(s: Ids) {
    Inverse(s.podId, PodIds(s.container), MIN_POD_ID, MAX_POD_ID)
  }

  ghost predicate FlowsPaired(s: Ids) {
    Inverse(s.flowId, FlowIds(s.process), MIN_FLOW_ID, MAX_FLOW_ID)
  }
}
