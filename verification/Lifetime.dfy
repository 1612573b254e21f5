/** The daemons over their whole life: a restart over the maps that the last one left
    pinned in the kernel, then calls, rounds of the allocator and traffic in any order. */
module Lifetime {
  import opened Throttle
  import opened Names
  import opened IdManager
  import opened IdTheorems
  import opened Flows
  import opened FlowTheorems
  import opened PodTheorems
  import Allocator
  import Edt

  // ---------------------------------------------------------------------
  // Restart
  // ---------------------------------------------------------------------

  /** The pods are written to one direction's maps, in the order they are listed. */
  function Restored(tag: string, m: Maps, order: seq<PodInfo>): Maps {
    if order == [] then m
    else
      var pod := order[|order| - 1];
      Register(Restored(tag, m, order[..|order| - 1]), PodKey(pod), pod.localId, PodQos(tag, pod))
  }

  /** The ID manager knows the recovered pods; the maps also hold what is still pinned. */
  function Restart(pods: seq<PodInfo>, order: seq<PodInfo>, egress: Maps, ingress: Maps): Service {
    Service(Recovered(pods), Restored("egress", egress, order), Restored("ingress", ingress, order))
  }

  /** The pods have distinct ids and containers; the ID manager lists each once. */
  ghost predicate Listed(pods: seq<PodInfo>, order: seq<PodInfo>) {
    Distinct(pods) && Distinct(order) && forall p :: p in pods <==> p in order
  }

  ghost predicate OwnAddresses(order: seq<PodInfo>) {
    forall i, j :: 0 <= i < j < |order| ==> order[i].vethIpv4 != order[j].vethIpv4
  }

  // ---------------------------------------------------------------------
  // What happens then
  // ---------------------------------------------------------------------

  /** A call; packets, which rewrite statistics; or a round of the allocator in one
      direction, with what it remembers of the last statistics. */
  datatype Act =
    | Rpc(call: Call)
    | Packets(egress: seq<ThrottleStat>, ingress: seq<ThrottleStat>)
    | Alloc(tag: string, last: seq<ThrottleStat>, p: Allocator.Params, totalBw: nat)

  /** A round reads both maps whole and writes the configurations back. With a priority
      above 2 the daemon panics, and nothing is written. */
  ghost function WrittenBack(m: Maps, read: Maps, last: seq<ThrottleStat>, p: Allocator.Params, totalBw: nat): Maps {
    if read.Sized() && |last| == MAX_MAP_SIZE && p.pace > 0 then
      var t := Allocator.Lookup(Allocator.Table([], last, []), read.stat, read.cfg);
      if t.Valid() then m.(cfg := Allocator.Round(t, p, totalBw).cfg) else m
    else m
  }

  /** A round that nothing comes between. */
  ghost function Reallocated(m: Maps, last: seq<ThrottleStat>, p: Allocator.Params, totalBw: nat): Maps {
    WrittenBack(m, m, last, p, totalBw)
  }

  ghost function Do(s: Service, a: Act): Service {
    match a
    case Rpc(call) => Serve(s, call)
    case Packets(e, i) =>
      if |e| == |i| == MAX_MAP_SIZE then s.(egress := s.egress.(stat := e), ingress := s.ingress.(stat := i)) else s
    case Alloc(tag, last, p, totalBw) =>
      if tag == "egress" then s.(egress := Reallocated(s.egress, last, p, totalBw))
      else s.(ingress := Reallocated(s.ingress, last, p, totalBw))
  }

  ghost function Life(s: Service, acts: seq<Act>): Service {
    if acts == [] then s else Do(Life(s, acts[..|acts| - 1]), acts[|acts| - 1])
  }

  /** The calls among them. */
  function Calls(acts: seq<Act>): seq<Call> {
    if acts == [] then []
    else if acts[|acts| - 1].Rpc? then Calls(acts[..|acts| - 1]) + [acts[|acts| - 1].call]
    else Calls(acts[..|acts| - 1])
  }

  predicate NoRound(acts: seq<Act>) {
    forall a :: a in acts ==> !a.Alloc?
  }

  // ---------------------------------------------------------------------
  // Following the calls alone
  // ---------------------------------------------------------------------

  /** Equal, or equal but for the request, which rounds rewrite. */
  predicate Alike(exact: bool, c: ThrottleCfg, d: ThrottleCfg) {
    if exact then c == d else c.(reqRate := 0) == d.(reqRate := 0)
  }

  /** Every key of n is in m with its word; any other in m is as the last daemon left it. */
  ghost predicate KeysFollow(m: Maps, n: Maps, old': Maps) {
    && (forall key :: key in n.ids ==> key in m.ids && m.ids[key] == n.ids[key])
    && (forall key :: key in m.ids && key !in n.ids ==> key in old'.ids && old'.ids[key] == m.ids[key])
  }

  predicate CfgFollows(exact: bool, c: ThrottleCfg, d: ThrottleCfg, o: ThrottleCfg) {
    Alike(exact, c, d) || (d == ZERO_CFG && Alike(exact, c, o))
  }

  ghost predicate CfgsFollow(exact: bool, m: Maps, n: Maps, old': Maps) {
    && m.Sized() && n.Sized() && old'.Sized()
    && forall id :: 0 <= id < MAX_MAP_SIZE ==> CfgFollows(exact, m.cfg[id], n.cfg[id], old'.cfg[id])
  }

  ghost predicate Follows(exact: bool, m: Maps, n: Maps, old': Maps) {
    KeysFollow(m, n, old') && CfgsFollow(exact, m, n, old')
  }

  lemma RegisterFollows(exact: bool, m: Maps, n: Maps, old': Maps, key: IdKey, id: uint16, q: QosConfig)
    requires Follows(exact, m, n, old')
    ensures Follows(exact, Register(m, key, id, q), Register(n, key, id, q), old')
  {
    assert Alike(exact, CfgOf(q), CfgOf(q));
  }

  lemma UnregisterFollows(exact: bool, m: Maps, n: Maps, old': Maps, key: IdKey, id: uint16)
    requires Follows(exact, m, n, old')
    ensures Follows(exact, Unregister(m, key, id), Unregister(n, key, id), old')
  {
    assert Alike(exact, ZERO_CFG, ZERO_CFG);
  }

  lemma {:induction false} RestoredFollows(exact: bool, tag: string, m: Maps, order: seq<PodInfo>)
    requires m.Sized()
    ensures Follows(exact, Restored(tag, m, order), Restored(tag, EMPTY_MAPS, order), m)
  {
    if order == [] {
      EmptyFollowed(exact, m);
    } else {
      var pod := order[|order| - 1];
      RestoredFollows(exact, tag, m, order[..|order| - 1]);
      RegisterFollows(exact, Restored(tag, m, order[..|order| - 1]), Restored(tag, EMPTY_MAPS, order[..|order| - 1]), m,
        PodKey(pod), pod.localId, PodQos(tag, pod));
    }
  }

  lemma EmptyFollowed(exact: bool, m: Maps)
    requires m.Sized()
    ensures Follows(exact, m, EMPTY_MAPS, m)
  {
  }

  /** A round leaves everything but the request of a configuration alone. */
  lemma RoundRewritesRequests(t: Allocator.Table, p: Allocator.Params, totalBw: nat, i: nat)
    requires t.Valid() && p.pace > 0 && i < |t.cfg|
    ensures Alike(false, Allocator.Round(t, p, totalBw).cfg[i], t.cfg[i])
  {
  }

  lemma ReallocatedFollows(m: Maps, n: Maps, old': Maps, last: seq<ThrottleStat>, p: Allocator.Params, totalBw: nat)
    requires Follows(false, m, n, old')
    ensures Follows(false, Reallocated(m, last, p, totalBw), n, old')
  {
    var r := Reallocated(m, last, p, totalBw);
    if r != m {
      var t := Allocator.Lookup(Allocator.Table([], last, []), m.stat, m.cfg);
      forall id | 0 <= id < MAX_MAP_SIZE ensures CfgFollows(false, r.cfg[id], n.cfg[id], old'.cfg[id]) {
        RoundRewritesRequests(t, p, totalBw, id);
        assert CfgFollows(false, m.cfg[id], n.cfg[id], old'.cfg[id]);
      }
    }
  }

  /** Which is why nothing must come between reading and writing back: the configuration
      that a handler writes meanwhile is lost, and its key names an empty slot. */
  lemma WriteInBetweenIsLost(m: Maps, key: IdKey, id: uint16, q: QosConfig,
      last: seq<ThrottleStat>, p: Allocator.Params, totalBw: nat)
    requires m.Sized() && id < MAX_MAP_SIZE && m.cfg[id] == ZERO_CFG
    requires |last| == MAX_MAP_SIZE && p.pace > 0 && forall c :: c in m.cfg ==> c.priority <= 2
    ensures var n := WrittenBack(Register(m, key, id, q), m, last, p, totalBw);
      && n.Sized() && key in n.ids && n.ids[key] == GenerateClassId(q.priority, id)
      && !Alike(false, n.cfg[id], CfgOf(q)) && Alike(false, n.cfg[id], ZERO_CFG)
  {
    var t := Allocator.Lookup(Allocator.Table([], last, []), m.stat, m.cfg);
    assert t.Valid();
    RoundRewritesRequests(t, p, totalBw, id);
  }

  /** Service s has the same records as t, and its maps follow those of t. */
  ghost predicate ServiceFollows(exact: bool, s: Service, t: Service, egress: Maps, ingress: Maps) {
    && s.ids == t.ids
    && Follows(exact, s.egress, t.egress, egress) && Follows(exact, s.ingress, t.ingress, ingress)
  }

  /** The handlers write the maps but never read them. */
  lemma ServeFollows(exact: bool, s: Service, t: Service, egress: Maps, ingress: Maps, call: Call)
    requires ServiceFollows(exact, s, t, egress, ingress)
    ensures ServiceFollows(exact, Serve(s, call), Serve(t, call), egress, ingress)
  {
    match call
    case Set(r) =>
      if FlowChosen(s.ids, FlowId(r)).Some? {
        var id := FlowChosen(s.ids, FlowId(r)).value;
        RegisterFollows(exact, s.egress, t.egress, egress, IdKey(r.ip, r.port), id, r.send);
        RegisterFollows(exact, s.ingress, t.ingress, ingress, IdKey(r.ip, r.port), id, r.recv);
      }
    case UnSet(r) =>
      if FlowId(r) in s.ids.process {
        var info := s.ids.process[FlowId(r)];
        UnregisterFollows(exact, s.egress, t.egress, egress, IdKey(info.ip, info.port), info.localId);
        UnregisterFollows(exact, s.ingress, t.ingress, ingress, IdKey(info.ip, info.port), info.localId);
      }
    case SetPod(r, qos, patched) =>
      if qos.Some? && PodChosen(s.ids, r.containerId).Some? {
        var id := PodChosen(s.ids, r.containerId).value;
        RegisterFollows(exact, s.egress, t.egress, egress, IdKey(r.vethIpv4, 0), id, qos.value.egress);
        RegisterFollows(exact, s.ingress, t.ingress, ingress, IdKey(r.vethIpv4, 0), id, qos.value.ingress);
      }
    case UnSetPod(c) =>
      if c in s.ids.container {
        var pod := s.ids.container[c];
        UnregisterFollows(exact, s.egress, t.egress, egress, IdKey(pod.vethIpv4, 0), pod.localId);
        UnregisterFollows(exact, s.ingress, t.ingress, ingress, IdKey(pod.vethIpv4, 0), pod.localId);
      }
  }

  lemma DoFollows(exact: bool, s: Service, t: Service, egress: Maps, ingress: Maps, a: Act)
    requires ServiceFollows(exact, s, t, egress, ingress) && (exact ==> !a.Alloc?)
    ensures ServiceFollows(exact, Do(s, a), if a.Rpc? then Serve(t, a.call) else t, egress, ingress)
  {
    match a
    case Rpc(call) => ServeFollows(exact, s, t, egress, ingress, call);
    case Packets(e, i) =>
    case Alloc(tag, last, p, totalBw) =>
      ReallocatedFollows(s.egress, t.egress, egress, last, p, totalBw);
      ReallocatedFollows(s.ingress, t.ingress, ingress, last, p, totalBw);
  }

  lemma ServeAllOneMore(t: Service, calls: seq<Call>, call: Call)
    ensures ServeAll(t, calls + [call]) == Serve(ServeAll(t, calls), call)
  {
    assert (calls + [call])[..|calls|] == calls;
  }

  lemma {:induction false} LifeFollows(exact: bool, s: Service, t: Service, egress: Maps, ingress: Maps, acts: seq<Act>)
    requires ServiceFollows(exact, s, t, egress, ingress) && (exact ==> NoRound(acts))
    ensures ServiceFollows(exact, Life(s, acts), ServeAll(t, Calls(acts)), egress, ingress)
  {
    if acts != [] {
      var before, a := acts[..|acts| - 1], acts[|acts| - 1];
      LifeFollows(exact, s, t, egress, ingress, before);
      DoFollows(exact, Life(s, before), ServeAll(t, Calls(before)), egress, ingress, a);
      if a.Rpc? {
        ServeAllOneMore(t, Calls(before), a.call);
      }
    }
  }

  // ---------------------------------------------------------------------
  // The clean restart is in agreement
  // ---------------------------------------------------------------------

  /** Restoring pods into empty maps touches port 0 and pod ids only. */
  lemma {:induction false} RestoredApart(tag: string, order: seq<PodInfo>)
    requires forall p :: p in order ==> p.localId >= MIN_POD_ID
    ensures var m := Restored(tag, EMPTY_MAPS, order);
      && m.Sized()
      && (forall key :: key in m.ids ==> key.port == 0)
      && (forall id :: 0 <= id <= MAX_FLOW_ID ==> m.cfg[id] == ZERO_CFG)
  {
    if order != [] {
      RestoredApart(tag, order[..|order| - 1]);
    }
  }

  lemma CleanRestartAgrees(pods: seq<PodInfo>, order: seq<PodInfo>)
    requires Listed(pods, order)
    ensures FlowTheorems.Inv(Restart(pods, order, EMPTY_MAPS, EMPTY_MAPS))
  {
    RecoveryIsPaired(pods);
    RestoredApart("egress", order);
    RestoredApart("ingress", order);
  }

  lemma {:induction false} RestoredAgrees(tag: string, order: seq<PodInfo>)
    requires Distinct(order) && OwnAddresses(order)
    ensures AddressesDistinct(Recovered(order))
    ensures PodsAgree(tag, Restored(tag, EMPTY_MAPS, order), Recovered(order))
  {
    if order != [] {
      var rest, pod := order[..|order| - 1], order[|order| - 1];
      assert order == rest + [pod];
      FewerPods(rest, pod);
      RestoredAgrees(tag, rest);
      RestoreOne(tag, Restored(tag, EMPTY_MAPS, rest), rest, pod);
    }
  }

  lemma FewerPods(rest: seq<PodInfo>, pod: PodInfo)
    requires Distinct(rest + [pod]) && OwnAddresses(rest + [pod])
    ensures Distinct(rest) && OwnAddresses(rest)
  {
    var all := rest + [pod];
    assert forall i :: 0 <= i < |rest| ==> all[i] == rest[i];
    assert forall p :: p in rest ==> p in all;
  }

  lemma NewPodRecorded(rest: seq<PodInfo>, pod: PodInfo)
    requires Distinct(rest + [pod]) && OwnAddresses(rest + [pod]) && Distinct(rest)
    requires AddressesDistinct(Recovered(rest))
    ensures var ids, n := Recovered(rest), InsertPod(Recovered(rest), pod.containerId, pod);
      PodRecorded(ids, n, pod.containerId, pod) && AddressesDistinct(n) && pod.containerId !in ids.container
  {
    assert pod == (rest + [pod])[|rest|];
    NewAddress(rest, pod);
  }

  lemma RestoreOne(tag: string, m: Maps, rest: seq<PodInfo>, pod: PodInfo)
    requires Distinct(rest + [pod]) && OwnAddresses(rest + [pod]) && Distinct(rest)
    requires AddressesDistinct(Recovered(rest)) && PodsAgree(tag, m, Recovered(rest))
    ensures AddressesDistinct(InsertPod(Recovered(rest), pod.containerId, pod))
    ensures PodsAgree(tag, Register(m, PodKey(pod), pod.localId, PodQos(tag, pod)),
      InsertPod(Recovered(rest), pod.containerId, pod))
  {
    var ids, n := Recovered(rest), InsertPod(Recovered(rest), pod.containerId, pod);
    RecoveryIsPaired(rest);
    NewPodRecorded(rest, pod);
    RegisterKeepsKeys(tag, m, ids, n, pod.containerId, pod);
    RegisterKeepsCfgs(tag, m, ids, n, pod.containerId, pod);
  }

  lemma NewAddress(rest: seq<PodInfo>, pod: PodInfo)
    requires Distinct(rest + [pod]) && OwnAddresses(rest + [pod]) && Distinct(rest)
    ensures pod.containerId !in Recovered(rest).container && pod.localId !in Recovered(rest).podId
    ensures forall c :: c in Recovered(rest).container ==> Recovered(rest).container[c].vethIpv4 != pod.vethIpv4
  {
    RecoveryIsPaired(rest);
    RecoveryFilesAll(rest);
    forall c | c in Recovered(rest).container
      ensures c != pod.containerId && Recovered(rest).container[c].vethIpv4 != pod.vethIpv4
    {
      var i :| 0 <= i < |rest| && rest[i].containerId == c;
      OthersDiffer(rest, pod, i);
      assert Files(Recovered(rest), rest[i]);
    }
    forall id | id in Recovered(rest).podId ensures id != pod.localId {
      var i :| 0 <= i < |rest| && rest[i].localId == id;
      OthersDiffer(rest, pod, i);
    }
  }

  lemma OthersDiffer(rest: seq<PodInfo>, pod: PodInfo, i: nat)
    requires Distinct(rest + [pod]) && OwnAddresses(rest + [pod]) && i < |rest|
    ensures rest[i].containerId != pod.containerId && rest[i].localId != pod.localId && rest[i].vethIpv4 != pod.vethIpv4
  {
    var all := rest + [pod];
    assert all[i] == rest[i] && all[|rest|] == pod;
  }

  lemma CleanRestartAgreesOnPods(pods: seq<PodInfo>, order: seq<PodInfo>)
    requires Listed(pods, order) && OwnAddresses(order)
    ensures PodInv(Restart(pods, order, EMPTY_MAPS, EMPTY_MAPS))
  {
    CleanRestartAgrees(pods, order);
    RecoveryInAnyOrder(pods, order);
    RecoveryIsPaired(pods);
    RestoredAgrees("egress", order);
    RestoredAgrees("ingress", order);
  }

  // ---------------------------------------------------------------------
  // Index agreement over a lifetime
  // ---------------------------------------------------------------------

  /** Every live flow of the direction is mapped to its id and priority, and its
      configuration stands under its id. Any other nonzero port or configuration of a
      flow id is as the last daemon left it, or not there. */
  ghost predicate FlowIndex(exact: bool, tag: string, m: Maps, ids: Ids, old': Maps) {
    && m.Sized() && old'.Sized()
    && (forall key: IdKey {:trigger key in m.ids} {:trigger NameOf(tag, key)} :: key.port != 0 ==>
         if NameOf(tag, key) in ids.process then
           var info := ids.process[NameOf(tag, key)];
           key in m.ids && m.ids[key] == GenerateClassId(QosOf(tag, info).priority, info.localId)
         else key in m.ids ==> key in old'.ids && old'.ids[key] == m.ids[key])
    && (forall id: uint16 :: MIN_FLOW_ID <= id <= MAX_FLOW_ID ==>
         CfgFollows(exact, m.cfg[id], Expected(tag, ids, id), old'.cfg[id]))
  }

  lemma FlowIndexFollows(exact: bool, tag: string, m: Maps, n: Maps, ids: Ids, old': Maps)
    requires IdsAgree(tag, n, ids) && CfgsAgree(tag, n, ids) && Follows(exact, m, n, old')
    ensures FlowIndex(exact, tag, m, ids, old')
  {
    forall key: IdKey | key.port != 0
      ensures if NameOf(tag, key) in ids.process then
          var info := ids.process[NameOf(tag, key)];
          key in m.ids && m.ids[key] == GenerateClassId(QosOf(tag, info).priority, info.localId)
        else key in m.ids ==> key in old'.ids && old'.ids[key] == m.ids[key]
    {
      assert key in n.ids <==> NameOf(tag, key) in ids.process;
    }
    forall id: uint16 | MIN_FLOW_ID <= id <= MAX_FLOW_ID
      ensures CfgFollows(exact, m.cfg[id], Expected(tag, ids, id), old'.cfg[id])
    {
      assert n.cfg[id] == Expected(tag, ids, id) && CfgFollows(exact, m.cfg[id], n.cfg[id], old'.cfg[id]);
    }
  }

  /** Index agreement: after a restart over any pinned maps, and then any calls on flows
      with nonzero ports and on pods, traffic and rounds, the maps hold exactly the live
      flows, and besides at most what the last daemon left; the requests, once a round
      has run, are the allocator's. The maps of the ID manager are inverse. */
  lemma FlowIndexAgreement(pods: seq<PodInfo>, order: seq<PodInfo>, egress: Maps, ingress: Maps, acts: seq<Act>)
    requires Listed(pods, order) && egress.Sized() && ingress.Sized()
    requires forall a :: a in acts && a.Rpc? && a.call.Set? ==> a.call.flow.port != 0
    ensures var s := Life(Restart(pods, order, egress, ingress), acts);
      && PodsPaired(s.ids) && FlowsPaired(s.ids) && Filed(s.ids)
      && FlowIndex(NoRound(acts), "egress", s.egress, s.ids, egress)
      && FlowIndex(NoRound(acts), "ingress", s.ingress, s.ids, ingress)
  {
    var exact := NoRound(acts);
    var s, t := Restart(pods, order, egress, ingress), Restart(pods, order, EMPTY_MAPS, EMPTY_MAPS);
    RestoredFollows(exact, "egress", egress, order);
    RestoredFollows(exact, "ingress", ingress, order);
    LifeFollows(exact, s, t, egress, ingress, acts);
    CleanRestartAgrees(pods, order);
    CallsAreAmong(acts);
    ServeAllKeepsInv(t, Calls(acts));
    var n, u := Life(s, acts), ServeAll(t, Calls(acts));
    FlowIndexFollows(exact, "egress", n.egress, u.egress, u.ids, egress);
    FlowIndexFollows(exact, "ingress", n.ingress, u.ingress, u.ids, ingress);
  }

  lemma {:induction false} CallsAreAmong(acts: seq<Act>)
    ensures forall c :: c in Calls(acts) ==> Rpc(c) in acts
  {
    if acts != [] {
      CallsAreAmong(acts[..|acts| - 1]);
    }
  }

  /** The same for pods: all live ones are mapped and, as far as the kernel maps reach,
      configured; anything else on port 0 or under a pod id is a leftover. */
  ghost predicate PodIndex(exact: bool, tag: string, m: Maps, ids: Ids, old': Maps) {
    && m.Sized() && old'.Sized()
    && (forall c :: c in ids.container ==> Mapped(tag, m, ids.container[c]))
    && (forall key: IdKey :: key in m.ids && key.port == 0 ==>
         LivesAt(ids, key.ip) || (key in old'.ids && old'.ids[key] == m.ids[key]))
    && (forall id: uint16 :: MIN_POD_ID <= id < MAX_MAP_SIZE ==>
         CfgFollows(exact, m.cfg[id], ExpectedPod(tag, ids, id), old'.cfg[id]))
  }

  lemma PodIndexFollows(exact: bool, tag: string, m: Maps, n: Maps, ids: Ids, old': Maps)
    requires PodsAgree(tag, n, ids) && Follows(exact, m, n, old')
    ensures PodIndex(exact, tag, m, ids, old')
  {
    forall c | c in ids.container ensures Mapped(tag, m, ids.container[c]) {
      assert Mapped(tag, n, ids.container[c]);
    }
    forall key: IdKey | key in m.ids && key.port == 0
      ensures LivesAt(ids, key.ip) || (key in old'.ids && old'.ids[key] == m.ids[key])
    {
      assert key in n.ids ==> LivesAt(ids, key.ip);
    }
    forall id: uint16 | MIN_POD_ID <= id < MAX_MAP_SIZE
      ensures CfgFollows(exact, m.cfg[id], ExpectedPod(tag, ids, id), old'.cfg[id])
    {
      assert n.cfg[id] == ExpectedPod(tag, ids, id) && CfgFollows(exact, m.cfg[id], n.cfg[id], old'.cfg[id]);
    }
  }

  /** Each call finds pods with addresses of their own, and leaves them so. */
  ghost predicate OrderlyLife(s: Service, acts: seq<Act>) {
    forall k :: 0 <= k < |acts| ==> OrderlyAt(s, acts, k)
  }

  ghost predicate OrderlyAt(s: Service, acts: seq<Act>, k: nat)
    requires k < |acts|
  {
    acts[k].Rpc? ==> Orderly(Life(s, acts[..k]), acts[k].call)
  }

  lemma OrderlyBefore(s: Service, acts: seq<Act>)
    requires OrderlyLife(s, acts) && acts != []
    ensures OrderlyLife(s, acts[..|acts| - 1])
  {
    var before := acts[..|acts| - 1];
    forall k | 0 <= k < |before| ensures OrderlyAt(s, before, k) {
      assert OrderlyAt(s, acts, k) && before[..k] == acts[..k];
    }
  }

  /** Whether a call is orderly depends on the records alone. */
  lemma DoKeepsPods(s: Service, t: Service, a: Act)
    requires s.ids == t.ids && PodInv(t) && (a.Rpc? ==> Orderly(s, a.call))
    ensures PodInv(if a.Rpc? then Serve(t, a.call) else t)
  {
    if a.Rpc? {
      assert Orderly(t, a.call);
      ServeKeepsPods(t, a.call);
    }
  }

  lemma {:induction false} LifeKeepsPods(s: Service, t: Service, egress: Maps, ingress: Maps, acts: seq<Act>)
    requires ServiceFollows(false, s, t, egress, ingress) && PodInv(t) && OrderlyLife(s, acts)
    ensures PodInv(ServeAll(t, Calls(acts)))
  {
    if acts != [] {
      var before, a := acts[..|acts| - 1], acts[|acts| - 1];
      OrderlyBefore(s, acts);
      LifeKeepsPods(s, t, egress, ingress, before);
      LifeFollows(false, s, t, egress, ingress, before);
      assert OrderlyAt(s, acts, |acts| - 1);
      DoKeepsPods(Life(s, before), ServeAll(t, Calls(before)), a);
      if a.Rpc? {
        ServeAllOneMore(t, Calls(before), a.call);
      }
    }
  }

  lemma PodIndexAgreement(pods: seq<PodInfo>, order: seq<PodInfo>, egress: Maps, ingress: Maps, acts: seq<Act>)
    requires Listed(pods, order) && OwnAddresses(order) && egress.Sized() && ingress.Sized()
    requires OrderlyLife(Restart(pods, order, egress, ingress), acts)
    ensures var s := Life(Restart(pods, order, egress, ingress), acts);
      && AddressesDistinct(s.ids) && PodsPaired(s.ids)
      && PodIndex(NoRound(acts), "egress", s.egress, s.ids, egress)
      && PodIndex(NoRound(acts), "ingress", s.ingress, s.ids, ingress)
  {
    var exact := NoRound(acts);
    var s, t := Restart(pods, order, egress, ingress), Restart(pods, order, EMPTY_MAPS, EMPTY_MAPS);
    RestoredFollows(exact, "egress", egress, order);
    RestoredFollows(exact, "ingress", ingress, order);
    RestoredFollows(false, "egress", egress, order);
    RestoredFollows(false, "ingress", ingress, order);
    LifeFollows(exact, s, t, egress, ingress, acts);
    CleanRestartAgreesOnPods(pods, order);
    LifeKeepsPods(s, t, egress, ingress, acts);
    var n, u := Life(s, acts), ServeAll(t, Calls(acts));
    PodIndexFollows(exact, "egress", n.egress, u.egress, u.ids, egress);
    PodIndexFollows(exact, "ingress", n.ingress, u.ingress, u.ids, ingress);
  }

  /** Leftovers matter: ids of flows start over at 100, so an old flow's key that names
      this id is served by the first flow registered after the restart. */
  lemma LeftoverJoinsFirstFlow(pods: seq<PodInfo>, order: seq<PodInfo>, egress: Maps, ingress: Maps, key: IdKey, r: QosFlow)
    requires Listed(pods, order) && egress.Sized() && ingress.Sized()
    requires key.port != 0 && key in egress.ids && key != IdKey(r.ip, r.port)
    requires r.direct == "egress"
    ensures var s := SetFlow(Restart(pods, order, egress, ingress), r);
      && FlowChosen(Restart(pods, order, egress, ingress).ids, FlowId(r)) == Some(MIN_FLOW_ID)
      && key in s.egress.ids && s.egress.ids[key] == egress.ids[key]
      && s.egress.Sized() && s.egress.cfg[MIN_FLOW_ID] == CfgOf(r.send)
  {
    RecoveryIsPaired(pods);
    RestoredKeeps("egress", egress, order, key);
    assert FlowId(r) !in FlowIds(Recovered(pods).process);
  }

  lemma {:induction false} RestoredKeeps(tag: string, m: Maps, order: seq<PodInfo>, key: IdKey)
    requires m.Sized() && key in m.ids && key.port != 0
    ensures var n := Restored(tag, m, order);
      n.Sized() && key in n.ids && n.ids[key] == m.ids[key]
  {
    if order != [] {
      RestoredKeeps(tag, m, order[..|order| - 1], key);
    }
  }

  // ---------------------------------------------------------------------
  // How traffic is served over a lifetime
  // ---------------------------------------------------------------------

  /** The word's id and priority are these, and the configuration under the id holds the
      same priority and all else that was asked for; the request too, while no round ran. */
  predicate ServedAs(exact: bool, m: Maps, word: uint32, id: uint16, q: QosConfig) {
    && Edt.SplitId(word) == id && Edt.SplitPriority(word) == q.priority
    && (id < MAX_MAP_SIZE <= |m.cfg| ==>
          && m.cfg[id].priority == Edt.SplitPriority(word) && Carries(m.cfg[id], q)
          && (exact ==> m.cfg[id].reqRate == m.cfg[id].lowRate))
  }

  lemma FollowerCarries(exact: bool, c: ThrottleCfg, q: QosConfig, o: ThrottleCfg)
    requires CfgFollows(exact, c, CfgOf(q), o)
    ensures Carries(c, q) && (exact ==> c.reqRate == c.lowRate)
  {
    CfgCarries(q);
  }

  lemma ExpectedOfLive(tag: string, ids: Ids, key: IdKey)
    requires FlowsPaired(ids) && Filed(ids) && NameOf(tag, key) in ids.process
    ensures var info := ids.process[NameOf(tag, key)];
      MIN_FLOW_ID <= info.localId <= MAX_FLOW_ID && Expected(tag, ids, info.localId) == CfgOf(QosOf(tag, info))
  {
    FoundIsAsked(ids, tag, key.ip, key.port);
    assert NameOf(tag, key) in FlowIds(ids.process);
  }

  /** Every live flow is served as it was last asked for. */
  lemma FlowIsServed(exact: bool, tag: string, m: Maps, ids: Ids, old': Maps, key: IdKey)
    requires FlowIndex(exact, tag, m, ids, old') && FlowsPaired(ids) && Filed(ids)
    requires key.port != 0 && NameOf(tag, key) in ids.process
    requires QosOf(tag, ids.process[NameOf(tag, key)]).priority < 0x1_0000
    ensures var info := ids.process[NameOf(tag, key)];
      key in m.ids && ServedAs(exact, m, m.ids[key], info.localId, QosOf(tag, info))
  {
    var info := ids.process[NameOf(tag, key)];
    ExpectedOfLive(tag, ids, key);
    ClassIdRoundTrip(QosOf(tag, info).priority, info.localId);
    FollowerCarries(exact, m.cfg[info.localId], QosOf(tag, info), old'.cfg[info.localId]);
  }

  lemma PodIsServed(exact: bool, tag: string, m: Maps, ids: Ids, old': Maps, c: string)
    requires PodIndex(exact, tag, m, ids, old') && PodsPaired(ids) && c in ids.container
    requires PodQos(tag, ids.container[c]).priority < 0x1_0000
    ensures var pod := ids.container[c];
      PodKey(pod) in m.ids && ServedAs(exact, m, m.ids[PodKey(pod)], pod.localId, PodQos(tag, pod))
  {
    var pod := ids.container[c];
    assert c in PodIds(ids.container);
    assert Mapped(tag, m, pod);
    ClassIdRoundTrip(PodQos(tag, pod).priority, pod.localId);
    if pod.localId < MAX_MAP_SIZE {
      assert ExpectedPod(tag, ids, pod.localId) == CfgOf(PodQos(tag, pod));
      FollowerCarries(exact, m.cfg[pod.localId], PodQos(tag, pod), old'.cfg[pod.localId]);
    }
  }

  /** Over any lifetime that respects addresses, all traffic of a live pod is handled under
      the pod's id, priority and configuration, whatever its ports and the flows. */
  lemma PodTrafficAgreement(pods: seq<PodInfo>, order: seq<PodInfo>, egress: Maps, ingress: Maps, acts: seq<Act>,
      c: string, h: Edt.Headers)
    requires Listed(pods, order) && OwnAddresses(order) && egress.Sized() && ingress.Sized()
    requires OrderlyLife(Restart(pods, order, egress, ingress), acts)
    requires c in Life(Restart(pods, order, egress, ingress), acts).ids.container
    ensures var s := Life(Restart(pods, order, egress, ingress), acts);
      var pod := s.ids.container[c];
      && (h.saddr == pod.vethIpv4 && pod.qos.egress.priority < 0x1_0000 ==>
            ServedAs(NoRound(acts), s.egress, Edt.FirstHit(s.egress.ids, Edt.EgressKeys(h)), pod.localId, pod.qos.egress))
      && (h.daddr == pod.vethIpv4 && pod.qos.ingress.priority < 0x1_0000 ==>
            ServedAs(NoRound(acts), s.ingress, Edt.FirstHit(s.ingress.ids, Edt.IngressKeys(h)), pod.localId, pod.qos.ingress))
  {
    PodIndexAgreement(pods, order, egress, ingress, acts);
    var s := Life(Restart(pods, order, egress, ingress), acts);
    var pod := s.ids.container[c];
    if h.saddr == pod.vethIpv4 && pod.qos.egress.priority < 0x1_0000 {
      PodIsServed(NoRound(acts), "egress", s.egress, s.ids, egress, c);
      Edt.FirstHitIsFirst(s.egress.ids, Edt.EgressKeys(h), 0);
    }
    if h.daddr == pod.vethIpv4 && pod.qos.ingress.priority < 0x1_0000 {
      PodIsServed(NoRound(acts), "ingress", s.ingress, s.ids, ingress, c);
      Edt.FirstHitIsFirst(s.ingress.ids, Edt.IngressKeys(h), 0);
    }
  }

  /** Traffic from a live flow's own address and port is served as the flow's. */
  lemma FlowOutIsServed(exact: bool, m: Maps, ids: Ids, old': Maps, h: Edt.Headers)
    requires FlowIndex(exact, "egress", m, ids, old') && FlowsPaired(ids) && Filed(ids)
    requires OutOfFlow(m, ids, h)
    ensures var info := ids.process[ProcessId("egress", h.saddr, h.ports.value.source)];
      ServedAs(exact, m, Edt.FirstHit(m.ids, Edt.EgressKeys(h)), info.localId, info.qos.egress)
  {
    FlowIsServed(exact, "egress", m, ids, old', IdKey(h.saddr, h.ports.value.source));
    Edt.FirstHitIsFirst(m.ids, Edt.EgressKeys(h), 1);
  }

  predicate OutOfFlow(m: Maps, ids: Ids, h: Edt.Headers) {
    && h.ports.Some? && h.ports.value.source != 0 && IdKey(h.saddr, 0) !in m.ids
    && var p := ProcessId("egress", h.saddr, h.ports.value.source);
       p in ids.process && ids.process[p].qos.egress.priority < 0x1_0000
  }

  /** And traffic to it. */
  lemma FlowInIsServed(exact: bool, m: Maps, ids: Ids, old': Maps, h: Edt.Headers)
    requires FlowIndex(exact, "ingress", m, ids, old') && FlowsPaired(ids) && Filed(ids)
    requires IntoFlow(m, ids, h)
    ensures var info := ids.process[ProcessId("ingress", h.daddr, h.ports.value.dest)];
      ServedAs(exact, m, Edt.FirstHit(m.ids, Edt.IngressKeys(h)), info.localId, info.qos.ingress)
  {
    FlowIsServed(exact, "ingress", m, ids, old', IdKey(h.daddr, h.ports.value.dest));
    Edt.FirstHitIsFirst(m.ids, Edt.IngressKeys(h), 1);
  }

  predicate IntoFlow(m: Maps, ids: Ids, h: Edt.Headers) {
    && h.ports.Some? && h.ports.value.dest != 0 && IdKey(h.daddr, 0) !in m.ids
    && var p := ProcessId("ingress", h.daddr, h.ports.value.dest);
       p in ids.process && ids.process[p].qos.ingress.priority < 0x1_0000
  }

  /** Over any lifetime, traffic of a live flow's own address and port, unless the address
      is a pod's, is handled under the flow's id, priority and configuration. */
  lemma FlowTrafficAgreement(pods: seq<PodInfo>, order: seq<PodInfo>, egress: Maps, ingress: Maps, acts: seq<Act>,
      h: Edt.Headers)
    requires Listed(pods, order) && egress.Sized() && ingress.Sized()
    requires forall a :: a in acts && a.Rpc? && a.call.Set? ==> a.call.flow.port != 0
    ensures var s := Life(Restart(pods, order, egress, ingress), acts);
      && (OutOfFlow(s.egress, s.ids, h) ==>
            var info := s.ids.process[ProcessId("egress", h.saddr, h.ports.value.source)];
            ServedAs(NoRound(acts), s.egress, Edt.FirstHit(s.egress.ids, Edt.EgressKeys(h)), info.localId, info.qos.egress))
      && (IntoFlow(s.ingress, s.ids, h) ==>
            var info := s.ids.process[ProcessId("ingress", h.daddr, h.ports.value.dest)];
            ServedAs(NoRound(acts), s.ingress, Edt.FirstHit(s.ingress.ids, Edt.IngressKeys(h)), info.localId, info.qos.ingress))
  {
    FlowIndexAgreement(pods, order, egress, ingress, acts);
    var s := Life(Restart(pods, order, egress, ingress), acts);
    if OutOfFlow(s.egress, s.ids, h) {
      FlowOutIsServed(NoRound(acts), s.egress, s.ids, egress, h);
    }
    if IntoFlow(s.ingress, s.ids, h) {
      FlowInIsServed(NoRound(acts), s.ingress, s.ids, ingress, h);
    }
  }
}
