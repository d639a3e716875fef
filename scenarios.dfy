/**
 Client code for the broker: the exchanges it is meant to support, each
 proved from the contracts of the store and the manager alone. The id
 derivation used here appends "#app" to a client id and strips it again.
 */
module Scenarios {
  import opened Results
  import opened Storage
  import opened Manager

  function AppIdOf(clientId: string): string {
    clientId + "#app"
  }

  function ClientIdOf(appId: string): string {
    if |appId| >= 4 && appId[|appId| - 4..] == "#app" then appId[..|appId| - 4] else appId
  }

  lemma DerivationsPaired()
    ensures IdsPaired(AppIdOf, ClientIdOf)
  {
    forall clientId: string ensures ClientIdOf(AppIdOf(clientId)) == clientId {
      var appId := clientId + "#app";
      assert appId[|appId| - 4..] == "#app";
      assert appId[..|appId| - 4] == clientId;
    }
  }

  method NewManager(idleTimeoutSec: nat, processingTimeoutSec: nat) returns (m: ConnectionManager)
    ensures fresh(m) && fresh(m.store) && m.Valid() && m.store.available
    ensures m.store.items == map[] && m.queues == map[] && m.connectionMap == map[]
    ensures m.idleTimeoutSec == idleTimeoutSec && m.processingTimeoutSec == processingTimeoutSec
    ensures m.appIdOf == AppIdOf && m.clientIdOf == ClientIdOf
  {
    var store := new ConnectionStore(1);
    DerivationsPaired();
    m := new ConnectionManager(store, idleTimeoutSec, processingTimeoutSec, AppIdOf, ClientIdOf);
  }

  /** A consumer taking the oldest waiting connection of a type and fetching its offer, at the
      instant `now`: the record is allocated and its processing clock started. */
  method Fetch(m: ConnectionManager, connectionType: string, now: nat) returns (id: string)
    requires m.Valid() && m.store.available
    requires QueueOf(m.queues, connectionType) != []
    requires var head := QueueOf(m.queues, connectionType)[0];
             && AwaitingAllocation(m.store.items, head)
             && !IdleExpired(m.store.items[head], m.idleTimeoutSec, now)
             && StrAttr(m.store.items[head], AttrOffer) != ""
    modifies m`queues, m.store`items
    ensures m.Valid()
    ensures id == old(QueueOf(m.queues, connectionType))[0]
    ensures m.queues == old(m.queues)[connectionType := old(QueueOf(m.queues, connectionType))[1..]]
    ensures m.store.items == old(m.store.items)[id := old(m.store.items)[id][AttrStatus := S(Allocated)]
                               [AttrProcessingStart := N(now)]]
    ensures NumAttr(m.store.items[id], AttrProcessingStart) == Some(now)
  {
    var w := m.GetWaitingOffer(connectionType, now);
    id := w.value;
    var o := m.GetOffer(id, now);
  }

  /** A consumer serving the oldest waiting connection of a type: it is allocated, its offer
      fetched and its answer saved, all at the instant `now`. */
  method Serve(m: ConnectionManager, connectionType: string, answer: string, now: nat) returns (id: string)
    requires m.Valid() && m.store.available
    requires QueueOf(m.queues, connectionType) != []
    requires var head := QueueOf(m.queues, connectionType)[0];
             && AwaitingAllocation(m.store.items, head)
             && !IdleExpired(m.store.items[head], m.idleTimeoutSec, now)
             && StrAttr(m.store.items[head], AttrOffer) != ""
    modifies m`queues, m.store`items
    ensures m.Valid()
    ensures id == old(QueueOf(m.queues, connectionType))[0]
    ensures m.queues == old(m.queues)[connectionType := old(QueueOf(m.queues, connectionType))[1..]]
    ensures m.store.items == old(m.store.items)[id := old(m.store.items)[id][AttrStatus := S(Allocated)]
                               [AttrProcessingStart := N(now)][AttrOfferResponse := S(answer)][AttrStatus := S(Answered)]]
  {
    id := Fetch(m, connectionType, now);
    var s := m.SaveOfferResponse(id, answer, now);
  }

  /** A producer connecting while no other connection of its type waits: its record is the
      only one added, it heads the queue, and it waits to be allocated, alive as of `now`. */
  method Connect(m: ConnectionManager, deviceId: string, connectionType: string, clientConnectionId: string,
                 suffix: string, now: nat) returns (id: string)
    requires m.Valid() && m.store.available && |suffix| == 10
    requires connectionType == ClientType || (connectionType == ApplicationType && clientConnectionId != "")
    requires QueueOf(m.queues, connectionType) == []
    modifies m`queues, m`connectionMap, m.store`items
    ensures m.Valid() && m.queues == old(m.queues)[connectionType := [id]]
    ensures m.connectionMap == old(m.connectionMap)[id := LocalConnection(now, [])]
    ensures connectionType == ClientType ==> id == deviceId + suffix
    ensures connectionType == ApplicationType ==> id == m.appIdOf(clientConnectionId)
    ensures id in m.store.items && m.store.items == old(m.store.items)[id := m.store.items[id]]
    ensures AwaitingAllocation(m.store.items, id) && NumAttr(m.store.items[id], AttrKeepalive) == Some(now)
    ensures StrAttr(m.store.items[id], AttrOffer) != "" && StrAttr(m.store.items[id], AttrType) == connectionType
    ensures StrAttr(m.store.items[id], AttrPeerStatus) == "" && StrAttr(m.store.items[id], AttrOfferResponse) == ""
  {
    var a := m.AddConnection("offer", deviceId, connectionType, clientConnectionId, suffix, now);
    id := a.value;
    assert QueueOf(m.queues, connectionType) == [id];
  }

  /** An application connection created for an existing client record and served: only its
      own record is added, and it carries the consumer's answer. */
  method ServeApplication(m: ConnectionManager, clientId: string, now: nat) returns (appId: string)
    requires m.Valid() && m.store.available && m.appIdOf == AppIdOf && m.clientIdOf == ClientIdOf
    requires clientId != "" && clientId in m.store.items && QueueOf(m.queues, ApplicationType) == []
    modifies m`queues, m`connectionMap, m.store`items
    ensures m.Valid()
    ensures appId != clientId && m.clientIdOf(appId) == clientId
    ensures appId in m.store.items && m.store.items == old(m.store.items)[appId := m.store.items[appId]]
    ensures StrAttr(m.store.items[appId], AttrType) == ApplicationType
    ensures StrAttr(m.store.items[appId], AttrOfferResponse) == "appAnswer"
  {
    ghost var items0 := m.store.items;
    var id := Connect(m, "app", ApplicationType, clientId, "abcdefghij", now);
    assert id != clientId by { assert |id| == |clientId| + 4; }
    assert m.clientIdOf(id) == clientId;
    ghost var created := m.store.items[id];
    appId := Serve(m, ApplicationType, "appAnswer", now);
    assert m.store.items[appId][AttrType] == created[AttrType];
  }

  /** The application side of a client connection: it connects, is served, and on fetching
      its answer marks the client record connected, leaving the client record otherwise as it
      was. */
  method ApplicationConfirms(m: ConnectionManager, clientId: string, now: nat) returns (appId: string)
    requires m.Valid() && m.store.available && m.appIdOf == AppIdOf && m.clientIdOf == ClientIdOf
    requires clientId != "" && clientId in m.store.items && QueueOf(m.queues, ApplicationType) == []
    modifies m`queues, m`connectionMap, m.store`items
    ensures m.Valid()
    ensures clientId in m.store.items
    ensures m.store.items[clientId] == old(m.store.items)[clientId][AttrPeerStatus := S(Connected)]
  {
    ghost var client := m.store.items[clientId];
    appId := ServeApplication(m, clientId, now);
    ghost var served := m.store.items[appId];
    ghost var kept := m.store.items[appId := served[AttrKeepalive := N(now)]];
    assert Stored(kept, clientId) == client;
    var confirmed := m.GetOfferResponse(appId, now);
    assert m.store.items == kept[clientId := client[AttrPeerStatus := S(Connected)]];
  }

  /** A fresh broker in which one client offer waits to be served. */
  method ClientWaiting() returns (m: ConnectionManager, clientId: string)
    ensures fresh(m) && fresh(m.store)
    ensures m.Valid() && m.store.available && m.appIdOf == AppIdOf && m.clientIdOf == ClientIdOf
    ensures m.idleTimeoutSec == 30 && m.processingTimeoutSec == 10
    ensures QueueOf(m.queues, ClientType) == [clientId] && QueueOf(m.queues, ApplicationType) == []
    ensures clientId != "" && clientId in m.store.items
    ensures clientId in m.connectionMap && m.connectionMap[clientId].ice == []
    ensures AwaitingAllocation(m.store.items, clientId)
    ensures NumAttr(m.store.items[clientId], AttrKeepalive) == Some(1000)
    ensures StrAttr(m.store.items[clientId], AttrOffer) != ""
    ensures StrAttr(m.store.items[clientId], AttrType) == ClientType
    ensures StrAttr(m.store.items[clientId], AttrPeerStatus) == ""
    ensures StrAttr(m.store.items[clientId], AttrOfferResponse) == ""
  {
    m := NewManager(30, 10);
    clientId := Connect(m, "dev", ClientType, "", "0123456789", 1000);
    assert AwaitingAllocation(m.store.items, clientId);
  }

  /** A fresh broker in which one client offer has been served in time. */
  method ServeClient() returns (m: ConnectionManager, clientId: string)
    ensures fresh(m) && fresh(m.store)
    ensures m.Valid() && m.store.available && m.appIdOf == AppIdOf && m.clientIdOf == ClientIdOf
    ensures clientId != "" && clientId in m.store.items && QueueOf(m.queues, ApplicationType) == []
    ensures StrAttr(m.store.items[clientId], AttrOfferResponse) == "answer"
    ensures StrAttr(m.store.items[clientId], AttrType) == ClientType
    ensures StrAttr(m.store.items[clientId], AttrPeerStatus) == ""
  {
    m, clientId := ClientWaiting();
    ghost var created := m.store.items[clientId];
    var served := Serve(m, ClientType, "answer", 2000);
    assert m.store.items[clientId] == created[AttrStatus := S(Allocated)][AttrProcessingStart := N(2000)]
                                      [AttrOfferResponse := S("answer")][AttrStatus := S(Answered)];
  }

  /** A client offer is served in time, and its producer, polling before the application side
      has confirmed, is told the answer is not ready. */
  method ClientAnswered() returns (m: ConnectionManager, clientId: string, early: Result<Reply>)
    ensures fresh(m) && fresh(m.store)
    ensures m.Valid() && m.store.available && m.appIdOf == AppIdOf && m.clientIdOf == ClientIdOf
    ensures clientId != "" && clientId in m.store.items && QueueOf(m.queues, ApplicationType) == []
    ensures StrAttr(m.store.items[clientId], AttrOfferResponse) == "answer"
    ensures StrAttr(m.store.items[clientId], AttrType) == ClientType
    ensures early == Err(Coded(NotFound))
  {
    m, clientId := ServeClient();
    ghost var record := m.store.items[clientId];
    early := m.GetOfferResponse(clientId, 3000);
    assert m.store.items[clientId] == record[AttrKeepalive := N(3000)];
  }

  /** The whole exchange: the client producer is told "not ready" until the application side
      has been served and has confirmed, and then receives the answer. */
  method Handshake() returns (early: Result<Reply>, late: Result<Reply>)
    ensures early == Err(Coded(NotFound))
    ensures late == Ok(Reply("answer", ClientType))
  {
    var m, clientId;
    m, clientId, early := ClientAnswered();
    var appId := ApplicationConfirms(m, clientId, 4000);
    ghost var record := m.store.items[clientId];
    assert StrAttr(record, AttrOfferResponse) == "answer" && StrAttr(record, AttrType) == ClientType;
    assert StrAttr(record, AttrPeerStatus) == Connected;
    late := m.GetOfferResponse(clientId, 5000);
  }

  /** An answer submitted after the processing window has closed is refused and not stored. */
  method LateAnswer() returns (saved: Result<Item>, answer: string)
    ensures saved == Err(Coded(InternalError))
    ensures answer == ""
  {
    var m, id := ClientWaiting();
    ghost var created := m.store.items[id];
    var fetched := Fetch(m, ClientType, 2000);
    ghost var record := m.store.items[id];
    assert StrAttr(record, AttrOfferResponse) == StrAttr(created, AttrOfferResponse);
    saved := m.SaveOfferResponse(id, "answer", 2000 + 10 * 1000 + 1);
    assert m.store.items[id] == record;
    answer := StrAttr(m.store.items[id], AttrOfferResponse);
  }

  /** A producer that stopped polling loses its allocation: the consumer is told to retry,
      and the record is left allocated. */
  method IdleProducer() returns (allocation: Result<string>, status: string)
    ensures allocation == Err(Coded(Unavailable))
    ensures status == Allocated
  {
    var m := NewManager(30, 10);
    var id := Connect(m, "dev", ClientType, "", "0123456789", 1000);
    ghost var created := m.store.items[id];
    assert IdleExpired(created, m.idleTimeoutSec, 1000 + 30 * 1000 + 1);
    allocation := m.GetWaitingOffer(ClientType, 1000 + 30 * 1000 + 1);
    assert m.store.items[id] == created[AttrStatus := S(Allocated)];
    status := StrAttr(m.store.items[id], AttrStatus);
  }

  /** A store fault while a consumer polls strands the waiting offer: the consumer gets 500, the
      id has already left the queue, and the record is still created, so no later consumer can
      be handed it. */
  method OutageDuringAllocation() returns (allocation: Result<string>, waiting: seq<string>, status: string)
    ensures allocation == Err(Coded(InternalError))
    ensures waiting == []
    ensures status == Created
  {
    var m, id := ClientWaiting();
    m.store.SetAvailable(false);
    allocation := m.GetWaitingOffer(ClientType, 2000);
    waiting := QueueOf(m.queues, ClientType);
    status := StrAttr(m.store.items[id], AttrStatus);
  }

  /** The same application id queued twice (its client created two application connections):
      the first consumer wins the allocation, the second is told to retry. */
  method ContendedAllocation() returns (first: Result<string>, second: Result<string>)
    ensures first.Ok? && second == Err(Coded(Unavailable))
  {
    var m := NewManager(30, 10);
    var id := Connect(m, "dev", ApplicationType, "client-1", "0123456789", 1000);
    var again := m.AddConnection("offer", "dev", ApplicationType, "client-1", "abcdefghij", 1000);
    assert again == Ok(id) && QueueOf(m.queues, ApplicationType) == [id, id];
    assert AwaitingAllocation(m.store.items, id) && !IdleExpired(m.store.items[id], m.idleTimeoutSec, 2000);
    first := m.GetWaitingOffer(ApplicationType, 2000);
    assert QueueOf(m.queues, ApplicationType) == [id] && !AwaitingAllocation(m.store.items, id);
    second := m.GetWaitingOffer(ApplicationType, 2000);
  }

  /** Two candidates trickled in for a fresh client connection wait in arrival order. */
  method CandidatesAdded() returns (m: ConnectionManager, id: string)
    ensures fresh(m)
    ensures id in m.connectionMap && Pending(m.connectionMap[id].ice) == ["c1", "c2"]
  {
    m, id := ClientWaiting();
    var added1 := m.AddCandidate(id, "c1", 1100);
    var added2 := m.AddCandidate(id, "c2", 1200);
  }

  /** Candidates come back oldest first, each once, and then there are none. */
  method CandidateOrder() returns (first: Option<string>, second: Option<string>, third: Option<string>)
    ensures first == Some("c1") && second == Some("c2") && third == None
  {
    var m, id := CandidatesAdded();
    first := m.GetCandidate(id);
    assert Pending(m.connectionMap[id].ice) == ["c2"];
    second := m.GetCandidate(id);
    assert Pending(m.connectionMap[id].ice) == [];
    third := m.GetCandidate(id);
  }
}
