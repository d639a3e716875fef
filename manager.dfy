/**
 The connection-lifecycle broker (lib/connectionManager.js).

 A producer creates a connection record (status "created") and its id is
 queued under the connection type. A consumer polls for a waiting offer: the
 id is dequeued and the record moved from "created" to "allocated" by the
 store's conditional update, then the producer's liveness is checked. The
 consumer fetches the offer (which starts the processing clock) and saves an
 answer within the processing window; the producer polls for the answer, a
 client only once its application peer has reported itself connected. ICE
 candidates travel through a per-connection list held in memory, each
 delivered at most once. Clock readings are the `now` parameters, in
 milliseconds.
 */
module Manager {
  import opened Results
  import opened Storage

  const ClientType := "client"
  const ApplicationType := "application"

  /** The configured connection types. */
  const ConnectionTypes: seq<string> := [ClientType, ApplicationType]

  // Values of the connectionStatus attribute, and the peer marker.
  const Created := "created"
  const Allocated := "allocated"
  const Answered := "offerResponse"
  const Ended := "ended"
  const TimedOut := "timeout"
  const Connected := "connected"

  /** What getOffer and getOfferResponse hand back: a payload and the record's type. */
  datatype Reply = Reply(payload: string, connectionType: string)

  // ---------------------------------------------------------------------------
  // The connection-type guard of addConnection

  /** Array.prototype.indexOf: the first position of `t`, or -1. */
  function IndexOf(types: seq<string>, t: string): (i: int)
    ensures -1 <= i < |types|
    ensures i >= 0 ==> types[i] == t && forall j :: 0 <= j < i ==> types[j] != t
    ensures i == -1 <==> t !in types
  {
    if types == [] then -1
    else if types[0] == t then 0
    else
      var i := IndexOf(types[1..], t);
      if i == -1 then -1 else i + 1
  }

  /** JavaScript's `!` applied to a number: true exactly for 0. */
  function LogicalNot(x: int): bool {
    x == 0
  }

  /** A boolean compared with a number is converted first: true to 1, false to 0. */
  function ToNumber(b: bool): int {
    if b then 1 else 0
  }

  /** The guard as written: the logical negation is applied to the index before it is compared with 0. */
  function UnsupportedTypeAsWritten(types: seq<string>, t: string): (r: bool)
    ensures !r
  {
    ToNumber(LogicalNot(IndexOf(types, t))) < 0
  }

  /** The guard as written never rejects anything; "video" is let through although it is not
      a configured type, where the intended guard rejects it. */
  lemma {:induction false} TypeGuardAsWrittenNeverFires(types: seq<string>, t: string)
    ensures !UnsupportedTypeAsWritten(types, t)
    ensures !UnsupportedTypeAsWritten(ConnectionTypes, "video") && UnsupportedType("video")
  {
    assert ToNumber(LogicalNot(IndexOf(types, t))) >= 0;
  }

  /** The guard as intended: the type is not among the configured ones. */
  function UnsupportedType(t: string): (r: bool)
    ensures r <==> t != ClientType && t != ApplicationType
  {
    IndexOf(ConnectionTypes, t) < 0
  }

  // ---------------------------------------------------------------------------
  // The catch around the allocation compare-and-swap

  /** The catch as written: it reads `err`, but the caught value is bound to `error`, so
      whatever the store threw surfaces as a ReferenceError. */
  function CasFailureAsWritten(thrown: Error): (e: Error)
    ensures e == ReferenceError("err")
    ensures thrown != ReferenceError("err") ==> e != CasFailure(thrown)
  {
    ReferenceError("err")
  }

  /** A lost allocation race never reaches the caller as the retryable 503 the code means. */
  lemma CasFailureAsWrittenHidesContention()
    ensures CasFailureAsWritten(ConditionalCheckFailed) == ReferenceError("err")
    ensures CasFailure(ConditionalCheckFailed) == Coded(Unavailable)
  {
  }

  /** The catch as intended: a failed condition becomes a retryable 503, anything else is
      rethrown as it is. */
  function CasFailure(thrown: Error): (e: Error)
    ensures thrown == ConditionalCheckFailed ==> e == Coded(Unavailable)
    ensures thrown != ConditionalCheckFailed ==> e == thrown
  {
    if thrown == ConditionalCheckFailed then Coded(Unavailable) else thrown
  }

  // ---------------------------------------------------------------------------
  // Deadlines; a missing number compares as NaN, so every comparison with it is false

  /** The producer has not polled for longer than the idle timeout. */
  predicate IdleExpired(item: Item, idleTimeoutSec: nat, now: int)
    ensures IdleExpired(item, idleTimeoutSec, now) <==>
              AttrKeepalive in item && item[AttrKeepalive].N? && item[AttrKeepalive].n < now - idleTimeoutSec * 1000
  {
    match NumAttr(item, AttrKeepalive)
    case Some(keepalive) => keepalive + idleTimeoutSec * 1000 < now
    case None => false
  }

  /** The answer arrives within the processing window that getOffer opened (bound inclusive). */
  predicate WithinDeadline(item: Item, processingTimeoutSec: nat, now: int)
    ensures WithinDeadline(item, processingTimeoutSec, now) <==>
              AttrProcessingStart in item && item[AttrProcessingStart].N?
              && now - processingTimeoutSec * 1000 <= item[AttrProcessingStart].n
  {
    match NumAttr(item, AttrProcessingStart)
    case Some(start) => start + processingTimeoutSec * 1000 >= now
    case None => false
  }

  /** The record is waiting to be allocated. */
  predicate AwaitingAllocation(items: map<string, Item>, id: string) {
    id in items && AttrStatus in items[id] && items[id][AttrStatus] == S(Created)
  }

  // ---------------------------------------------------------------------------
  // ICE candidates

  datatype CandidateState = New | Retrieve

  datatype Candidate = Candidate(state: CandidateState, content: string)

  /** The in-memory side of a connection: its liveness time and its candidate list. */
  datatype LocalConnection = LocalConnection(keepalive: int, ice: seq<Candidate>)

  /** The contents still to be delivered: entries tagged new, oldest first. */
  function Pending(ice: seq<Candidate>): seq<string> {
    if ice == [] then []
    else (if ice[0].state == New then [ice[0].content] else []) + Pending(ice[1..])
  }

  /** The position of the oldest entry still tagged new (Array.prototype.find). */
  function FirstNew(ice: seq<Candidate>): (r: Option<nat>)
    ensures r.Some? ==> r.value < |ice| && ice[r.value].state == New
                        && forall j :: 0 <= j < r.value ==> ice[j].state != New
    ensures r.None? ==> forall j :: 0 <= j < |ice| ==> ice[j].state != New
  {
    if ice == [] then None
    else if ice[0].state == New then Some(0)
    else match FirstNew(ice[1..])
      case Some(j) => Some(j + 1)
      case None => None
  }

  /** The list once the oldest new entry is retagged: every entry keeps its content, and only
      that entry changes its tag, from new to retrieve. */
  function Retrieved(ice: seq<Candidate>): (r: seq<Candidate>)
    ensures |r| == |ice|
    ensures forall j :: 0 <= j < |ice| ==> r[j].content == ice[j].content
    ensures forall j :: 0 <= j < |ice| && ice[j].state == Retrieve ==> r[j].state == Retrieve
    ensures FirstNew(ice).Some? ==> r[FirstNew(ice).value].state == Retrieve
    ensures forall j :: 0 <= j < |ice| && (FirstNew(ice).None? || j != FirstNew(ice).value) ==> r[j] == ice[j]
    ensures FirstNew(ice).None? ==> r == ice
  {
    match FirstNew(ice)
    case None => ice
    case Some(j) => ice[j := Candidate(Retrieve, ice[j].content)]
  }

  /** Adding a candidate queues its content behind every undelivered one. */
  lemma {:induction false} PendingAppend(ice: seq<Candidate>, content: string)
    ensures Pending(ice + [Candidate(New, content)]) == Pending(ice) + [content]
  {
    if ice == [] {
      assert [Candidate(New, content)][1..] == [];
    } else {
      assert (ice + [Candidate(New, content)])[1..] == ice[1..] + [Candidate(New, content)];
      PendingAppend(ice[1..], content);
    }
  }

  /** Retrieval delivers the oldest undelivered content and removes exactly it from the
      contents still to be delivered, so no entry is delivered twice and order is kept. */
  lemma {:induction false} RetrieveDeliversOldest(ice: seq<Candidate>)
    ensures FirstNew(ice).None? <==> Pending(ice) == []
    ensures FirstNew(ice).Some? ==> ice[FirstNew(ice).value].content == Pending(ice)[0]
                                    && Pending(Retrieved(ice)) == Pending(ice)[1..]
    ensures FirstNew(ice).None? ==> Pending(Retrieved(ice)) == []
  {
    if ice != [] {
      RetrieveDeliversOldest(ice[1..]);
      if ice[0].state == New {
        assert Retrieved(ice)[1..] == ice[1..];
      } else if FirstNew(ice[1..]).Some? {
        assert Retrieved(ice)[1..] == Retrieved(ice[1..]);
      }
    }
  }

  // ---------------------------------------------------------------------------
  // Defects of the in-memory candidate map and the request logger

  /** `this.connectionMap` as every instance has it: neither the constructor nor `init`
      assigns it. */
  const ConnectionMapAsWritten: Option<map<string, LocalConnection>> := None

  /** `this.connectionMap.get(id)`: a method call on undefined throws. */
  function CandidateLookupAsWritten(connectionMap: Option<map<string, LocalConnection>>, id: string)
    : (r: Result<Option<LocalConnection>>)
    ensures connectionMap.None? <==> r == Err(TypeError)
    ensures connectionMap.Some? ==> r.Ok? && (r.value.Some? <==> id in connectionMap.value)
                                    && (r.value.Some? ==> r.value.value == connectionMap.value[id])
  {
    match connectionMap
    case None => Err(TypeError)
    case Some(m) => Ok(if id in m then Some(m[id]) else None)
  }

  /** As written, addCandidate, getCandidate and dropConnection throw for every id. */
  lemma CandidatesAsWrittenAlwaysThrow(id: string)
    ensures CandidateLookupAsWritten(ConnectionMapAsWritten, id) == Err(TypeError)
  {
  }

  /** The identifier derivations are inverse: the client id recovered from the application id
      derived from it is the client id itself. */
  ghost predicate IdsPaired(appIdOf: string -> string, clientIdOf: string -> string) {
    forall clientId :: clientIdOf(appIdOf(clientId)) == clientId
  }

  function QueueOf(queues: map<string, seq<string>>, connectionType: string): seq<string> {
    if connectionType in queues then queues[connectionType] else []
  }

  // ---------------------------------------------------------------------------
  // The broker

  class ConnectionManager {
    const store: ConnectionStore
    const idleTimeoutSec: nat
    const processingTimeoutSec: nat
    /** createApplicationConnectionIdFromClientId and getClientConnectionIdFromApplicationId. */
    const appIdOf: string -> string
    const clientIdOf: string -> string

    /** The FIFO queue of waiting connection ids, per connection type. */
    var queues: map<string, seq<string>>
    /** The in-memory connections holding candidate lists. */
    var connectionMap: map<string, LocalConnection>

    ghost predicate Valid()
      reads this, store
    {
      store.Valid() && IdsPaired(appIdOf, clientIdOf)
    }

    constructor (store: ConnectionStore, idleTimeoutSec: nat, processingTimeoutSec: nat,
                 appIdOf: string -> string, clientIdOf: string -> string)
      requires store.Valid() && IdsPaired(appIdOf, clientIdOf)
      ensures Valid()
      ensures this.store == store && this.idleTimeoutSec == idleTimeoutSec
      ensures this.processingTimeoutSec == processingTimeoutSec
      ensures this.appIdOf == appIdOf && this.clientIdOf == clientIdOf
      ensures queues == map[] && connectionMap == map[]
    {
      this.store := store;
      this.idleTimeoutSec := idleTimeoutSec;
      this.processingTimeoutSec := processingTimeoutSec;
      this.appIdOf := appIdOf;
      this.clientIdOf := clientIdOf;
      queues := map[];
      connectionMap := map[];
    }

    /** Creates a connection: a client id is the device id with a random suffix, an application
        id is derived from its client's id. The record is stored with status created and
        keepalive `now`, then the id is queued under its type. */
    method AddConnection(offer: string, deviceId: string, connectionType: string,
                         clientConnectionId: string, suffix: string, now: nat)
      returns (r: Result<string>)
      requires Valid()
      requires |suffix| == 10
      modifies this`queues, this`connectionMap, store`items
      ensures Valid()
      ensures r.Err? <==> UnsupportedType(connectionType)
                          || (connectionType == ApplicationType && clientConnectionId == "")
                          || !store.available
      ensures r.Err? ==> r.error == Coded(Unavailable) && store.items == old(store.items)
                         && queues == old(queues) && connectionMap == old(connectionMap)
      ensures r.Ok? && connectionType == ClientType ==> r.value == deviceId + suffix
      ensures r.Ok? && connectionType == ApplicationType ==>
                r.value == appIdOf(clientConnectionId) && clientIdOf(r.value) == clientConnectionId
      ensures r.Ok? ==>
        && store.items == old(store.items)[r.value := NewRecord(r.value, offer, deviceId, now, Created,
                                                                connectionType, now, store.ttlDays)]
        && queues == old(queues)[connectionType := QueueOf(old(queues), connectionType) + [r.value]]
        && connectionMap == old(connectionMap)[r.value := LocalConnection(now, [])]
    {
      if UnsupportedType(connectionType) {
        return Err(Coded(Unavailable));
      }
      if connectionType == ApplicationType && clientConnectionId == "" {
        return Err(Coded(Unavailable));
      }
      var id := if connectionType == ClientType then deviceId + suffix else appIdOf(clientConnectionId);
      var put := store.AddConnection(id, offer, deviceId, now, Created, connectionType, now);
      if put.Err? {
        return Err(put.error);
      }
      queues := queues[connectionType := QueueOf(queues, connectionType) + [id]];
      connectionMap := connectionMap[id := LocalConnection(now, [])];
      r := Ok(id);
    }

    /** Marks a connection as timed out. */
    method YieldConnection(id: string) returns (r: Result<()>)
      requires Valid()
      modifies store`items
      ensures Valid()
      ensures r.Ok? <==> store.available
      ensures r.Err? ==> r.error == Coded(InternalError) && store.items == old(store.items)
      ensures r.Ok? ==> store.items == old(store.items)[id := Stored(old(store.items), id)[AttrStatus := S(TimedOut)]]
    {
      ApplySetOne(Stored(store.items, id), AttrStatus, S(TimedOut));
      var u := store.UpdateConnection(id, [(AttrStatus, S(TimedOut))]);
      if u.Err? {
        return Err(u.error);
      }
      r := Ok(());
    }

    /** Forgets the in-memory side of a connection. */
    method DropConnection(id: string)
      modifies this`connectionMap
      ensures connectionMap == old(connectionMap) - {id}
    {
      connectionMap := connectionMap - {id};
    }

    /** Hands the oldest waiting connection of a type to a consumer. The id is dequeued whatever
        follows; the record moves from created to allocated only if it is still created; after
        a successful move an idle producer still fails the call, and the record stays
        allocated. */
    method GetWaitingOffer(connectionType: string, now: nat) returns (r: Result<string>)
      requires Valid()
      modifies this`queues, store`items
      ensures Valid()
      ensures QueueOf(old(queues), connectionType) == [] ==>
        r == Err(Coded(Unavailable)) && queues == old(queues) && store.items == old(store.items)
      ensures QueueOf(old(queues), connectionType) != [] ==>
        var id := QueueOf(old(queues), connectionType)[0];
        var wins := store.available && AwaitingAllocation(old(store.items), id);
        && queues == old(queues)[connectionType := QueueOf(old(queues), connectionType)[1..]]
        && store.items == (if wins then old(store.items)[id := old(store.items)[id][AttrStatus := S(Allocated)]]
                           else old(store.items))
        && (r.Ok? <==> wins && !IdleExpired(old(store.items)[id], idleTimeoutSec, now))
        && (r.Ok? ==> r.value == id)
        && (r.Err? ==> r.error == if store.available then Coded(Unavailable) else Coded(InternalError))
    {
      var waiting := QueueOf(queues, connectionType);
      if waiting == [] {
        return Err(Coded(Unavailable));
      }
      var id := waiting[0];
      queues := queues[connectionType := waiting[1..]];
      var cas := store.UpdateConnectionWithCondition(id, AttrStatus, S(Allocated), S(Created));
      if cas.Err? {
        return Err(CasFailure(cas.error));
      }
      if IdleExpired(cas.value, idleTimeoutSec, now) {
        return Err(Coded(Unavailable));
      }
      r := Ok(id);
    }

    /** Starts the processing clock of a connection and returns its offer; a record without an
        offer fails with 500, after the clock has been started. */
    method GetOffer(id: string, now: nat) returns (r: Result<Reply>)
      requires Valid()
      modifies store`items
      ensures Valid()
      ensures !store.available ==> r == Err(Coded(InternalError)) && store.items == old(store.items)
      ensures store.available ==>
        var before := Stored(old(store.items), id);
        var offer := StrAttr(before, AttrOffer);
        && store.items == old(store.items)[id := before[AttrProcessingStart := N(now)]]
        && (offer != "" ==> r == Ok(Reply(offer, StrAttr(before, AttrType))))
        && (offer == "" ==> r == Err(Coded(InternalError)))
    {
      ApplySetOne(Stored(store.items, id), AttrProcessingStart, N(now));
      var u := store.UpdateConnection(id, [(AttrProcessingStart, N(now))]);
      if u.Err? {
        return Err(u.error);
      }
      var connection := u.value;
      assert connection == Stored(old(store.items), id)[AttrProcessingStart := N(now)];
      var offer := StrAttr(connection, AttrOffer);
      if offer != "" {
        r := Ok(Reply(offer, StrAttr(connection, AttrType)));
      } else {
        r := Err(Coded(InternalError));
      }
    }

    /** Stores a consumer's answer and marks the record answered, provided the processing window
        is still open (bound inclusive); returns the record as it was read. */
    method SaveOfferResponse(id: string, response: string, now: nat) returns (r: Result<Item>)
      requires Valid()
      modifies store`items
      ensures Valid()
      ensures r.Ok? <==> store.available && id in old(store.items)
                         && WithinDeadline(old(store.items)[id], processingTimeoutSec, now)
      ensures r.Ok? ==> r.value == old(store.items)[id]
                        && store.items == old(store.items)[id := old(store.items)[id]
                              [AttrOfferResponse := S(response)][AttrStatus := S(Answered)]]
      ensures r.Err? ==> store.items == old(store.items)
      ensures r.Err? ==> r.error == if store.available && id in old(store.items) then Coded(InternalError)
                                    else Coded(Unavailable)
    {
      var read := store.GetConnection(id);
      if read.Err? {
        return Err(read.error);
      }
      var connection := read.value;
      if !WithinDeadline(connection, processingTimeoutSec, now) {
        return Err(Coded(InternalError));
      }
      ApplySetTwo(connection, AttrOfferResponse, S(response), AttrStatus, S(Answered));
      var u := store.UpdateConnection(id, [(AttrOfferResponse, S(response)), (AttrStatus, S(Answered))]);
      assert u.Ok?;
      r := Ok(connection);
    }

    /** Appends a candidate tagged new to a known connection and refreshes its liveness; an
        unknown id changes nothing. */
    method AddCandidate(id: string, candidate: string, now: int) returns (added: bool)
      modifies this`connectionMap
      ensures added <==> id in old(connectionMap)
      ensures !added ==> connectionMap == old(connectionMap)
      ensures added ==>
        && connectionMap == old(connectionMap)[id := LocalConnection(now, old(connectionMap)[id].ice
                                                                          + [Candidate(New, candidate)])]
        && Pending(connectionMap[id].ice) == Pending(old(connectionMap)[id].ice) + [candidate]
    {
      if id !in connectionMap {
        return false;
      }
      var connection := connectionMap[id];
      PendingAppend(connection.ice, candidate);
      connectionMap := connectionMap[id := LocalConnection(now, connection.ice + [Candidate(New, candidate)])];
      added := true;
    }

    /** Sets the liveness time of a connection record. */
    method SetKeepalive(id: string, time: int) returns (r: Result<()>)
      requires Valid()
      modifies store`items
      ensures Valid()
      ensures r.Ok? <==> store.available
      ensures r.Err? ==> r.error == Coded(InternalError) && store.items == old(store.items)
      ensures r.Ok? ==> store.items == old(store.items)[id := Stored(old(store.items), id)[AttrKeepalive := N(time)]]
    {
      ApplySetOne(Stored(store.items, id), AttrKeepalive, N(time));
      var u := store.UpdateConnection(id, [(AttrKeepalive, N(time))]);
      if u.Err? {
        return Err(u.error);
      }
      r := Ok(());
    }

    /** Delivers the oldest candidate still tagged new and retags it, so that it is never
        delivered again; None when the connection is unknown or has nothing new. */
    method GetCandidate(id: string) returns (r: Option<string>)
      modifies this`connectionMap
      ensures id !in old(connectionMap) ==> r == None && connectionMap == old(connectionMap)
      ensures id in old(connectionMap) ==>
        var ice := old(connectionMap)[id].ice;
        && connectionMap == old(connectionMap)[id := old(connectionMap)[id].(ice := Retrieved(ice))]
        && (r.Some? <==> Pending(ice) != [])
        && (r.Some? ==> r.value == Pending(ice)[0] && Pending(connectionMap[id].ice) == Pending(ice)[1..])
    {
      if id !in connectionMap {
        return None;
      }
      var connection := connectionMap[id];
      var ice := connection.ice;
      RetrieveDeliversOldest(ice);
      var i := 0;
      while i < |ice| && ice[i].state != New
        invariant 0 <= i <= |ice|
        invariant forall j :: 0 <= j < i ==> ice[j].state != New
      {
        i := i + 1;
      }
      if i == |ice| {
        return None;
      }
      connectionMap := connectionMap[id := connection.(ice := ice[i := Candidate(Retrieve, ice[i].content)])];
      r := Some(ice[i].content);
    }

    /** Marks a connection as ended. */
    method StopConnection(id: string) returns (r: Result<()>)
      requires Valid()
      modifies store`items
      ensures Valid()
      ensures r.Ok? <==> store.available
      ensures r.Err? ==> r.error == Coded(InternalError) && store.items == old(store.items)
      ensures r.Ok? ==> store.items == old(store.items)[id := Stored(old(store.items), id)[AttrStatus := S(Ended)]]
    {
      ApplySetOne(Stored(store.items, id), AttrStatus, S(Ended));
      var u := store.UpdateConnection(id, [(AttrStatus, S(Ended))]);
      if u.Err? {
        return Err(u.error);
      }
      r := Ok(());
    }

    /** Returns the answer of a connection once there is one and refreshes the record's liveness.
        An application record then marks its client record connected; a client record is only
        answered once it has been marked so. */
    method GetOfferResponse(id: string, now: nat) returns (r: Result<Reply>)
      requires Valid()
      modifies store`items
      ensures Valid()
      ensures !store.available || id !in old(store.items) ==>
                r == Err(Coded(Unavailable)) && store.items == old(store.items)
      ensures store.available && id in old(store.items) ==>
        var c := old(store.items)[id];
        var answer := StrAttr(c, AttrOfferResponse);
        var connectionType := StrAttr(c, AttrType);
        var kept := old(store.items)[id := c[AttrKeepalive := N(now)]];
        && (answer == "" ==> r == Err(Coded(NotFound)) && store.items == old(store.items))
        && (answer != "" && connectionType == ApplicationType ==>
              && r == Ok(Reply(answer, connectionType))
              && store.items == kept[clientIdOf(id) := Stored(kept, clientIdOf(id))[AttrPeerStatus := S(Connected)]])
        && (answer != "" && connectionType == ClientType ==>
              && store.items == kept
              && r == if StrAttr(c, AttrPeerStatus) == Connected then Ok(Reply(answer, connectionType))
                      else Err(Coded(NotFound)))
        && (answer != "" && connectionType != ApplicationType && connectionType != ClientType ==>
              r == Ok(Reply(answer, connectionType)) && store.items == kept)
    {
      var read := store.GetConnection(id);
      if read.Err? {
        return Err(read.error);
      }
      var connection := read.value;
      var answer := StrAttr(connection, AttrOfferResponse);
      if answer == "" {
        return Err(Coded(NotFound));
      }
      // the best-effort liveness refresh; its failure is ignored
      var refreshed := SetKeepalive(id, now);
      assert store.items == old(store.items)[id := connection[AttrKeepalive := N(now)]];
      var connectionType := StrAttr(connection, AttrType);
      if connectionType == ApplicationType {
        var clientId := clientIdOf(id);
        ApplySetOne(Stored(store.items, clientId), AttrPeerStatus, S(Connected));
        var u := store.UpdateConnection(clientId, [(AttrPeerStatus, S(Connected))]);
        assert u.Ok?;
      } else if connectionType == ClientType {
        if StrAttr(connection, AttrPeerStatus) != Connected {
          return Err(Coded(NotFound));
        }
      }
      r := Ok(Reply(answer, connectionType));
    }

    // -------------------------------------------------------------------------
    // The debug mirror: the same shape on the debugOffer fields, with no conditions

    /** Stores a debug offer on a connection and returns the id. */
    method PutDebugOffer(id: string, debugOffer: string) returns (r: Result<string>)
      requires Valid()
      modifies store`items
      ensures Valid()
      ensures r.Ok? <==> store.available
      ensures r.Err? ==> r.error == Coded(InternalError) && store.items == old(store.items)
      ensures r.Ok? ==> r.value == id
                        && store.items == old(store.items)[id := Stored(old(store.items), id)[AttrDebugOffer := S(debugOffer)]]
    {
      ApplySetOne(Stored(store.items, id), AttrDebugOffer, S(debugOffer));
      var u := store.UpdateConnection(id, [(AttrDebugOffer, S(debugOffer))]);
      if u.Err? {
        return Err(u.error);
      }
      r := Ok(id);
    }

    /** Returns the debug offer of a connection; 404 while there is none. */
    method GetDebugOffer(id: string) returns (r: Result<string>)
      ensures r.Ok? <==> store.available && id in store.items && StrAttr(store.items[id], AttrDebugOffer) != ""
      ensures r.Ok? ==> r.value == StrAttr(store.items[id], AttrDebugOffer)
      ensures r.Err? ==> r.error == if store.available && id in store.items then Coded(NotFound)
                                    else Coded(Unavailable)
    {
      var read := store.GetConnection(id);
      if read.Err? {
        return Err(read.error);
      }
      var debugOffer := StrAttr(read.value, AttrDebugOffer);
      if debugOffer == "" {
        return Err(Coded(NotFound));
      }
      r := Ok(debugOffer);
    }

    /** Stores a debug answer on an existing connection; an unreadable record is not written. */
    method PutDebugOfferAnswer(id: string, answer: string) returns (r: Result<()>)
      requires Valid()
      modifies store`items
      ensures Valid()
      ensures r.Ok? <==> store.available && id in old(store.items)
      ensures r.Err? ==> r.error == Coded(Unavailable) && store.items == old(store.items)
      ensures r.Ok? ==> store.items == old(store.items)[id := old(store.items)[id][AttrDebugOfferResponse := S(answer)]]
    {
      var read := store.GetConnection(id);
      if read.Err? {
        return Err(read.error);
      }
      ApplySetOne(read.value, AttrDebugOfferResponse, S(answer));
      var u := store.UpdateConnection(id, [(AttrDebugOfferResponse, S(answer))]);
      assert u.Ok?;
      r := Ok(());
    }

    /** As written: the argument `reqLogger` is declared nowhere, so the call throws before it
        reads anything. */
    method GetDebugOfferResponseAsWritten(id: string) returns (r: Result<string>)
      ensures r == Err(ReferenceError("reqLogger"))
    {
      r := Err(ReferenceError("reqLogger"));
    }

    /** Returns the debug answer of a connection; 404 while there is none. */
    method GetDebugOfferResponse(id: string) returns (r: Result<string>)
      ensures r.Ok? <==> store.available && id in store.items
                         && StrAttr(store.items[id], AttrDebugOfferResponse) != ""
      ensures r.Ok? ==> r.value == StrAttr(store.items[id], AttrDebugOfferResponse)
      ensures r.Err? ==> r.error == if store.available && id in store.items then Coded(NotFound)
                                    else Coded(Unavailable)
    {
      var read := store.GetConnection(id);
      if read.Err? {
        return Err(read.error);
      }
      var debugOfferResponse := StrAttr(read.value, AttrDebugOfferResponse);
      if debugOfferResponse == "" {
        return Err(Coded(NotFound));
      }
      r := Ok(debugOfferResponse);
    }

    /** As written: `reqLogger` is declared nowhere, so the call throws and writes nothing. */
    method DeleteDebugOfferAsWritten(id: string) returns (r: Result<()>)
      ensures r == Err(ReferenceError("reqLogger"))
    {
      r := Err(ReferenceError("reqLogger"));
    }

    /** Clears both debug fields of a connection and nothing else. */
    method DeleteDebugOffer(id: string) returns (r: Result<()>)
      requires Valid()
      modifies store`items
      ensures Valid()
      ensures r.Ok? <==> store.available
      ensures r.Err? ==> r.error == Coded(InternalError) && store.items == old(store.items)
      ensures r.Ok? ==> store.items == old(store.items)[id := Stored(old(store.items), id)
                                                                [AttrDebugOffer := S("")][AttrDebugOfferResponse := S("")]]
    {
      ApplySetTwo(Stored(store.items, id), AttrDebugOffer, S(""), AttrDebugOfferResponse, S(""));
      var u := store.UpdateConnection(id, [(AttrDebugOffer, S("")), (AttrDebugOfferResponse, S(""))]);
      if u.Err? {
        return Err(u.error);
      }
      r := Ok(());
    }
  }
}
