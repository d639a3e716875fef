/**
 The record store adapter of the signaling broker (lib/dynamodbV3.js).

 The table is a map from connection id to an item; an item maps attribute
 names to string (S) or number (N) values, as the store keeps them. The
 adapter offers a put of a fresh connection record, a point read, an
 unconditional multi-attribute update, a single-attribute conditional update
 and a paged lookup of a connection id by device id. While the backend is
 unavailable every call fails and nothing changes.
 */
module Storage {
  import opened Results

  /** An attribute value: a string (S) or a number (N). */
  datatype Value = S(s: string) | N(n: int)

  /** A stored item: attribute name to value. */
  type Item = map<string, Value>

  /** The attributes one unconditional update sets, in the order the caller lists them. */
  type Update = seq<(string, Value)>

  const SecondsPerDay: nat := 60 * 60 * 24

  // The attributes of a connection record.
  const AttrId := "id"
  const AttrOffer := "offer"
  const AttrDeviceId := "deviceId"
  const AttrKeepalive := "keepalive"
  const AttrStatus := "connectionStatus"
  const AttrType := "type"
  const AttrDebugOffer := "debugOffer"
  const AttrDebugOfferResponse := "debugOfferResponse"
  const AttrProcessingStart := "peerProcessingStartTime"
  const AttrPeerStatus := "peerConnectionStatus"
  const AttrOfferResponse := "offerResponse"
  const AttrTtl := "ttl"

  const RecordAttributes: set<string> :=
    {AttrId, AttrOffer, AttrDeviceId, AttrKeepalive, AttrStatus, AttrType, AttrDebugOffer,
     AttrDebugOfferResponse, AttrProcessingStart, AttrPeerStatus, AttrOfferResponse, AttrTtl}

  const NumericAttributes: set<string> := {AttrKeepalive, AttrProcessingStart, AttrTtl}

  /** The string stored under `name`; "" when the attribute is absent or not a string. */
  function StrAttr(item: Item, name: string): string {
    if name in item && item[name].S? then item[name].s else ""
  }

  /** The number stored under `name`; None (JavaScript's undefined) when absent or not a number. */
  function NumAttr(item: Item, name: string): Option<int> {
    if name in item && item[name].N? then Some(item[name].n) else None
  }

  /** A complete connection record: exactly the record attributes, each of its kind, keyed by `id`. */
  predicate IsRecord(id: string, item: Item) {
    && item.Keys == RecordAttributes
    && item[AttrId] == S(id)
    && forall a :: a in item ==> (item[a].N? <==> a in NumericAttributes)
  }

  /** The record `addConnection` puts: the given fields, empty answer and debug fields, no
      processing started, and an expiry `ttlDays` days after the creation second. */
  function NewRecord(id: string, offer: string, deviceId: string, keepalive: int, status: string,
                     connectionType: string, clockMs: nat, ttlDays: nat): (item: Item)
    ensures IsRecord(id, item)
    ensures item[AttrOffer] == S(offer) && item[AttrDeviceId] == S(deviceId)
    ensures item[AttrKeepalive] == N(keepalive) && item[AttrStatus] == S(status)
    ensures item[AttrType] == S(connectionType)
    ensures StrAttr(item, AttrOfferResponse) == "" && StrAttr(item, AttrPeerStatus) == ""
    ensures StrAttr(item, AttrDebugOffer) == "" && StrAttr(item, AttrDebugOfferResponse) == ""
    ensures NumAttr(item, AttrProcessingStart) == Some(0)
    ensures item[AttrTtl].N? && 0 <= clockMs - 1000 * (item[AttrTtl].n - SecondsPerDay * ttlDays) < 1000
  {
    var second := clockMs / 1000;
    assert 0 <= clockMs - 1000 * second < 1000;
    map[AttrId := S(id), AttrOffer := S(offer), AttrDeviceId := S(deviceId),
        AttrKeepalive := N(keepalive), AttrStatus := S(status), AttrType := S(connectionType),
        AttrDebugOffer := S(""), AttrDebugOfferResponse := S(""), AttrProcessingStart := N(0),
        AttrPeerStatus := S(""), AttrOfferResponse := S(""),
        AttrTtl := N(second + SecondsPerDay * ttlDays)]
  }

  // ---------------------------------------------------------------------------
  // Unconditional update: "set k1 = :k1,k2 = :k2" with one value per placeholder

  /** The keys of an update object are distinct, as the keys of any JavaScript object are. */
  predicate DistinctKeys(update: Update) {
    forall i, j :: 0 <= i < j < |update| ==> update[i].0 != update[j].0
  }

  function KeysOf(update: Update): seq<string> {
    if update == [] then [] else KeysOf(update[..|update| - 1]) + [update[|update| - 1].0]
  }

  function KeySet(update: Update): set<string> {
    set i | 0 <= i < |update| :: update[i].0
  }

  /** The attributes an update sets, as a map; a later entry wins over an earlier one. */
  function UpdateMap(update: Update): map<string, Value> {
    if update == [] then map[]
    else UpdateMap(update[..|update| - 1])[update[|update| - 1].0 := update[|update| - 1].1]
  }

  lemma {:induction false} UpdateMapAt(update: Update)
    requires DistinctKeys(update)
    ensures UpdateMap(update).Keys == KeySet(update)
    ensures forall i :: 0 <= i < |update| ==> UpdateMap(update)[update[i].0] == update[i].1
  {
    if update != [] {
      var init := update[..|update| - 1];
      UpdateMapAt(init);
      assert KeySet(update) == KeySet(init) + {update[|update| - 1].0} by {
        forall k | k in KeySet(update) ensures k in KeySet(init) + {update[|update| - 1].0} {
          var i :| 0 <= i < |update| && update[i].0 == k;
          if i < |update| - 1 { assert init[i].0 == k; }
        }
        forall k | k in KeySet(init) ensures k in KeySet(update) {
          var i :| 0 <= i < |init| && init[i].0 == k;
          assert update[i].0 == k;
        }
      }
      forall i | 0 <= i < |update| ensures UpdateMap(update)[update[i].0] == update[i].1 {
        if i < |update| - 1 { assert init[i] == update[i]; }
      }
    }
  }

  /** The item an update leaves: every listed attribute takes its new value and every other
      attribute keeps its old one (present or absent). */
  function ApplySet(item: Item, update: Update): (r: Item)
    requires DistinctKeys(update)
    ensures r.Keys == item.Keys + KeySet(update)
    ensures forall i :: 0 <= i < |update| ==> r[update[i].0] == update[i].1
    ensures forall a :: a in item && a !in KeySet(update) ==> r[a] == item[a]
  {
    UpdateMapAt(update);
    item + UpdateMap(update)
  }

  /** Setting one attribute, or two distinct ones, is the plain map update. */
  lemma ApplySetOne(item: Item, key: string, val: Value)
    ensures ApplySet(item, [(key, val)]) == item[key := val]
  {
    assert [(key, val)][..0] == [];
    assert UpdateMap([(key, val)]) == map[key := val];
  }

  lemma ApplySetTwo(item: Item, key1: string, val1: Value, key2: string, val2: Value)
    requires key1 != key2
    ensures ApplySet(item, [(key1, val1), (key2, val2)]) == item[key1 := val1][key2 := val2]
  {
    var both := [(key1, val1), (key2, val2)];
    assert both[..1] == [(key1, val1)];
    ApplySetOne(item, key1, val1);
    assert UpdateMap(both) == UpdateMap([(key1, val1)])[key2 := val2];
  }

  /** An update the store accepts: it names at least one attribute and never the key. */
  predicate Settable(update: Update) {
    update != [] && forall i :: 0 <= i < |update| ==> update[i].0 != AttrId
  }

  function Assignment(key: string): string {
    key + " = :" + key
  }

  /** Every assignment followed by a comma: what the loop of `updateConnection` accumulates. */
  function Terminated(keys: seq<string>): string {
    if keys == [] then "" else Assignment(keys[0]) + "," + Terminated(keys[1..])
  }

  /** The assignments separated by commas. */
  function Joined(keys: seq<string>): string
    requires keys != []
  {
    if |keys| == 1 then Assignment(keys[0]) else Assignment(keys[0]) + "," + Joined(keys[1..])
  }

  /** The update expression for the given keys: "set " and the comma-separated assignments;
      with no keys only "set" remains once the final character is cut. */
  function UpdateExpression(keys: seq<string>): string {
    if keys == [] then "set" else "set " + Joined(keys)
  }

  lemma {:induction false} TerminatedSnoc(keys: seq<string>, key: string)
    ensures Terminated(keys + [key]) == Terminated(keys) + Assignment(key) + ","
  {
    if keys == [] {
      assert [key][1..] == [];
    } else {
      assert (keys + [key])[1..] == keys[1..] + [key];
      TerminatedSnoc(keys[1..], key);
    }
  }

  lemma {:induction false} TerminatedIsJoined(keys: seq<string>)
    requires keys != []
    ensures Terminated(keys) == Joined(keys) + ","
  {
    if |keys| > 1 {
      TerminatedIsJoined(keys[1..]);
    }
  }

  lemma KeysOfPrefix(update: Update, i: nat)
    requires i < |update|
    ensures KeysOf(update[..i + 1]) == KeysOf(update[..i]) + [update[i].0]
  {
    assert update[..i + 1][..i] == update[..i];
  }

  /** The placeholder values of an update: ":k" bound to the value of key k. */
  function Placeholders(update: Update): map<string, Value> {
    if update == [] then map[]
    else Placeholders(update[..|update| - 1])[":" + update[|update| - 1].0 := update[|update| - 1].1]
  }

  /** Placeholder ":k" is bound exactly when the update sets k, and to the value it sets. */
  lemma {:induction false} PlaceholdersAt(update: Update)
    ensures forall p :: p in Placeholders(update) <==> |p| > 0 && p[0] == ':' && p[1..] in UpdateMap(update)
    ensures forall p :: p in Placeholders(update) ==> Placeholders(update)[p] == UpdateMap(update)[p[1..]]
  {
    if update != [] {
      var init, last := update[..|update| - 1], update[|update| - 1];
      PlaceholdersAt(init);
      forall p | |p| > 0 && p[0] == ':' ensures p == ":" + last.0 <==> p[1..] == last.0 {
        if p[1..] == last.0 { assert p == [p[0]] + p[1..]; }
      }
    }
  }

  /** One more key extends the accumulated assignments by one assignment and its comma, and the
      placeholders by one binding. */
  lemma BuildStep(update: Update, i: nat)
    requires i < |update|
    ensures var key := update[i].0;
            "set " + Terminated(KeysOf(update[..i + 1])) == "set " + Terminated(KeysOf(update[..i])) + key + " = :" + key + ","
    ensures Placeholders(update[..i + 1]) == Placeholders(update[..i])[":" + update[i].0 := update[i].1]
  {
    var key := update[i].0;
    assert update[..i + 1][..i] == update[..i];
    KeysOfPrefix(update, i);
    TerminatedSnoc(KeysOf(update[..i]), key);
  }

  /** The placeholders of an update with distinct keys name exactly its keys, each bound to the
      value set for it. */
  lemma PlaceholdersOfUpdate(update: Update)
    requires DistinctKeys(update)
    ensures forall p :: p in Placeholders(update) <==> |p| > 0 && p[0] == ':' && p[1..] in KeySet(update)
    ensures forall i :: 0 <= i < |update| ==>
              ":" + update[i].0 in Placeholders(update) && Placeholders(update)[":" + update[i].0] == update[i].1
  {
    PlaceholdersAt(update);
    UpdateMapAt(update);
    var placeholders := Placeholders(update);
    forall p ensures p in placeholders <==> |p| > 0 && p[0] == ':' && p[1..] in KeySet(update) {
      if |p| > 0 {
        assert p[1..] in UpdateMap(update) <==> p[1..] in KeySet(update);
      }
    }
    forall i | 0 <= i < |update|
      ensures ":" + update[i].0 in placeholders && placeholders[":" + update[i].0] == update[i].1
    {
      var p := ":" + update[i].0;
      assert p[0] == ':' && p[1..] == update[i].0;
      assert p[1..] in UpdateMap(update);
    }
  }

  /** Reading the placeholder value of every key back gives the attributes the update sets. */
  lemma PlaceholderValues(update: Update, values: map<string, Value>)
    requires DistinctKeys(update)
    requires forall i :: 0 <= i < |update| ==> ":" + update[i].0 in values && values[":" + update[i].0] == update[i].1
    ensures forall k :: k in KeySet(update) ==> ":" + k in values
    ensures (map k | k in KeySet(update) :: values[":" + k]) == UpdateMap(update)
  {
    forall k | k in KeySet(update) ensures ":" + k in values {
      var i :| 0 <= i < |update| && update[i].0 == k;
    }
    UpdateMapAt(update);
    forall k | k in KeySet(update) ensures values[":" + k] == UpdateMap(update)[k] {
      var i :| 0 <= i < |update| && update[i].0 == k;
    }
  }

  /** Cutting the final character of the accumulated assignments leaves the update expression:
      the trailing comma, or with no keys the space after "set". */
  lemma CutLastComma(keys: seq<string>)
    ensures var built := "set " + Terminated(keys); built[..|built| - 1] == UpdateExpression(keys)
  {
    if keys != [] {
      TerminatedIsJoined(keys);
      assert "set " + Terminated(keys) == ("set " + Joined(keys)) + ",";
    }
  }

  /** Builds the update expression and its placeholder values the way `updateConnection` does:
      one assignment and a trailing comma per key, then the final comma cut. */
  method BuildUpdate(update: Update) returns (expression: string, values: map<string, Value>)
    requires DistinctKeys(update)
    ensures expression == UpdateExpression(KeysOf(update))
    ensures forall p :: p in values <==> |p| > 0 && p[0] == ':' && p[1..] in KeySet(update)
    ensures forall i :: 0 <= i < |update| ==> ":" + update[i].0 in values && values[":" + update[i].0] == update[i].1
  {
    values, expression := map[], "set ";
    var i := 0;
    while i < |update|
      invariant 0 <= i <= |update|
      invariant expression == "set " + Terminated(KeysOf(update[..i]))
      invariant values == Placeholders(update[..i])
    {
      var key := update[i].0;
      BuildStep(update, i);
      values := values[":" + key := update[i].1];
      expression := expression + key + " = :" + key + ",";
      i := i + 1;
    }
    assert update[..i] == update;
    PlaceholdersOfUpdate(update);
    CutLastComma(KeysOf(update));
    expression := expression[..|expression| - 1];
  }

  // ---------------------------------------------------------------------------
  // Conditional update

  function Lookup(items: map<string, Item>, id: string): Option<Item> {
    if id in items then Some(items[id]) else None
  }

  /** The item a conditional update "set f = :newVal" under "f = :oldVal" leaves, or None when
      the condition fails (an absent item never meets it). */
  function CompareAndSet(stored: Option<Item>, fieldName: string, val: Value, conditionVal: Value): (r: Option<Item>)
    ensures r.Some? <==> stored.Some? && fieldName in stored.value && stored.value[fieldName] == conditionVal
    ensures r.Some? ==> r.value.Keys == stored.value.Keys && r.value[fieldName] == val
                        && forall a :: a in stored.value && a != fieldName ==> r.value[a] == stored.value[a]
  {
    if stored.Some? && fieldName in stored.value && stored.value[fieldName] == conditionVal
    then Some(stored.value[fieldName := val])
    else None
  }

  /** How many of `attempts` consecutive conditional updates of one item succeed. */
  function Winners(stored: Option<Item>, fieldName: string, val: Value, conditionVal: Value, attempts: nat): nat
    decreases attempts
  {
    if attempts == 0 then 0
    else match CompareAndSet(stored, fieldName, val, conditionVal)
      case Some(next) => 1 + Winners(Some(next), fieldName, val, conditionVal, attempts - 1)
      case None => Winners(stored, fieldName, val, conditionVal, attempts - 1)
  }

  lemma {:induction false} NoWinnerAfterSwap(next: Item, fieldName: string, val: Value, conditionVal: Value, attempts: nat)
    requires val != conditionVal && fieldName in next && next[fieldName] == val
    ensures Winners(Some(next), fieldName, val, conditionVal, attempts) == 0
  {
    if attempts > 0 {
      NoWinnerAfterSwap(next, fieldName, val, conditionVal, attempts - 1);
    }
  }

  /** When the new value differs from the expected one, at most one of any number of
      consecutive contenders wins, and one does exactly when the item first matches. */
  lemma {:induction false} AtMostOneWinner(stored: Option<Item>, fieldName: string, val: Value, conditionVal: Value, attempts: nat)
    requires val != conditionVal
    ensures Winners(stored, fieldName, val, conditionVal, attempts) <= 1
    ensures Winners(stored, fieldName, val, conditionVal, attempts) == 1
        <==> attempts > 0 && CompareAndSet(stored, fieldName, val, conditionVal).Some?
  {
    if attempts > 0 {
      match CompareAndSet(stored, fieldName, val, conditionVal)
      case Some(next) =>
        NoWinnerAfterSwap(next, fieldName, val, conditionVal, attempts - 1);
      case None =>
        AtMostOneWinner(stored, fieldName, val, conditionVal, attempts - 1);
    }
  }

  // ---------------------------------------------------------------------------
  // Lookup of a connection id by device id over scan pages

  /** One response of the filtered scan: the ids of the matching items on that page, or a
      failed call. Page k + 1 is the one the scan reaches from page k's last evaluated key;
      the last page has none. */
  datatype ScanPage = Page(ids: seq<string>) | ScanFailed

  /** Pages `from` up to `to` all answered and matched nothing. */
  predicate EmptyRun(pages: seq<ScanPage>, from: nat, to: nat)
    requires to <= |pages|
  {
    forall i :: from <= i < to ==> pages[i] == Page([])
  }

  /** The not-found guard as written reads `length` of the response object, which has none, so
      its comparison with 0 is made with undefined. */
  function ResponseLengthAsWritten(page: ScanPage): Option<int> {
    None
  }

  /** The guard also reads `lastKey` of the response, which is not a field of a scan response
      either (the continuation key is `LastEvaluatedKey`), so that half always holds. */
  function ResponseLastKeyAsWritten(page: ScanPage): Option<nat> {
    None
  }

  function NotFoundGuardAsWritten(page: ScanPage): bool {
    ResponseLengthAsWritten(page) == Some(0) && ResponseLastKeyAsWritten(page).None?
  }

  /** The page walk as written: a failed scan is 500, an empty page with a successor is skipped,
      and otherwise the first id is read, which on an empty last page reads from undefined. */
  function DeviceLookupAsWritten(pages: seq<ScanPage>, k: nat): (r: Result<string>)
    requires k < |pages|
    decreases |pages| - k
    ensures r != Err(Coded(Unavailable))
    ensures r.Err? ==> r.error == Coded(InternalError) || r.error == TypeError
    ensures r.Ok? ==> exists j :: k <= j < |pages| && pages[j].Page? && pages[j].ids != [] && r.value == pages[j].ids[0]
  {
    match pages[k]
    case ScanFailed => Err(Coded(InternalError))
    case Page(ids) =>
      if NotFoundGuardAsWritten(pages[k]) then Err(Coded(Unavailable))
      else if ids == [] && k + 1 < |pages| then DeviceLookupAsWritten(pages, k + 1)
      else if ids == [] then Err(TypeError)
      else Ok(ids[0])
  }

  /** With no match anywhere the walk as written ends in a TypeError; its 503 is never thrown. */
  lemma {:induction false} NotFoundBranchUnreachable(pages: seq<ScanPage>, k: nat)
    requires k < |pages| && EmptyRun(pages, k, |pages|)
    ensures DeviceLookupAsWritten(pages, k) == Err(TypeError)
    decreases |pages| - k
  {
    if k + 1 < |pages| {
      NotFoundBranchUnreachable(pages, k + 1);
    }
  }

  /** The page walk with the not-found branch reachable: the first id of the first page with a
      match, 503 when every page answered empty, 500 when a scan failed before any match. */
  function DeviceLookup(pages: seq<ScanPage>, k: nat): (r: Result<string>)
    requires k < |pages|
    decreases |pages| - k
    ensures r.Ok? ==> exists j :: k <= j < |pages| && EmptyRun(pages, k, j) && pages[j].Page?
                                 && pages[j].ids != [] && r.value == pages[j].ids[0]
    ensures r == Err(Coded(Unavailable)) <==> EmptyRun(pages, k, |pages|)
    ensures r == Err(Coded(InternalError)) <==>
              exists j :: k <= j < |pages| && EmptyRun(pages, k, j) && pages[j] == ScanFailed
    ensures r.Err? ==> r.error in {Coded(Unavailable), Coded(InternalError)}
  {
    match pages[k]
    case ScanFailed => Err(Coded(InternalError))
    case Page(ids) =>
      if ids == [] && k + 1 < |pages| then DeviceLookup(pages, k + 1)
      else if ids == [] then Err(Coded(Unavailable))
      else Ok(ids[0])
  }

  /** Wherever some page matches or a scan fails, the walk as written agrees with the
      corrected one. */
  lemma {:induction false} DeviceLookupAsWrittenAgrees(pages: seq<ScanPage>, k: nat)
    requires k < |pages| && !EmptyRun(pages, k, |pages|)
    ensures DeviceLookupAsWritten(pages, k) == DeviceLookup(pages, k)
    decreases |pages| - k
  {
    if pages[k] == Page([]) && k + 1 < |pages| {
      DeviceLookupAsWrittenAgrees(pages, k + 1);
    }
  }

  // ---------------------------------------------------------------------------
  // The store

  /** The item a read of `id` finds, or the bare key an update of an absent id starts from
      (the store creates the item on update). */
  function Stored(items: map<string, Item>, id: string): Item {
    if id in items then items[id] else map[AttrId := S(id)]
  }

  class ConnectionStore {
    var items: map<string, Item>
    var available: bool
    const ttlDays: nat

    /** Every item carries its own key. */
    ghost predicate Valid()
      reads this
    {
      forall id :: id in items ==> AttrId in items[id] && items[id][AttrId] == S(id)
    }

    constructor (ttlDays: nat)
      ensures Valid() && items == map[] && available && this.ttlDays == ttlDays
    {
      items := map[];
      available := true;
      this.ttlDays := ttlDays;
    }

    /** The backend starts or stops answering. */
    method SetAvailable(up: bool)
      modifies this`available
      ensures available == up
    {
      available := up;
    }

    /** Puts a fresh connection record, replacing any item under the same id. */
    method AddConnection(id: string, offer: string, deviceId: string, keepalive: int, status: string,
                         connectionType: string, clockMs: nat) returns (r: Result<()>)
      requires Valid()
      modifies this`items
      ensures Valid()
      ensures r.Ok? <==> available
      ensures r.Err? ==> r.error == Coded(Unavailable) && items == old(items)
      ensures r.Ok? ==> items == old(items)[id := NewRecord(id, offer, deviceId, keepalive, status, connectionType, clockMs, ttlDays)]
    {
      if !available {
        return Err(Coded(Unavailable));
      }
      items := items[id := NewRecord(id, offer, deviceId, keepalive, status, connectionType, clockMs, ttlDays)];
      r := Ok(());
    }

    /** Reads the item under `id`; a missing item fails like an unreachable store. */
    method GetConnection(id: string) returns (r: Result<Item>)
      ensures r.Ok? <==> available && id in items
      ensures r.Ok? ==> r.value == items[id]
      ensures r.Err? ==> r.error == Coded(Unavailable)
    {
      if !available || id !in items {
        return Err(Coded(Unavailable));
      }
      r := Ok(items[id]);
    }

    /** Sets exactly the listed attributes of the item under `id` (creating the item when
        absent) and returns the whole updated item. */
    method UpdateConnection(id: string, update: Update) returns (r: Result<Item>)
      requires Valid() && DistinctKeys(update)
      modifies this`items
      ensures Valid()
      ensures r.Ok? <==> available && Settable(update)
      ensures r.Err? ==> r.error == Coded(InternalError) && items == old(items)
      ensures r.Ok? ==> (r.value == ApplySet(Stored(old(items), id), update)
                         && items == old(items)[id := r.value])
      ensures r.Ok? ==> AttrId in r.value && r.value[AttrId] == S(id)
    {
      var expression, values := BuildUpdate(update);
      if !available || !Settable(update) {
        return Err(Coded(InternalError));
      }
      PlaceholderValues(update, values);
      var written := map k | k in KeySet(update) :: values[":" + k];
      var next := Stored(items, id) + written;
      assert AttrId !in KeySet(update);
      items := items[id := next];
      r := Ok(next);
    }

    /** Sets `fieldName` to `val` only when it currently equals `conditionVal`; otherwise the
        store's condition failure is passed on and nothing changes. */
    method UpdateConnectionWithCondition(id: string, fieldName: string, val: Value, conditionVal: Value)
      returns (r: Result<Item>)
      requires Valid()
      modifies this`items
      ensures Valid()
      ensures !available || fieldName == AttrId ==> r == Err(Coded(InternalError)) && items == old(items)
      ensures available && fieldName != AttrId ==>
        match CompareAndSet(Lookup(old(items), id), fieldName, val, conditionVal)
        case None => r == Err(ConditionalCheckFailed) && items == old(items)
        case Some(next) => r == Ok(next) && items == old(items)[id := next]
      ensures r.Ok? ==> AttrId in r.value && r.value[AttrId] == S(id)
    {
      if !available || fieldName == AttrId {
        return Err(Coded(InternalError));
      }
      match CompareAndSet(Lookup(items, id), fieldName, val, conditionVal)
      case None =>
        r := Err(ConditionalCheckFailed);
      case Some(next) =>
        items := items[id := next];
        r := Ok(next);
    }
  }
}
