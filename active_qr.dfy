/** The listing of active checklists' QR codes (pages/api/checklists/activeqrcodes.js): the active
    checklists, optionally of one client, each with its client's and location's names. */
module ActiveQr {
  import opened Wrappers
  import opened Seqs
  import opened Checklists
  import Clients
  import Locations

  /** One row of the listing. */
  datatype QrEntry = QrEntry(
    id: Id, title: string, clientId: Id, clientName: string,
    locationId: Id, locationName: string, qrCodeSvg: Option<string>)

  /** The response body: the rows, and the whole client list. */
  datatype QrResponse = QrResponse(checklists: seq<QrEntry>, clients: seq<Clients.Client>)

  const UnknownClient: string := "Cliente Desconhecido"
  const UnknownLocation: string := "Local Desconhecido"

  /** The object `reduce` builds from (id, name) pairs: in order, a later pair overwriting an earlier
      one with the same id. */
  function NameMap(pairs: seq<(Id, string)>): map<Id, string> {
    if pairs == [] then map[]
    else
      var last := pairs[|pairs| - 1];
      NameMap(pairs[..|pairs| - 1])[last.0 := last.1]
  }

  /** An id is in the map exactly when some pair has it, and it maps to the name of the last such pair. */
  lemma {:induction false} NameMapLastWins(pairs: seq<(Id, string)>, i: nat)
    requires i < |pairs|
    requires forall j :: i < j < |pairs| ==> pairs[j].0 != pairs[i].0
    ensures pairs[i].0 in NameMap(pairs) && NameMap(pairs)[pairs[i].0] == pairs[i].1
  {
    var init := pairs[..|pairs| - 1];
    if i < |pairs| - 1 {
      assert init[i] == pairs[i];
      assert forall j :: i < j < |init| ==> init[j] == pairs[j];
      NameMapLastWins(init, i);
    }
  }

  lemma {:induction false} NameMapDomain(pairs: seq<(Id, string)>, k: Id)
    ensures k in NameMap(pairs) <==> exists i :: 0 <= i < |pairs| && pairs[i].0 == k
  {
    if pairs != [] {
      var init := pairs[..|pairs| - 1];
      NameMapDomain(init, k);
      assert forall i :: 0 <= i < |init| ==> init[i] == pairs[i];
    }
  }

  /** The `reduce` loop. */
  method BuildNameMap(pairs: seq<(Id, string)>) returns (m: map<Id, string>)
    ensures m == NameMap(pairs)
  {
    m := map[];
    var i := 0;
    while i < |pairs|
      invariant 0 <= i <= |pairs|
      invariant m == NameMap(pairs[..i])
    {
      assert pairs[..i + 1][..i] == pairs[..i];
      m := m[pairs[i].0 := pairs[i].1];
      i := i + 1;
    }
    assert pairs[..|pairs|] == pairs;
  }

  function ClientPairs(clients: seq<Clients.Client>): seq<(Id, string)> {
    seq(|clients|, i requires 0 <= i < |clients| => (clients[i].id, clients[i].name))
  }

  function LocationPairs(locations: seq<Locations.Location>): seq<(Id, string)> {
    seq(|locations|, i requires 0 <= i < |locations| => (locations[i].id, locations[i].name))
  }

  /** `map[id] || fallback`: a missing id and an empty name both give the fallback. */
  function NameOr(m: map<Id, string>, id: Id, fallback: string): string {
    if id in m && m[id] != "" then m[id] else fallback
  }

  function Entry(c: Checklist, clientNames: map<Id, string>, locationNames: map<Id, string>): QrEntry {
    QrEntry(
      c.id, c.title, c.clientId, NameOr(clientNames, c.clientId, UnknownClient),
      c.locationId, NameOr(locationNames, c.locationId, UnknownLocation),
      if c.qrCodePath.Some? && c.qrCodePath.value != "" then c.qrCodePath else None)
  }

  predicate IsActive(c: Checklist) {
    c.active
  }

  /** The checklists the listing covers: of the client when one is asked for, and active. */
  function Covered(list: seq<Checklist>, filterClientId: Id): seq<Checklist> {
    var selected := if filterClientId != "" then FindChecklistsByClientId(list, filterClientId) else list;
    Filter(selected, IsActive)
  }

  /** The response for a catalog, the client and location lists, and the optional client filter. */
  function ActiveQrCodes(list: seq<Checklist>, clients: seq<Clients.Client>, locations: seq<Locations.Location>,
                         filterClientId: Id): (r: QrResponse)
    ensures r.clients == clients
    ensures var covered := Covered(list, filterClientId);
      |r.checklists| == |covered| && forall i :: 0 <= i < |covered| ==>
        && r.checklists[i].id == covered[i].id && r.checklists[i].title == covered[i].title
        && covered[i] in list && covered[i].active
        && (filterClientId != "" ==> r.checklists[i].clientId == filterClientId)
        && (r.checklists[i].qrCodeSvg.Some? <==> covered[i].qrCodePath.Some? && covered[i].qrCodePath.value != "")
        && (r.checklists[i].qrCodeSvg.Some? ==> r.checklists[i].qrCodeSvg == covered[i].qrCodePath)
        && r.checklists[i] == Entry(covered[i], NameMap(ClientPairs(clients)), NameMap(LocationPairs(locations)))
  {
    var covered := Covered(list, filterClientId);
    var clientNames := NameMap(ClientPairs(clients));
    var locationNames := NameMap(LocationPairs(locations));
    QrResponse(seq(|covered|, i requires 0 <= i < |covered| => Entry(covered[i], clientNames, locationNames)), clients)
  }

  /** The rows are exactly the active checklists of the asked client (or of all), in catalog order. */
  lemma ListingCoversActive(list: seq<Checklist>, more: seq<Checklist>, filterClientId: Id)
    ensures forall c :: (c in Covered(list, filterClientId)
      <==> c in list && c.active && (filterClientId == "" || c.clientId == filterClientId))
    ensures Covered(list + more, filterClientId) == Covered(list, filterClientId) + Covered(more, filterClientId)
  {
    FindersSelectExactly(list, more, filterClientId, "", "");
    if filterClientId != "" {
      FilterConcat(FindChecklistsByClientId(list, filterClientId), FindChecklistsByClientId(more, filterClientId), IsActive);
    } else {
      FilterConcat(list, more, IsActive);
    }
  }

  /** A row's client name is the name of the last client listed with its id when that name is not
      empty, and 'Cliente Desconhecido' when no client has the id; the same holds for locations. */
  lemma RowNames(c: Checklist, clients: seq<Clients.Client>, locations: seq<Locations.Location>, i: nat, j: nat)
    requires i < |clients| && clients[i].id == c.clientId && clients[i].name != ""
    requires forall k :: i < k < |clients| ==> clients[k].id != c.clientId
    requires j < |locations| && locations[j].id == c.locationId && locations[j].name != ""
    requires forall k :: j < k < |locations| ==> locations[k].id != c.locationId
    ensures var e := Entry(c, NameMap(ClientPairs(clients)), NameMap(LocationPairs(locations)));
      e.clientName == clients[i].name && e.locationName == locations[j].name
  {
    NameMapLastWins(ClientPairs(clients), i);
    NameMapLastWins(LocationPairs(locations), j);
  }

  lemma UnknownNames(c: Checklist, clients: seq<Clients.Client>, locations: seq<Locations.Location>)
    requires forall k :: 0 <= k < |clients| ==> clients[k].id != c.clientId
    requires forall k :: 0 <= k < |locations| ==> locations[k].id != c.locationId
    ensures var e := Entry(c, NameMap(ClientPairs(clients)), NameMap(LocationPairs(locations)));
      e.clientName == UnknownClient && e.locationName == UnknownLocation
  {
    NameMapDomain(ClientPairs(clients), c.clientId);
    NameMapDomain(LocationPairs(locations), c.locationId);
  }

  /** The endpoint's handler (it checks no token). */
  method Handle(list: seq<Checklist>, clients: seq<Clients.Client>, locations: seq<Locations.Location>,
                filterClientId: Id) returns (r: QrResponse)
    ensures r == ActiveQrCodes(list, clients, locations, filterClientId)
  {
    var checklists := if filterClientId != "" then FindChecklistsByClientId(list, filterClientId) else list;
    var activeChecklists := Filter(checklists, IsActive);
    var clientMap := BuildNameMap(ClientPairs(clients));
    var locationMap := BuildNameMap(LocationPairs(locations));
    var rows := seq(|activeChecklists|, i requires 0 <= i < |activeChecklists| => Entry(activeChecklists[i], clientMap, locationMap));
    r := QrResponse(rows, clients);
  }
}
