/** Provider records (backend/app/services/provider.py, with the update guard of
    backend/app/routers/provider.py): API-key masking, the plain and the masking
    serializers, the field rules of `update_provider` and the defaults of
    `add_provider`. The database is replaced by the row it returns and by a flag
    saying whether the write raised. */
module Providers {
  import opened Common
  import opened Strings

  /** A provider row as the serializers return it. `createdAt` is the
      JSON-encoded creation time, when there is one. */
  datatype Provider = Provider(
    id: string, name: string, logo: string, kind: string, enabled: int,
    baseUrl: string, apiKey: string, createdAt: Option<string>)

  // ---------------------------------------------------------------------------
  // Masking and serialization
  // ---------------------------------------------------------------------------

  /** Is position `i` of a key of length `n` shown by the mask? */
  predicate Revealed(n: int, i: int) {
    n >= 8 && (i < 4 || i >= n - 4)
  }

  /** `mask_key`: keys shorter than eight characters become all stars; longer
      keys keep their first and last four characters. */
  function MaskKey(key: string): (r: string)
    ensures |r| == |key|
    ensures forall i :: 0 <= i < |key| ==> r[i] == if Revealed(|key|, i) then key[i] else '*'
  {
    if |key| < 8 then Repeat('*', |key|)
    else
      var r := key[..4] + Repeat('*', |key| - 8) + key[|key| - 4..];
      assert forall i :: 0 <= i < 4 ==> r[i] == key[i];
      assert forall i :: 4 <= i < |key| - 4 ==> r[i] == '*';
      assert forall i :: |key| - 4 <= i < |key| ==> r[i] == key[i];
      r
  }

  /** The three regimes of the mask. */
  lemma MaskKeyCases(key: string)
    ensures key == "" ==> MaskKey(key) == ""
    ensures 0 < |key| < 8 ==> MaskKey(key) == Repeat('*', |key|)
    ensures |key| >= 8 ==>
      MaskKey(key) == key[..4] + Repeat('*', |key| - 8) + key[|key| - 4..]
  {
    var r := MaskKey(key);
    if |key| >= 8 {
      var e := key[..4] + Repeat('*', |key| - 8) + key[|key| - 4..];
      assert forall i :: 0 <= i < |key| ==> r[i] == e[i];
    } else {
      assert forall i :: 0 <= i < |key| ==> r[i] == Repeat('*', |key|)[i];
    }
  }

  /** Masking twice is masking once: a masked key reveals nothing new. */
  lemma MaskKeyIdempotent(key: string)
    ensures MaskKey(MaskKey(key)) == MaskKey(key)
  {
  }

  /** `serialize_provider`: nothing for a missing row, otherwise every field. */
  function Serialize(row: Option<Provider>): (r: Option<Provider>)
    ensures r.None? <==> row.None?
    ensures r.Some? ==> r.value.apiKey == row.value.apiKey
    ensures r == row
  {
    row
  }

  /** `serialize_provider_safe`: like `serialize_provider`, with the key masked. */
  function SerializeSafe(row: Option<Provider>): (r: Option<Provider>)
    ensures r.None? <==> row.None?
    ensures r.Some? ==> r.value.apiKey == MaskKey(row.value.apiKey)
  {
    match row
    case None => None
    case Some(p) => Some(p.(apiKey := MaskKey(p.apiKey)))
  }

  /** The two serializers agree on everything but the key. */
  lemma SafeDiffersOnlyInKey(row: Option<Provider>)
    ensures SerializeSafe(row).None? == Serialize(row).None?
    ensures row.Some? ==>
      SerializeSafe(row).value == Serialize(row).value.(apiKey := MaskKey(row.value.apiKey))
    ensures row.Some? ==> SerializeSafe(row).value.(apiKey := row.value.apiKey) == Serialize(row).value
  {
  }

  // ---------------------------------------------------------------------------
  // Listing
  // ---------------------------------------------------------------------------

  /** `get_all_providers_safe` as written: it uses the plain serializer. */
  function AllProvidersSafeAsWritten(rows: Option<seq<Provider>>): (r: seq<Option<Provider>>)
    ensures rows.None? ==> r == []
    ensures rows.Some? ==> |r| == |rows.value|
    ensures rows.Some? ==> forall i :: 0 <= i < |r| ==> r[i] == Serialize(Some(rows.value[i]))
  {
    if rows.None? then []
    else seq(|rows.value|, i requires 0 <= i < |rows.value| => Serialize(Some(rows.value[i])))
  }

  /** The listing endpoint returns stored keys in full: a 12-character key
      comes back unmasked. */
  lemma AllProvidersSafeLeaksKeys()
    ensures var p := Provider("p", "n", "custom", "openai", 1, "u", "sk-123456789", None);
      AllProvidersSafeAsWritten(Some([p]))[0].value.apiKey == "sk-123456789" &&
      MaskKey("sk-123456789") != "sk-123456789"
  {
    var m := MaskKey("sk-123456789");
    assert m[4] == '*';
  }

  /** `get_all_providers_safe` with the masking serializer, as its name and the
      single-row variant promise. */
  function AllProvidersSafe(rows: Option<seq<Provider>>): (r: seq<Option<Provider>>)
    ensures rows.None? ==> r == []
    ensures rows.Some? ==> |r| == |rows.value|
    ensures forall i :: 0 <= i < |r| ==>
      r[i].Some? && r[i].value.apiKey == MaskKey(rows.value[i].apiKey) &&
      r[i].value.(apiKey := rows.value[i].apiKey) == rows.value[i]
  {
    if rows.None? then []
    else seq(|rows.value|, i requires 0 <= i < |rows.value| => SerializeSafe(Some(rows.value[i])))
  }

  /** No key of eight or more characters leaves the corrected listing with its
      middle visible. */
  lemma AllProvidersSafeHidesMiddles(rows: seq<Provider>, i: nat, k: nat)
    requires i < |rows| && 4 <= k < |rows[i].apiKey| - 4
    ensures AllProvidersSafe(Some(rows))[i].value.apiKey[k] == '*'
  {
  }

  // ---------------------------------------------------------------------------
  // Adding
  // ---------------------------------------------------------------------------

  /** The arguments `add_provider` hands to the database insert. */
  datatype NewProvider = NewProvider(
    id: string, name: string, apiKey: string, baseUrl: string, logo: string,
    kind: string, enabled: int)

  /** `add_provider`: the id is the generated `uuid` lower-cased and the logo is
      always "custom"; the other fields are stored as given. */
  function AddProvider(uuid: string, name: string, apiKey: string, baseUrl: string,
                       logo: Option<string>, kind: string, enabled: int): NewProvider {
    NewProvider(Lower(uuid), name, apiKey, baseUrl, "custom", kind, enabled)
  }

  /** The passed logo is ignored and the stored id is already lower-case. */
  lemma AddProviderDefaults(uuid: string, name: string, apiKey: string, baseUrl: string,
                            logo1: Option<string>, logo2: Option<string>, kind: string, enabled: int)
    ensures var p := AddProvider(uuid, name, apiKey, baseUrl, logo1, kind, enabled);
      && p == AddProvider(uuid, name, apiKey, baseUrl, logo2, kind, enabled)
      && p.logo == "custom"
      && Lower(p.id) == p.id && |p.id| == |uuid|
      && p.name == name && p.apiKey == apiKey && p.baseUrl == baseUrl
      && p.kind == kind && p.enabled == enabled
  {
    LowerIdempotent(uuid);
  }

  // ---------------------------------------------------------------------------
  // Updating
  // ---------------------------------------------------------------------------

  /** A value of the update dictionary. */
  datatype FieldValue = Text(s: string) | Number(n: int)

  /** Python truthiness of a field value. */
  predicate FieldTruthy(v: FieldValue) {
    match v
    case Text(s) => s != ""
    case Number(n) => n != 0
  }

  /** The update without None values and without the "id" key. */
  function Filtered(data: map<string, Option<FieldValue>>): (r: map<string, FieldValue>)
    ensures forall k :: k in r <==> k in data && k != "id" && data[k].Some?
    ensures forall k :: k in r ==> data[k] == Some(r[k])
  {
    map k | k in data && k != "id" && data[k].Some? :: data[k].value
  }

  /** `new_api_key`: "" for a falsy value, the stripped text otherwise; None
      when `.strip()` raises (a non-zero number). */
  function NewApiKey(v: FieldValue): Option<string> {
    if !FieldTruthy(v) then Some("")
    else match v
      case Text(s) => Some(Strip(s))
      case Number(_) => None
  }

  /** The outcome of `update_provider`: the id and the fields written, or the
      None it returns after an exception. */
  datatype UpdateResult = Updated(id: string, fields: map<string, FieldValue>) | UpdateFailed

  /** `update_provider`. `stored` is the row the id currently names and
      `writeRaises` whether the database update raised. */
  function UpdateProvider(id: string, data: map<string, Option<FieldValue>>,
                          stored: Option<Provider>, writeRaises: bool): (r: UpdateResult)
    ensures r.Updated? ==> r.id == id
    ensures r.Updated? ==> "id" !in r.fields
    ensures r.Updated? ==> forall k :: k in r.fields ==> k in data && data[k] == Some(r.fields[k])
    ensures r.Updated? ==> forall k :: k in data && k != "id" && k != "api_key" && data[k].Some? ==> k in r.fields
    ensures writeRaises ==> r.UpdateFailed?
  {
    var filtered := Filtered(data);
    if "api_key" in filtered then
      var current := Serialize(stored);
      var currentKey := if current.Some? then current.value.apiKey else "";
      match NewApiKey(filtered["api_key"])
      case None => UpdateFailed
      case Some(newKey) =>
        var fields := if currentKey != "" && newKey == "" then filtered - {"api_key"} else filtered;
        if writeRaises then UpdateFailed else Updated(id, fields)
    else if writeRaises then UpdateFailed
    else Updated(id, filtered)
  }

  /** The key rule: with a key already stored, an empty or blank new key is
      dropped from the update; any other given key is written exactly as sent,
      unstripped. */
  lemma UpdateApiKeyRule(id: string, data: map<string, Option<FieldValue>>, stored: Option<Provider>, s: string)
    requires "api_key" in data && data["api_key"] == Some(Text(s))
    ensures var r := UpdateProvider(id, data, stored, false);
      && r.Updated?
      && ("api_key" !in r.fields <==> stored.Some? && stored.value.apiKey != "" && Strip(s) == "")
      && ("api_key" in r.fields ==> r.fields["api_key"] == Text(s))
  {
    assert "api_key" in Filtered(data);
  }

  /** An update never blanks a stored key: whenever a key is stored and the
      update succeeds, any key it writes is non-blank text. */
  lemma UpdateNeverBlanksKey(id: string, data: map<string, Option<FieldValue>>, stored: Option<Provider>, raises: bool)
    requires stored.Some? && stored.value.apiKey != ""
    ensures var r := UpdateProvider(id, data, stored, raises);
      r.Updated? && "api_key" in r.fields ==>
        r.fields["api_key"].Text? && Strip(r.fields["api_key"].s) != ""
  {
    var filtered := Filtered(data);
    if "api_key" in filtered {
      var v := filtered["api_key"];
      var r := UpdateProvider(id, data, stored, raises);
      if r.Updated? && "api_key" in r.fields {
        assert NewApiKey(v).Some? && NewApiKey(v).value != "";
        assert r.fields["api_key"] == v;
      }
    }
  }

  /** Without an "api_key" entry the update writes exactly the non-None
      fields other than "id". */
  lemma UpdateWithoutKey(id: string, data: map<string, Option<FieldValue>>, stored: Option<Provider>)
    requires "api_key" !in data || data["api_key"].None?
    ensures UpdateProvider(id, data, stored, false) == Updated(id, Filtered(data))
  {
  }

  // ---------------------------------------------------------------------------
  // The update endpoint
  // ---------------------------------------------------------------------------

  /** `ProviderUpdateRequest`. */
  datatype UpdateRequest = UpdateRequest(
    id: string, name: Option<string>, apiKey: Option<string>, baseUrl: Option<string>,
    logo: Option<string>, kind: Option<string>, enabled: Option<int>)

  function TextField(v: Option<string>): Option<FieldValue> {
    if v.Some? then Some(Text(v.value)) else None
  }

  /** `dict(data)` of a request. */
  function RequestDict(req: UpdateRequest): map<string, Option<FieldValue>> {
    map["id" := Some(Text(req.id)), "name" := TextField(req.name),
        "api_key" := TextField(req.apiKey), "base_url" := TextField(req.baseUrl),
        "logo" := TextField(req.logo), "type" := TextField(req.kind),
        "enabled" := if req.enabled.Some? then Some(Number(req.enabled.value)) else None]
  }

  predicate NoFields(req: UpdateRequest) {
    req.name.None? && req.apiKey.None? && req.baseUrl.None? &&
    req.logo.None? && req.kind.None? && req.enabled.None?
  }

  /** The endpoint's response: an error message, or success carrying the id the
      service returned (None when it failed). */
  datatype Response = Error(msg: string) | Success(id: Option<string>)

  /** `/update_provider`: reject a request that sets nothing, otherwise report
      success with whatever the service returned. */
  function UpdateEndpoint(req: UpdateRequest, stored: Option<Provider>, writeRaises: bool): (r: Response)
    ensures r.Error? <==> NoFields(req)
  {
    if NoFields(req) then Error("\U{8BF7}\U{81F3}\U{5C11}\U{586B}\U{5199}\U{4E00}\U{4E2A}\U{53C2}\U{6570}")
    else
      var outcome := UpdateProvider(req.id, RequestDict(req), stored, writeRaises);
      Success(if outcome.Updated? then Some(outcome.id) else None)
  }

  /** A failed write is still reported as success, with no id; a successful
      one carries the request's id. */
  lemma UpdateEndpointOutcomes(req: UpdateRequest, stored: Option<Provider>)
    requires !NoFields(req)
    ensures UpdateEndpoint(req, stored, true) == Success(None)
    ensures UpdateEndpoint(req, stored, false) == Success(Some(req.id))
  {
    var d := RequestDict(req);
    if req.apiKey.Some? {
      assert "api_key" in Filtered(d);
    }
  }
}
