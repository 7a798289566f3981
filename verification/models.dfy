/** Model-service decisions (backend/app/services/model.py): the record
    projection `_format_models`, the duplicate guard of `add_new_model`, the
    error classification of `connect_test`, and the early returns of
    `get_model_list` and `get_all_models_by_id`. The database is a set of
    (provider id, model name) pairs plus the provider row a lookup returns;
    the remote model listing and the connection test are parameters. */
module ModelService {
  import opened Common
  import opened Strings
  import opened Providers

  // ---------------------------------------------------------------------------
  // _format_models
  // ---------------------------------------------------------------------------

  /** A record as a dictionary; a value of None is Python's None. */
  type Record<V> = map<string, Option<V>>

  /** The four keys every formatted record has. */
  const ModelKeys: set<string> := {"id", "provider_id", "model_name", "created_at"}

  /** `d.get(k)`: the value, or None when the key is missing. */
  function Get<V>(d: Record<V>, k: string): Option<V> {
    if k in d then d[k] else None
  }

  /** One formatted record: exactly the four keys, each read with `get`. */
  function FormatModel<V>(m: Record<V>): (r: Record<V>)
    ensures r.Keys == ModelKeys
    ensures forall k :: k in ModelKeys ==> r[k] == Get(m, k)
  {
    map k | k in ModelKeys :: Get(m, k)
  }

  /** `_format_models`: one formatted record per input, in order. */
  function FormatModels<V>(raw: seq<Record<V>>): (r: seq<Record<V>>)
    ensures |r| == |raw|
    ensures forall i :: 0 <= i < |raw| ==> r[i].Keys == ModelKeys
    ensures forall i, k :: 0 <= i < |raw| && k in ModelKeys ==> r[i][k] == Get(raw[i], k)
  {
    seq(|raw|, i requires 0 <= i < |raw| => FormatModel(raw[i]))
  }

  /** Formatting formatted records changes nothing, and a record that already
      has exactly the four keys is its own formatting. */
  lemma FormatModelsIdempotent<V>(raw: seq<Record<V>>, m: Record<V>)
    ensures FormatModels(FormatModels(raw)) == FormatModels(raw)
    ensures m.Keys == ModelKeys ==> FormatModel(m) == m
  {
    var once := FormatModels(raw);
    forall i | 0 <= i < |raw| ensures FormatModel(once[i]) == once[i] {
      assert FormatModel(once[i]).Keys == once[i].Keys;
    }
  }

  /** Keys other than the four are dropped, and missing ones become None. */
  lemma FormatModelDropsExtras<V>(m: Record<V>, k: string, v: Option<V>)
    requires k !in ModelKeys
    ensures FormatModel(m[k := v]) == FormatModel(m)
    ensures "created_at" !in m ==> FormatModel(m)["created_at"] == None
  {
    assert Get(m[k := v], "id") == Get(m, "id");
    assert Get(m[k := v], "provider_id") == Get(m, "provider_id");
    assert Get(m[k := v], "model_name") == Get(m, "model_name");
    assert Get(m[k := v], "created_at") == Get(m, "created_at");
  }

  // ---------------------------------------------------------------------------
  // add_new_model
  // ---------------------------------------------------------------------------

  /** The stored models: (provider id, model name) pairs. */
  type ModelTable = set<(string, string)>

  /** `add_new_model`: `stored` is the provider the id names and `insertRaises`
      whether the insert failed. Returns the answer and the table afterwards. */
  function AddNewModel(stored: Option<Provider>, table: ModelTable, providerId: string,
                       modelName: string, insertRaises: bool): (r: (bool, ModelTable))
    ensures r.0 <==> stored.Some? && (providerId, modelName) !in table && !insertRaises
    ensures r.0 ==> r.1 == table + {(providerId, modelName)}
    ensures !r.0 ==> r.1 == table
  {
    if Serialize(stored).None? then (false, table)
    else if (providerId, modelName) in table then (false, table)
    else if insertRaises then (false, table)
    else (true, table + {(providerId, modelName)})
  }

  /** Adding the same model twice: the second call answers False and leaves
      the table as the first left it; a successful insert adds one pair. */
  lemma AddNewModelTwice(stored: Option<Provider>, table: ModelTable, pid: string, name: string, raises: bool)
    ensures var (ok1, t1) := AddNewModel(stored, table, pid, name, false);
      var (ok2, t2) := AddNewModel(stored, t1, pid, name, raises);
      !ok2 && t2 == t1 && (stored.Some? ==> (pid, name) in t1)
    ensures var (ok, t) := AddNewModel(stored, table, pid, name, raises);
      ok ==> |t| == |table| + 1
  {
    var (ok, t) := AddNewModel(stored, table, pid, name, raises);
    if ok {
      assert t == table + {(pid, name)} && (pid, name) !in table;
      assert |t| == |table| + 1;
    }
  }

  // ---------------------------------------------------------------------------
  // connect_test
  // ---------------------------------------------------------------------------

  /** The `ProviderErrorEnum` codes `connect_test` raises. */
  datatype ErrorCode = NotFound | InvalidApiKey | WrongParameter | ConnectionTestFailed

  /** A raised `ProviderError`: its code, and its message when the code's
      default message is not used. */
  datatype ProviderError = ProviderError(code: ErrorCode, message: Option<string>)

  /** What `test_connection` did: returned true, returned false, or raised.
      `errorText` is `str(e)` of the exception that reaches the handler (for a
      false result, the ProviderError raised inside the `try`). */
  datatype TestOutcome = Passed | ReturnedFalse(errorText: string) | Raised(errorText: string)

  predicate MentionsAuth(lowered: string) {
    Contains(lowered, "401") || Contains(lowered, "unauthorized") || Contains(lowered, "api key")
  }

  predicate MentionsMissing(lowered: string) {
    Contains(lowered, "404") || Contains(lowered, "not found")
  }

  /** The handler's classification of an exception text. */
  function Classify(errorText: string): (r: ProviderError)
    ensures r.code == InvalidApiKey <==> MentionsAuth(Lower(errorText))
    ensures r.code == WrongParameter <==> !MentionsAuth(Lower(errorText)) && MentionsMissing(Lower(errorText))
    ensures r.code == ConnectionTestFailed <==> !MentionsAuth(Lower(errorText)) && !MentionsMissing(Lower(errorText))
    ensures r.code != NotFound
    ensures r.message.Some? <==> r.code == ConnectionTestFailed
    ensures r.message.Some? ==> r.message.value == ConnectionFailedPrefix + errorText
  {
    var lowered := Lower(errorText);
    if MentionsAuth(lowered) then ProviderError(InvalidApiKey, None)
    else if MentionsMissing(lowered) then ProviderError(WrongParameter, None)
    else ProviderError(ConnectionTestFailed, Some(ConnectionFailedPrefix + errorText))
  }

  /** "连接测试失败: " */
  const ConnectionFailedPrefix: string := "\U{8FDE}\U{63A5}\U{6D4B}\U{8BD5}\U{5931}\U{8D25}: "

  /** "API Key为空" */
  const EmptyKeyMessage: string := "API Key\U{4E3A}\U{7A7A}"

  /** `connect_test`: None when the test passes, otherwise the error raised. */
  function ConnectTest(stored: Option<Provider>, outcome: TestOutcome): (r: Option<ProviderError>)
    ensures stored.None? ==> r == Some(ProviderError(NotFound, None))
    ensures stored.Some? && stored.value.apiKey == "" ==> r == Some(ProviderError(InvalidApiKey, Some(EmptyKeyMessage)))
    ensures stored.Some? && stored.value.apiKey != "" ==>
      (r.None? <==> outcome.Passed?) &&
      (!outcome.Passed? ==> r == Some(Classify(outcome.errorText)))
  {
    var provider := Serialize(stored);
    if provider.None? then Some(ProviderError(NotFound, None))
    else if provider.value.apiKey == "" then Some(ProviderError(InvalidApiKey, Some(EmptyKeyMessage)))
    else match outcome
      case Passed => None
      case ReturnedFalse(text) => Some(Classify(text))
      case Raised(text) => Some(Classify(text))
  }

  /** The two preliminary checks come before any connection attempt: their
      answer does not depend on what the test would have done. */
  lemma ConnectTestChecksFirst(stored: Option<Provider>, o1: TestOutcome, o2: TestOutcome)
    requires stored.None? || stored.value.apiKey == ""
    ensures ConnectTest(stored, o1) == ConnectTest(stored, o2)
  {
  }

  /** A false result and an exception with the same text are classified
      alike, and authentication words win over "not found". */
  lemma ConnectTestClassification(p: Provider, text: string)
    requires p.apiKey != ""
    ensures ConnectTest(Some(p), ReturnedFalse(text)) == ConnectTest(Some(p), Raised(text))
    ensures MentionsAuth(Lower(text)) ==>
      ConnectTest(Some(p), Raised(text)) == Some(ProviderError(InvalidApiKey, None))
    ensures !MentionsAuth(Lower(text)) && MentionsMissing(Lower(text)) ==>
      ConnectTest(Some(p), Raised(text)) == Some(ProviderError(WrongParameter, None))
  {
  }

  /** Example: "401" wins over "Not Found". */
  lemma ClassifyAuthExample()
    ensures Classify("401 Not Found").code == InvalidApiKey
  {
    var a := Lower("401 Not Found");
    assert a[..3] == "401";
  }

  /** Example: "Not Found" is recognised whatever its case. */
  lemma ClassifyMissingExample()
    ensures Classify("Error: Not Found").code == WrongParameter
  {
    var l := Lower("Error: Not Found");
    assert l[7..16] == "not found";
    assert OccursAt(l, "not found", 7);
    ContainsIff(l, "not found");
    assert forall i :: 0 <= i < |l| ==> l[i] != '4' && l[i] != 'z' && l[i] != 'y';
    NotContainsChar(l, "401", '4');
    NotContainsChar(l, "unauthorized", 'z');
    NotContainsChar(l, "api key", 'y');
  }

  /** A string without character `c` contains no pattern that has `c`. */
  lemma NotContainsChar(s: string, p: string, c: char)
    requires c in p
    requires forall i :: 0 <= i < |s| ==> s[i] != c
    ensures !Contains(s, p)
  {
    var j :| 0 <= j < |p| && p[j] == c;
    forall i | 0 <= i <= |s| - |p| ensures !OccursAt(s, p, i) {
      assert s[i..i + |p|][j] == s[i + j];
    }
    ContainsIff(s, p);
  }

  // ---------------------------------------------------------------------------
  // Model listings
  // ---------------------------------------------------------------------------

  /** What `get_model_list` returns: the provider's listing, or []. */
  datatype ModelList<M> = Listing(models: seq<M>) | EmptyList

  /** `get_model_list`: `listing` is what the remote `list_models` returned,
      None when it raised. */
  function GetModelList<M>(stored: Option<Provider>, listing: Option<seq<M>>): (r: ModelList<M>)
    ensures r.EmptyList? <==> stored.None? || listing.None?
    ensures r.Listing? ==> r.models == listing.value
  {
    var provider := Serialize(stored);
    if provider.None? then EmptyList
    else if listing.None? then EmptyList
    else Listing(listing.value)
  }

  /** What `get_all_models_by_id` returns: `{"models": [...]}`, or []. */
  datatype ModelsById<M> = ModelsDict(models: seq<M>) | NoProvider

  /** `get_all_models_by_id`: a missing provider fails on `provider["id"]` and
      yields []; a failed listing still yields `{"models": []}`. */
  function GetAllModelsById<M>(stored: Option<Provider>, listing: Option<seq<M>>): (r: ModelsById<M>)
    ensures r.NoProvider? <==> stored.None?
    ensures stored.Some? ==> r == ModelsDict(listing.GetOr([]))
  {
    var provider := Serialize(stored);
    if provider.None? then NoProvider
    else match GetModelList(stored, listing)
      case Listing(models) => ModelsDict(models)
      case EmptyList => ModelsDict([])
  }

  /** The two endpoints agree on a found provider: the dictionary carries
      exactly what the list carries, with [] standing for a failed listing. */
  lemma ModelsByIdAgreesWithList<M>(p: Provider, listing: Option<seq<M>>)
    ensures GetAllModelsById(Some(p), listing).models ==
      match GetModelList(Some(p), listing)
      case Listing(ms) => ms
      case EmptyList => []
  {
  }
}
