/**
 * One agent's fetch (`fetch_data_for_agent`): the HTTP response to
 * `GET /syscollector/{agent_id}/packages` is turned into a list of flat
 * package records. A failed request yields no records; a successful one
 * yields one record per element of `data.affected_items`.
 */
module Fetch {

  import opened Wrappers
  import opened JsonValues

  /**
   * What `requests.get` gives back: either it raised a transport error
   * (connection refused, timeout, name resolution), or a status code and a
   * body, which is `None` when the body does not decode as JSON.
   */
  datatype Response =
    | TransportError
    | HttpResponse(status: int, body: Option<Json>)

  /** "Too Many Requests", the status the source tests for after `raise_for_status`. */
  const TooManyRequests: int := 429

  /** `raise_for_status()` raises for every client error (4xx) and server error (5xx). */
  predicate RaisesForStatus(status: int)
  {
    400 <= status < 600
  }

  /** One row of the inventory: the nine values copied out of one affected item. */
  datatype PackageRecord = PackageRecord(
    scan: Json,
    architecture: Json,
    format: Json,
    size: Json,
    version: Json,
    name: Json,
    installTime: Json,
    vendor: Json,
    agentId: Json)

  /** The record's keys, in the order the dict literal lists them (the spreadsheet's column order). */
  const RecordKeys: seq<string> :=
    ["scan", "architecture", "format", "size", "version", "name", "install_time", "vendor", "agent_id"]

  /** Position of the `vendor` column in `RecordKeys`. */
  const VendorColumn: nat := 7

  /** The record's values, listed in the order of `RecordKeys`. */
  function Cells(r: PackageRecord): seq<Json>
  {
    [r.scan, r.architecture, r.format, r.size, r.version, r.name, r.installTime, r.vendor, r.agentId]
  }

  /** The value a key takes when the item lacks it: `{}` for `scan`, null for the others. */
  function DefaultFor(key: string): Json
  {
    if key == "scan" then EmptyObject else JNull
  }

  /** The dict literal built for one affected item. */
  function Project(item: map<string, Json>): (r: PackageRecord)
    ensures forall i :: 0 <= i < |RecordKeys| ==>
      Cells(r)[i] == if RecordKeys[i] in item then item[RecordKeys[i]] else DefaultFor(RecordKeys[i])
  {
    PackageRecord(
      Get(item, "scan", EmptyObject),
      Get(item, "architecture", JNull),
      Get(item, "format", JNull),
      Get(item, "size", JNull),
      Get(item, "version", JNull),
      Get(item, "name", JNull),
      Get(item, "install_time", JNull),
      Get(item, "vendor", JNull),
      Get(item, "agent_id", JNull))
  }

  /** No key is listed twice, so a record has nine distinct columns. */
  lemma RecordKeysDistinct()
    ensures forall j, k :: 0 <= j < k < |RecordKeys| ==> RecordKeys[j] != RecordKeys[k]
  {
  }

  /**
   * Every record has exactly the nine keys, each holding the item's own
   * value when the item has that key (even an explicit null) and the
   * key's default otherwise.
   */
  lemma ProjectedCells(item: map<string, Json>, i: nat)
    requires i < |RecordKeys|
    ensures |Cells(Project(item))| == |RecordKeys| == 9
    ensures Cells(Project(item))[i]
         == if RecordKeys[i] in item then item[RecordKeys[i]] else DefaultFor(RecordKeys[i])
    ensures RecordKeys[VendorColumn] == "vendor" && Cells(Project(item))[VendorColumn] == Project(item).vendor
  {
  }

  /**
   * `response.json().get("data", {}).get("affected_items", [])`, each level
   * defaulting when its key is absent, as the sequence the `for` loop walks.
   * An empty dict or empty string is walked zero times, like an empty list.
   * `None` stands for the shapes on which the chain or the loop raises an
   * exception the `except` does not catch: a level that is not a dict (an
   * explicit null included, since `get` returns it rather than the default),
   * an `affected_items` that is not iterable, and a non-empty dict or string,
   * whose elements are strings without a `get`.
   */
  function AffectedItems(body: Json): (r: Option<seq<Json>>)
    ensures r.Some? ==> body.JObject? && Get(body.fields, "data", EmptyObject).JObject?
    ensures body.JObject? && "data" !in body.fields ==> r == Some([])
    ensures (&& body.JObject? && "data" in body.fields && body.fields["data"].JObject?
             && "affected_items" !in body.fields["data"].fields) ==> r == Some([])
    ensures r.Some? && r.value != [] ==>
      body.fields["data"].fields["affected_items"] == JArray(r.value)
    ensures (&& body.JObject? && "data" in body.fields && body.fields["data"].JObject?
             && "affected_items" in body.fields["data"].fields
             && body.fields["data"].fields["affected_items"].JArray?)
            ==> r == Some(body.fields["data"].fields["affected_items"].elems)
  {
    if !body.JObject? then None
    else
      var data := Get(body.fields, "data", EmptyObject);
      if !data.JObject? then None
      else
        var items := Get(data.fields, "affected_items", JArray([]));
        if items.JArray? then Some(items.elems)
        else if items == EmptyObject || items == JString("") then Some([])
        else None
  }

  /**
   * The records built by the loop over the affected items, or `None` when
   * some item is not a dict (its `.get` would raise).
   */
  function ProjectAll(items: seq<Json>): (r: Option<seq<PackageRecord>>)
    ensures r.Some? ==> |r.value| == |items|
    ensures r.Some? ==> forall k :: 0 <= k < |items| ==> items[k].JObject? && r.value[k] == Project(items[k].fields)
  {
    if items == [] then Some([])
    else if !items[0].JObject? then None
    else match ProjectAll(items[1..])
      case None => None
      case Some(rest) => Some([Project(items[0].fields)] + rest)
  }

  /** Exactly one record per affected item, in the items' order, as long as every item is a dict. */
  lemma {:induction false} ProjectAllOnePerItem(items: seq<Json>)
    ensures ProjectAll(items).Some? <==> forall k :: 0 <= k < |items| ==> items[k].JObject?
    ensures ProjectAll(items).Some? ==>
      && |ProjectAll(items).value| == |items|
      && forall k :: 0 <= k < |items| ==> ProjectAll(items).value[k] == Project(items[k].fields)
  {
    if items != [] {
      ProjectAllOnePerItem(items[1..]);
      if forall k :: 0 <= k < |items| ==> items[k].JObject? {
        assert forall k :: 0 <= k < |items[1..]| ==> items[1..][k].JObject? by {
          forall k | 0 <= k < |items[1..]| ensures items[1..][k].JObject? {
            assert items[1..][k] == items[k + 1];
          }
        }
        var rs := ProjectAll(items).value;
        forall k | 0 <= k < |items|
          ensures rs[k] == Project(items[k].fields)
        {
          if k > 0 {
            assert items[k] == items[1..][k - 1];
          }
        }
      } else if items[0].JObject? {
        var k :| 0 <= k < |items| && !items[k].JObject?;
        assert items[k] == items[1..][k - 1];
      }
    }
  }

  /** What one fetch comes to. */
  datatype FetchOutcome =
    /** The list the function returns. */
    | Records(records: seq<PackageRecord>)
    /** The source raises outside its `except`, or what it does depends on the `requests` version. */
    | Unmodelled

  /** The result of `fetch_data_for_agent` for a given response. */
  function FetchSpec(response: Response): (outcome: FetchOutcome)
    ensures response.TransportError? || RaisesForStatus(response.status) ==> outcome == Records([])
    ensures outcome.Records? && outcome.records != [] ==>
      && response.HttpResponse? && !RaisesForStatus(response.status) && response.body.Some?
      && AffectedItems(response.body.value).Some?
      && |outcome.records| == |AffectedItems(response.body.value).value|
  {
    match response
    case TransportError => Records([])
    case HttpResponse(status, body) =>
      if RaisesForStatus(status) then Records([])
      else if body.None? then Unmodelled
      else match AffectedItems(body.value)
        case None => Unmodelled
        case Some(items) =>
          match ProjectAll(items)
          case None => Unmodelled
          case Some(rs) => Records(rs)
  }

  /**
   * `fetch_data_for_agent`, with the response as its input: a failed request
   * yields `[]`; otherwise the affected items are projected one by one.
   */
  method FetchDataForAgent(response: Response) returns (outcome: FetchOutcome)
    ensures outcome == FetchSpec(response)
  {
    if response.TransportError? || RaisesForStatus(response.status) {
      return Records([]);
    }
    if response.status == TooManyRequests {
      // the sleep-and-resend branch: a 429 has already raised above
      assert false;
    }
    if response.body.None? {
      return Unmodelled;
    }
    var affected := AffectedItems(response.body.value);
    if affected.None? {
      return Unmodelled;
    }
    var items := affected.value;
    ProjectAllOnePerItem(items);
    var results: seq<PackageRecord> := [];
    var i := 0;
    while i < |items|
      invariant 0 <= i <= |items|
      invariant forall k :: 0 <= k < i ==> items[k].JObject?
      invariant |results| == i
      invariant forall k :: 0 <= k < i ==> results[k] == Project(items[k].fields)
    {
      var item := items[i];
      if !item.JObject? {
        return Unmodelled;
      }
      results := results + [Project(item.fields)];
      i := i + 1;
    }
    return Records(results);
  }

  /**
   * A request that raised, or any 4xx/5xx status, yields the empty list;
   * so does 429, whose retry branch can never run.
   */
  lemma FailedRequestYieldsNoRecords(response: Response)
    requires response.TransportError? || RaisesForStatus(response.status)
    ensures FetchSpec(response) == Records([])
    ensures response.HttpResponse? && response.status == TooManyRequests ==> RaisesForStatus(response.status)
  {
  }

  /** On a success status, a body lacking `data`, or whose `data` lacks `affected_items`, yields the empty list. */
  lemma MissingItemsYieldNoRecords(status: int, body: map<string, Json>)
    requires !RaisesForStatus(status)
    requires "data" !in body || (body["data"].JObject? && "affected_items" !in body["data"].fields)
    ensures FetchSpec(HttpResponse(status, Some(JObject(body)))) == Records([])
  {
  }

  /**
   * On a success status, an `affected_items` that is an empty list, an empty
   * dict or an empty string is walked zero times and yields the empty list.
   */
  lemma EmptyItemsYieldNoRecords(status: int, items: Json)
    requires !RaisesForStatus(status)
    requires items == JArray([]) || items == EmptyObject || items == JString("")
    ensures FetchSpec(HttpResponse(status, Some(JObject(map["data" := JObject(map["affected_items" := items])]))))
         == Records([])
  {
  }

  /**
   * On a success status whose body holds a list of item dicts, the result
   * has exactly one record per item, in the same order.
   */
  lemma SuccessHasOneRecordPerItem(status: int, body: Json, items: seq<Json>)
    requires !RaisesForStatus(status)
    requires AffectedItems(body) == Some(items)
    requires forall k :: 0 <= k < |items| ==> items[k].JObject?
    ensures FetchSpec(HttpResponse(status, Some(body))).Records?
    ensures var rs := FetchSpec(HttpResponse(status, Some(body))).records;
      && |rs| == |items|
      && forall k :: 0 <= k < |items| ==> rs[k] == Project(items[k].fields)
  {
    ProjectAllOnePerItem(items);
  }

  /**
   * On a success status, a body `{"data": {"affected_items": items}}` whose
   * items are all dicts yields one record per item, each that item's
   * projection, in the same order.
   */
  lemma ListedItemsYieldOneRecordEach(status: int, items: seq<Json>)
    requires !RaisesForStatus(status)
    requires forall k :: 0 <= k < |items| ==> items[k].JObject?
    ensures var outcome := FetchSpec(HttpResponse(status, Some(JObject(map["data" := JObject(map["affected_items" := JArray(items)])]))));
      && outcome.Records?
      && |outcome.records| == |items|
      && forall k :: 0 <= k < |items| ==> outcome.records[k] == Project(items[k].fields)
  {
    ProjectAllOnePerItem(items);
  }

  /** The outcome leaves the model only on a success status with a body of an unhandled shape. */
  lemma UnmodelledOnlyOnUnhandledBody(response: Response)
    ensures FetchSpec(response) == Unmodelled <==>
      && response.HttpResponse?
      && !RaisesForStatus(response.status)
      && (|| response.body.None?
          || AffectedItems(response.body.value).None?
          || exists k :: 0 <= k < |AffectedItems(response.body.value).value|
                        && !AffectedItems(response.body.value).value[k].JObject?)
  {
    if response.HttpResponse? && response.body.Some? && AffectedItems(response.body.value).Some? {
      ProjectAllOnePerItem(AffectedItems(response.body.value).value);
    }
  }
}
