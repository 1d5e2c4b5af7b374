/** The result-field extraction of connectors/elasticsearch_connector.py. The connector keeps
    the last answer of the search service and reads one field out of every ranked result.
    The answer is given as data here: the service call itself is not modelled. */
module ElasticsearchConnector {
  import opened Wrappers

  /** A JSON value of the service's answer. */
  datatype Value =
    | Null
    | Bool(b: bool)
    | Number(n: real)
    | Str(s: string)
    | Array(items: seq<Value>)
    | Object(fields: map<string, Value>)

  /** One entry of the answer's `results` list: a JSON object. */
  type Record = map<string, Value>

  /** The exceptions the extraction raises. */
  datatype ConnectorError =
    | ResponseMissing           // the AssertionError of __get_results: no query was run yet
    | NotSubscriptable(entry: Value)  // the TypeError of indexing a non-object by a key

  /** Placeholder stored for a result that lacks the key. */
  function NoKeyForData(key: string): string
  {
    "THERE IS NO " + key + " FOR THIS DATA"
  }

  /** Placeholder stored for a metadata object that lacks the key. */
  function NoKeyInMetadata(key: string): string
  {
    "THERE IS NO " + key + " IN RESULTS METADATA"
  }

  /** `results[i][key]`, or the placeholder when the KeyError is caught. */
  function FieldOrPlaceholder(result: Record, key: string): Value
  {
    if key in result then result[key] else Str(NoKeyForData(key))
  }

  /** The list __get_kv_from_result builds: one entry per result, in the results' order. */
  function ResultColumn(results: seq<Record>, key: string): (column: seq<Value>)
    ensures |column| == |results|
    ensures forall i :: 0 <= i < |results| && key in results[i] ==> column[i] == results[i][key]
    ensures forall i :: 0 <= i < |results| && key !in results[i] ==> column[i] == Str(NoKeyForData(key))
  {
    if results == [] then []
    else
      ResultColumn(results[..|results| - 1], key) + [FieldOrPlaceholder(results[|results| - 1], key)]
  }

  /** The list __get_kv_from_result_metadata builds from the metadata list, or the TypeError
      raised at the first entry that is not an object (a string placeholder, say). */
  function MetadataColumn(metadata: seq<Value>, key: string): (r: Result<seq<Value>, ConnectorError>)
    ensures r.Success? <==> forall i :: 0 <= i < |metadata| ==> metadata[i].Object?
    ensures r.Success? ==> |r.value| == |metadata|
    ensures r.Success? ==> forall i :: 0 <= i < |metadata| && key in metadata[i].fields
                                       ==> r.value[i] == metadata[i].fields[key]
    ensures r.Success? ==> forall i :: 0 <= i < |metadata| && key !in metadata[i].fields
                                       ==> r.value[i] == Str(NoKeyInMetadata(key))
    ensures r.Failure? ==> exists i :: 0 <= i < |metadata| && !metadata[i].Object?
                                       && r.error == NotSubscriptable(metadata[i])
                                       && forall j :: 0 <= j < i ==> metadata[j].Object?
  {
    if metadata == [] then Success([])
    else
      var front := metadata[..|metadata| - 1];
      var last := metadata[|metadata| - 1];
      match MetadataColumn(front, key)
      case Failure(e) => Failure(e)
      case Success(column) =>
        if !last.Object? then Failure(NotSubscriptable(last))
        else if key in last.fields then Success(column + [last.fields[key]])
        else Success(column + [Str(NoKeyInMetadata(key))])
  }

  /** Once a prefix of the metadata list fails, the whole list fails with the same error. */
  lemma {:induction false} MetadataFailureExtends(metadata: seq<Value>, n: nat, key: string)
    requires n <= |metadata|
    requires MetadataColumn(metadata[..n], key).Failure?
    ensures MetadataColumn(metadata, key) == MetadataColumn(metadata[..n], key)
  {
    if n < |metadata| {
      var front := metadata[..|metadata| - 1];
      assert front[..n] == metadata[..n];
      MetadataFailureExtends(front, n, key);
    } else {
      assert metadata[..n] == metadata;
    }
  }

  /** A result without `result_metadata` makes the confidence column fail: its placeholder
      string is indexed by 'confidence', and the TypeError is not the caught KeyError. */
  lemma ConfidenceNeedsMetadata(results: seq<Record>, i: nat)
    requires i < |results| && "result_metadata" !in results[i]
    ensures MetadataColumn(ResultColumn(results, "result_metadata"), "confidence").Failure?
  {
    var column := ResultColumn(results, "result_metadata");
    assert !column[i].Object?;
  }

  /** When every result carries a metadata object with a confidence, the confidence column
      lists those confidences in rank order. */
  lemma ConfidenceColumnValues(results: seq<Record>)
    requires forall i :: 0 <= i < |results| ==> "result_metadata" in results[i]
    requires forall i :: 0 <= i < |results| ==> results[i]["result_metadata"].Object?
    requires forall i :: 0 <= i < |results| ==> "confidence" in results[i]["result_metadata"].fields
    ensures var r := MetadataColumn(ResultColumn(results, "result_metadata"), "confidence");
            r.Success? && |r.value| == |results|
            && forall i :: 0 <= i < |results| ==> r.value[i] == results[i]["result_metadata"].fields["confidence"]
  {
    var column := ResultColumn(results, "result_metadata");
    assert forall i :: 0 <= i < |column| ==> column[i] == results[i]["result_metadata"];
  }

  /** The connector. Only the last answer is kept; authentication and configuration are not
      part of this model. */
  class WatsonDiscoveryV2Connector {
    /** The `results` list of the last answer, or None before the first query. */
    var response: Option<seq<Record>>

    constructor ()
      ensures response == None
    {
      response := None;
    }

    /** Stores the service's answer, replacing the previous one. */
    method QueryResponse(answer: seq<Record>)
      modifies this
      ensures response == Some(answer)
    {
      response := Some(answer);
    }

    /** The results of the last answer; the assertion fails before any query. */
    method GetResults() returns (r: Result<seq<Record>, ConnectorError>)
      ensures response.None? ==> r == Failure(ResponseMissing)
      ensures response.Some? ==> r == Success(response.value)
    {
      if response.None? {
        return Failure(ResponseMissing);
      }
      return Success(response.value);
    }

    /** One value per result: the key's value, or the placeholder when the key is absent. */
    method GetKvFromResult(key: string) returns (r: Result<seq<Value>, ConnectorError>)
      ensures response.None? ==> r == Failure(ResponseMissing)
      ensures response.Some? ==> r == Success(ResultColumn(response.value, key))
    {
      var results := GetResults();
      if results.Failure? {
        return Failure(results.error);
      }
      var rs := results.value;
      var output: seq<Value> := [];
      var i := 0;
      while i < |rs|
        invariant 0 <= i <= |rs|
        invariant output == ResultColumn(rs[..i], key)
      {
        assert rs[..i + 1][..i] == rs[..i];
        if key in rs[i] {
          output := output + [rs[i][key]];
        } else {
          output := output + [Str(NoKeyForData(key))];
        }
        i := i + 1;
      }
      assert rs[..|rs|] == rs;
      return Success(output);
    }

    method GetResultMetadata() returns (r: Result<seq<Value>, ConnectorError>)
      ensures response.None? ==> r == Failure(ResponseMissing)
      ensures response.Some? ==> r == Success(ResultColumn(response.value, "result_metadata"))
    {
      r := GetKvFromResult("result_metadata");
    }

    /** One value per metadata entry: the key's value or the placeholder; an entry that is
        not an object raises the TypeError. */
    method GetKvFromResultMetadata(key: string) returns (r: Result<seq<Value>, ConnectorError>)
      ensures response.None? ==> r == Failure(ResponseMissing)
      ensures response.Some? ==>
        r == MetadataColumn(ResultColumn(response.value, "result_metadata"), key)
    {
      var metadata := GetResultMetadata();
      if metadata.Failure? {
        return Failure(metadata.error);
      }
      var entries := metadata.value;
      var output: seq<Value> := [];
      var i := 0;
      while i < |entries|
        invariant 0 <= i <= |entries|
        invariant MetadataColumn(entries[..i], key) == Success(output)
      {
        assert entries[..i + 1][..i] == entries[..i];
        var entry := entries[i];
        if !entry.Object? {
          MetadataFailureExtends(entries, i + 1, key);
          return Failure(NotSubscriptable(entry));
        }
        if key in entry.fields {
          output := output + [entry.fields[key]];
        } else {
          output := output + [Str(NoKeyInMetadata(key))];
        }
        i := i + 1;
      }
      assert entries[..|entries|] == entries;
      return Success(output);
    }

    method GetDocumentIds() returns (r: Result<seq<Value>, ConnectorError>)
      ensures response.None? ==> r == Failure(ResponseMissing)
      ensures response.Some? ==> r == Success(ResultColumn(response.value, "document_id"))
    {
      r := GetKvFromResult("document_id");
    }

    method GetResultConfidence() returns (r: Result<seq<Value>, ConnectorError>)
      ensures response.None? ==> r == Failure(ResponseMissing)
      ensures response.Some? ==>
        r == MetadataColumn(ResultColumn(response.value, "result_metadata"), "confidence")
    {
      r := GetKvFromResultMetadata("confidence");
    }

    method GetTitle() returns (r: Result<seq<Value>, ConnectorError>)
      ensures response.None? ==> r == Failure(ResponseMissing)
      ensures response.Some? ==> r == Success(ResultColumn(response.value, "title"))
    {
      r := GetKvFromResult("title");
    }

    method GetSubtitle() returns (r: Result<seq<Value>, ConnectorError>)
      ensures response.None? ==> r == Failure(ResponseMissing)
      ensures response.Some? ==> r == Success(ResultColumn(response.value, "subtitle"))
    {
      r := GetKvFromResult("subtitle");
    }

    method GetDocumentPassages() returns (r: Result<seq<Value>, ConnectorError>)
      ensures response.None? ==> r == Failure(ResponseMissing)
      ensures response.Some? ==> r == Success(ResultColumn(response.value, "document_passages"))
    {
      r := GetKvFromResult("document_passages");
    }

    method GetText() returns (r: Result<seq<Value>, ConnectorError>)
      ensures response.None? ==> r == Failure(ResponseMissing)
      ensures response.Some? ==> r == Success(ResultColumn(response.value, "text"))
    {
      r := GetKvFromResult("text");
    }

    method GetTable() returns (r: Result<seq<Value>, ConnectorError>)
      ensures response.None? ==> r == Failure(ResponseMissing)
      ensures response.Some? ==> r == Success(ResultColumn(response.value, "table"))
    {
      r := GetKvFromResult("table");
    }
  }
}
