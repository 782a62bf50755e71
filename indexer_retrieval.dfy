// Retrieval of similar code: the query is searched in each requested
// vector field, the hits of all fields are merged, sorted by score (highest
// first, ties in field order) and cut to the global limit. The embedding
// of the query and the vector store are foreign services: the store is a
// function from a field name to its hits, or to `None` when the search for
// that field raises. Scores are floats in the store; here they are
// integers, which keeps their order.

module Retrieval {
  import opened Common
  import opened Sorting

  const FieldNames: seq<string> := ["signature", "identifiers", "code_body", "doc_comment"]

  const ValidFields: set<string> := {"signature", "identifiers", "code_body", "doc_comment"}

  datatype HitPayload = HitPayload(vectorFields: Option<map<string, string>>, meta: Option<map<string, string>>)

  /** One point the store returns for a field. */
  datatype Hit = Hit(id: string, score: int, payload: Option<HitPayload>)

  datatype SearchResult = SearchResult(
    id: string, score: int, vectorFields: map<string, string>, meta: map<string, string>, fieldName: string)

  datatype RetrievalResults = RetrievalResults(
    results: seq<SearchResult>, queryText: string, fieldsSearched: seq<string>, totalResults: nat)

  datatype RetrievalError = InvalidFieldNames(names: set<string>)

  function OrEmpty(m: Option<map<string, string>>): map<string, string> {
    if m.Some? then m.value else map[]
  }

  /** A hit as a result, tagged with the field that found it; a missing
      payload or payload entry reads as empty. */
  function ResultOf(h: Hit, field: string): SearchResult {
    var p := if h.payload.Some? then h.payload.value else HitPayload(None, None);
    SearchResult(h.id, h.score, OrEmpty(p.vectorFields), OrEmpty(p.meta), field)
  }

  function Converted(hits: seq<Hit>, field: string): (r: seq<SearchResult>)
    ensures |r| == |hits|
    decreases |hits|
  {
    if hits == [] then []
    else Converted(hits[..|hits| - 1], field) + [ResultOf(hits[|hits| - 1], field)]
  }

  lemma ConvertedPrefixStep(hits: seq<Hit>, field: string, k: nat)
    requires k < |hits|
    ensures Converted(hits[..k + 1], field) == Converted(hits[..k], field) + [ResultOf(hits[k], field)]
  {
    assert hits[..k + 1][..k] == hits[..k];
  }

  /** What searching one field contributes: nothing when the search raised. */
  function Found(search: string -> Option<seq<Hit>>): string -> seq<SearchResult> {
    (field: string) => if search(field).Some? then Converted(search(field).value, field) else []
  }

  /** The results of every field, in field order. */
  function AllFound(fields: seq<string>, search: string -> Option<seq<Hit>>): seq<SearchResult> {
    ConcatMap(fields, Found(search))
  }

  function ScoreKey(r: SearchResult): int { r.score }

  function InvalidNames(fields: seq<string>): set<string> {
    (set i | 0 <= i < |fields| :: fields[i]) - ValidFields
  }

  function FieldsOrDefault(fields: Option<seq<string>>): seq<string> {
    if fields.None? then FieldNames else fields.value
  }

  /** `retrieve_similar_code`. */
  function Retrieved(query: string, search: string -> Option<seq<Hit>>, limit: int, fields: Option<seq<string>>)
    : Result<RetrievalResults, RetrievalError>
  {
    var fs := FieldsOrDefault(fields);
    var invalid := InvalidNames(fs);
    if invalid != {} then Err(InvalidFieldNames(invalid))
    else
      var final := PyPrefix(SortDesc(AllFound(fs, search), ScoreKey), limit);
      Ok(RetrievalResults(final, query, fs, |final|))
  }

  method RetrieveSimilarCode(query: string, search: string -> Option<seq<Hit>>, limit: int,
                             fields: Option<seq<string>>)
    returns (r: Result<RetrievalResults, RetrievalError>)
    ensures r == Retrieved(query, search, limit, fields)
  {
    var fs := if fields.None? then FieldNames else fields.value;
    var invalid := InvalidNames(fs);
    if invalid != {} {
      return Err(InvalidFieldNames(invalid));
    }
    var all: seq<SearchResult> := [];
    for i := 0 to |fs|
      invariant all == AllFound(fs[..i], search)
    {
      ConcatMapStep(fs, Found(search), i);
      var field := fs[i];
      match search(field)
      case None =>
        assert all + [] == all;
      case Some(hits) =>
        all := AppendHits(all, hits, field);
    }
    assert fs[..|fs|] == fs;
    all := SortDesc(all, ScoreKey);
    var final := PyPrefix(all, limit);
    r := Ok(RetrievalResults(final, query, fs, |final|));
  }

  /** The inner loop of the search: each hit of one field appended as a
      result tagged with that field. */
  method AppendHits(all: seq<SearchResult>, hits: seq<Hit>, field: string) returns (r: seq<SearchResult>)
    ensures r == all + Converted(hits, field)
  {
    r := all;
    for k := 0 to |hits|
      invariant r == all + Converted(hits[..k], field)
    {
      ConvertedPrefixStep(hits, field, k);
      r := r + [ResultOf(hits[k], field)];
    }
    assert hits[..|hits|] == hits;
  }

  /** `retrieve_by_field`: the results of searching a single field. */
  function RetrieveByField(query: string, field: string, search: string -> Option<seq<Hit>>, limit: int)
    : Result<seq<SearchResult>, RetrievalError>
  {
    match Retrieved(query, search, limit, Some([field]))
    case Ok(rr) => Ok(rr.results)
    case Err(e) => Err(e)
  }

  // ---------------------------------------------------------------------
  // Properties

  /** Without a field list all four fields are searched; any name outside
      the four is rejected, with exactly the unknown names reported,
      before any search. */
  lemma FieldsValidated(query: string, search: string -> Option<seq<Hit>>, limit: int,
                        fields: Option<seq<string>>, name: string)
    ensures fields.None? ==>
              Retrieved(query, search, limit, fields).Ok? &&
              Retrieved(query, search, limit, fields).value.fieldsSearched == FieldNames
    ensures Retrieved(query, search, limit, fields).Err? <==>
      exists i :: 0 <= i < |FieldsOrDefault(fields)| && FieldsOrDefault(fields)[i] !in ValidFields
    ensures Retrieved(query, search, limit, fields).Err? ==>
      (name in Retrieved(query, search, limit, fields).error.names <==>
        name in FieldsOrDefault(fields) && name !in ValidFields)
  {
    var fs := FieldsOrDefault(fields);
    if fields.None? {
      assert forall i :: 0 <= i < |fs| ==> fs[i] in ValidFields;
      assert InvalidNames(fs) == {};
    }
    if exists i :: 0 <= i < |fs| && fs[i] !in ValidFields {
      var i :| 0 <= i < |fs| && fs[i] !in ValidFields;
      assert fs[i] in InvalidNames(fs);
    }
  }

  /** A result comes from a field that was searched, whose search did not
      raise, and from one of that field's hits, tagged with that field. */
  lemma {:induction false} ResultTagged(fields: seq<string>, search: string -> Option<seq<Hit>>, r: SearchResult)
    requires r in AllFound(fields, search)
    ensures r.fieldName in fields && search(r.fieldName).Some?
    ensures exists h :: h in search(r.fieldName).value && ResultOf(h, r.fieldName) == r
    decreases |fields|
  {
    var init, last := fields[..|fields| - 1], fields[|fields| - 1];
    if r in AllFound(init, search) {
      ResultTagged(init, search, r);
      assert r.fieldName in init;
    } else {
      assert r in Found(search)(last);
      ConvertedFrom(search(last).value, last, r);
    }
  }

  lemma {:induction false} ConvertedFrom(hits: seq<Hit>, field: string, r: SearchResult)
    requires r in Converted(hits, field)
    ensures r.fieldName == field && exists h :: h in hits && ResultOf(h, field) == r
    decreases |hits|
  {
    var init := hits[..|hits| - 1];
    if r in Converted(init, field) {
      ConvertedFrom(init, field, r);
      var h :| h in init && ResultOf(h, field) == r;
      assert h in hits;
    } else {
      assert r == ResultOf(hits[|hits| - 1], field);
    }
  }

  /** When every search raises, nothing is found and the total is 0. */
  lemma {:induction false} AllSearchesFail(fields: seq<string>, search: string -> Option<seq<Hit>>)
    requires forall i :: 0 <= i < |fields| ==> search(fields[i]).None?
    ensures AllFound(fields, search) == []
    decreases |fields|
  {
    if fields != [] {
      var init := fields[..|fields| - 1];
      AllSearchesFail(init, search);
    }
  }

  /** The results are the highest-scoring hits of all fields, highest
      first: as many as the limit allows, each as often as found, and none
      left out scores above one kept; the total counts them. */
  lemma RetrievedResults(query: string, search: string -> Option<seq<Hit>>, limit: int,
                         fields: Option<seq<string>>, i: nat, j: nat)
    requires Retrieved(query, search, limit, fields).Ok?
    ensures var rr := Retrieved(query, search, limit, fields).value;
      var all := AllFound(FieldsOrDefault(fields), search);
      SortedDesc(rr.results, ScoreKey) &&
      rr.totalResults == |rr.results| && rr.queryText == query &&
      rr.fieldsSearched == FieldsOrDefault(fields) &&
      (limit >= 0 ==> |rr.results| == Min(limit, |all|)) &&
      multiset(rr.results) <= multiset(all)
    ensures var rr := Retrieved(query, search, limit, fields).value;
      var sorted := SortDesc(AllFound(FieldsOrDefault(fields), search), ScoreKey);
      i < |rr.results| <= j < |sorted| ==> rr.results[i].score >= sorted[j].score
    ensures (forall k :: 0 <= k < |FieldsOrDefault(fields)| ==> search(FieldsOrDefault(fields)[k]).None?) ==>
      Retrieved(query, search, limit, fields).value.results == [] &&
      Retrieved(query, search, limit, fields).value.totalResults == 0
  {
    var fs := FieldsOrDefault(fields);
    var all := AllFound(fs, search);
    var sorted := SortDesc(all, ScoreKey);
    var final := PyPrefix(sorted, limit);
    SortDescSorted(all, ScoreKey);
    SortDescPermutation(all, ScoreKey);
    SortedPrefix(sorted, |final|, ScoreKey);
    if i < |final| <= j < |sorted| {
      assert ScoreKey(sorted[i]) >= ScoreKey(sorted[j]);
    }
    if forall k :: 0 <= k < |fs| ==> search(fs[k]).None? {
      AllSearchesFail(fs, search);
    }
  }

  /** The sort is stable: among results of equal score, the order is the
      order in which the fields were searched and their hits returned. */
  lemma TiesKeepFieldOrder(fields: seq<string>, search: string -> Option<seq<Hit>>, score: int)
    ensures Filter(SortDesc(AllFound(fields, search), ScoreKey), HasKey(ScoreKey, score))
         == Filter(AllFound(fields, search), HasKey(ScoreKey, score))
  {
    SortDescStable(AllFound(fields, search), ScoreKey, score);
  }

  /** Searching one field gives only results tagged with it, and is refused
      exactly when the field is not one of the four. */
  lemma ByFieldOnly(query: string, field: string, search: string -> Option<seq<Hit>>, limit: int)
    ensures RetrieveByField(query, field, search, limit).Err? <==> field !in ValidFields
    ensures RetrieveByField(query, field, search, limit).Ok? ==>
      forall r :: r in RetrieveByField(query, field, search, limit).value ==> r.fieldName == field
  {
    var fs := [field];
    assert InvalidNames(fs) == {field} - ValidFields by {
      assert (set i | 0 <= i < |fs| :: fs[i]) == {field};
    }
    if field in ValidFields {
      var all := AllFound(fs, search);
      var sorted := SortDesc(all, ScoreKey);
      var final := PyPrefix(sorted, limit);
      SortDescPermutation(all, ScoreKey);
      forall r | r in final ensures r.fieldName == field {
        assert r in multiset(sorted);
        assert r in all;
        ResultTagged(fs, search, r);
      }
    }
  }
}
