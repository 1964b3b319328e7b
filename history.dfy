/**
 * The in-memory history routes: the module-level dictionary `HISTORY_DB`
 * from analysis id to record, with `save_analysis`, `list_history` and
 * `get_history_detail`. A Python dictionary lists its values in the order
 * their keys were first inserted; `order` keeps that order.
 */
module History {
  import opened Results
  import opened JsonValue
  import opened Http

  /**
   * `{"id": analysis_id, "created_at": created_at, **payload}`: the payload
   * with the generated id and timestamp added, a payload key winning over a
   * generated one.
   */
  function NewRecord(payload: map<string, Json>, id: string, createdAt: string): (record: map<string, Json>)
    ensures record.Keys == payload.Keys + {"id", "created_at"}
    ensures forall k :: k in payload ==> record[k] == payload[k]
    ensures "id" !in payload ==> record["id"] == JStr(id)
    ensures "created_at" !in payload ==> record["created_at"] == JStr(createdAt)
  {
    map["id" := JStr(id), "created_at" := JStr(createdAt)] + payload
  }

  /** The records of `db` in the order `order` lists their keys. */
  function Listing(db: map<string, map<string, Json>>, order: seq<string>): (records: seq<map<string, Json>>)
    requires forall i :: 0 <= i < |order| ==> order[i] in db
    ensures |records| == |order|
    ensures forall i :: 0 <= i < |order| ==> records[i] == db[order[i]]
  {
    if order == [] then []
    else Listing(db, order[..|order| - 1]) + [db[order[|order| - 1]]]
  }

  /** Storing a record under a new key lists it last, after all earlier records unchanged. */
  lemma ListingAfterInsert(db: map<string, map<string, Json>>, order: seq<string>, id: string, record: map<string, Json>)
    requires forall i :: 0 <= i < |order| ==> order[i] in db
    requires id !in order
    ensures Listing(db[id := record], order + [id]) == Listing(db, order) + [record]
  {
    var db2 := db[id := record];
    var order2 := order + [id];
    assert order2[..|order|] == order;
    assert forall i :: 0 <= i < |order| ==> order[i] != id && db2[order[i]] == db[order[i]];
  }

  /** Storing a record under a key already present keeps its place in the listing. */
  lemma ListingAfterOverwrite(db: map<string, map<string, Json>>, order: seq<string>, id: string, record: map<string, Json>, i: nat)
    requires forall j :: 0 <= j < |order| ==> order[j] in db
    requires i < |order| && order[i] == id
    requires forall j :: 0 <= j < |order| && j != i ==> order[j] != id
    ensures Listing(db[id := record], order) == Listing(db, order)[i := record]
  {
  }

  /** Distinct keys: a sequence without repetitions has as many elements as its set. */
  lemma {:induction false} DistinctCard(s: seq<string>)
    requires forall i, j :: 0 <= i < j < |s| ==> s[i] != s[j]
    ensures |set k | k in s| == |s|
  {
    if s != [] {
      var init := s[..|s| - 1];
      DistinctCard(init);
      var last := s[|s| - 1];
      assert (set k | k in s) == (set k | k in init) + {last};
      assert last !in init;
    }
  }

  class MemoryHistory {
    var db: map<string, map<string, Json>>
    var order: seq<string>

    /** `order` lists every key of `db` once. */
    predicate Valid()
      reads this
    {
      && (forall i, j :: 0 <= i < j < |order| ==> order[i] != order[j])
      && (forall k :: k in db ==> k in order)
      && (forall i :: 0 <= i < |order| ==> order[i] in db)
    }

    /** `HISTORY_DB = {}`. */
    constructor()
      ensures Valid() && db == map[] && order == []
    {
      db := map[];
      order := [];
    }

    /**
     * `save_analysis`: build the record, store it under the generated id and
     * return it. A fresh id adds one key and leaves every other entry as it was.
     */
    method SaveAnalysis(payload: map<string, Json>, analysisId: string, createdAt: string)
      returns (record: map<string, Json>)
      requires Valid()
      modifies this
      ensures Valid()
      ensures record == NewRecord(payload, analysisId, createdAt)
      ensures db == old(db)[analysisId := record]
      ensures order == if analysisId in old(db) then old(order) else old(order) + [analysisId]
      ensures analysisId !in old(db) ==> ListHistory() == old(ListHistory()) + [record]
    {
      record := NewRecord(payload, analysisId, createdAt);
      if analysisId !in db {
        ListingAfterInsert(db, order, analysisId, record);
        order := order + [analysisId];
      }
      db := db[analysisId := record];
    }

    /** `list_history`: the stored records, oldest first, one per key. */
    function ListHistory(): (records: seq<map<string, Json>>)
      requires Valid()
      reads this
      ensures |records| == |db| == |order|
      ensures forall i :: 0 <= i < |order| ==> records[i] == db[order[i]]
      ensures forall k :: k in db ==> exists i :: 0 <= i < |records| && records[i] == db[k]
      ensures forall i :: 0 <= i < |records| ==> exists k :: k in db && records[i] == db[k]
    {
      DistinctCard(order);
      assert db.Keys == set k | k in order;
      assert forall k :: k in db ==> exists i :: 0 <= i < |order| && order[i] == k;
      Listing(db, order)
    }

    /** `get_history_detail`: the record stored under the id, or 404. */
    function GetHistoryDetail(analysisId: string): (r: Result<map<string, Json>, HttpError>)
      reads this
      ensures r.Ok? <==> analysisId in db
      ensures r.Ok? ==> r.value == db[analysisId]
      ensures r.Err? ==> r.error == NOT_FOUND
    {
      if analysisId !in db then Err(NOT_FOUND) else Ok(db[analysisId])
    }
  }
}
