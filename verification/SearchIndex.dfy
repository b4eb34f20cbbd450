/**
 One Tantivy index: its writer buffer, its segments on disk and its reader, with
 delete-then-add upserts, commits and limited searches.
 */
module SearchIndex {
  import opened Prelude

  datatype Doc = Doc(recordId: string, message: string)

  /** What an index holds, by record id. */
  type Contents = map<string, string>

  ghost predicate Unique(docs: seq<Doc>) {
    forall i, j :: 0 <= i < j < |docs| ==> docs[i].recordId != docs[j].recordId
  }

  ghost function ContentsOf(docs: seq<Doc>): Contents
    requires Unique(docs)
  {
    map d | d in docs :: d.recordId := d.message
  }

  /** The effect of deleting the term `recordId = id`. */
  function Without(docs: seq<Doc>, id: string): seq<Doc> {
    if docs == [] then []
    else if docs[0].recordId == id then Without(docs[1..], id)
    else [docs[0]] + Without(docs[1..], id)
  }

  lemma {:induction false} WithoutMembers(docs: seq<Doc>, id: string, d: Doc)
    ensures d in Without(docs, id) <==> d in docs && d.recordId != id
  {
    if docs != [] {
      WithoutMembers(docs[1..], id, d);
      assert docs == [docs[0]] + docs[1..];
    }
  }

  lemma {:induction false} WithoutKeepsUnique(docs: seq<Doc>, id: string)
    requires Unique(docs)
    ensures Unique(Without(docs, id))
  {
    if docs != [] {
      var rest := docs[1..];
      WithoutKeepsUnique(rest, id);
      forall d | d in Without(rest, id) ensures d.recordId != docs[0].recordId {
        WithoutMembers(rest, id, d);
      }
    }
  }

  /** A list of documents holds `contents` if they have the same (id, message) pairs. */
  lemma SameContents(docs: seq<Doc>, contents: Contents)
    requires Unique(docs)
    requires forall d :: d in docs <==> d.recordId in contents && contents[d.recordId] == d.message
    ensures ContentsOf(docs) == contents
  {
    forall id | id in contents ensures id in ContentsOf(docs) {
      assert Doc(id, contents[id]) in docs;
    }
  }

  lemma ContentsLookup(docs: seq<Doc>, d: Doc)
    requires Unique(docs)
    ensures d in docs <==> d.recordId in ContentsOf(docs) && ContentsOf(docs)[d.recordId] == d.message
  {
    if d.recordId in ContentsOf(docs) {
      var e :| e in docs && e.recordId == d.recordId;
    }
  }

  lemma DeletedContents(docs: seq<Doc>, id: string)
    requires Unique(docs)
    ensures Unique(Without(docs, id)) && ContentsOf(Without(docs, id)) == ContentsOf(docs) - {id}
  {
    WithoutKeepsUnique(docs, id);
    forall d ensures d in Without(docs, id) <==> d in docs && d.recordId != id {
      WithoutMembers(docs, id, d);
    }
    forall d: Doc {
      ContentsLookup(docs, d);
    }
    SameContents(Without(docs, id), ContentsOf(docs) - {id});
  }

  lemma AddedContents(docs: seq<Doc>, doc: Doc)
    requires Unique(docs) && doc.recordId !in ContentsOf(docs)
    ensures Unique(docs + [doc]) && ContentsOf(docs + [doc]) == ContentsOf(docs)[doc.recordId := doc.message]
  {
    forall i | 0 <= i < |docs| ensures docs[i].recordId != doc.recordId {
      ContentsLookup(docs, docs[i]);
    }
    forall d: Doc {
      ContentsLookup(docs, d);
    }
    SameContents(docs + [doc], ContentsOf(docs)[doc.recordId := doc.message]);
  }

  /** Delete-then-add overwrites the record's document and leaves every other one alone. */
  lemma UpsertedContents(docs: seq<Doc>, doc: Doc)
    requires Unique(docs)
    ensures var rest := Without(docs, doc.recordId);
            && Unique(rest) && ContentsOf(rest) == ContentsOf(docs) - {doc.recordId}
            && Unique(rest + [doc]) && ContentsOf(rest + [doc]) == ContentsOf(docs)[doc.recordId := doc.message]
  {
    DeletedContents(docs, doc.recordId);
    AddedContents(Without(docs, doc.recordId), doc);
    RestoredKey(ContentsOf(docs), doc.recordId, doc.message);
  }

  lemma RestoredKey(m: Contents, id: string, message: string)
    ensures (m - {id})[id := message] == m[id := message]
  {
  }

  /** What Tantivy's limited collector promises: distinct matches, and all of them when they fit. */
  ghost predicate TopDocs(visible: seq<Doc>, matches: string -> bool, limit: nat, top: seq<Doc>) {
    && (forall i, j :: 0 <= i < j < |top| ==> top[i] != top[j])
    && (forall d :: d in top ==> d in visible && matches(d.message))
    && |top| <= limit
    && (|top| < limit ==> forall d :: d in visible && matches(d.message) ==> d in top)
  }

  ghost function Matching(contents: Contents, matches: string -> bool): set<string> {
    set id | id in contents && matches(contents[id])
  }

  /** What a search promises its caller about the record ids it returns. */
  ghost predicate TopHits(matching: set<string>, limit: nat, ids: seq<string>) {
    && (forall i, j :: 0 <= i < j < |ids| ==> ids[i] != ids[j])
    && (forall i :: 0 <= i < |ids| ==> ids[i] in matching)
    && |ids| <= limit
    && (|ids| < limit ==> forall id :: id in matching ==> id in ids)
  }

  lemma {:induction false} DistinctWithin(ids: seq<string>, bound: set<string>)
    requires forall i, j :: 0 <= i < j < |ids| ==> ids[i] != ids[j]
    requires forall i :: 0 <= i < |ids| ==> ids[i] in bound
    ensures |ids| <= |bound|
    ensures |ids| == |bound| ==> forall id :: id in bound ==> id in ids
  {
    if ids == [] {
    } else {
      var last := ids[|ids| - 1];
      DistinctWithin(ids[..|ids| - 1], bound - {last});
      assert |bound| == |bound - {last}| + 1;
      if |ids| == |bound| {
        forall id | id in bound ensures id in ids {
          assert id == last || id in bound - {last};
        }
      }
    }
  }

  /** A search is complete exactly when its matches fit the limit. */
  lemma HitsComplete(matching: set<string>, limit: nat, ids: seq<string>)
    requires TopHits(matching, limit, ids)
    ensures (forall id :: id in matching ==> id in ids) <==> |matching| <= limit
  {
    DistinctWithin(ids, matching);
    if forall id :: id in matching ==> id in ids {
      CoveredBy(ids, matching);
    }
  }

  lemma {:induction false} CoveredBy(ids: seq<string>, covered: set<string>)
    requires forall id :: id in covered ==> id in ids
    ensures |covered| <= |ids|
  {
    if ids != [] {
      CoveredBy(ids[1..], covered - {ids[0]});
      assert ids == [ids[0]] + ids[1..];
    } else {
      assert covered == {};
    }
  }

  datatype Snapshot = Snapshot(buffered: seq<Doc>, durable: seq<Doc>, visible: seq<Doc>)

  function AfterCommit(i: Snapshot, outcome: CommitOutcome): Snapshot {
    match outcome
    case Committed => Snapshot(i.buffered, i.buffered, i.buffered)
    case ReloadFailed => Snapshot(i.buffered, i.buffered, i.visible)
    case CommitFailed => i
  }

  datatype CommitOutcome = Committed | ReloadFailed | CommitFailed

  class SearchIndex {
    const tenantId: string  // names its directory; "" for the default index
    var buffered: seq<Doc>  // what the writer would commit
    var durable: seq<Doc>   // the segments on disk
    var visible: seq<Doc>   // what the reader searches

    ghost predicate Valid()
      reads this
    {
      Unique(buffered) && Unique(durable) && Unique(visible)
    }

    ghost function Now(): Snapshot
      reads this
    {
      Snapshot(buffered, durable, visible)
    }

    constructor (tenantId: string, onDisk: seq<Doc>)
      requires Unique(onDisk)
      ensures Valid() && this.tenantId == tenantId && buffered == durable == visible == onDisk
    {
      this.tenantId := tenantId;
      buffered, durable, visible := onDisk, onDisk, onDisk;
    }

    /** A failed add still leaves the delete in the buffer. */
    method Upsert(recordId: string, message: string, addOk: bool) returns (ok: bool)
      requires Valid()
      modifies `buffered
      ensures Valid() && ok == addOk
      ensures ContentsOf(buffered) == if ok then old(ContentsOf(buffered))[recordId := message]
                                      else old(ContentsOf(buffered)) - {recordId}
    {
      UpsertedContents(buffered, Doc(recordId, message));
      buffered := Without(buffered, recordId);
      if addOk {
        buffered := buffered + [Doc(recordId, message)];
      }
      ok := addOk;
    }

    /** A commit makes the buffer durable, and searchable once the reader has reloaded. */
    method Commit(outcome: CommitOutcome) returns (ok: bool)
      requires Valid()
      modifies `durable, `visible
      ensures Valid() && ok == outcome.Committed?
      ensures Now() == AfterCommit(old(Now()), outcome)
    {
      if outcome.CommitFailed? {
        return false;
      }
      durable := buffered;
      if outcome.ReloadFailed? {
        return false;
      }
      visible := durable;
      return true;
    }

    /** The ids of the best `limit` matches, best first. */
    method Search(matches: string -> bool, limit: nat, top: seq<Doc>) returns (ids: seq<string>)
      requires Valid() && TopDocs(visible, matches, limit, top)
      ensures |ids| == |top| && forall i :: 0 <= i < |ids| ==> ids[i] == top[i].recordId
      ensures TopHits(Matching(ContentsOf(visible), matches), limit, ids)
    {
      ids := [];
      for i := 0 to |top|
        invariant |ids| == i && forall k :: 0 <= k < i ==> ids[k] == top[k].recordId
      {
        ids := ids + [top[i].recordId];
      }
      TopIds(visible, matches, limit, top, ids);
    }
  }

  lemma TopIds(visible: seq<Doc>, matches: string -> bool, limit: nat, top: seq<Doc>, ids: seq<string>)
    requires Unique(visible) && TopDocs(visible, matches, limit, top)
    requires |ids| == |top| && forall i :: 0 <= i < |ids| ==> ids[i] == top[i].recordId
    ensures TopHits(Matching(ContentsOf(visible), matches), limit, ids)
  {
    var matching := Matching(ContentsOf(visible), matches);
    forall i | 0 <= i < |ids| ensures ids[i] in matching {
      assert top[i] in visible && ContentsOf(visible)[top[i].recordId] == top[i].message;
    }
    forall i, j | 0 <= i < j < |ids| ensures ids[i] != ids[j] {
      assert top[i] in top && top[j] in top;
    }
    if |ids| < limit {
      forall id | id in matching ensures id in ids {
        var d := Doc(id, ContentsOf(visible)[id]);
        assert d in visible;
        assert d in top;
        var k :| 0 <= k < |top| && top[k] == d;
        assert ids[k] == id;
      }
    }
  }
}
