/** The video collection of the document store, reduced to what the worker
    touches: each video record's ordered `source` list. */
module Store {

  /** One entry of a record's `source` list. `mediaType` and `labelText`
      hold the document's "type" and "label" keys (both reserved words in
      Dafny). */
  datatype Descriptor = Descriptor(src: string, mediaType: string, labelText: string, res: int)

  /** Records by `video_id`: the `source` list of each existing record. */
  type Records = map<string, seq<Descriptor>>

  /** The collection after `find_one_and_update({'video_id': id},
      {'$push': {'source': d}})`: the matching record's list grows by `d` at
      its end; with no matching record (no upsert) nothing changes. */
  function Pushed(records: Records, videoId: string, d: Descriptor): (r: Records)
    ensures r.Keys == records.Keys
    ensures forall id :: id in records && id != videoId ==> r[id] == records[id]
    ensures videoId in records ==>
              |r[videoId]| == |records[videoId]| + 1
              && r[videoId][..|records[videoId]|] == records[videoId]
              && r[videoId][|records[videoId]|] == d
    ensures videoId !in records ==> r == records
  {
    if videoId in records then records[videoId := records[videoId] + [d]] else records
  }

  /** Pushing is not idempotent: pushing the same descriptor twice leaves two
      copies of it, so the result differs from a single push. */
  lemma PushTwiceKeepsBoth(records: Records, videoId: string, d: Descriptor)
    requires videoId in records
    ensures Pushed(Pushed(records, videoId, d), videoId, d)[videoId] == records[videoId] + [d, d]
    ensures Pushed(Pushed(records, videoId, d), videoId, d) != Pushed(records, videoId, d)
  {
    var once := Pushed(records, videoId, d);
    var twice := Pushed(once, videoId, d);
    assert once[videoId] == records[videoId] + [d];
    assert twice[videoId] == records[videoId] + [d] + [d];
    assert |twice[videoId]| != |once[videoId]|;
  }

  /** The store's video collection: mutated only by pushes onto a record's
      `source` list. */
  class VideoCollection {
    var sources: Records

    constructor (records: Records)
      ensures sources == records
    {
      sources := records;
    }

    /** `find_one_and_update` with a `$push` onto `source`. */
    method FindOneAndPush(videoId: string, d: Descriptor)
      modifies this
      ensures sources == Pushed(old(sources), videoId, d)
    {
      if videoId in sources {
        var list := sources[videoId];
        sources := sources[videoId := list + [d]];
      }
    }
  }
}
