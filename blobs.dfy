/** The blob backend as two mutable maps: one JSON array per (store, key) for the record
    collections, and one binary value with metadata per key for the images store. */
module Blobs {
  import opened Wrappers
  import opened Json

  /** A store name and a key inside that store. */
  datatype BlobKey = BlobKey(store: string, key: string)

  type Collections = map<BlobKey, seq<Record>>

  /** `store.get(key, { type: 'json' }) || []`: an absent key reads as the empty array. */
  function Loaded(m: Collections, k: BlobKey): (r: seq<Record>)
    ensures k in m ==> r == m[k]
    ensures k !in m ==> r == []
  {
    if k in m then m[k] else []
  }

  class CollectionStore {
    var collections: Collections

    constructor (initial: Collections)
      ensures collections == initial
    {
      collections := initial;
    }

    /** `store.get(key, { type: 'json' })`. */
    method Get(k: BlobKey) returns (v: Option<seq<Record>>)
      ensures v.Some? <==> k in collections
      ensures v.Some? ==> v.value == collections[k]
    {
      v := if k in collections then Some(collections[k]) else None;
    }

    /** `store.setJSON(key, value)`: overwrites one key and nothing else. */
    method SetJSON(k: BlobKey, v: seq<Record>)
      modifies this
      ensures collections == old(collections)[k := v]
    {
      collections := collections[k := v];
    }
  }

  /** The metadata stored beside an image. */
  datatype Metadata = Metadata(contentType: string, originalName: string)

  datatype StoredImage = StoredImage(data: seq<bv8>, metadata: Option<Metadata>)

  class ImageStore {
    var entries: map<string, StoredImage>

    constructor (initial: map<string, StoredImage>)
      ensures entries == initial
    {
      entries := initial;
    }

    /** `imageStore.set(key, bytes, { metadata })`: overwrites one key and nothing else. */
    method Set(key: string, image: StoredImage)
      modifies this
      ensures entries == old(entries)[key := image]
    {
      entries := entries[key := image];
    }
  }
}
