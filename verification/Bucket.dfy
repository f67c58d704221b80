/** The private object bucket and the two-object workflow of an attendance photo. */
module Bucket {
  import opened Schema

  /** What the environment does to one photo: whether each storage call goes
      through, and whether the watermark renders. */
  datatype PhotoLuck = PhotoLuck(putOriginal: bool, render: bool, putWatermarked: bool, deleteOriginal: bool, deleteWatermarked: bool)

  class PhotoBucket {
    var objects: set<Key>

    constructor ()
      ensures objects == {}
    {
      objects := {};
    }

    method Put(key: Key, ok: bool) returns (stored: bool)
      modifies this
      ensures stored == ok && objects == if ok then old(objects) + {key} else old(objects)
    {
      if ok { objects := objects + {key}; }
      return ok;
    }

    method Delete(key: Key, ok: bool) returns (deleted: bool)
      modifies this
      ensures deleted == ok && objects == if ok then old(objects) - {key} else old(objects)
    {
      if ok { objects := objects - {key}; }
      return ok;
    }

    /** Both photos, or neither unless the compensating delete fails. */
    method StoreEvidence(original: Key, watermarked: Key, luck: PhotoLuck) returns (stored: bool)
      requires original !in objects && watermarked !in objects
      modifies this
      ensures stored <==> luck.putOriginal && luck.render && luck.putWatermarked
      ensures stored ==> objects == old(objects) + {original, watermarked}
      ensures !stored && (luck.putOriginal ==> luck.deleteOriginal) ==> objects == old(objects)
      ensures old(objects) <= objects <= old(objects) + {original, watermarked}
    {
      var ok := Put(original, luck.putOriginal);
      if !ok { return false; }
      if !luck.render {
        var _ := Delete(original, luck.deleteOriginal);
        return false;
      }
      ok := Put(watermarked, luck.putWatermarked);
      if !ok {
        var _ := Delete(original, luck.deleteOriginal);
        return false;
      }
      return true;
    }

    method Cleanup(original: Key, watermarked: Key, luck: PhotoLuck)
      modifies this
      ensures luck.deleteOriginal && luck.deleteWatermarked ==> objects == old(objects) - {original, watermarked}
      ensures old(objects) - {original, watermarked} <= objects <= old(objects)
    {
      var _ := Delete(original, luck.deleteOriginal);
      var _ := Delete(watermarked, luck.deleteWatermarked);
    }
  }
}
